/** The two-legged escrow swap (packages/escrow-swap/src/contract.rs): each entry point as a
    storage transition, and the contract that performs it in place. */
module EscrowSwap {
  import opened Common
  import opened Tokens

  datatype SwapStatus = Pending | Active | Completed | Cancelled

  datatype Swap = Swap(
    id: uint64,
    initiator: Address,
    responder: Address,
    tokenA: Address,
    tokenB: Address,
    initiatorAmount: int128,
    responderAmount: int128,
    hashLock: nat,
    timeLock: uint64,
    status: SwapStatus,
    createdAt: uint64)

  datatype EscrowError =
    | Unauthorized
    | InvalidAmount
    | SwapNotFound
    | SwapNotActive
    | AlreadyAccepted
    | HashLockMismatch
    | TimeLockExpired
    | InsufficientBalance
    | InvalidSwap

  /** One token transfer made on behalf of a swap. */
  datatype Move = Move(swap: uint64, token: Address, from: Address, to: Address, amount: int128)

  /** Storage, the token balances around it, the ledger clock and the history of transfers. */
  datatype State = State(
    self: Address,
    swaps: seq<Swap>,
    nextSwapId: uint64,
    ledger: Ledger,
    moves: seq<Move>,
    now: uint64)

  function Init(self: Address, ledger: Ledger, now: uint64): State {
    State(self, [], 0, ledger, [], now)
  }

  /** The first position at or after `i` whose swap carries `id`. */
  function IndexOfId(swaps: seq<Swap>, id: uint64, i: nat): (r: Option<nat>)
    requires i <= |swaps|
    ensures r.Some? ==> i <= r.value < |swaps| && swaps[r.value].id == id
    decreases |swaps| - i
  {
    if i == |swaps| then None
    else if swaps[i].id == id then Some(i)
    else IndexOfId(swaps, id, i + 1)
  }

  function MapTransferError(e: TransferError): EscrowError {
    match e
    case LowBalance => InsufficientBalance
    case TransferFailed => InvalidAmount
  }

  /** A transfer through the shared helper, with the helper's error renamed. */
  function Pay(s: State, swap: uint64, token: Address, from: Address, to: Address, amount: int128): (r: Result<State, EscrowError>)
    ensures r.Ok? ==> r.value == s.(ledger := r.value.ledger, moves := s.moves + [Move(swap, token, from, to, amount)])
  {
    match SafeTransfer(s.ledger, token, from, to, amount)
    case Ok(l) => Ok(s.(ledger := l, moves := s.moves + [Move(swap, token, from, to, amount)]))
    case Err(e) => Err(MapTransferError(e))
  }

  function CreateSwap(s: State, initiator: Address, responder: Address, tokenA: Address, tokenB: Address,
                      initiatorAmount: int128, responderAmount: int128, hashLock: nat, timeLock: uint64): Result<State, EscrowError>
  {
    if initiator == s.self then Err(Unauthorized) else
    if initiator == responder then Err(InvalidSwap) else
    if initiatorAmount <= 0 || responderAmount <= 0 then Err(InvalidAmount) else
    if timeLock <= s.now then Err(TimeLockExpired) else
    if s.nextSwapId >= U64_MAX then Err(InvalidAmount) else
    var swap := Swap(s.nextSwapId, initiator, responder, tokenA, tokenB, initiatorAmount, responderAmount,
                     hashLock, timeLock, Pending, s.now);
    Pay(s.(swaps := s.swaps + [swap], nextSwapId := s.nextSwapId + 1),
        s.nextSwapId, tokenA, initiator, s.self, initiatorAmount)
  }

  function AcceptSwap(sha: nat -> nat, s: State, id: uint64, responder: Address, secret: nat): Result<State, EscrowError> {
    if responder == s.self then Err(Unauthorized) else
    if IndexOfId(s.swaps, id, 0).None? then Err(SwapNotFound) else
    var i := IndexOfId(s.swaps, id, 0).value;
    var w := s.swaps[i];
    if w.status == Active then Err(AlreadyAccepted) else
    if w.status != Pending then Err(SwapNotActive) else
    if w.responder != responder then Err(Unauthorized) else
    if sha(secret) != w.hashLock then Err(HashLockMismatch) else
    if s.now >= w.timeLock then Err(TimeLockExpired) else
    Pay(s.(swaps := s.swaps[i := w.(status := Active)]), id, w.tokenB, responder, s.self, w.responderAmount)
  }

  function CompleteSwap(s: State, id: uint64, caller: Address): Result<State, EscrowError> {
    if caller == s.self then Err(Unauthorized) else
    if IndexOfId(s.swaps, id, 0).None? then Err(SwapNotFound) else
    var i := IndexOfId(s.swaps, id, 0).value;
    var w := s.swaps[i];
    if w.status != Active then Err(SwapNotActive) else
    if caller != w.initiator && caller != w.responder then Err(Unauthorized) else
    var s1 := s.(swaps := s.swaps[i := w.(status := Completed)]);
    var s2 :- Pay(s1, id, w.tokenA, s.self, w.responder, w.initiatorAmount);
    Pay(s2, id, w.tokenB, s.self, w.initiator, w.responderAmount)
  }

  function CancelSwap(s: State, id: uint64, caller: Address): Result<State, EscrowError> {
    if caller == s.self then Err(Unauthorized) else
    if IndexOfId(s.swaps, id, 0).None? then Err(SwapNotFound) else
    var i := IndexOfId(s.swaps, id, 0).value;
    var w := s.swaps[i];
    if w.status == Completed || w.status == Cancelled then Err(SwapNotActive) else
    if caller != w.initiator && caller != w.responder then Err(Unauthorized) else
    var s1 := s.(swaps := s.swaps[i := w.(status := Cancelled)]);
    var s2 :- Pay(s1, id, w.tokenA, s.self, w.initiator, w.initiatorAmount);
    if w.status == Active then Pay(s2, id, w.tokenB, s.self, w.responder, w.responderAmount) else Ok(s2)
  }

  /** Everything that can happen between two observations: the four entry points, the clock,
      and token movements by other accounts. */
  datatype Call =
    | Create(initiator: Address, responder: Address, tokenA: Address, tokenB: Address,
             initiatorAmount: int128, responderAmount: int128, hashLock: nat, timeLock: uint64)
    | Accept(id: uint64, responder: Address, secret: nat)
    | Complete(id: uint64, caller: Address)
    | Cancel(id: uint64, caller: Address)
    | Tick(seconds: nat)
    | Elsewhere(token: Address, from: Address, to: Address, amount: nat)
    | Mint(token: Address, to: Address, amount: nat)

  function Step(sha: nat -> nat, s: State, c: Call): State {
    match c
    case Create(i, r, ta, tb, ia, ra, h, t) => Settled(s, CreateSwap(s, i, r, ta, tb, ia, ra, h, t))
    case Accept(id, r, secret) => Settled(s, AcceptSwap(sha, s, id, r, secret))
    case Complete(id, caller) => Settled(s, CompleteSwap(s, id, caller))
    case Cancel(id, caller) => Settled(s, CancelSwap(s, id, caller))
    case Tick(d) => if s.now + d <= U64_MAX then s.(now := s.now + d) else s
    case Elsewhere(token, from, to, amount) =>
      if from != s.self && amount <= Balance(s.ledger, token, from)
      then s.(ledger := Moved(s.ledger, token, from, to, amount)) else s
    case Mint(token, to, amount) => s.(ledger := Credit(s.ledger, token, to, amount))
  }

  function Run(sha: nat -> nat, s: State, calls: seq<Call>): State {
    if calls == [] then s
    else Step(sha, Run(sha, s, calls[..|calls| - 1]), calls[|calls| - 1])
  }

  /** The deployed contract: the storage entries it updates in place. */
  class EscrowContract {
    const self: Address
    const sha: nat -> nat
    var swaps: seq<Swap>
    var nextSwapId: uint64
    var ledger: Ledger
    var now: uint64
    ghost var moves: seq<Move>

    ghost function View(): State
      reads this
    {
      State(self, swaps, nextSwapId, ledger, moves, now)
    }

    constructor (self: Address, sha: nat -> nat, ledger: Ledger, now: uint64)
      ensures View() == Init(self, ledger, now) && this.sha == sha
    {
      this.self, this.sha, this.ledger, this.now := self, sha, ledger, now;
      swaps, nextSwapId, moves := [], 0, [];
    }

    /** The search loop every entry point on an existing swap starts with. */
    method Find(id: uint64) returns (r: Option<nat>)
      ensures r == IndexOfId(swaps, id, 0)
    {
      var i := 0;
      while i < |swaps| && swaps[i].id != id
        invariant i <= |swaps|
        invariant IndexOfId(swaps, id, 0) == IndexOfId(swaps, id, i)
      {
        i := i + 1;
      }
      return if i < |swaps| then Some(i) else None;
    }

    method Transfer(swap: uint64, token: Address, from: Address, to: Address, amount: int128) returns (r: Result<(), EscrowError>)
      modifies this`ledger, this`moves
      ensures Committed(old(View()), Pay(old(View()), swap, token, from, to, amount), View(), r)
    {
      match SafeTransfer(ledger, token, from, to, amount) {
        case Ok(l) =>
          ledger := l;
          moves := moves + [Move(swap, token, from, to, amount)];
          return Ok(());
        case Err(e) =>
          return Err(MapTransferError(e));
      }
    }

    method Create(initiator: Address, responder: Address, tokenA: Address, tokenB: Address,
                  initiatorAmount: int128, responderAmount: int128, hashLock: nat, timeLock: uint64)
      returns (r: Result<(), EscrowError>)
      modifies this
      ensures Committed(old(View()),
                        CreateSwap(old(View()), initiator, responder, tokenA, tokenB, initiatorAmount, responderAmount, hashLock, timeLock),
                        View(), r)
    {
      if initiator == self {
        return Err(Unauthorized);
      }
      :- Need(initiator != responder, InvalidSwap);
      :- Need(initiatorAmount > 0 && responderAmount > 0, InvalidAmount);
      :- Need(timeLock > now, TimeLockExpired);
      :- Need(nextSwapId < U64_MAX, InvalidAmount);
      var storedSwaps, id := swaps, nextSwapId;
      swaps := swaps + [Swap(id, initiator, responder, tokenA, tokenB, initiatorAmount, responderAmount,
                             hashLock, timeLock, Pending, now)];
      nextSwapId := id + 1;
      r := Transfer(id, tokenA, initiator, self, initiatorAmount);
      if r.Err? {
        swaps, nextSwapId := storedSwaps, id;
      }
    }

    method Accept(id: uint64, responder: Address, secret: nat) returns (r: Result<(), EscrowError>)
      modifies this
      ensures Committed(old(View()), AcceptSwap(sha, old(View()), id, responder, secret), View(), r)
    {
      if responder == self {
        return Err(Unauthorized);
      }
      var found := Find(id);
      :- Need(found.Some?, SwapNotFound);
      var i, storedSwaps := found.value, swaps;
      var w := swaps[i];
      :- Need(w.status != Active, AlreadyAccepted);
      :- Need(w.status == Pending, SwapNotActive);
      :- Need(w.responder == responder, Unauthorized);
      :- Need(sha(secret) == w.hashLock, HashLockMismatch);
      :- Need(now < w.timeLock, TimeLockExpired);
      swaps := swaps[i := w.(status := Active)];
      r := Transfer(id, w.tokenB, responder, self, w.responderAmount);
      if r.Err? {
        swaps := storedSwaps;
      }
    }

    method Complete(id: uint64, caller: Address) returns (r: Result<(), EscrowError>)
      modifies this
      ensures Committed(old(View()), CompleteSwap(old(View()), id, caller), View(), r)
    {
      if caller == self {
        return Err(Unauthorized);
      }
      var found := Find(id);
      :- Need(found.Some?, SwapNotFound);
      var i, storedSwaps, storedLedger := found.value, swaps, ledger;
      ghost var storedMoves := moves;
      var w := swaps[i];
      :- Need(w.status == Active, SwapNotActive);
      :- Need(caller == w.initiator || caller == w.responder, Unauthorized);
      swaps := swaps[i := w.(status := Completed)];
      r := Transfer(id, w.tokenA, self, w.responder, w.initiatorAmount);
      if r.Ok? {
        r := Transfer(id, w.tokenB, self, w.initiator, w.responderAmount);
      }
      if r.Err? {
        swaps, ledger, moves := storedSwaps, storedLedger, storedMoves;
      }
    }

    method Cancel(id: uint64, caller: Address) returns (r: Result<(), EscrowError>)
      modifies this
      ensures Committed(old(View()), CancelSwap(old(View()), id, caller), View(), r)
    {
      if caller == self {
        return Err(Unauthorized);
      }
      var found := Find(id);
      :- Need(found.Some?, SwapNotFound);
      var i, storedSwaps, storedLedger := found.value, swaps, ledger;
      ghost var storedMoves := moves;
      var w := swaps[i];
      :- Need(w.status != Completed && w.status != Cancelled, SwapNotActive);
      :- Need(caller == w.initiator || caller == w.responder, Unauthorized);
      swaps := swaps[i := w.(status := Cancelled)];
      r := Transfer(id, w.tokenA, self, w.initiator, w.initiatorAmount);
      if r.Ok? && w.status == Active {
        r := Transfer(id, w.tokenB, self, w.responder, w.responderAmount);
      }
      if r.Err? {
        swaps, ledger, moves := storedSwaps, storedLedger, storedMoves;
      }
    }
  }
}
