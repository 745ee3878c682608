/** Solvency and both-or-neither settlement of the escrow swap, over every run. */
module EscrowSwapProofs {
  import opened Common
  import opened Tokens
  import opened EscrowSwap

  // ----- what the contract owes -----

  function OwedBy(w: Swap, token: Address): int {
    (if w.status in {Pending, Active} && w.tokenA == token then w.initiatorAmount else 0)
    + (if w.status == Active && w.tokenB == token then w.responderAmount else 0)
  }

  function Owed(swaps: seq<Swap>, token: Address): int {
    if swaps == [] then 0
    else Owed(swaps[..|swaps| - 1], token) + OwedBy(swaps[|swaps| - 1], token)
  }

  lemma {:induction false} OwedUpdate(swaps: seq<Swap>, i: nat, w: Swap, token: Address)
    requires i < |swaps|
    ensures Owed(swaps[i := w], token) == Owed(swaps, token) - OwedBy(swaps[i], token) + OwedBy(w, token)
  {
    var n := |swaps| - 1;
    if i == n {
      assert swaps[i := w][..n] == swaps[..n];
    } else {
      assert swaps[i := w][..n] == swaps[..n][i := w];
      OwedUpdate(swaps[..n], i, w, token);
    }
  }

  lemma {:induction false} OwedCovers(swaps: seq<Swap>, i: nat, token: Address)
    requires forall w :: w in swaps ==> w.initiatorAmount > 0 && w.responderAmount > 0
    requires i < |swaps|
    ensures Owed(swaps, token) >= OwedBy(swaps[i], token)
    ensures Owed(swaps, token) >= 0
  {
    var n := |swaps| - 1;
    if i < n {
      OwedCovers(swaps[..n], i, token);
    } else if n > 0 {
      OwedCovers(swaps[..n], 0, token);
    }
  }

  // ----- the transfers made for one swap -----

  function MovesOf(moves: seq<Move>, id: uint64): seq<Move> {
    if moves == [] then []
    else MovesOf(moves[..|moves| - 1], id) + (if moves[|moves| - 1].swap == id then [moves[|moves| - 1]] else [])
  }

  /** Transfers made for swap `id` extend that swap's history and no other. */
  lemma {:induction false} AppendOwn(moves: seq<Move>, extra: seq<Move>, id: uint64, other: uint64)
    requires forall m :: m in extra ==> m.swap == id
    ensures MovesOf(moves + extra, other) == if other == id then MovesOf(moves, id) + extra else MovesOf(moves, other)
  {
    if extra == [] {
      assert moves + extra == moves;
    } else {
      var n := |extra| - 1;
      assert (moves + extra)[..|moves + extra| - 1] == moves + extra[..n];
      AppendOwn(moves, extra[..n], id, other);
    }
  }

  function DepositA(w: Swap, self: Address): Move {
    Move(w.id, w.tokenA, w.initiator, self, w.initiatorAmount)
  }

  function DepositB(w: Swap, self: Address): Move {
    Move(w.id, w.tokenB, w.responder, self, w.responderAmount)
  }

  /** A transfer of the whole leg `m` out to `to`. */
  function PaidOut(m: Move, to: Address): Move {
    m.(from := m.to, to := to)
  }

  /** The complete transfer history a swap of this status must have: each leg is deposited once, and
      either both legs changed hands or each deposit went back to the party it came from. */
  ghost predicate Story(w: Swap, own: seq<Move>, self: Address) {
    var a, b := DepositA(w, self), DepositB(w, self);
    match w.status
    case Pending => own == [a]
    case Active => own == [a, b]
    case Completed => own == [a, b, PaidOut(a, w.responder), PaidOut(b, w.initiator)]
    case Cancelled =>
      own == [a, PaidOut(a, w.initiator)] || own == [a, b, PaidOut(a, w.initiator), PaidOut(b, w.responder)]
  }

  // ----- the invariant -----

  ghost predicate WellFormed(s: State) {
    && s.nextSwapId == |s.swaps|
    && (forall i :: 0 <= i < |s.swaps| ==>
          s.swaps[i].id == i && s.swaps[i].initiatorAmount > 0 && s.swaps[i].responderAmount > 0
          && s.swaps[i].initiator != s.swaps[i].responder && s.swaps[i].initiator != s.self
          && (s.swaps[i].status in {Active, Completed} ==> s.swaps[i].responder != s.self))
  }

  ghost predicate Solvent(s: State) {
    forall token :: Balance(s.ledger, token, s.self) >= Owed(s.swaps, token)
  }

  ghost predicate Told(s: State) {
    && (forall id: uint64 :: id < |s.swaps| ==> Story(s.swaps[id], MovesOf(s.moves, id), s.self))
    && (forall id: uint64 :: id >= |s.swaps| ==> MovesOf(s.moves, id) == [])
  }

  ghost predicate Inv(s: State) {
    WellFormed(s) && Solvent(s) && Told(s)
  }

  /** With ids equal to list positions, the entry points' search loop finds swap `id` at `id`. */
  lemma {:induction false} FindsById(swaps: seq<Swap>, id: uint64, i: nat)
    requires forall j :: 0 <= j < |swaps| ==> swaps[j].id == j
    requires i <= |swaps|
    ensures IndexOfId(swaps, id, i) == if i <= id < |swaps| then Some(id) else None
    decreases |swaps| - i
  {
    if i < |swaps| && swaps[i].id != id {
      FindsById(swaps, id, i + 1);
    }
  }

  lemma CreateKeeps(s: State, i: Address, r: Address, ta: Address, tb: Address, ia: int128, ra: int128, h: nat, t: uint64)
    requires Inv(s)
    ensures Inv(Settled(s, CreateSwap(s, i, r, ta, tb, ia, ra, h, t)))
  {
    if CreateSwap(s, i, r, ta, tb, ia, ra, h, t).Ok? {
      CreateKeepsSolvent(s, i, r, ta, tb, ia, ra, h, t);
      CreateKeepsTold(s, i, r, ta, tb, ia, ra, h, t);
      hide Solvent, Told;
    }
  }

  lemma CreateKeepsSolvent(s: State, i: Address, r: Address, ta: Address, tb: Address, ia: int128, ra: int128, h: nat, t: uint64)
    requires WellFormed(s) && Solvent(s) && CreateSwap(s, i, r, ta, tb, ia, ra, h, t).Ok?
    ensures Solvent(CreateSwap(s, i, r, ta, tb, ia, ra, h, t).value)
  {
    var s' := CreateSwap(s, i, r, ta, tb, ia, ra, h, t).value;
    assert s'.swaps[..|s.swaps|] == s.swaps;
    forall token
      ensures Balance(s'.ledger, token, s.self) >= Owed(s'.swaps, token)
    {
      assert Owed(s'.swaps, token) == Owed(s.swaps, token) + OwedBy(s'.swaps[|s.swaps|], token);
    }
  }

  lemma CreateKeepsTold(s: State, i: Address, r: Address, ta: Address, tb: Address, ia: int128, ra: int128, h: nat, t: uint64)
    requires WellFormed(s) && Told(s) && CreateSwap(s, i, r, ta, tb, ia, ra, h, t).Ok?
    ensures Told(CreateSwap(s, i, r, ta, tb, ia, ra, h, t).value)
  {
    var s' := CreateSwap(s, i, r, ta, tb, ia, ra, h, t).value;
    var deposit := DepositA(s'.swaps[|s.swaps|], s.self);
    assert s'.moves == s.moves + [deposit];
    forall id: uint64
      ensures MovesOf(s'.moves, id) == MovesOf(s.moves, id) + (if id == s.nextSwapId then [deposit] else [])
    {
      AppendOwn(s.moves, [deposit], s.nextSwapId, id);
    }
  }

  /** Replacing swap `id` by `w` and appending transfers `extra` for it keeps the invariant when the
      contract's holdings move by what starts or stops being owed and the swap's story stays complete. */
  lemma ReplaceKeeps(s: State, s': State, id: uint64, w: Swap, extra: seq<Move>)
    requires Inv(s) && id < |s.swaps|
    requires w == s.swaps[id].(status := w.status)
    requires w.status in {Active, Completed} ==> w.responder != s.self
    requires s' == s.(swaps := s.swaps[id := w], ledger := s'.ledger, moves := s.moves + extra)
    requires forall m :: m in extra ==> m.swap == id
    requires forall token :: Balance(s'.ledger, token, s.self) - Balance(s.ledger, token, s.self)
                             >= OwedBy(w, token) - OwedBy(s.swaps[id], token)
    requires Story(w, MovesOf(s.moves, id) + extra, s.self)
    ensures Inv(s')
  {
    forall token
      ensures Balance(s'.ledger, token, s.self) >= Owed(s'.swaps, token)
    {
      OwedUpdate(s.swaps, id, w, token);
    }
    forall other: uint64
      ensures MovesOf(s'.moves, other) == if other == id then MovesOf(s.moves, id) + extra else MovesOf(s.moves, other)
    {
      AppendOwn(s.moves, extra, id, other);
    }
  }

  /** The shape of a successful step on swap `id`: it takes the swap out of a live status and appends
      `extra` to its history. */
  ghost predicate Touches(s: State, s': State, id: uint64, status: SwapStatus, extra: seq<Move>) {
    && id < |s.swaps|
    && s.swaps[id].status in {Pending, Active}
    && s' == s.(swaps := s.swaps[id := s.swaps[id].(status := status)], ledger := s'.ledger, moves := s.moves + extra)
    && forall m :: m in extra ==> m.swap == id
  }

  lemma AcceptTouches(sha: nat -> nat, s: State, id: uint64, r: Address, secret: nat)
    requires Inv(s) && AcceptSwap(sha, s, id, r, secret).Ok?
    ensures id < |s.swaps|
    ensures Touches(s, AcceptSwap(sha, s, id, r, secret).value, id, Active, [DepositB(s.swaps[id], s.self)])
    ensures Inv(AcceptSwap(sha, s, id, r, secret).value)
  {
    FindsById(s.swaps, id, 0);
    ReplaceKeeps(s, AcceptSwap(sha, s, id, r, secret).value, id, s.swaps[id].(status := Active), [DepositB(s.swaps[id], s.self)]);
  }

  function ExchangeOf(w: Swap, self: Address): seq<Move> {
    [PaidOut(DepositA(w, self), w.responder), PaidOut(DepositB(w, self), w.initiator)]
  }

  lemma CompleteTouches(s: State, id: uint64, caller: Address)
    requires Inv(s) && CompleteSwap(s, id, caller).Ok?
    ensures id < |s.swaps|
    ensures Touches(s, CompleteSwap(s, id, caller).value, id, Completed, ExchangeOf(s.swaps[id], s.self))
    ensures Inv(CompleteSwap(s, id, caller).value)
  {
    FindsById(s.swaps, id, 0);
    var s', w := CompleteSwap(s, id, caller).value, s.swaps[id];
    assert s'.moves == s.moves + ExchangeOf(w, s.self);
    ReplaceKeeps(s, s', id, w.(status := Completed), ExchangeOf(w, s.self));
  }

  function RefundsOf(w: Swap, self: Address): seq<Move> {
    [PaidOut(DepositA(w, self), w.initiator)]
    + (if w.status == Active then [PaidOut(DepositB(w, self), w.responder)] else [])
  }

  lemma CancelTouches(s: State, id: uint64, caller: Address)
    requires Inv(s) && CancelSwap(s, id, caller).Ok?
    ensures id < |s.swaps|
    ensures Touches(s, CancelSwap(s, id, caller).value, id, Cancelled, RefundsOf(s.swaps[id], s.self))
    ensures Inv(CancelSwap(s, id, caller).value)
  {
    FindsById(s.swaps, id, 0);
    var s', w := CancelSwap(s, id, caller).value, s.swaps[id];
    assert s'.moves == s.moves + RefundsOf(w, s.self);
    ReplaceKeeps(s, s', id, w.(status := Cancelled), RefundsOf(w, s.self));
  }

  lemma StepKeeps(sha: nat -> nat, s: State, c: Call)
    requires Inv(s)
    ensures Inv(Step(sha, s, c)) && Step(sha, s, c).self == s.self
  {
    match c
    case Create(i, r, ta, tb, ia, ra, h, t) => CreateKeeps(s, i, r, ta, tb, ia, ra, h, t);
    case Accept(id, r, secret) => if AcceptSwap(sha, s, id, r, secret).Ok? { AcceptTouches(sha, s, id, r, secret); }
    case Complete(id, caller) => if CompleteSwap(s, id, caller).Ok? { CompleteTouches(s, id, caller); }
    case Cancel(id, caller) => if CancelSwap(s, id, caller).Ok? { CancelTouches(s, id, caller); }
    case Tick(_) =>
    case Elsewhere(_, _, _, _) =>
    case Mint(_, _, _) =>
  }

  /** Main result: after any interleaving of entry points, ticks and foreign token movements, ids are
      list positions, every token balance covers what pending and active swaps are owed, and each
      swap's transfers are exactly those of its status. */
  lemma {:induction false} EveryRunIsSolventAndSettlesOnce(sha: nat -> nat, self: Address, ledger: Ledger, now: uint64, calls: seq<Call>)
    ensures Inv(Run(sha, Init(self, ledger, now), calls))
    ensures Run(sha, Init(self, ledger, now), calls).self == self
  {
    if calls != [] {
      EveryRunIsSolventAndSettlesOnce(sha, self, ledger, now, calls[..|calls| - 1]);
      StepKeeps(sha, Run(sha, Init(self, ledger, now), calls[..|calls| - 1]), calls[|calls| - 1]);
    }
  }

  /** In every reachable state either party can settle an active swap: the transfers are funded, and
      each party's balances change by the two legs, also when both legs use one token. */
  lemma CompletionIsFunded(s: State, id: uint64, caller: Address)
    requires Inv(s) && id < |s.swaps| && caller != s.self
    ensures var w := s.swaps[id];
            CompleteSwap(s, id, caller).Ok? <==> w.status == Active && caller in {w.initiator, w.responder}
    ensures var w, out := s.swaps[id], CompleteSwap(s, id, caller);
            out.Ok? ==> forall t, who :: Balance(out.value.ledger, t, who) == Balance(s.ledger, t, who)
                          + (if t == w.tokenA then Leg(w.initiatorAmount, s.self, w.responder, who) else 0)
                          + (if t == w.tokenB then Leg(w.responderAmount, s.self, w.initiator, who) else 0)
  {
    FindsById(s.swaps, id, 0);
    var w := s.swaps[id];
    forall t { OwedCovers(s.swaps, id, t); }
    assert Balance(s.ledger, w.tokenA, s.self) >= OwedBy(w, w.tokenA);
    assert Balance(s.ledger, w.tokenB, s.self) >= OwedBy(w, w.tokenB);
  }

  /** The effect on `who` of moving `amount` from `from` to `to`. */
  function Leg(amount: int, from: Address, to: Address, who: Address): int {
    (if who == to then amount else 0) - (if who == from then amount else 0)
  }

  /** In every reachable state either party can take a pending or active swap back, and every deposit
      made for it returns to the account that made it. */
  lemma CancellationIsFunded(s: State, id: uint64, caller: Address)
    requires Inv(s) && id < |s.swaps| && caller != s.self
    ensures var w := s.swaps[id];
            CancelSwap(s, id, caller).Ok? <==> w.status in {Pending, Active} && caller in {w.initiator, w.responder}
    ensures var w, out := s.swaps[id], CancelSwap(s, id, caller);
            out.Ok? ==> forall t, who :: Balance(out.value.ledger, t, who) == Balance(s.ledger, t, who)
                          + (if t == w.tokenA then Leg(w.initiatorAmount, s.self, w.initiator, who) else 0)
                          + (if t == w.tokenB && w.status == Active then Leg(w.responderAmount, s.self, w.responder, who) else 0)
  {
    FindsById(s.swaps, id, 0);
    var w := s.swaps[id];
    forall t { OwedCovers(s.swaps, id, t); }
    assert Balance(s.ledger, w.tokenA, s.self) >= OwedBy(w, w.tokenA);
    assert Balance(s.ledger, w.tokenB, s.self) >= OwedBy(w, w.tokenB);
  }

  ghost predicate SameIfSettled(s: State, s': State, id: uint64)
    requires id < |s.swaps|
  {
    && id < |s'.swaps|
    && s'.swaps[id] == s.swaps[id].(status := s'.swaps[id].status)
    && (s.swaps[id].status in {Completed, Cancelled} ==>
          s'.swaps[id] == s.swaps[id] && MovesOf(s'.moves, id) == MovesOf(s.moves, id))
  }

  lemma TouchesOnlyLive(s: State, s': State, touched: uint64, status: SwapStatus, extra: seq<Move>, id: uint64)
    requires id < |s.swaps| && Touches(s, s', touched, status, extra)
    ensures SameIfSettled(s, s', id)
  {
    AppendOwn(s.moves, extra, touched, id);
  }

  /** One step leaves every settled swap, and its transfer history, as they were. */
  lemma StepFreezes(sha: nat -> nat, s: State, c: Call, id: uint64)
    requires Inv(s) && id < |s.swaps|
    ensures SameIfSettled(s, Step(sha, s, c), id)
  {
    match c
    case Create(i, r, ta, tb, ia, ra, h, t) =>
      AppendOwn(s.moves, [Move(s.nextSwapId, ta, i, s.self, ia)], s.nextSwapId, id);
    case Accept(touched, r, secret) =>
      var out := AcceptSwap(sha, s, touched, r, secret);
      if out.Ok? {
        AcceptTouches(sha, s, touched, r, secret);
        TouchesOnlyLive(s, out.value, touched, Active, [DepositB(s.swaps[touched], s.self)], id);
      }
    case Complete(touched, caller) =>
      var out := CompleteSwap(s, touched, caller);
      if out.Ok? {
        CompleteTouches(s, touched, caller);
        TouchesOnlyLive(s, out.value, touched, Completed, ExchangeOf(s.swaps[touched], s.self), id);
      }
    case Cancel(touched, caller) =>
      var out := CancelSwap(s, touched, caller);
      if out.Ok? {
        CancelTouches(s, touched, caller);
        TouchesOnlyLive(s, out.value, touched, Cancelled, RefundsOf(s.swaps[touched], s.self), id);
      }
    case Tick(_) =>
    case Elsewhere(_, _, _, _) =>
    case Mint(_, _, _) =>
  }

  /** A swap is listed forever under the same terms, and a completed or cancelled swap never changes
      again, whatever is called afterwards. */
  lemma {:induction false} SettledSwapsStaySettled(sha: nat -> nat, s: State, calls: seq<Call>, id: uint64)
    requires Inv(s) && id < |s.swaps|
    ensures Inv(Run(sha, s, calls)) && SameIfSettled(s, Run(sha, s, calls), id)
  {
    if calls != [] {
      SettledSwapsStaySettled(sha, s, calls[..|calls| - 1], id);
      var t, c := Run(sha, s, calls[..|calls| - 1]), calls[|calls| - 1];
      StepKeeps(sha, t, c);
      StepFreezes(sha, t, c, id);
    }
  }
}
