/** The verifiable random function's stored nonce and counter (packages/common/src/vrf.rs). The hash
    over seed, salt and counter is an uninterpreted function. */
module Vrf {
  import opened Common

  type Hash = (uint32, uint32) -> uint32

  datatype VrfError = Overflow | Replay

  datatype VrfState = VrfState(lastNonce: Option<uint32>, counter: uint32)

  datatype Evaluation = Evaluation(state: VrfState, output: uint32)

  function EvaluateVrf(hash: Hash, v: VrfState, seed: uint32): Result<Evaluation, VrfError> {
    if v.lastNonce.Some? && seed <= v.lastNonce.value then Err(Replay) else
    if v.counter + 1 > U32_MAX then Err(Overflow) else
    Ok(Evaluation(VrfState(Some(seed), v.counter + 1), hash(seed, v.counter)))
  }

  datatype Draw = Draw(state: VrfState, positions: seq<uint32>)

  /** The shuffle loop from index `i` on, with the positions drawn so far. */
  function ShuffleFrom(hash: Hash, drawn: Draw, n: uint32, base: uint32, i: nat): Result<Draw, VrfError>
    decreases n - i
  {
    if i >= n then Ok(drawn) else
    if base + i > U32_MAX then Err(Overflow) else
    var e :- EvaluateVrf(hash, drawn.state, base + i);
    ShuffleFrom(hash, Draw(e.state, drawn.positions + [e.output % n]), n, base, i + 1)
  }

  function ShufflePositions(hash: Hash, v: VrfState, n: uint32, base: uint32): Result<Draw, VrfError> {
    ShuffleFrom(hash, Draw(v, []), n, base, 0)
  }

  /** A shuffle of `n > 0` positions succeeds exactly when its whole seed range is fresh, fits a u32 and
      the counter has room; it then draws `n` positions below `n`, and moves nonce and counter past them. */
  lemma {:induction false} ShuffleFromResult(hash: Hash, drawn: Draw, n: uint32, base: uint32, i: nat)
    requires i < n && |drawn.positions| == i && forall p :: p in drawn.positions ==> p < n
    ensures ShuffleFrom(hash, drawn, n, base, i).Ok?
            <==> (drawn.state.lastNonce.Some? ==> drawn.state.lastNonce.value < base + i)
                 && base + n - 1 <= U32_MAX && drawn.state.counter + (n - i) <= U32_MAX
    ensures ShuffleFrom(hash, drawn, n, base, i).Ok? ==>
              var out := ShuffleFrom(hash, drawn, n, base, i).value;
              && |out.positions| == n && (forall p :: p in out.positions ==> p < n)
              && out.state.lastNonce == Some(base + n - 1)
              && out.state.counter == drawn.state.counter + (n - i)
    decreases n - i
  {
    if base + i <= U32_MAX {
      var e := EvaluateVrf(hash, drawn.state, base + i);
      if e.Ok? {
        var next := Draw(e.value.state, drawn.positions + [e.value.output % n]);
        if i + 1 < n {
          ShuffleFromResult(hash, next, n, base, i + 1);
        } else {
          assert ShuffleFrom(hash, next, n, base, i + 1) == Ok(next);
        }
      }
    }
  }

  lemma ShuffleResult(hash: Hash, v: VrfState, n: uint32, base: uint32)
    requires n > 0
    ensures ShufflePositions(hash, v, n, base).Ok?
            <==> (v.lastNonce.Some? ==> v.lastNonce.value < base) && base + n - 1 <= U32_MAX && v.counter + n <= U32_MAX
    ensures ShufflePositions(hash, v, n, base).Ok? ==>
              var out := ShufflePositions(hash, v, n, base).value;
              && |out.positions| == n && (forall p :: p in out.positions ==> p < n)
              && out.state == VrfState(Some(base + n - 1), v.counter + n)
  {
    ShuffleFromResult(hash, Draw(v, []), n, base, 0);
  }

  /** The stored entries, updated in place. */
  class VrfStore {
    const hash: Hash
    var lastNonce: Option<uint32>
    var counter: uint32

    function View(): VrfState
      reads this
    {
      VrfState(lastNonce, counter)
    }

    constructor (hash: Hash)
      ensures View() == VrfState(None, 0) && this.hash == hash
    {
      this.hash, lastNonce, counter := hash, None, 0;
    }

    method Evaluate(seed: uint32) returns (r: Result<uint32, VrfError>)
      modifies this
      ensures match EvaluateVrf(hash, old(View()), seed)
              case Ok(e) => r == Ok(e.output) && View() == e.state
              case Err(e) => r == Err(e) && View() == old(View()).(lastNonce := lastNonce)
    {
      if lastNonce.Some? && seed <= lastNonce.value {
        return Err(Replay);
      }
      lastNonce := Some(seed);
      var output := hash(seed, counter);
      if counter + 1 > U32_MAX {
        return Err(Overflow);
      }
      counter := counter + 1;
      return Ok(output);
    }

    /** On an error the entries written so far stay; the caller's rollback removes them. */
    method Shuffle(n: uint32, base: uint32) returns (r: Result<seq<uint32>, VrfError>)
      modifies this
      ensures match ShufflePositions(hash, old(View()), n, base)
              case Ok(out) => r == Ok(out.positions) && View() == out.state
              case Err(e) => r == Err(e)
    {
      var positions: seq<uint32> := [];
      var i := 0;
      while i < n
        invariant i <= n
        invariant ShufflePositions(hash, old(View()), n, base) == ShuffleFrom(hash, Draw(View(), positions), n, base, i)
      {
        if base + i > U32_MAX {
          return Err(Overflow);
        }
        var output :- Evaluate(base + i);
        positions := positions + [output % n];
        i := i + 1;
      }
      return Ok(positions);
    }
  }
}
