/** The reference count of one read handle: the readable map in the top bit of a
    word, the number of guards in the others (src/core/refcount.rs). */
module RefCounts {
  import opened Prelude
  import opened Store
  import opened Bits

  /** What a packed word means. */
  datatype Rc = Rc(index: MapIndex, count: nat)

  /** The effect of adding one to the word; `half` is the weight of the top bit.
      A full count carries into the flag. */
  function Incremented(r: Rc, half: nat): Rc {
    if r.count + 1 < half then r.(count := r.count + 1) else Rc(r.index.Other(), 0)
  }

  /** The effect of subtracting one; an empty count borrows from the flag. */
  function Decremented(r: Rc, half: nat): Rc {
    if r.count > 0 then r.(count := r.count - 1)
    else Rc(r.index.Other(), if half > 0 then half - 1 else 0)
  }

  function Swapped(r: Rc): Rc {
    r.(index := r.index.Other())
  }

  /** The bit below the flag: an increment that finds it set aborts the process. */
  predicate Overflowing(r: Rc, half: nat) {
    2 * r.count >= half
  }

  /** The meaning of a word whose top bit weighs `half`. */
  ghost function Unpack(v: nat, half: nat): Rc
    requires v < 2 * half
  {
    if v < half then Rc(First, v) else Rc(Second, v - half)
  }

  /** How the shift and the two masks of the source read a word. */
  lemma Layout(v: nat, bits: nat)
    requires bits >= 2 && v < Pow2(bits)
    ensures var half := Pow2(bits - 1);
            var r := Unpack(v, half);
            && Shr(v, bits - 1) == r.index.Bit()
            && And(v, half - 1) == r.count
            && (And(v, half / 2) == 0 <==> !Overflowing(r, half))
            && v == Shl(r.index.Bit(), bits - 1) + r.count
  {
    hide Shl, Shr, And;
    var half, q := Pow2(bits - 1), Pow2(bits - 2);
    var r := Unpack(v, half);
    ShlSmall(r.index.Bit(), bits - 1);
    SplitWord(r.index.Bit(), r.count, bits - 1);
    var top := if v < q then 0 else if v < 2 * q then 1 else if v < 3 * q then 2 else 3;
    ShlSmall(top, bits - 2);
    SplitWord(top, v - Shl(top, bits - 2), bits - 2);
  }

  /** The packed counter. Each method is one atomic operation on `value`. */
  class RefCount {
    const bits: nat
    // The weight of the flag, `MAP_INDEX_FLAG`.
    const half: nat
    // The slab key under which the word is registered.
    ghost const key: nat
    var value: nat

    ghost predicate Valid()
      reads this
    {
      bits >= 2 && half == Pow2(bits - 1) && value < 2 * half
    }

    ghost function Meaning(): Rc
      reads this
      requires Valid()
    {
      Unpack(value, half)
    }

    constructor (readIndex: MapIndex, bits: nat, ghost key: nat)
      requires bits >= 2
      ensures Valid() && this.key == key && half == Pow2(bits - 1)
      ensures Meaning() == Rc(readIndex, 0)
    {
      this.bits := bits;
      this.key := key;
      half := Pow2(bits - 1);
      value := Shl(readIndex.Bit(), bits - 1);
      ShlSmall(readIndex.Bit(), bits - 1);
    }

    function ToMapIndex(value: nat): (i: MapIndex)
      requires bits >= 2 && half == Pow2(bits - 1) && value < 2 * half
      ensures i == Unpack(value, half).index
    {
      Layout(value, bits);
      FromUsize(Shr(value, bits - 1))
    }

    /** Takes a guard. `None` is the abort, decided on the value before the addition. */
    method Increment() returns (r: Option<MapIndex>)
      requires Valid()
      modifies this`value
      ensures Valid() && Meaning() == Incremented(old(Meaning()), half)
      ensures r == if Overflowing(old(Meaning()), half) then None else Some(old(Meaning()).index)
    {
      var oldValue := value;
      value := WrappingAdd(oldValue, 1, bits);
      Layout(oldValue, bits);
      if And(oldValue, half / 2) != 0 {
        return None;
      }
      return Some(ToMapIndex(oldValue));
    }

    /** Gives a guard back and tells which map the handle now points to. */
    method Decrement() returns (index: MapIndex)
      requires Valid()
      modifies this`value
      ensures Valid() && Meaning() == Decremented(old(Meaning()), half)
      ensures index == old(Meaning()).index
    {
      var oldValue := value;
      value := WrappingSub(oldValue, 1, bits);
      return ToMapIndex(oldValue);
    }

    /** Toggles the flag by adding the top bit; returns the guards counted then. */
    method SwapMaps() returns (count: nat)
      requires Valid()
      modifies this`value
      ensures Valid() && Meaning() == Swapped(old(Meaning()))
      ensures count == old(Meaning()).count < half
    {
      var oldValue := value;
      value := WrappingAdd(oldValue, half, bits);
      Layout(oldValue, bits);
      return And(oldValue, half - 1);
    }
  }

  datatype Op = Increment | Decrement | SwapMaps

  /** One word with the guards that hold it: `live` guards, `failing` increments
      that have found the overflow bit and have not aborted the process yet, and
      the number of swaps so far. */
  datatype Holders = Holders(r: Rc, live: nat, failing: nat, swaps: nat)

  function Act(s: Holders, op: Op, half: nat): Holders
    requires op.Decrement? ==> s.live > 0
  {
    match op
    case Increment =>
      if Overflowing(s.r, half) then s.(r := Incremented(s.r, half), failing := s.failing + 1)
      else s.(r := Incremented(s.r, half), live := s.live + 1)
    case Decrement => s.(r := Decremented(s.r, half), live := s.live - 1)
    case SwapMaps => s.(r := Swapped(s.r), swaps := s.swaps + 1)
  }

  ghost predicate Playable(s: Holders, ops: seq<Op>, half: nat)
    decreases |ops|
  {
    ops == [] || ((ops[0].Decrement? ==> s.live > 0) && Playable(Act(s, ops[0], half), ops[1..], half))
  }

  ghost function Play(s: Holders, ops: seq<Op>, half: nat): Holders
    requires Playable(s, ops, half)
    decreases |ops|
  {
    if ops == [] then s else Play(Act(s, ops[0], half), ops[1..], half)
  }

  ghost predicate Sound(s: Holders, start: MapIndex, half: nat) {
    && s.r == Rc(if s.swaps % 2 == 0 then start else start.Other(), s.live + s.failing)
    && s.live <= half / 2
  }

  lemma {:induction false} FailingGrows(s: Holders, ops: seq<Op>, half: nat)
    requires Playable(s, ops, half)
    ensures Play(s, ops, half).failing >= s.failing
    decreases |ops|
  {
    if ops != [] {
      FailingGrows(Act(s, ops[0], half), ops[1..], half);
    }
  }

  /** Whatever the interleaving of increments, decrements and swaps, as long as
      fewer than `half / 2` threads sit between a failed increment and its abort,
      swaps alone toggle the flag and the count is the number of guards. */
  lemma {:induction false} FlagIsIsolated(s: Holders, ops: seq<Op>, start: MapIndex, half: nat)
    requires half >= 2 && half % 2 == 0 && Sound(s, start, half)
    requires Playable(s, ops, half) && Play(s, ops, half).failing < half / 2
    ensures Sound(Play(s, ops, half), start, half)
    ensures Play(s, ops, half).r.count < half
    decreases |ops|
  {
    FailingGrows(s, ops, half);
    if ops != [] {
      var t := Act(s, ops[0], half);
      FailingGrows(t, ops[1..], half);
      FlagIsIsolated(t, ops[1..], start, half);
    }
  }

  /** Guards and failed increments fit below the flag, all along a run. */
  ghost predicate AlwaysFits(s: Holders, ops: seq<Op>, half: nat)
    requires Playable(s, ops, half)
    decreases |ops|
  {
    s.live + s.failing < half && (ops == [] || AlwaysFits(Act(s, ops[0], half), ops[1..], half))
  }

  ghost predicate AlwaysSound(s: Holders, ops: seq<Op>, start: MapIndex, half: nat)
    requires Playable(s, ops, half)
    decreases |ops|
  {
    Sound(s, start, half) && (ops == [] || AlwaysSound(Act(s, ops[0], half), ops[1..], start, half))
  }

  /** Exactly then is the flag isolated: all along a run swaps alone toggle it and
      the count is the number of guards and failed increments, if and only if
      these never add up to `half`. */
  lemma {:induction false} FlagIsIsolatedExactly(s: Holders, ops: seq<Op>, start: MapIndex, half: nat)
    requires half >= 2 && half % 2 == 0 && Sound(s, start, half) && s.r.count < half && Playable(s, ops, half)
    ensures AlwaysSound(s, ops, start, half) <==> AlwaysFits(s, ops, half)
    decreases |ops|
  {
    if ops != [] {
      var t := Act(s, ops[0], half);
      if t.live + t.failing < half {
        FlagIsIsolatedExactly(t, ops[1..], start, half);
      } else {
        assert t.r.count == 0;
      }
    }
  }

  /** `k` increments in a row on a fresh word. */
  ghost function Crowd(k: nat, half: nat): Holders
    requires k < half
  {
    var live := if k <= half / 2 then k else half / 2;
    Holders(Rc(First, k), live, k - live, 0)
  }

  lemma {:induction false} CrowdPlays(k: nat, half: nat)
    requires half >= 2 && half % 2 == 0 && k < half
    ensures var ops := seq(half - k, _ => Increment);
            && Playable(Crowd(k, half), ops, half)
            && Play(Crowd(k, half), ops, half) == Holders(Rc(Second, 0), half / 2, half / 2, 0)
    decreases half - k
  {
    var ops := seq(half - k, _ => Increment);
    assert ops[0] == Increment && ops[1..] == seq(half - k - 1, _ => Increment);
    if k + 1 < half {
      CrowdPlays(k + 1, half);
      assert Act(Crowd(k, half), Increment, half) == Crowd(k + 1, half);
    } else {
      assert ops[1..] == [];
    }
  }

  /** The bound of `FlagIsIsolated` is tight: `half` increments in a row leave
      `half / 2` of them failing, and the flag has toggled without any swap. */
  lemma CarryNeedsFailing(half: nat)
    requires half >= 2 && half % 2 == 0
    ensures var s := Holders(Rc(First, 0), 0, 0, 0);
            var ops := seq(half, _ => Increment);
            && Sound(s, First, half) && Playable(s, ops, half)
            && Play(s, ops, half).failing == half / 2
            && !Sound(Play(s, ops, half), First, half)
  {
    CrowdPlays(0, half);
    assert Crowd(0, half) == Holders(Rc(First, 0), 0, 0, 0);
  }
}
