/** The memory shared by the writer and the readers (src/core/mod.rs): the
    residual counter, the registered reference counts, the thread to wake and the
    index of the writer's map. */
module Cores {
  import opened Prelude
  import opened Store
  import opened Bits
  import opened RefCounts

  type Handle = nat
  type Thread = nat

  /** The abstract content of that memory, with every packed word unpacked. */
  datatype Mem = Mem(residual: int, counts: map<Handle, Rc>, writerThread: Option<Thread>, writerMap: MapIndex)

  ghost predicate IsSigned(x: int, half: nat) {
    0 - half <= x < half
  }

  /** Signed addition in two's complement; `half` is `-isize::MIN`. */
  function Wrap(x: int, half: nat): int {
    if x >= half then x - 2 * half else if x < 0 - half then x + 2 * half else x
  }

  function AddResidual(m: Mem, k: int, half: nat): Mem {
    m.(residual := Wrap(m.residual + k, half))
  }

  /** The value of `residual` before a decrement that makes its reader the waker. */
  function LastResidual(half: nat): int {
    1 - half
  }

  /** The sum of all counts. */
  ghost function Total(c: map<Handle, Rc>): nat {
    if c == map[] then 0
    else
      var h :| h in c;
      c[h].count + Total(c - {h})
  }

  lemma {:induction false} TotalSplit(c: map<Handle, Rc>, h: Handle)
    requires h in c
    ensures Total(c) == c[h].count + Total(c - {h})
    decreases |c|
  {
    var g :| g in c && Total(c) == c[g].count + Total(c - {g});
    if g != h {
      TotalSplit(c - {g}, h);
      TotalSplit(c - {h}, g);
      assert c - {g} - {h} == c - {h} - {g};
    }
  }

  /** Every count swapped except those of `todo`. */
  function SwapAllBut(c: map<Handle, Rc>, todo: set<Handle>): map<Handle, Rc> {
    map h | h in c :: if h in todo then c[h] else Swapped(c[h])
  }

  lemma SwapEnds(c: map<Handle, Rc>)
    ensures Only(c, c.Keys) == c == SwapAllBut(c, c.Keys) && Total(Only(c, {})) == 0
  {
  }

  lemma SwapNext(c: map<Handle, Rc>, todo: set<Handle>, h: Handle)
    requires h in todo && todo <= c.Keys
    ensures SwapAllBut(c, todo)[h := Swapped(c[h])] == SwapAllBut(c, todo - {h})
    ensures SwapAllBut(c, todo)[h] == c[h]
    ensures Total(Only(c, todo)) == c[h].count + Total(Only(c, todo - {h}))
  {
    TotalSplit(Only(c, todo), h);
    assert Only(c, todo) - {h} == Only(c, todo - {h});
  }

  ghost function Only(c: map<Handle, Rc>, todo: set<Handle>): map<Handle, Rc>
    requires todo <= c.Keys
  {
    map h | h in todo :: c[h]
  }

  class Core {
    const bits: nat
    const half: nat
    var residual: int
    var refcounts: map<Handle, RefCount>
    var writerThread: Option<Thread>
    var writerMap: MapIndex
    // The registered words, and what they mean.
    ghost var words: set<RefCount>
    ghost var counts: map<Handle, Rc>

    ghost predicate Valid()
      reads this, words
    {
      && bits >= 2 && half == Pow2(bits - 1)
      && IsSigned(residual, half)
      && refcounts.Keys == counts.Keys
      && (forall h <- refcounts ::
            && refcounts[h] in words && refcounts[h].key == h && refcounts[h].half == half
            && refcounts[h].Valid() && refcounts[h].Meaning() == counts[h])
    }

    ghost function Memory(): Mem
      reads this
    {
      Mem(residual, counts, writerThread, writerMap)
    }

    /** An empty map: no thread registered, the writer on the second copy. */
    constructor (bits: nat)
      requires bits >= 2
      ensures Valid() && this.bits == bits && refcounts == map[]
      ensures Memory() == Mem(0, map[], None, Second)
    {
      this.bits := bits;
      half := Pow2(bits - 1);
      residual := 0;
      refcounts := map[];
      words := {};
      writerThread := None;
      writerMap := Second;
      counts := map[];
    }

    /** Registers a handle under the vacant slab key `key`. */
    method NewReader(key: Handle)
      requires Valid() && key !in refcounts
      modifies this`refcounts, this`counts, this`words
      ensures Valid() && key in refcounts && fresh(refcounts[key]) && words == old(words) + {refcounts[key]}
          && refcounts == old(refcounts)[key := refcounts[key]]
      ensures Memory() == old(Memory()).(counts := old(counts)[key := Rc(writerMap.Other(), 0)])
    {
      var refcount := new RefCount(writerMap.Other(), bits, key);
      refcounts := refcounts[key := refcount];
      words := words + {refcount};
      counts := counts[key := Rc(writerMap.Other(), 0)];
    }

    /** Unregisters a handle. */
    method ReleaseRefcount(key: Handle)
      requires Valid() && key in refcounts
      modifies this`refcounts, this`counts
      ensures Valid() && refcounts == old(refcounts) - {key}
      ensures Memory() == old(Memory()).(counts := old(counts) - {key})
    {
      refcounts := refcounts - {key};
      counts := counts - {key};
    }

    /** `ReadHandle::guard`: the index of the map to read, or the abort. */
    method Guard(key: Handle) returns (index: Option<MapIndex>)
      requires Valid() && key in refcounts
      modifies refcounts[key], this`counts
      ensures Valid() && Memory() == old(Memory()).(counts := old(counts)[key := Incremented(old(counts)[key], half)])
      ensures index == if Overflowing(old(counts)[key], half) then None else Some(old(counts)[key].index)
    {
      index := refcounts[key].Increment();
      counts := counts[key := Incremented(counts[key], half)];
    }

    /** `ReadGuard::drop`, uninterrupted: the guard releases `residual` exactly
        when its handle points elsewhere by now. */
    method DropGuard(key: Handle, mapIndex: MapIndex) returns (wake: Option<Option<Thread>>)
      requires Valid() && key in refcounts
      modifies refcounts[key], this`counts, this`residual
      ensures Valid()
      ensures var m := old(Memory()).(counts := old(counts)[key := Decremented(old(counts)[key], half)]);
              var residualGuard := old(counts)[key].index != mapIndex;
              var last := m.residual == LastResidual(half);
              && Memory() == (if !residualGuard then m else if last then m.(residual := 0)
                  else AddResidual(m, -1, half))
              && wake == if residualGuard && last then Some(m.writerThread) else None
    {
      var current := refcounts[key].Decrement();
      counts := counts[key := Decremented(counts[key], half)];
      wake := None;
      if current != mapIndex {
        wake := ReleaseResidual();
      }
    }

    /** One uninterrupted release by a residual reader. The result is the thread
        to unpark; `Some(None)` is the branch the source calls unreachable. */
    method ReleaseResidual() returns (wake: Option<Option<Thread>>)
      requires Valid()
      modifies this`residual
      ensures Valid()
      ensures var m := old(Memory());
              var last := m.residual == LastResidual(half);
              && Memory() == (if last then m.(residual := 0) else AddResidual(m, -1, half))
              && wake == if last then Some(m.writerThread) else None
    {
      var lastResidual := residual;
      residual := Wrap(residual - 1, half);
      if lastResidual != LastResidual(half) {
        return None;
      }
      residual := 0;
      return Some(writerThread);
    }

    /** `synchronize` from the announcement to its return or its first park.
        Readers may have released the last guards since the load. */
    method Announce() returns (parked: bool)
      requires Valid()
      modifies this`residual
      ensures Valid() && parked == (old(residual) != 0)
      ensures var m := old(Memory());
              Memory() == if parked then AddResidual(m, 0 - half, half) else m
    {
      var latest := residual;
      residual := Wrap(residual - half, half);
      if latest != 0 {
        return true;
      }
      residual := 0;
      return false;
    }

    /** `synchronize`, uninterrupted, up to its return or its first park. */
    method Synchronize(current: Thread) returns (parked: bool)
      requires Valid()
      modifies this`residual, this`writerThread
      ensures Valid() && parked == (old(residual) != 0)
      ensures var m := old(Memory());
              Memory() == if parked then AddResidual(m.(writerThread := Some(current)), 0 - half, half) else m
    {
      parked := false;
      if residual != 0 {
        writerThread := Some(current);
        parked := Announce();
      }
    }

    /** Swaps one registered count, leaving the others alone. */
    method SwapOne(h: Handle) returns (count: nat)
      requires Valid() && h in refcounts
      modifies refcounts[h], this`counts
      ensures Valid() && count == old(counts)[h].count < half
      ensures counts == old(counts)[h := Swapped(old(counts)[h])]
    {
      count := refcounts[h].SwapMaps();
      counts := counts[h := Swapped(counts[h])];
    }

    /** The loop of `publish` over the slab. It stops with a negative sum exactly
        when the guards counted by the swaps are more than `isize::MAX`. */
    method SwapAll() returns (sum: int)
      requires Valid()
      modifies words, this`counts
      ensures sum < 0 <==> Total(old(counts)) > half - 1
      ensures sum >= 0 ==> Valid() && sum == Total(old(counts)) && counts == SwapAllBut(old(counts), {})
    {
      hide Total, SwapAllBut, Only;
      ghost var was := counts;
      SwapEnds(was);
      sum := 0;
      var todo := refcounts.Keys;
      while todo != {}
        invariant Valid()
        invariant todo <= was.Keys
        invariant 0 <= sum < half && sum + Total(Only(was, todo)) == Total(was)
        invariant counts == SwapAllBut(was, todo)
        decreases todo
      {
        var h :| h in todo;
        SwapNext(was, todo, h);
        var swapped := SwapOne(h);
        sum := Wrap(sum + swapped, half);
        if sum < 0 {
          return;
        }
        todo := todo - {h};
      }
    }

    /** `publish`, uninterrupted: unless it aborts, every registered count has been
        swapped once and `residual` has grown by the true sum of the counts. */
    method Publish() returns (aborted: bool)
      requires Valid()
      modifies this`residual, this`writerMap, this`counts, words
      ensures aborted <==> Total(old(counts)) > half - 1
      ensures !aborted ==>
                && Valid()
                && var m := old(Memory());
                Memory() == AddResidual(Mem(m.residual, SwapAllBut(m.counts, {}), m.writerThread, m.writerMap.Other()),
                                        Total(m.counts), half)
    {
      hide Total, SwapAllBut;
      writerMap := writerMap.Other();
      var initialResidual := SwapAll();
      if initialResidual < 0 {
        return true;
      }
      residual := Wrap(residual + initialResidual, half);
      return false;
    }
  }
}
