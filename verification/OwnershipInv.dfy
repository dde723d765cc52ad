/** Every operation of the writer keeps the data's invariant. */
module OwnershipInv {
  import opened Prelude
  import opened Store
  import opened OpLog
  import opened Ownership

  /** The tables and the log after an edit; `d'` may differ from `d` elsewhere. */
  lemma EditLog<K, V>(d: Data<K, V>, d': Data<K, V>, stale: Table<K, V>, current: Table<K, V>, op: Operation<K, V>)
    requires LogOk(d, stale, current) && Legal(op, current) && d'.log == d.log + [op]
    ensures LogOk(d', stale, Apply(op, current))
    ensures ReplayDrops(d'.log, stale) == ReplayDrops(d.log, stale) + Drops(op, current)
  {
    hide Replay, ReplayDrops, ReplayLegal;
    ReplayAppend(d.log, op, stale);
  }

  lemma EditEvicted<K, V>(log: Log<K, V>, op: Operation<K, V>, stale: Table<K, V>, i: nat, value: Alias<V>)
    requires ReplayLegal(log, stale) && ReplayLegal(log + [op], stale) && EvictedOk(log, stale, i, value)
    ensures EvictedOk(log + [op], stale, i, value)
  {
    hide Replay, ReplayLegal, DisplacedAt;
    DisplacedIsStable(log, log + [op], i, stale);
  }

  lemma EditEvicts<K, V>(log: Log<K, V>, op: Operation<K, V>, stale: Table<K, V>)
    requires ReplayLegal(log, stale) && Legal(op, Replay(log, stale)) && !op.leaky
        && (op.raw.Replace? || op.raw.Remove?)
    ensures ReplayLegal(log + [op], stale)
    ensures EvictedOk(log + [op], stale, |log|, Displaced(op, Replay(log, stale)))
  {
    hide Legal, Displaced, Apply, Drops;
    ReplayAppend(log, op, stale);
    assert (log + [op])[..|log|] == log;
  }

  lemma EditAllEvicted<K, V>(d: Data<K, V>, op: Operation<K, V>, stale: Table<K, V>)
    requires ReplayLegal(d.log, stale) && Legal(op, Replay(d.log, stale)) && AllEvictedOk(d, stale) && !op.leaky
    ensures ReplayLegal(d.log + [op], stale)
    ensures forall i <- d.evicted :: EvictedOk(d.log + [op], stale, i, d.evicted[i])
    ensures op.raw.Replace? || op.raw.Remove? ==>
        EvictedOk(d.log + [op], stale, |d.log|, Displaced(op, Replay(d.log, stale)))
  {
    hide Replay, ReplayLegal, ReplayDrops, DisplacedAt, Legal, Apply, Drops, EvictedOk, Displaced;
    ReplayAppend(d.log, op, stale);
    forall i <- d.evicted
      ensures EvictedOk(d.log + [op], stale, i, d.evicted[i])
    {
      EditEvicted(d.log, op, stale, i, d.evicted[i]);
    }
    if op.raw.Replace? || op.raw.Remove? {
      EditEvicts(d.log, op, stale);
    }
  }

  /** An edit keeps the invariant, whatever it takes from the tokens; `evicted`
      may gain the value that the edit displaces. */
  lemma EditKeeps<K, V>(d: Data<K, V>, d': Data<K, V>, wm: MapIndex, op: Operation<K, V>)
    requires Inv(d, wm, true) && Legal(op, d.tables.Get(wm)) && !op.leaky
    requires d'.tables == d.tables.Set(wm, Apply(op, d.tables.Get(wm))) && d'.log == d.log + [op]
    requires d'.dropped == d.dropped && d'.returned == d.returned && d'.next >= d.next
    requires Given(d'.next) + Tokens(d.leaked) == Given(d.next) + Brings(op) + Tokens(d'.leaked)
    requires d'.evicted == d.evicted
             || ((op.raw.Replace? || op.raw.Remove?)
                 && d'.evicted == d.evicted[|d.log| := Displaced(op, d.tables.Get(wm))])
    ensures Inv(d', wm, true)
  {
    hide Replay, ReplayLegal, ReplayDrops, Ids, Given, Tokens, Legal, Apply, Drops, Brings, EvictedOk, Displaced,
        Filed, Conserved;
    var stale, current := Stale(d, wm, true), Current(d, wm, true);
    EditLog(d, d', stale, current, op);
    EditConserves(d, d', stale, current, op);
    EditAllEvicted(d, op, stale);
  }

  lemma EditConserves<K, V>(d: Data<K, V>, d': Data<K, V>, stale: Table<K, V>, current: Table<K, V>,
      op: Operation<K, V>)
    requires LogOk(d, stale, current) && Conserved(d, stale, current) && Legal(op, current) && !op.leaky
    requires d'.log == d.log + [op] && d'.dropped == d.dropped && d'.returned == d.returned
    requires Given(d'.next) + Tokens(d.leaked) == Given(d.next) + Brings(op) + Tokens(d'.leaked)
    ensures ReplayLegal(d'.log, stale) && Conserved(d', stale, Apply(op, current))
  {
    hide Replay, ReplayLegal, ReplayDrops, Ids, Given, Tokens, Legal, Apply, Drops, Brings, Filed;
    EditLog(d, d', stale, current, op);
    ApplyConserves(op, current);
    var ids, ids', drops, more := Ids(current), Ids(Apply(op, current)), ReplayDrops(d.log, stale), Drops(op, current);
    EditAlgebra(Given(d.next), Given(d'.next), Brings(op), ids, ids', drops, more, Tokens(d.leaked),
        Tokens(d'.leaked), d.dropped, d.returned);
  }

  lemma EditAlgebra(g: multiset<nat>, g': multiset<nat>, brings: multiset<nat>, ids: multiset<nat>, ids': multiset<nat>,
                    drops: multiset<nat>, more: multiset<nat>, t: multiset<nat>, t': multiset<nat>,
                    dropped: multiset<nat>, returned: multiset<nat>)
    requires g == ids + drops + t + dropped + returned
    requires ids + brings == ids' + (more + multiset{})
    requires g' + t == g + brings + t'
    ensures g' == ids' + (drops + more) + t' + dropped + returned
  {
    var a := ids' + (drops + more) + t' + dropped + returned;
    forall i
      ensures g'[i] == a[i]
    {
      assert (ids + brings)[i] == (ids' + (more + multiset{}))[i];
      assert (g' + t)[i] == (g + brings + t')[i];
    }
  }

  // ----- the operations of a write guard

  lemma GivenTwo(n: nat)
    ensures Given(n + 1) == Given(n) + One(n)
    ensures Given(n + 2) == Given(n) + (One(n) + One(n + 1))
  {
  }

  lemma InsertKeeps<K, V>(d: Data<K, V>, wm: MapIndex, k: K, v: V)
    requires Inv(d, wm, true)
    ensures Inv(Insert(d, wm, k, v), wm, true)
  {
    hide Inv, Given, One, Tokens, Ids;
    GivenTwo(d.next);
    var key, value := Alias(d.next, k), Alias(d.next + 1, v);
    EditKeeps(d, Insert(d, wm, k, v), wm,
              Operation(if k in d.tables.Get(wm) then Replace(key, value) else InsertUnique(key, value), false));
  }

  lemma UpdateKeeps<K, V>(d: Data<K, V>, wm: MapIndex, k: K, f: V -> V)
    requires Inv(d, wm, true)
    ensures Inv(Update(d, wm, k, f), wm, true)
  {
    hide Inv, Given, One, Tokens, Ids;
    GivenTwo(d.next);
    var t := d.tables.Get(wm);
    if k in t {
      EditKeeps(d, Update(d, wm, k, f), wm,
                Operation(Replace(Alias(d.next, k), Alias(d.next + 1, f(t[k].value.value))), false));
    } else {
      DropKeyKeeps(d, wm);
    }
  }

  lemma DeleteKeeps<K, V>(d: Data<K, V>, wm: MapIndex, k: K)
    requires Inv(d, wm, true)
    ensures Inv(Delete(d, wm, k), wm, true)
  {
    hide Inv, Given, One, Tokens, Ids;
    GivenTwo(d.next);
    if k in d.tables.Get(wm) {
      EditKeeps(d, Delete(d, wm, k), wm, Operation(Remove(Alias(d.next, k)), false));
    } else {
      DropKeyKeeps(d, wm);
    }
  }

  lemma DropKeyKeeps<K, V>(d: Data<K, V>, wm: MapIndex)
    requires Inv(d, wm, true)
    ensures Inv(DropKey(d), wm, true)
  {
    hide Given, One, Tokens, Ids, Replay, ReplayLegal, ReplayDrops, Filed, EvictedOk;
    GivenTwo(d.next);
  }

  lemma TokensMinus<V>(leaked: map<nat, V>, id: nat)
    requires id in leaked
    ensures Tokens(leaked) == Tokens(leaked - {id}) + One(id)
  {
    assert leaked.Keys == (leaked - {id}).Keys + {id};
  }

  lemma DropLazilyKeeps<K, V>(d: Data<K, V>, wm: MapIndex, token: Leaked<V>)
    requires Inv(d, wm, true) && Outstanding(d, token)
    ensures Inv(DropLazily(d, wm, token), wm, true)
  {
    hide Inv, Given, One, Tokens, Ids;
    if token.uid == d.uid {
      TokensMinus(d.leaked, token.value.id);
      EditKeeps(d, DropLazily(d, wm, token), wm, Operation(Drop(token.value), false));
    }
  }

  // ----- tokens, with or without a write guard

  lemma LeakEvicted<K, V>(log: Log<K, V>, stale: Table<K, V>, i: nat, j: nat, value: Alias<V>)
    requires ReplayLegal(log, stale) && j < |log| && ReplayLegal(Leak(log, j), stale)
    requires EvictedOk(log, stale, i, value) && i != j
    ensures EvictedOk(Leak(log, j), stale, i, value)
  {
    hide Replay, ReplayLegal, DisplacedAt;
    DisplacedIsStable(log, Leak(log, j), i, stale);
  }

  /** Leaking an evicted value takes that value, and no other, off the list of
      values the replay will drop. */
  lemma LeakMarksTheRightEntry<K, V>(d: Data<K, V>, wm: MapIndex, writing: bool, e: Evicted<V>)
    requires Inv(d, wm, writing) && Live(d, e)
    ensures e.operation < |d.log|
    ensures var d', stale := LeakToken(d, e), Stale(d, wm, writing);
            && ReplayLegal(d.log, stale) && ReplayLegal(d'.log, stale)
            && Replay(d'.log, stale) == Replay(d.log, stale)
            && ReplayDrops(d.log, stale) == ReplayDrops(d'.log, stale) + One(e.value.id)
            && e.value.id !in d.leaked
  {
    hide Replay, ReplayLegal, ReplayDrops, Ids, One, DisplacedAt, Filed;
    var stale := Stale(d, wm, writing);
    assert EvictedOk(d.log, stale, e.operation, d.evicted[e.operation]);
    LeakSuppressesOneDrop(d.log, e.operation, stale);
    OnePlace(d, stale, Current(d, wm, writing), e.value.id);
    InPart(ReplayDrops(d.log, stale), ReplayDrops(Leak(d.log, e.operation), stale), e.value.id);
  }

  lemma InPart(all: multiset<nat>, rest: multiset<nat>, id: nat)
    requires all == rest + One(id)
    ensures all[id] >= 1
  {
    assert id in One(id);
  }

  lemma TokensPlus<V>(leaked: map<nat, V>, id: nat, v: V)
    requires id !in leaked
    ensures Tokens(leaked[id := v]) == Tokens(leaked) + One(id)
  {
    assert leaked[id := v].Keys == leaked.Keys + {id};
  }

  lemma LeakKeeps<K, V>(d: Data<K, V>, wm: MapIndex, writing: bool, e: Evicted<V>)
    requires Inv(d, wm, writing) && Live(d, e) && e.operation < |d.log|
    ensures Inv(LeakToken(d, e), wm, writing)
  {
    hide Replay, ReplayLegal, ReplayDrops, Ids, One, EvictedOk, Given, Tokens, Filed, Leak;
    var stale, d' := Stale(d, wm, writing), LeakToken(d, e);
    LeakMarksTheRightEntry(d, wm, writing, e);
    TokensPlus(d.leaked, e.value.id, e.value.value);
    forall i <- d'.evicted
      ensures EvictedOk(d'.log, stale, i, d'.evicted[i])
    {
      LeakEvicted(d.log, stale, i, e.operation, d.evicted[i]);
    }
  }

  lemma ForgetKeeps<K, V>(d: Data<K, V>, wm: MapIndex, writing: bool, e: Evicted<V>)
    requires Inv(d, wm, writing)
    ensures Inv(Forget(d, e), wm, writing)
  {
    hide Replay, ReplayLegal, ReplayDrops, Ids, EvictedOk, Given, Tokens, Filed;
  }

  lemma ReclaimKeeps<K, V>(d: Data<K, V>, wm: MapIndex, token: Leaked<V>)
    requires Inv(d, wm, false) && Outstanding(d, token)
    ensures Inv(Reclaim(d, token), wm, false)
  {
    hide Replay, ReplayLegal, ReplayDrops, Ids, EvictedOk, Given, Tokens, Filed, One;
    if token.uid == d.uid {
      TokensMinus(d.leaked, token.value.id);
    }
  }

  // ----- the replay

  /** The unchecked replay is legal, turn by turn, and stays on its way to the
      readers' copy. */
  lemma FlushLegal<K, V>(d: Data<K, V>, wm: MapIndex)
    requires Inv(d, wm, false) && d.log != []
    ensures Legal(d.log[0], d.tables.Get(wm))
  {
    hide Replay, ReplayDrops, Ids, EvictedOk, Legal, Filed;
  }

  lemma FlushKeeps<K, V>(d: Data<K, V>, wm: MapIndex)
    requires Inv(d, wm, false) && d.log != [] && d.evicted == map[] && Legal(d.log[0], d.tables.Get(wm))
    ensures Inv(FlushOne(d, wm), wm, false)
  {
    hide Ids, EvictedOk, Given, Tokens, Legal, Drops, Apply, Filed;
    FiledApply(d.log[0], d.tables.Get(wm));
  }

  lemma FlushDrops<K, V>(d: Data<K, V>, wm: MapIndex)
    requires Inv(d, wm, false) && d.log != [] && Legal(d.log[0], d.tables.Get(wm))
    ensures var d' := FlushOne(d, wm);
            && ReplayLegal(d.log, d.tables.Get(wm)) && ReplayLegal(d'.log, d'.tables.Get(wm))
            && d'.dropped + ReplayDrops(d'.log, d'.tables.Get(wm)) == d.dropped + ReplayDrops(d.log, d.tables.Get(wm))
  {
    hide Ids, EvictedOk, Given, Tokens, Legal, Drops, Apply, Filed;
  }

  lemma NothingPending<K, V>(d: Data<K, V>, wm: MapIndex)
    requires Inv(d, wm, false) && d.log == []
    ensures ReplayLegal(d.log, d.tables.Get(wm)) && ReplayDrops(d.log, d.tables.Get(wm)) == multiset{}
  {
  }

  lemma FiledApply<K, V>(op: Operation<K, V>, t: Table<K, V>)
    requires Legal(op, t) && Filed(t)
    ensures Filed(Apply(op, t))
  {
  }

  /** What one turn of the replay drops is alive until then and is dropped once;
      and no key of the stale copy, which the lookup may compare with, is dead, nor
      is the key that the operation brings. */
  lemma FlushTouchesTheLiving<K, V>(d: Data<K, V>, wm: MapIndex)
    requires Inv(d, wm, false) && d.log != [] && Legal(d.log[0], d.tables.Get(wm))
    ensures var t := d.tables.Get(wm);
            && (forall i :: i in Drops(d.log[0], t) ==>
                Drops(d.log[0], t)[i] == 1 && i < d.next && !Dead(d, i) && i !in d.leaked)
            && (forall k <- t :: t[k].key.id < d.next && !Dead(d, t[k].key.id))
            && (!d.log[0].raw.Drop? ==> d.log[0].raw.key.id < d.next && !Dead(d, d.log[0].raw.key.id))
  {
    hide Ids, EvictedOk, Given, Legal, Drops, Apply, Filed, Replay, Conserved;
    var t, current := d.tables.Get(wm), Current(d, wm, false);
    forall i | i in Drops(d.log[0], t)
      ensures Drops(d.log[0], t)[i] == 1 && i < d.next && !Dead(d, i) && i !in d.leaked
    {
      OnePlace(d, t, current, i);
    }
    forall k <- t
      ensures t[k].key.id < d.next && !Dead(d, t[k].key.id)
    {
      OnePlace(d, t, current, t[k].key.id);
      KeysEndSomewhere(d.log, t, k);
    }
    if !d.log[0].raw.Drop? {
      OnePlace(d, t, current, d.log[0].raw.key.id);
      OwnKeyEndsSomewhere(d.log, t);
    }
  }

  /** When the log is empty both copies agree, alias for alias, and the writer may
      start to edit its own. */
  lemma StartKeeps<K, V>(d: Data<K, V>, wm: MapIndex)
    requires Inv(d, wm, false) && d.log == []
    ensures d.tables.Get(wm) == d.tables.Get(wm.Other())
    ensures Inv(d, wm, true)
  {
    hide Ids, EvictedOk, Given, Tokens, Filed;
    forall i | i in Ids(d.tables.Get(wm))
      ensures i < d.next
    {
      OnePlace(d, Stale(d, wm, false), Current(d, wm, false), i);
    }
  }

  /** Publishing swaps the roles of the two copies and touches neither. */
  lemma PublishKeeps<K, V>(d: Data<K, V>, wm: MapIndex)
    requires Inv(d, wm, true)
    ensures Inv(d, wm.Other(), false)
  {
    hide Ids, EvictedOk, Given, Tokens, Filed, Replay, ReplayLegal, ReplayDrops;
  }

  /** After the last flush, draining only the readers' copy leaves nothing behind:
      every identity was dropped once, given back once, or is still out as a token. */
  lemma DrainEndsAll<K, V>(d: Data<K, V>, wm: MapIndex, i: nat)
    requires Inv(d, wm, false) && d.log == []
    ensures Settled(Drain(d, wm), i)
  {
    hide Ids, EvictedOk, Given, Filed;
    OnePlace(d, Stale(d, wm, false), Current(d, wm, false), i);
  }

  lemma DrainEnds<K, V>(d: Data<K, V>, wm: MapIndex)
    requires Inv(d, wm, false) && d.log == []
    ensures forall i: nat :: Settled(Drain(d, wm), i)
  {
    hide Inv, Drain;
    forall i: nat
      ensures Settled(Drain(d, wm), i)
    {
      DrainEndsAll(d, wm, i);
    }
  }

  // ----- who is alive

  lemma NextIsNew<K, V>(d: Data<K, V>, wm: MapIndex)
    requires Inv(d, wm, true)
    ensures !Dead(d, d.next)
  {
    hide Ids, EvictedOk, Given, Filed, Tokens;
    OnePlace(d, Stale(d, wm, true), Current(d, wm, true), d.next);
  }

  /** A value whose token is out is alive. */
  lemma TokenIsAlive<K, V>(d: Data<K, V>, wm: MapIndex, writing: bool, i: nat)
    requires Inv(d, wm, writing) && i in d.leaked
    ensures i < d.next && !Dead(d, i)
  {
    hide Ids, EvictedOk, Given, Filed;
    OnePlace(d, Stale(d, wm, writing), Current(d, wm, writing), i);
  }

  /** The value of a living `Evicted` is alive: the replay has yet to drop it. */
  lemma EvictedIsAlive<K, V>(d: Data<K, V>, wm: MapIndex, writing: bool, e: Evicted<V>)
    requires Inv(d, wm, writing) && Live(d, e)
    ensures e.value.id < d.next && !Dead(d, e.value.id)
  {
    hide Ids, Given, Filed, Replay, Tokens, One, DisplacedAt, EvictedOk, ReplayDrops;
    var stale := Stale(d, wm, writing);
    LeakMarksTheRightEntry(d, wm, writing, e);
    InPart(ReplayDrops(d.log, stale), ReplayDrops(LeakToken(d, e).log, stale), e.value.id);
    OnePlace(d, stale, Current(d, wm, writing), e.value.id);
  }

  lemma IdsEmpty<K, V>(t: Table<K, V>)
    requires t == map[]
    ensures Ids(t) == multiset{}
  {
  }

  /** One turn of the final drain: its key and value are alive and different. */
  lemma DrainOne<K, V>(d: Data<K, V>, wm: MapIndex, now: Data<K, V>, t: Table<K, V>, k: K)
    requires Inv(d, wm, false) && k in t && now == d.(dropped := now.dropped)
    requires now.dropped + Ids(t) == d.dropped + Ids(Current(d, wm, false))
    ensures t[k].key.id != t[k].value.id
    ensures t[k].key.id < d.next && !Dead(now, t[k].key.id)
    ensures t[k].value.id < d.next && !Dead(now, t[k].value.id)
    ensures now.dropped + EntryIds(t[k]) + Ids(t - {k}) == now.dropped + Ids(t)
  {
    hide Ids, EvictedOk, Given, Filed, Replay, ReplayDrops, Tokens;
    var a, b := t[k].key.id, t[k].value.id;
    IdsSplit(t, k);
    forall i
      ensures now.dropped[i] + Ids(t)[i] == d.dropped[i] + Ids(Current(d, wm, false))[i]
    {
      assert (now.dropped + Ids(t))[i] == (d.dropped + Ids(Current(d, wm, false)))[i];
    }
    OnePlace(d, Stale(d, wm, false), Current(d, wm, false), a);
    OnePlace(d, Stale(d, wm, false), Current(d, wm, false), b);
  }
}
