/** The writer as the source has it: an object that edits its map and its log in
    place (src/write.rs). Every method is proved against the functions of module
    `Ownership`; destroying a value demands that it is still alive. */
module WriteHandles {
  import opened Prelude
  import opened Store
  import opened OpLog
  import opened Ownership
  import opened OwnershipInv

  class WriteHandle<K(==), V> {
    const uid: nat
    var tables: Tables<Table<K, V>>
    var writerMap: MapIndex
    var operations: Log<K, V>
    // A write guard is live.
    ghost var writing: bool
    // The tokens in the user's hands and the fate of every key and value.
    ghost var evicted: map<nat, Alias<V>>
    ghost var leaked: map<nat, V>
    var next: nat
    ghost var dropped: multiset<nat>
    ghost var returned: multiset<nat>

    ghost function State(): Data<K, V>
      reads this
    {
      Data(uid, tables, operations, evicted, leaked, next, dropped, returned)
    }

    ghost predicate Valid()
      reads this
    {
      Inv(State(), writerMap, writing)
    }

    /** What the next flush is going to drop. */
    ghost function PendingDrops(): multiset<nat>
      reads this
      requires Valid() && !writing
    {
      ReplayDrops(operations, tables.Get(writerMap))
    }

    constructor (uid: nat)
      ensures Valid() && Initial(State()) && State().uid == uid && writerMap == Second && !writing
    {
      this.uid := uid;
      tables := Tables(map[], map[]);
      writerMap := Second;
      operations := [];
      writing := false;
      evicted, leaked, next, dropped, returned := map[], map[], 0, multiset{}, multiset{};
      new;
      InitialInv(State(), writerMap);
    }

    /** `Alias::drop`, and the drop of an owned key. Its contract is the one the
        source leaves to the caller: nobody has destroyed the value, or taken it
        back, before. */
    method Destroy(id: nat)
      requires id < next && !Dead(State(), id)
      modifies this`dropped
      ensures dropped == old(dropped) + One(id)
    {
      dropped := dropped + multiset{id};
    }

    method DestroyEntry(e: Entry<K, V>)
      requires e.key.id < next && !Dead(State(), e.key.id)
      requires e.value.id < next && !Dead(State(), e.value.id) && e.key.id != e.value.id
      modifies this`dropped
      ensures dropped == old(dropped) + EntryIds(e)
    {
      Destroy(e.key.id);
      Destroy(e.value.id);
    }

    /** Overwrites a slot; a leaky operation leaves the old value alone. */
    method ReplayReplace(op: Operation<K, V>, t: Table<K, V>) returns (t': Table<K, V>)
      requires Legal(op, t) && op.raw.Replace?
      requires forall i :: i in Drops(op, t) ==> Drops(op, t)[i] == 1 && i < next && !Dead(State(), i)
      modifies this`dropped
      ensures t' == Apply(op, t) && dropped == old(dropped) + Drops(op, t)
    {
      var key, slot := op.raw.key, t[op.raw.key.value].value;
      assert key.id in Drops(op, t) && (!op.leaky ==> slot.id in Drops(op, t) && slot.id != key.id);
      if !op.leaky {
        Destroy(slot.id);
      }
      t' := t[key.value := Entry(t[key.value].key, op.raw.value)];
      Destroy(key.id);
    }

    /** Takes an entry out; its key goes, its value goes unless leaked. */
    method ReplayRemove(op: Operation<K, V>, t: Table<K, V>) returns (t': Table<K, V>)
      requires Legal(op, t) && op.raw.Remove?
      requires forall i :: i in Drops(op, t) ==> Drops(op, t)[i] == 1 && i < next && !Dead(State(), i)
      modifies this`dropped
      ensures t' == Apply(op, t) && dropped == old(dropped) + Drops(op, t)
    {
      var key, entry := op.raw.key, t[op.raw.key.value];
      assert key.id in Drops(op, t) && entry.key.id in Drops(op, t) && entry.key.id != key.id;
      assert !op.leaky ==> entry.value.id in Drops(op, t) && entry.value.id != key.id && entry.value.id != entry.key.id;
      t' := t - {key.value};
      Destroy(entry.key.id);
      if !op.leaky {
        Destroy(entry.value.id);
      }
      Destroy(key.id);
    }

    /** One turn of the loop of `flush_operations`. */
    method ReplayFirst()
      requires Valid() && !writing && operations != [] && Legal(operations[0], tables.Get(writerMap))
      modifies this`tables, this`operations, this`dropped
      ensures tables == old(tables.Set(writerMap, Apply(operations[0], tables.Get(writerMap))))
      ensures operations == old(operations[1..])
      ensures dropped == old(dropped + Drops(operations[0], tables.Get(writerMap)))
    {
      hide Inv, Ids, Given, Tokens, Replay, ReplayDrops, ReplayLegal;
      FlushTouchesTheLiving(State(), writerMap);
      var op, t := operations[0], tables.Get(writerMap);
      operations := operations[1..];
      match op.raw
      case InsertUnique(key, value) =>
        tables := tables.Set(writerMap, t[key.value := Entry(key, value)]);
      case Replace(_, _) =>
        t := ReplayReplace(op, t);
        tables := tables.Set(writerMap, t);
      case Remove(_) =>
        t := ReplayRemove(op, t);
        tables := tables.Set(writerMap, t);
      case Drop(value) =>
        assert value.id in Drops(op, t);
        Destroy(value.id);
    }

    /** Replays the log on the stale copy without checks. Afterwards the two
        copies agree, alias for alias, and exactly what the log was to drop has
        been dropped. The drop of the write handle does this and no more once
        `synchronize` has returned. */
    method FlushOperations()
      requires Valid() && !writing && evicted == map[]
      modifies this`tables, this`operations, this`dropped
      ensures Valid() && operations == []
      ensures tables == old(tables).Set(writerMap, old(tables.Get(writerMap.Other())))
      ensures dropped == old(dropped + PendingDrops())
    {
      hide Inv, Ids, Given, Tokens, Replay, ReplayDrops, ReplayLegal;
      ghost var total := dropped + PendingDrops();
      while operations != []
        invariant Valid() && tables.Get(writerMap.Other()) == old(tables.Get(writerMap.Other()))
        invariant dropped + PendingDrops() == total
        decreases |operations|
      {
        FlushLegal(State(), writerMap);
        FlushKeeps(State(), writerMap);
        FlushDrops(State(), writerMap);
        ghost var d := State();
        ReplayFirst();
        assert State() == FlushOne(d, writerMap);
      }
      NothingPending(State(), writerMap);
      StartKeeps(State(), writerMap);
    }

    /** `guard`, after `synchronize` has returned. */
    method Guard()
      requires Valid() && !writing && evicted == map[]
      modifies this`tables, this`operations, this`dropped, this`writing
      ensures Valid() && writing && operations == []
      ensures tables == old(tables).Set(writerMap, old(tables.Get(writerMap.Other())))
      ensures dropped == old(dropped + PendingDrops())
    {
      hide Inv, Ids, Given, Tokens, Replay, ReplayDrops, ReplayLegal;
      FlushOperations();
      StartKeeps(State(), writerMap);
      writing := true;
    }

    method Insert(k: K, v: V) returns (r: Option<Evicted<V>>)
      requires Valid() && writing
      modifies this`tables, this`operations, this`evicted, this`next
      ensures Valid() && State() == Ownership.Insert(old(State()), writerMap, k, v)
      ensures r.Some? <==> k in old(tables.Get(writerMap))
      ensures r.Some? ==> Live(State(), r.value) && r.value.value == old(tables.Get(writerMap))[k].value
    {
      hide Inv, Ids, Given, Tokens, Replay, ReplayDrops, ReplayLegal;
      InsertKeeps(State(), writerMap, k, v);
      var t := tables.Get(writerMap);
      var key, value := Alias(next, k), Alias(next + 1, v);
      next := next + 2;
      if k in t {
        var old' := t[k].value;
        tables := tables.Set(writerMap, t[k := Entry(t[k].key, value)]);
        operations := operations + [Operation(RawOperation.Replace(key, value), false)];
        evicted := evicted[|operations| - 1 := old'];
        return Some(Evicted(old', |operations| - 1));
      }
      tables := tables.Set(writerMap, t[k := Entry(key, value)]);
      operations := operations + [Operation(InsertUnique(key, value), false)];
      return None;
    }

    method Replace(k: K, f: V -> V) returns (r: Option<Evicted<V>>)
      requires Valid() && writing
      modifies this`tables, this`operations, this`evicted, this`next, this`dropped
      ensures Valid() && State() == Update(old(State()), writerMap, k, f)
      ensures r.Some? <==> k in old(tables.Get(writerMap))
      ensures r.Some? ==> Live(State(), r.value) && r.value.value == old(tables.Get(writerMap))[k].value
    {
      hide Inv, Ids, Given, Tokens, Replay, ReplayDrops, ReplayLegal;
      UpdateKeeps(State(), writerMap, k, f);
      var t := tables.Get(writerMap);
      var key := Alias(next, k);
      next := next + 1;
      if k !in t {
        NextIsNew(old(State()), writerMap);
        Destroy(key.id);
        return None;
      }
      var value := Alias(next, f(t[k].value.value));
      next := next + 1;
      operations := operations + [Operation(RawOperation.Replace(key, value), false)];
      var old' := t[k].value;
      tables := tables.Set(writerMap, t[k := Entry(t[k].key, value)]);
      evicted := evicted[|operations| - 1 := old'];
      return Some(Evicted(old', |operations| - 1));
    }

    method Remove(k: K) returns (r: Option<Evicted<V>>)
      requires Valid() && writing
      modifies this`tables, this`operations, this`evicted, this`next, this`dropped
      ensures Valid() && State() == Delete(old(State()), writerMap, k)
      ensures r.Some? <==> k in old(tables.Get(writerMap))
      ensures r.Some? ==> Live(State(), r.value) && r.value.value == old(tables.Get(writerMap))[k].value
    {
      hide Inv, Ids, Given, Tokens, Replay, ReplayDrops, ReplayLegal;
      DeleteKeeps(State(), writerMap, k);
      var t := tables.Get(writerMap);
      var key := Alias(next, k);
      next := next + 1;
      if k !in t {
        NextIsNew(old(State()), writerMap);
        Destroy(key.id);
        return None;
      }
      var old' := t[k].value;
      tables := tables.Set(writerMap, t - {k});
      operations := operations + [Operation(RawOperation.Remove(key), false)];
      evicted := evicted[|operations| - 1 := old'];
      return Some(Evicted(old', |operations| - 1));
    }

    /** Takes a leaked value and drops it with the next flush; a foreign one makes
        the call panic and changes nothing. */
    method DropLazily(token: Leaked<V>) returns (panicked: bool)
      requires Valid() && writing && Outstanding(State(), token)
      modifies this`operations, this`leaked
      ensures Valid() && State() == Ownership.DropLazily(old(State()), writerMap, token)
      ensures panicked == (token.uid != uid)
    {
      hide Inv, Ids, Given, Tokens, Replay, ReplayDrops, ReplayLegal;
      DropLazilyKeeps(State(), writerMap, token);
      if token.uid != uid {
        return true;
      }
      operations := operations + [Operation(Drop(token.value), false)];
      leaked := leaked - {token.value.id};
      return false;
    }

    /** `Evicted::leak`, which marks the entry the value was evicted by; the write
        guard may already be gone. */
    method MakeLeaky(e: Evicted<V>) returns (token: Leaked<V>)
      requires Valid() && Live(State(), e)
      modifies this`operations, this`evicted, this`leaked
      ensures Valid() && e.operation < |old(operations)| && State() == LeakToken(old(State()), e)
      ensures token == Leaked(e.value, uid) && Outstanding(State(), token)
    {
      hide Inv, Ids, Given, Tokens, Replay, ReplayDrops, ReplayLegal;
      LeakMarksTheRightEntry(State(), writerMap, writing, e);
      LeakKeeps(State(), writerMap, writing, e);
      operations := operations[e.operation := operations[e.operation].(leaky := true)];
      evicted := evicted - {e.operation};
      leaked := leaked[e.value.id := e.value.value];
      return Leaked(e.value, uid);
    }

    /** The drop of a write guard, as far as the maps are concerned. */
    method Publish()
      requires Valid() && writing
      modifies this`writerMap, this`writing
      ensures Valid() && !writing && writerMap == old(writerMap).Other()
    {
      hide Inv, Ids, Given, Tokens, Replay, ReplayDrops, ReplayLegal;
      PublishKeeps(State(), writerMap);
      writerMap := writerMap.Other();
      writing := false;
    }

    /** `reclaim_one`, after `synchronize` has returned. `None` is the panic on a
        foreign token. */
    method Reclaim(token: Leaked<V>) returns (r: Option<V>)
      requires Valid() && !writing && Outstanding(State(), token)
      modifies this`leaked, this`returned
      ensures Valid() && State() == Ownership.Reclaim(old(State()), token)
      ensures r == if token.uid == uid then Some(token.value.value) else None
      ensures token.uid == uid ==> !Dead(old(State()), token.value.id)
    {
      hide Inv, Ids, Given, Tokens, Replay, ReplayDrops, ReplayLegal;
      ReclaimKeeps(State(), writerMap, token);
      if token.uid != uid {
        return None;
      }
      TokenIsAlive(State(), writerMap, writing, token.value.id);
      leaked := leaked - {token.value.id};
      returned := returned + multiset{token.value.id};
      return Some(token.value.value);
    }

    /** `Core::drop`: drains the readers' copy only. The writer has flushed before. */
    method DropCore()
      requires Valid() && !writing && operations == []
      modifies this`tables, this`dropped
      ensures State() == Drain(old(State()), writerMap)
      ensures forall i: nat :: Settled(State(), i)
    {
      hide Inv, Ids, Given, Tokens, Replay, ReplayDrops, ReplayLegal, Settled;
      DrainEnds(State(), writerMap);
      ghost var d := State();
      var t := tables.Get(writerMap.Other());
      while t != map[]
        invariant State() == d.(dropped := dropped)
        invariant dropped + Ids(t) == d.dropped + Ids(Current(d, writerMap, false))
        decreases |t|
      {
        var k :| k in t;
        DrainOne(d, writerMap, State(), t, k);
        DestroyEntry(t[k]);
        t := t - {k};
      }
      IdsEmpty(t);
      tables := Tables(map[], map[]);
    }
  }
}
