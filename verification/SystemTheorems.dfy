/** What the whole map guarantees, in every reachable state and over every run. */
module SystemTheorems {
  import opened Prelude
  import opened Store
  import opened Cores
  import opened Protocol
  import opened ProtocolInv
  import opened ProtocolTheorems
  import opened OpLog
  import O = Ownership
  import opened OwnershipInv
  import opened System
  import opened SystemInv

  ghost predicate SysReachable<K(!new), V(!new)>(s: Sys<K, V>) {
    exists s0: Sys<K, V>, acts :: SysInit(s0) && SysRuns(s0, acts) && SysAfter(s0, acts) == s
  }

  lemma SysReachableInv<K(!new), V(!new)>(s: Sys<K, V>)
    requires SysReachable(s)
    ensures SysInv(s)
  {
    hide SysInit, SysInv, SysRuns, SysAfter;
    var s0: Sys<K, V>, acts :| SysInit(s0) && SysRuns(s0, acts) && SysAfter(s0, acts) == s;
    InitSysInv(s0);
    SysRunKeeps(s0, acts);
  }

  /** The table a guard points at. */
  ghost function Seen<K, V>(s: Sys<K, V>, g: GuardId): Table<K, V>
    requires g in s.p.guards
  {
    s.d.tables.Get(s.p.guards[g].index)
  }

  /** A reading guard has the last version, or the one before; then the stale
      copy is shared and the writer is away from it. */
  lemma GuardCases(p: State, g: GuardId)
    requires Inv(p) && g in p.guards && p.guards[g].stage.Reading?
    ensures p.guards[g].index == IndexOf(p.guards[g].version) && p.mem.writerMap == IndexOf(p.cycle).Other()
    ensures p.guards[g].version == p.cycle
            || (p.guards[g].version + 1 == p.cycle && Shared(p) && !Exclusive(p))
  {
    if Exclusive(p) {
      ExclusiveGuards(p);
    } else {
      GuardCasesShared(p, g);
    }
  }

  lemma GuardCasesShared(p: State, g: GuardId)
    requires Inv(p) && g in p.guards && p.guards[g].stage.Reading?
    ensures p.guards[g].index == IndexOf(p.guards[g].version) && p.mem.writerMap == IndexOf(p.cycle).Other()
    ensures p.guards[g].version == p.cycle || (p.guards[g].version + 1 == p.cycle && Shared(p))
  {
    hide Readers, IndexOf, Accounts;
    var h := p.guards[g].handle;
    assert h in p.mem.counts;
    assert g in Owed(p.guards, p.versions) <==> p.guards[g].version != p.versions[h];
  }

  lemma OtherIndex(n: nat)
    requires n > 0
    ensures IndexOf(n) == IndexOf(n - 1).Other()
  {
  }

  /** A read guard's table is the readers' copy, or the stale one while that is
      untouched and shared. */
  lemma GuardTable<K, V>(s: Sys<K, V>, g: GuardId)
    requires SysInv(s) && !s.ended && g in s.p.guards && s.p.guards[g].stage.Reading?
    ensures var wm, writing := s.p.mem.writerMap, s.p.pc.Writing?;
            var version := s.p.guards[g].version;
            || (version == s.p.cycle && !writing && Seen(s, g) == O.Current(s.d, wm, false))
            || (version == s.p.cycle && writing && Seen(s, g) == O.Stale(s.d, wm, true))
            || (version + 1 == s.p.cycle && !writing && Shared(s.p) && Untouched(s.p.pc)
                && Seen(s, g) == O.Stale(s.d, wm, false))
  {
    hide DataOk, AbstractOk, Inv, Shared, IndexOf;
    GuardCases(s.p, g);
    if s.p.cycle > 0 {
      OtherIndex(s.p.cycle);
    }
  }

  /** Snapshot refinement: through a read guard one sees the abstract map after a
      whole number of published write guards; through the write guard, exactly
      what its own edits have made of the last published version. */
  lemma Snapshot<K(!new), V(!new)>(s: Sys<K, V>, g: GuardId)
    requires SysReachable(s) && !s.ended
    ensures |s.versions| == s.p.cycle + 1
    ensures g in s.p.guards && s.p.guards[g].stage.Reading? ==>
              s.p.guards[g].version < |s.versions| && Contents(Seen(s, g)) == s.versions[s.p.guards[g].version]
    ensures s.p.pc.Writing? ==> Contents(s.d.tables.Get(s.p.mem.writerMap)) == s.draft
  {
    hide Inv, O.Inv, Contents, Shared, IndexOf;
    SysReachableInv(s);
    if g in s.p.guards && s.p.guards[g].stage.Reading? {
      GuardTable(s, g);
    }
  }

  /** No act changes the table under a live guard, not even alias for alias, nor
      the versions already published. */
  lemma ActKeepsSnapshot<K, V>(s: Sys<K, V>, act: Act<K, V>, g: GuardId)
    requires SysInv(s) && Can(s, act) && g in s.p.guards && s.p.guards[g].stage.Reading? && act != P(EndGuard(g))
    ensures var t := Do(s, act);
            && !t.ended && g in t.p.guards && t.p.guards[g] == s.p.guards[g]
            && Seen(t, g) == Seen(s, g) && s.versions <= t.versions
  {
    if act.P? {
      ProtocolKeepsSnapshot(s, act.step, g);
    } else if IsEdit(act) {
      EditKeepsSnapshot(s, act, g);
    } else {
      RestKeepsSnapshot(s, act, g);
    }
  }

  lemma ProtocolKeepsSnapshot<K, V>(s: Sys<K, V>, step: Step, g: GuardId)
    requires SysInv(s) && Can(s, P(step)) && g in s.p.guards && s.p.guards[g].stage.Reading? && step != EndGuard(g)
    ensures var t := Do(s, P(step));
            && !t.ended && g in t.p.guards && t.p.guards[g] == s.p.guards[g]
            && t.d == s.d && s.versions <= t.versions
  {
    hide Inv, DataOk, AbstractOk, Next, Enabled;
    GuardStays(s.p, step, g);
  }

  lemma EditKeepsSnapshot<K, V>(s: Sys<K, V>, act: Act<K, V>, g: GuardId)
    requires SysInv(s) && Can(s, act) && IsEdit(act) && g in s.p.guards && s.p.guards[g].stage.Reading?
    ensures var t := Do(s, act);
            && !t.ended && t.p == s.p && t.versions == s.versions && Seen(t, g) == Seen(s, g)
  {
    hide Inv, DataOk, AbstractOk, Do, Contents, Meaning, IndexOf;
    EditMeaning(s, act);
    AwayFromWriter(s.p, g);
  }

  lemma AwayFromWriter(p: State, g: GuardId)
    requires Inv(p) && g in p.guards && p.guards[g].stage.Reading?
    requires Exclusive(p) || (!Publishing(p) && Owed(p.guards, p.versions) == {})
    ensures p.guards[g].index == p.mem.writerMap.Other()
  {
    hide Inv, Owed;
    ExclusiveGuards(p);
  }

  lemma RestKeepsSnapshot<K, V>(s: Sys<K, V>, act: Act<K, V>, g: GuardId)
    requires SysInv(s) && Can(s, act) && !act.P? && !IsEdit(act) && g in s.p.guards && s.p.guards[g].stage.Reading?
    ensures var t := Do(s, act);
            && !t.ended && t.p == s.p && t.versions == s.versions && Seen(t, g) == Seen(s, g)
  {
    hide Inv, DataOk, AbstractOk, Apply, Drops, Legal, IndexOf;
    if act.End? {
      NoHandleNoGuard(s.p, g);
    } else if act.Flush? {
      AwayFromWriter(s.p, g);
    }
  }

  lemma NoHandleNoGuard(p: State, g: GuardId)
    requires Inv(p) && g in p.guards
    ensures p.mem.counts != map[]
  {
    HandleKnown(p, g);
  }

  lemma {:induction false} SnapshotStays<K, V>(s: Sys<K, V>, acts: seq<Act<K, V>>, g: GuardId)
    requires SysInv(s) && SysRuns(s, acts) && g in s.p.guards && s.p.guards[g].stage.Reading?
    requires P(EndGuard(g)) !in acts
    ensures var t := SysAfter(s, acts);
            && g in t.p.guards && t.p.guards[g] == s.p.guards[g]
            && Seen(t, g) == Seen(s, g) && s.versions <= t.versions
    decreases |acts|
  {
    hide SysInv, Can, Do;
    if acts != [] {
      ActKeepsSnapshot(s, acts[0], g);
      ActKeeps(s, acts[0]);
      SnapshotStays(Do(s, acts[0]), acts[1..], g);
    }
  }

  /** A guard never sees its map change: over any run in which it is not ended it
      keeps pointing at the same entries, aliases included. */
  lemma SnapshotIsStable<K(!new), V(!new)>(s: Sys<K, V>, acts: seq<Act<K, V>>, g: GuardId)
    requires SysReachable(s) && SysRuns(s, acts) && g in s.p.guards && s.p.guards[g].stage.Reading?
    requires P(EndGuard(g)) !in acts
    ensures var t := SysAfter(s, acts);
            && g in t.p.guards && t.p.guards[g] == s.p.guards[g]
            && Seen(t, g) == Seen(s, g) && s.versions <= t.versions
  {
    SysReachableInv(s);
    SnapshotStays(s, acts, g);
  }

  /** While the writer flushes, edits or may reclaim, no live read guard points at
      its map. */
  lemma WriterIsAlone<K(!new), V(!new)>(s: Sys<K, V>, g: GuardId)
    requires SysReachable(s) && (Exclusive(s.p) || s.lent) && g in s.p.guards && s.p.guards[g].stage.Reading?
    ensures s.p.guards[g].index != s.p.mem.writerMap
  {
    hide Inv, DataOk, AbstractOk, Owed;
    SysReachableInv(s);
    AwayFromWriter(s.p, g);
  }

  /** The unchecked replay is legal at every turn; what it drops is alive and is
      dropped once; no key it may hash or compare, in the table or its own, is dead. */
  lemma ReplayIsSafe<K(!new), V(!new)>(s: Sys<K, V>)
    requires SysReachable(s) && !s.ended && s.p.pc.Ready? && s.d.log != []
    ensures var t := s.d.tables.Get(s.p.mem.writerMap);
            var op := s.d.log[0];
            && Legal(op, t)
            && (forall i :: i in Drops(op, t) ==> Drops(op, t)[i] == 1 && !O.Dead(s.d, i) && i !in s.d.leaked)
            && (forall k <- t :: !O.Dead(s.d, t[k].key.id))
            && (!op.raw.Drop? ==> !O.Dead(s.d, op.raw.key.id))
  {
    hide Inv, O.Inv, Legal, Drops, O.Dead, Shared;
    SysReachableInv(s);
    FlushLegal(s.d, s.p.mem.writerMap);
    FlushTouchesTheLiving(s.d, s.p.mem.writerMap);
  }

  lemma DeadIsInvisible<K, V>(s: Sys<K, V>, g: GuardId, i: nat)
    requires SysInv(s) && !s.ended && O.Dead(s.d, i)
    ensures g in s.p.guards && s.p.guards[g].stage.Reading? ==> i !in Ids(Seen(s, g))
    ensures s.p.pc.Writing? ==> i !in Ids(s.d.tables.Get(s.p.mem.writerMap))
  {
    hide Inv, O.Inv, Ids, O.Dead, IndexOf, AbstractOk;
    var wm, writing := s.p.mem.writerMap, s.p.pc.Writing?;
    if i in Ids(O.Current(s.d, wm, writing)) {
      O.CurrentIsAlive(s.d, wm, writing, i);
    }
    if g in s.p.guards && s.p.guards[g].stage.Reading? {
      GuardTable(s, g);
    }
  }

  /** No dead alias is visible: nothing in a table that a live guard exposes has
      been dropped, or given back by `reclaimer`. */
  lemma NoDeadAliasIsVisible<K(!new), V(!new)>(s: Sys<K, V>, g: GuardId, i: nat)
    requires SysReachable(s) && !s.ended && O.Dead(s.d, i)
    ensures g in s.p.guards && s.p.guards[g].stage.Reading? ==> i !in Ids(Seen(s, g))
    ensures s.p.pc.Writing? ==> i !in Ids(s.d.tables.Get(s.p.mem.writerMap))
  {
    SysReachableInv(s);
    DeadIsInvisible(s, g, i);
  }

  /** A value handed out as `Evicted` or `Leaked` is alive as long as the token is. */
  lemma TokensAreAlive<K(!new), V(!new)>(s: Sys<K, V>, e: O.Evicted<V>, token: O.Leaked<V>)
    requires SysReachable(s) && !s.ended
    ensures O.Live(s.d, e) ==> !O.Dead(s.d, e.value.id)
    ensures O.Outstanding(s.d, token) && token.uid == s.d.uid ==> !O.Dead(s.d, token.value.id)
  {
    hide Inv, O.Inv, O.Dead, Shared;
    SysReachableInv(s);
    if O.Live(s.d, e) {
      EvictedIsAlive(s.d, s.p.mem.writerMap, s.p.pc.Writing?, e);
    }
    if O.Outstanding(s.d, token) && token.uid == s.d.uid {
      TokenIsAlive(s.d, s.p.mem.writerMap, s.p.pc.Writing?, token.value.id);
    }
  }

  /** Exactly-once ownership: when the last handle is gone, every key and value
      ever given to the map has been dropped once, or given back once, or is a
      leaked value whose token was never returned; nothing else was touched. */
  lemma ExactlyOnce<K(!new), V(!new)>(s: Sys<K, V>, i: nat)
    requires SysReachable(s) && s.ended
    ensures s.d.tables == Tables(map[], map[])
    ensures i < s.d.next ==> (
              || (s.d.dropped[i] == 1 && s.d.returned[i] == 0 && i !in s.d.leaked)
              || (s.d.dropped[i] == 0 && s.d.returned[i] == 1 && i !in s.d.leaked)
              || (s.d.dropped[i] == 0 && s.d.returned[i] == 0 && i in s.d.leaked))
    ensures i >= s.d.next ==> s.d.dropped[i] == 0 && s.d.returned[i] == 0 && i !in s.d.leaked
  {
    SysReachableInv(s);
    assert O.Settled(s.d, i);
  }

  /** The value of an edit: an `Evicted` comes back exactly when the abstract map
      had the key, with the value it had. */
  lemma EvictedValue<K(!new), V(!new)>(s: Sys<K, V>, act: Act<K, V>)
    requires SysReachable(s) && Can(s, act) && (act.Insert? || act.Update? || act.Delete?)
    ensures var t, i := Do(s, act), |s.d.log|;
            && i !in s.d.evicted && (act.k in s.draft <==> i in t.d.evicted)
            && (act.k !in s.draft ==> t.d.evicted == s.d.evicted)
            && (act.k in s.draft ==>
                  t.d.evicted[i].value == s.draft[act.k] && t.d.evicted == s.d.evicted[i := t.d.evicted[i]])
            && t.draft == Meaning(s.draft, act)
            && Contents(t.d.tables.Get(t.p.mem.writerMap)) == t.draft
  {
    hide Inv, O.Inv, O.Insert, O.Update, O.Delete, Shared;
    SysReachableInv(s);
    ActKeeps(s, act);
    EvictedInLog(s.d, s.p.mem.writerMap, true);
    match act
    case Insert(k, v) => InsertMeaning(s.d, s.p.mem.writerMap, k, v);
    case Update(k, f) => UpdateMeaning(s.d, s.p.mem.writerMap, k, f);
    case Delete(k) => DeleteMeaning(s.d, s.p.mem.writerMap, k);
  }

  lemma EvictedInLog<K, V>(d: O.Data<K, V>, wm: MapIndex, writing: bool)
    requires O.Inv(d, wm, writing)
    ensures forall i <- d.evicted :: i < |d.log|
  {
    hide Ids, Replay, ReplayDrops, DisplacedAt;
  }

  /** Replay equivalence: at any time, replaying what is left of the log on the
      stale copy meets absent keys for `InsertUnique` and present ones for
      `Replace` and `Remove`, and yields the other copy, alias for alias. */
  lemma ReplayEquivalence<K(!new), V(!new)>(s: Sys<K, V>, i: nat)
    requires SysReachable(s) && !s.ended
    ensures var wm, writing := s.p.mem.writerMap, s.p.pc.Writing?;
            var stale, current := O.Stale(s.d, wm, writing), O.Current(s.d, wm, writing);
            && ReplayLegal(s.d.log, stale) && Replay(s.d.log, stale) == current
            && (i < |s.d.log| ==> ReplayLegal(s.d.log[..i], stale) && Legal(s.d.log[i], Replay(s.d.log[..i], stale)))
            && (s.p.pc.Ready? && s.d.log == [] ==> stale == current)
  {
    hide Inv, Shared, Replay, ReplayLegal, Legal, Ids, AbstractOk;
    SysReachableInv(s);
    var stale := O.Stale(s.d, s.p.mem.writerMap, s.p.pc.Writing?);
    if i < |s.d.log| {
      ReplayPrefix(s.d.log, i, stale);
    }
    if s.p.pc.Ready? && s.d.log == [] {
      StartKeeps(s.d, s.p.mem.writerMap);
    }
  }

  /** Leak marks the right entry: as long as an `Evicted` lives, its index names a
      log entry that is not leaky yet and displaces exactly its value, and leaking
      it takes that one value off what the replay will drop. */
  lemma LeakIsExact<K(!new), V(!new)>(s: Sys<K, V>, e: O.Evicted<V>)
    requires SysReachable(s) && !s.ended && O.Live(s.d, e)
    ensures e.operation < |s.d.log|
    ensures var stale, log' := O.Stale(s.d, s.p.mem.writerMap, s.p.pc.Writing?), O.LeakToken(s.d, e).log;
            && ReplayLegal(s.d.log, stale) && O.EvictedOk(s.d.log, stale, e.operation, e.value)
            && ReplayLegal(log', stale) && Replay(log', stale) == Replay(s.d.log, stale)
            && ReplayDrops(s.d.log, stale) == ReplayDrops(log', stale) + One(e.value.id)
  {
    hide Inv, Shared, Replay, ReplayLegal, ReplayDrops, Ids, AbstractOk, O.EvictedOk;
    SysReachableInv(s);
    LeakMarksTheRightEntry(s.d, s.p.mem.writerMap, s.p.pc.Writing?, e);
  }

  /** An `Evicted` keeps its meaning through any run in which its owner neither
      leaks nor drops it: meanwhile nothing is flushed. */
  lemma {:induction false} EvictedLasts<K, V>(s: Sys<K, V>, acts: seq<Act<K, V>>, e: O.Evicted<V>)
    requires SysInv(s) && SysRuns(s, acts) && !s.ended && O.Live(s.d, e)
    requires forall act <- acts :: !(act.LeakIt? && act.e == e) && !(act.ForgetIt? && act.e == e)
    ensures var t := SysAfter(s, acts);
            !t.ended && O.Live(t.d, e) && |s.d.log| <= |t.d.log|
    decreases |acts|
  {
    hide SysInv, Can, Do;
    if acts != [] {
      EvictedStays(s, acts[0], e);
      ActKeeps(s, acts[0]);
      EvictedLasts(Do(s, acts[0]), acts[1..], e);
    }
  }

  lemma EvictedStays<K, V>(s: Sys<K, V>, act: Act<K, V>, e: O.Evicted<V>)
    requires SysInv(s) && Can(s, act) && !s.ended && O.Live(s.d, e)
    requires !(act.LeakIt? && act.e == e) && !(act.ForgetIt? && act.e == e)
    ensures var t := Do(s, act);
            !t.ended && O.Live(t.d, e) && |s.d.log| <= |t.d.log|
  {
    hide Inv, O.Inv, AbstractOk, Shared, Next, Enabled, Apply, Legal, Drops, Displaced;
    EvictedInLog(s.d, s.p.mem.writerMap, s.p.pc.Writing?);
  }

  // ----- values given back

  lemma {:induction false} DeadStays<K, V>(s: Sys<K, V>, acts: seq<Act<K, V>>, i: nat)
    requires SysRuns(s, acts) && O.Dead(s.d, i)
    ensures O.Dead(SysAfter(s, acts).d, i)
    decreases |acts|
  {
    hide Can, Do, O.Dead;
    if acts != [] {
      DeadStaysOnce(s, acts[0], i);
      DeadStays(Do(s, acts[0]), acts[1..], i);
    }
  }

  lemma DeadStaysOnce<K, V>(s: Sys<K, V>, act: Act<K, V>, i: nat)
    requires Can(s, act) && O.Dead(s.d, i)
    ensures O.Dead(Do(s, act).d, i)
  {
    hide Next, Enabled, Apply, Legal, Drops, Displaced, Ids, Meaning;
  }

  /** A reclaimed value was alive, and from then on no guard, read or write, ever
      sees it: neither the guards alive at that moment nor any made later. */
  lemma ReclaimedIsGone<K(!new), V(!new)>(s: Sys<K, V>, token: O.Leaked<V>, acts: seq<Act<K, V>>, g: GuardId)
    requires SysReachable(s) && Can(s, Reclaim(token)) && token.uid == s.d.uid
    requires SysRuns(Do(s, Reclaim(token)), acts) && !SysAfter(Do(s, Reclaim(token)), acts).ended
    ensures !O.Dead(s.d, token.value.id)
    ensures var t := SysAfter(Do(s, Reclaim(token)), acts);
            && (g in t.p.guards && t.p.guards[g].stage.Reading? ==> token.value.id !in Ids(Seen(t, g)))
            && (t.p.pc.Writing? ==> token.value.id !in Ids(t.d.tables.Get(t.p.mem.writerMap)))
  {
    hide SysInv, SysReachable, SysRuns, SysAfter, Inv, Seen, Ids, O.Inv;
    SysReachableInv(s);
    OwnTokenIsAlive(s, token);
    var s1 := Do(s, Reclaim(token));
    ActKeeps(s, Reclaim(token));
    assert O.Dead(s1.d, token.value.id);
    DeadStays(s1, acts, token.value.id);
    SysRunKeeps(s1, acts);
    DeadIsInvisible(SysAfter(s1, acts), g, token.value.id);
  }

  lemma OwnTokenIsAlive<K, V>(s: Sys<K, V>, token: O.Leaked<V>)
    requires SysInv(s) && !s.ended && O.Outstanding(s.d, token) && token.uid == s.d.uid
    ensures !O.Dead(s.d, token.value.id)
  {
    hide Inv, O.Inv, Shared, AbstractOk, O.Dead;
    TokenIsAlive(s.d, s.p.mem.writerMap, s.p.pc.Writing?, token.value.id);
  }
}
