/** What becomes of every key and value, told from the acts alone: how many were
    given, and which were leaked, returned or handed back to be dropped. */
module SystemFates {
  import opened Prelude
  import opened Store
  import opened Cores
  import opened Protocol
  import opened ProtocolInv
  import opened ProtocolTheorems
  import opened OpLog
  import O = Ownership
  import opened OwnershipInv
  import opened System
  import opened SystemInv
  import opened SystemTheorems

  // ----- how many keys and values were given

  /** The keys and values that an act passes to the map. A replacement computes its
      value only when the abstract map has the key. */
  function Passes<K, V>(draft: map<K, V>, act: Act<K, V>): nat {
    match act
    case Insert(_, _) => 2
    case Update(k, _) => if k in draft then 2 else 1
    case Delete(_) => 1
    case _ => 0
  }

  ghost function Passed<K, V>(s: Sys<K, V>, acts: seq<Act<K, V>>): nat
    requires SysRuns(s, acts)
    decreases |acts|
  {
    if acts == [] then 0 else Passes(s.draft, acts[0]) + Passed(Do(s, acts[0]), acts[1..])
  }

  /** While a write guard is live, the draft has the keys of the writer's table. */
  lemma DraftKeys<K, V>(s: Sys<K, V>, k: K)
    requires SysInv(s) && !s.ended && s.p.pc.Writing?
    ensures k in s.draft <==> k in s.d.tables.Get(s.p.mem.writerMap)
  {
    hide Inv, DataOk, LentOk;
  }

  lemma PassedStep<K, V>(s: Sys<K, V>, act: Act<K, V>)
    requires SysInv(s) && Can(s, act)
    ensures Do(s, act).d.next == s.d.next + Passes(s.draft, act) && Do(s, act).d.uid == s.d.uid
  {
    hide SysInv, Enabled, Next, Apply, Legal, Drops, Displaced, Ids, Meaning, Lends;
    if act.Update? || act.Delete? {
      DraftKeys(s, act.k);
    }
  }

  // ----- which aliases an edit stores

  /** An edit changes one entry of the writer's table and nothing of the readers'.
      An entry keeps the key alias it was first inserted with; a new value, and the
      key of a new entry, are the ones just given. */
  lemma EditWritesOneEntry<K, V>(s: Sys<K, V>, act: Act<K, V>)
    requires Can(s, act) && (act.Insert? || act.Update? || act.Delete?)
    ensures var t, wm := Do(s, act), s.p.mem.writerMap;
            var m, n := s.d.tables.Get(wm), s.d.next;
            && t.d.tables.Get(wm.Other()) == s.d.tables.Get(wm.Other())
            && t.d.tables.Get(wm) ==
               match act
               case Insert(k, v) => m[k := Entry(if k in m then m[k].key else Alias(n, k), Alias(n + 1, v))]
               case Update(k, f) =>
                 if k in m then m[k := Entry(m[k].key, Alias(n + 1, f(m[k].value.value)))] else m
               case Delete(k) => m - {k}
               case _ => m
  {
    hide Enabled, Next, Meaning, O.Insert, O.Update, O.Delete;
    var wm := s.p.mem.writerMap;
    match act
    case Insert(k, v) => InsertWrites(s.d, wm, k, v);
    case Update(k, f) => UpdateWrites(s.d, wm, k, f);
    case Delete(k) => DeleteWrites(s.d, wm, k);
  }

  lemma InsertWrites<K, V>(d: O.Data<K, V>, wm: MapIndex, k: K, v: V)
    ensures var d', m := O.Insert(d, wm, k, v), d.tables.Get(wm);
            && d'.tables.Get(wm.Other()) == d.tables.Get(wm.Other())
            && d'.tables.Get(wm)
               == m[k := Entry(if k in m then m[k].key else Alias(d.next, k), Alias(d.next + 1, v))]
  {
  }

  lemma UpdateWrites<K, V>(d: O.Data<K, V>, wm: MapIndex, k: K, f: V -> V)
    ensures var d', m := O.Update(d, wm, k, f), d.tables.Get(wm);
            && d'.tables.Get(wm.Other()) == d.tables.Get(wm.Other())
            && d'.tables.Get(wm)
               == if k in m then m[k := Entry(m[k].key, Alias(d.next + 1, f(m[k].value.value)))] else m
  {
  }

  lemma DeleteWrites<K, V>(d: O.Data<K, V>, wm: MapIndex, k: K)
    ensures var d', m := O.Delete(d, wm, k), d.tables.Get(wm);
            && d'.tables.Get(wm.Other()) == d.tables.Get(wm.Other())
            && d'.tables.Get(wm) == m - {k}
  {
    if k !in d.tables.Get(wm) {
      assert d.tables.Get(wm) - {k} == d.tables.Get(wm);
    }
  }

  // ----- edits that find no key

  /** An edit of an absent key gives the map that one key, and the map drops it at
      once, and nothing else happens. */
  lemma AbsentKeyIsDropped<K(!new), V(!new)>(s: Sys<K, V>, act: Act<K, V>)
    requires SysReachable(s) && Can(s, act) && (act.Update? || act.Delete?) && act.k !in s.draft
    ensures var t := Do(s, act);
            && t.d.next == s.d.next + 1 && t.d.dropped == s.d.dropped + One(s.d.next) && t.d.dropped[s.d.next] == 1
            && t == s.(d := s.d.(next := t.d.next, dropped := t.d.dropped))
  {
    hide Inv, O.Inv, Shared, Contents;
    SysReachableInv(s);
    DraftKeys(s, act.k);
    NextIsNew(s.d, s.p.mem.writerMap);
  }

  // ----- tokens

  /** How often the acts leak an identity, take it back, or hand it back to be
      dropped lazily; tokens of other maps do not count. */
  datatype Tally = Tally(leaks: nat, reclaims: nat, lazies: nat)
  {
    function Plus(other: Tally): Tally {
      Tally(leaks + other.leaks, reclaims + other.reclaims, lazies + other.lazies)
    }
  }

  function TallyOf<K, V>(act: Act<K, V>, uid: nat, i: nat): Tally {
    match act
    case LeakIt(e) => if e.value.id == i then Tally(1, 0, 0) else Tally(0, 0, 0)
    case Reclaim(token) => if token.uid == uid && token.value.id == i then Tally(0, 1, 0) else Tally(0, 0, 0)
    case DropLazily(token) => if token.uid == uid && token.value.id == i then Tally(0, 0, 1) else Tally(0, 0, 0)
    case _ => Tally(0, 0, 0)
  }

  function Tallied<K, V>(acts: seq<Act<K, V>>, uid: nat, i: nat): Tally {
    if acts == [] then Tally(0, 0, 0) else TallyOf(acts[0], uid, i).Plus(Tallied(acts[1..], uid, i))
  }

  lemma EvictedIsNotLeaked<K, V>(d: O.Data<K, V>, wm: MapIndex, writing: bool, e: O.Evicted<V>)
    requires O.Inv(d, wm, writing) && O.Live(d, e)
    ensures e.value.id !in d.leaked
  {
    hide Ids, Replay, ReplayLegal, ReplayDrops, O.EvictedOk, O.Given, O.Filed, One;
    LeakMarksTheRightEntry(d, wm, writing, e);
    var stale := O.Stale(d, wm, writing);
    InPart(ReplayDrops(d.log, stale), ReplayDrops(O.LeakToken(d, e).log, stale), e.value.id);
    O.OnePlace(d, stale, O.Current(d, wm, writing), e.value.id);
  }

  /** 1 if the identity is out as a token. */
  function Out<K, V>(d: O.Data<K, V>, i: nat): nat {
    if i in d.leaked then 1 else 0
  }

  lemma FateStep<K, V>(s: Sys<K, V>, act: Act<K, V>, i: nat)
    requires SysInv(s) && Can(s, act)
    ensures var t, c := Do(s, act), TallyOf(act, s.d.uid, i);
            && t.d.returned[i] == s.d.returned[i] + c.reclaims
            && Out(t.d, i) + c.reclaims + c.lazies == Out(s.d, i) + c.leaks
  {
    hide Inv, O.Inv, Enabled, Next, Apply, Legal, Drops, Displaced, Ids, Meaning, Lends, AbstractOk, LentOk, Shared;
    if act.LeakIt? {
      EvictedIsNotLeaked(s.d, s.p.mem.writerMap, s.p.pc.Writing?, act.e);
    }
  }

  lemma {:induction false} FateRun<K, V>(s: Sys<K, V>, acts: seq<Act<K, V>>, i: nat)
    requires SysInv(s) && SysRuns(s, acts)
    ensures var t, c := SysAfter(s, acts), Tallied(acts, s.d.uid, i);
            && SysInv(t) && t.d.uid == s.d.uid
            && t.d.next == s.d.next + Passed(s, acts)
            && t.d.returned[i] == s.d.returned[i] + c.reclaims
            && Out(t.d, i) + c.reclaims + c.lazies == Out(s.d, i) + c.leaks
    decreases |acts|
  {
    hide SysInv, Can, Do, TallyOf, Passes;
    if acts != [] {
      PassedStep(s, acts[0]);
      FateStep(s, acts[0], i);
      ActKeeps(s, acts[0]);
      FateRun(Do(s, acts[0]), acts[1..], i);
    }
  }

  /** The user decides every fate. Over every run the map has been given exactly the
      keys and values that its acts pass; those given back are exactly those
      reclaimed, those still out exactly those leaked and not brought back; and when
      the map has ended, all others, and nothing else, have been dropped once. */
  lemma FateFollowsActs<K(!new), V(!new)>(s0: Sys<K, V>, acts: seq<Act<K, V>>, i: nat)
    requires SysInit(s0) && SysRuns(s0, acts)
    ensures var t, c, given := SysAfter(s0, acts), Tallied(acts, s0.d.uid, i), Passed(s0, acts);
            && t.d.next == given
            && t.d.returned[i] == c.reclaims <= 1
            && c.reclaims + c.lazies <= c.leaks <= c.reclaims + c.lazies + 1
            && (i in t.d.leaked <==> c.leaks == c.reclaims + c.lazies + 1)
            && (t.ended ==> t.d.dropped[i] + c.leaks == (if i < given then 1 else 0) + c.lazies)
  {
    hide SysInv, SysRuns, SysAfter, Inv, O.Settled, Tallied, Passed;
    InitSysInv(s0);
    FateRun(s0, acts, i);
    OneFate(SysAfter(s0, acts), i);
  }

  lemma OneFate<K, V>(s: Sys<K, V>, i: nat)
    requires SysInv(s)
    ensures s.d.returned[i] + s.d.dropped[i] + Out(s.d, i) <= 1
    ensures s.ended ==> s.d.returned[i] + s.d.dropped[i] + Out(s.d, i) == if i < s.d.next then 1 else 0
  {
    hide Inv, LentOk, Ids, Replay, ReplayLegal, ReplayDrops, AbstractOk, Shared, O.EvictedOk, O.Filed, O.Given;
    if s.ended {
      assert O.Settled(s.d, i);
    } else {
      var wm, writing := s.p.mem.writerMap, s.p.pc.Writing?;
      O.OnePlace(s.d, O.Stale(s.d, wm, writing), O.Current(s.d, wm, writing), i);
    }
  }

  // ----- spent tokens

  /** The log has been told to drop the identity. */
  ghost predicate Enlisted<K, V>(log: Log<K, V>, i: nat) {
    exists j :: 0 <= j < |log| && log[j].raw.Drop? && log[j].raw.value.id == i
  }

  /** The value of a token that was used up. */
  ghost predicate Spent<K, V>(d: O.Data<K, V>, i: nat) {
    O.Dead(d, i) || Enlisted(d.log, i)
  }

  lemma {:induction false} EnlistedDrops<K, V>(log: Log<K, V>, t: Table<K, V>, i: nat)
    requires ReplayLegal(log, t) && Enlisted(log, i)
    ensures i in ReplayDrops(log, t)
    decreases |log|
  {
    var j :| 0 <= j < |log| && log[j].raw.Drop? && log[j].raw.value.id == i;
    if j > 0 {
      assert log[1..][j - 1] == log[j];
      EnlistedDrops(log[1..], Apply(log[0], t), i);
    }
  }

  lemma SpentIsNotOut<K, V>(s: Sys<K, V>, i: nat)
    requires SysInv(s) && !s.ended && Spent(s.d, i)
    ensures i !in s.d.leaked
    ensures s.d.log == [] ==> s.d.dropped[i] + s.d.returned[i] == 1
  {
    hide Inv, LentOk, Ids, Replay, ReplayLegal, ReplayDrops, AbstractOk, Shared, O.EvictedOk, O.Filed, Enlisted;
    var wm, writing := s.p.mem.writerMap, s.p.pc.Writing?;
    var stale := O.Stale(s.d, wm, writing);
    O.OnePlace(s.d, stale, O.Current(s.d, wm, writing), i);
    if Enlisted(s.d.log, i) {
      EnlistedDrops(s.d.log, stale, i);
      NotEmpty(s.d.log, i);
    }
  }

  lemma NotEmpty<K, V>(log: Log<K, V>, i: nat)
    requires Enlisted(log, i)
    ensures log != []
  {
  }

  lemma EnlistedAppend<K, V>(log: Log<K, V>, op: Operation<K, V>, i: nat)
    requires Enlisted(log, i) || (op.raw.Drop? && op.raw.value.id == i)
    ensures Enlisted(log + [op], i)
  {
    if Enlisted(log, i) {
      var j :| 0 <= j < |log| && log[j].raw.Drop? && log[j].raw.value.id == i;
      assert (log + [op])[j] == log[j];
    } else {
      assert (log + [op])[|log|] == op;
    }
  }

  lemma EnlistedLeak<K, V>(log: Log<K, V>, j: nat, i: nat)
    requires j < |log| && Enlisted(log, i)
    ensures Enlisted(Leak(log, j), i)
  {
    var n :| 0 <= n < |log| && log[n].raw.Drop? && log[n].raw.value.id == i;
    assert Leak(log, j)[n].raw == log[n].raw;
  }

  lemma EnlistedFlush<K, V>(log: Log<K, V>, t: Table<K, V>, i: nat)
    requires log != [] && Legal(log[0], t) && Enlisted(log, i)
    ensures i in Drops(log[0], t) || Enlisted(log[1..], i)
  {
    var n :| 0 <= n < |log| && log[n].raw.Drop? && log[n].raw.value.id == i;
    if n > 0 {
      assert log[1..][n - 1] == log[n];
    }
  }

  lemma SpentStaysOnce<K, V>(s: Sys<K, V>, act: Act<K, V>, i: nat)
    requires Can(s, act) && !act.End? && Spent(s.d, i)
    ensures Spent(Do(s, act).d, i)
  {
    hide Enlisted, O.Dead, Next, Enabled, Apply, Legal, Drops, Displaced, Ids, Meaning, Lends;
    if O.Dead(s.d, i) {
      DeadStaysOnce(s, act, i);
    } else {
      var log, log' := s.d.log, Do(s, act).d.log;
      match act
      case Insert(_, _) | Update(_, _) | Delete(_) | DropLazily(_) =>
        if log' != log {
          assert log' == log + [log'[|log|]];
          EnlistedAppend(log, log'[|log|], i);
        }
      case LeakIt(e) => EnlistedLeak(log, e.operation, i);
      case Flush =>
        EnlistedFlush(log, s.d.tables.Get(s.p.mem.writerMap), i);
        if i in Drops(log[0], s.d.tables.Get(s.p.mem.writerMap)) {
          FlushKills(s, i);
        }
      case _ =>
    }
  }

  lemma FlushKills<K, V>(s: Sys<K, V>, i: nat)
    requires Can(s, Flush) && i in Drops(s.d.log[0], s.d.tables.Get(s.p.mem.writerMap))
    ensures O.Dead(Do(s, Flush).d, i)
  {
    hide Apply, Legal, Drops;
  }

  lemma {:induction false} SpentStays<K, V>(s: Sys<K, V>, acts: seq<Act<K, V>>, i: nat)
    requires SysInv(s) && SysRuns(s, acts) && Spent(s.d, i)
    ensures var t := SysAfter(s, acts);
            SysInv(t) && (!t.ended ==> Spent(t.d, i))
    decreases |acts|
  {
    hide SysInv, Can, Do, Spent;
    if acts != [] {
      ActKeeps(s, acts[0]);
      if acts[0].End? {
        EndIsLast(s, acts);
      } else {
        SpentStaysOnce(s, acts[0], i);
        SpentStays(Do(s, acts[0]), acts[1..], i);
      }
    }
  }

  lemma EndIsLast<K, V>(s: Sys<K, V>, acts: seq<Act<K, V>>)
    requires SysRuns(s, acts) && acts != [] && acts[0].End?
    ensures acts[1..] == [] && SysAfter(s, acts) == Do(s, End) && Do(s, End).ended
  {
    EndedIsStuck(Do(s, End), acts[1..]);
  }

  lemma EndedIsStuck<K, V>(s: Sys<K, V>, acts: seq<Act<K, V>>)
    requires s.ended && SysRuns(s, acts)
    ensures acts == []
  {
  }

  /** A token works once. After it has been reclaimed or handed back to be dropped,
      no run ever gets to a state where a token of the same value could be. */
  lemma TokenIsSpent<K(!new), V(!new)>(s: Sys<K, V>, act: Act<K, V>, acts: seq<Act<K, V>>, token: O.Leaked<V>)
    requires SysReachable(s) && Can(s, act) && (act.Reclaim? || act.DropLazily?) && act.token.uid == s.d.uid
    requires SysRuns(Do(s, act), acts) && token.uid == s.d.uid && token.value.id == act.token.value.id
    ensures var t := SysAfter(Do(s, act), acts);
            !Can(t, Reclaim(token)) && !Can(t, DropLazily(token))
  {
    hide SysInv, SysReachable, SysRuns, SysAfter, Can, Do, Spent;
    SysReachableInv(s);
    ActKeeps(s, act);
    SpendsIt(s, act);
    SpentStays(Do(s, act), acts, act.token.value.id);
    SameUid(Do(s, act), acts);
    NeverAgain(SysAfter(Do(s, act), acts), token);
  }

  lemma NeverAgain<K, V>(s: Sys<K, V>, token: O.Leaked<V>)
    requires SysInv(s) && (!s.ended ==> Spent(s.d, token.value.id)) && token.uid == s.d.uid
    ensures !Can(s, Reclaim(token)) && !Can(s, DropLazily(token))
  {
    hide SysInv, Spent;
    if !s.ended {
      SpentIsNotOut(s, token.value.id);
    }
  }

  lemma SpendsIt<K, V>(s: Sys<K, V>, act: Act<K, V>)
    requires Can(s, act) && (act.Reclaim? || act.DropLazily?) && act.token.uid == s.d.uid
    ensures Spent(Do(s, act).d, act.token.value.id) && Do(s, act).d.uid == s.d.uid
  {
    hide Enlisted, Enabled, Next;
    if act.DropLazily? {
      EnlistedAppend(s.d.log, Operation(Drop(act.token.value), false), act.token.value.id);
    }
  }

  lemma {:induction false} SameUid<K, V>(s: Sys<K, V>, acts: seq<Act<K, V>>)
    requires SysRuns(s, acts)
    ensures SysAfter(s, acts).d.uid == s.d.uid
    decreases |acts|
  {
    hide Can, Do;
    if acts != [] {
      SameUidOnce(s, acts[0]);
      SameUid(Do(s, acts[0]), acts[1..]);
    }
  }

  lemma SameUidOnce<K, V>(s: Sys<K, V>, act: Act<K, V>)
    requires Can(s, act)
    ensures Do(s, act).d.uid == s.d.uid
  {
    hide Enabled, Next, Apply, Legal, Drops, Displaced, Ids, Meaning, Lends;
  }

  /** Reclaiming an own token takes it in and gives the value back, for good; with a
      foreign one nothing happens. */
  lemma ReclaimGivesBack<K(!new), V(!new)>(s: Sys<K, V>, token: O.Leaked<V>)
    requires SysReachable(s) && Can(s, Reclaim(token))
    ensures var t, i := Do(s, Reclaim(token)), token.value.id;
            && t.p == s.p && t.d.tables == s.d.tables && t.d.log == s.d.log && t.d.dropped == s.d.dropped
            && (token.uid != s.d.uid ==> t == s)
            && (token.uid == s.d.uid ==>
                  && i in s.d.leaked && !O.Dead(s.d, i)
                  && t.d.leaked == s.d.leaked - {i} && t.d.returned == s.d.returned + One(i)
                  && t.d.returned[i] == 1 && t.d.dropped[i] == 0)
  {
    hide SysInv, SysReachable;
    SysReachableInv(s);
    OneFate(s, token.value.id);
  }

  /** Handing an own token back puts its value, once, on what the replay will drop,
      and changes nothing else; a foreign one changes nothing at all. */
  lemma DropLazilyEnlists<K(!new), V(!new)>(s: Sys<K, V>, token: O.Leaked<V>)
    requires SysReachable(s) && Can(s, DropLazily(token))
    ensures var t, i, stale := Do(s, DropLazily(token)), token.value.id, O.Stale(s.d, s.p.mem.writerMap, true);
            && (token.uid != s.d.uid ==> t == s)
            && (token.uid == s.d.uid ==>
                  && i in s.d.leaked && t.d.leaked == s.d.leaked - {i}
                  && t == s.(d := s.d.(log := t.d.log, leaked := t.d.leaked))
                  && ReplayLegal(s.d.log, stale) && ReplayLegal(t.d.log, stale)
                  && Replay(t.d.log, stale) == Replay(s.d.log, stale)
                  && ReplayDrops(t.d.log, stale) == ReplayDrops(s.d.log, stale) + One(i))
  {
    hide Inv, LentOk, Shared, Ids, Replay, ReplayLegal, ReplayDrops, AbstractOk, O.EvictedOk, O.Filed, One;
    SysReachableInv(s);
    if token.uid == s.d.uid {
      ReplayAppend(s.d.log, Operation(Drop(token.value), false), O.Stale(s.d, s.p.mem.writerMap, true));
      SameTables(s.d.tables, s.p.mem.writerMap);
    }
  }

  lemma SameTables<T>(tables: Tables<T>, wm: MapIndex)
    ensures tables.Set(wm, tables.Get(wm)) == tables
  {
  }

  /** A value handed back to be dropped lazily is dropped, exactly once, by the time
      the log is next empty, whatever happens in between. */
  lemma LazyDropHappens<K(!new), V(!new)>(s: Sys<K, V>, token: O.Leaked<V>, acts: seq<Act<K, V>>)
    requires SysReachable(s) && Can(s, DropLazily(token)) && token.uid == s.d.uid
    requires SysRuns(Do(s, DropLazily(token)), acts)
    ensures var t := SysAfter(Do(s, DropLazily(token)), acts);
            !t.ended && t.d.log == [] ==> t.d.dropped[token.value.id] == 1 && t.d.returned[token.value.id] == 0
  {
    hide SysInv, SysReachable, SysRuns, SysAfter, Can, Do, Spent;
    SysReachableInv(s);
    var s1, i := Do(s, DropLazily(token)), token.value.id;
    ActKeeps(s, DropLazily(token));
    SpendsIt(s, DropLazily(token));
    SpentStays(s1, acts, i);
    var t := SysAfter(s1, acts);
    if !t.ended && t.d.log == [] {
      SpentIsNotOut(t, i);
      NotReturned(s, token, acts);
    }
  }

  lemma NotReturned<K, V>(s: Sys<K, V>, token: O.Leaked<V>, acts: seq<Act<K, V>>)
    requires SysInv(s) && Can(s, DropLazily(token)) && token.uid == s.d.uid
    requires SysRuns(Do(s, DropLazily(token)), acts)
    ensures SysAfter(Do(s, DropLazily(token)), acts).d.returned[token.value.id] == 0
  {
    hide SysInv, SysRuns, SysAfter, Spent;
    OneFate(s, token.value.id);
    ActKeeps(s, DropLazily(token));
    SpendsIt(s, DropLazily(token));
    StaysUnreturned(Do(s, DropLazily(token)), acts, token.value.id);
  }

  lemma {:induction false} StaysUnreturned<K, V>(s: Sys<K, V>, acts: seq<Act<K, V>>, i: nat)
    requires SysInv(s) && SysRuns(s, acts) && Spent(s.d, i) && s.d.returned[i] == 0
    ensures SysAfter(s, acts).d.returned[i] == 0
    decreases |acts|
  {
    hide SysInv, Can, Do, Spent;
    if acts != [] {
      FateStep(s, acts[0], i);
      if acts[0].Reclaim? && acts[0].token.uid == s.d.uid && acts[0].token.value.id == i {
        SysRunsOne(s, acts);
        NeverAgain(s, acts[0].token);
        assert false;
      }
      ActKeeps(s, acts[0]);
      if acts[0].End? {
        EndIsLast(s, acts);
      } else {
        SpentStaysOnce(s, acts[0], i);
        StaysUnreturned(Do(s, acts[0]), acts[1..], i);
      }
    }
  }

  lemma SysRunsOne<K, V>(s: Sys<K, V>, acts: seq<Act<K, V>>)
    requires SysRuns(s, acts) && acts != []
    ensures Can(s, acts[0])
  {
  }

  // ----- a reclaimer keeps working

  lemma {:induction false} LentStays<K, V>(s: Sys<K, V>, acts: seq<Act<K, V>>, token: O.Leaked<V>)
    requires SysInv(s) && SysRuns(s, acts) && !s.ended && s.lent && O.Outstanding(s.d, token)
    requires forall act <- acts ::
               && !(act.P? && act.step.Begin? && (act.step.why == ForGuard || act.step.why == ForDrop))
               && !(act.Reclaim? && act.token.uid == s.d.uid && act.token.value.id == token.value.id)
    ensures var t := SysAfter(s, acts);
            t.p.aborted || Can(t, Reclaim(token))
    decreases |acts|
  {
    hide SysInv, Can, Do;
    if acts == [] {
      LentReclaims(s, token);
    } else {
      LentStep(s, acts[0], token);
      ActKeeps(s, acts[0]);
      LentStays(Do(s, acts[0]), acts[1..], token);
    }
  }

  lemma LentReclaims<K, V>(s: Sys<K, V>, token: O.Leaked<V>)
    requires !s.ended && s.lent && O.Outstanding(s.d, token)
    ensures s.p.aborted || Can(s, Reclaim(token))
  {
  }

  lemma LentStep<K, V>(s: Sys<K, V>, act: Act<K, V>, token: O.Leaked<V>)
    requires SysInv(s) && Can(s, act) && s.lent && O.Outstanding(s.d, token)
    requires !(act.P? && act.step.Begin? && (act.step.why == ForGuard || act.step.why == ForDrop))
    requires !(act.Reclaim? && act.token.uid == s.d.uid && act.token.value.id == token.value.id)
    ensures var t := Do(s, act);
            !t.ended && t.lent && t.d.uid == s.d.uid && O.Outstanding(t.d, token)
  {
    hide Inv, O.Inv, Enabled, Next, Apply, Legal, Drops, Displaced, Ids, Meaning, AbstractOk, Shared, Owed;
    if act.LeakIt? {
      EvictedIsNotLeaked(s.d, s.p.mem.writerMap, s.p.pc.Writing?, act.e);
    }
  }

  /** A function returned by `reclaimer` accepts every token that is still out, until
      the next write guard begins, whatever else runs. */
  lemma ReclaimerKeepsWorking<K(!new), V(!new)>(s: Sys<K, V>, acts: seq<Act<K, V>>, token: O.Leaked<V>)
    requires SysReachable(s) && s.p.pc == Ready(ForReclaim) && Can(s, P(Return)) && O.Outstanding(s.d, token)
    requires SysRuns(Do(s, P(Return)), acts)
    requires forall act <- acts ::
               && !(act.P? && act.step.Begin? && (act.step.why == ForGuard || act.step.why == ForDrop))
               && !(act.Reclaim? && act.token.uid == s.d.uid && act.token.value.id == token.value.id)
    ensures var t := SysAfter(Do(s, P(Return)), acts);
            t.p.aborted || Can(t, Reclaim(token))
  {
    hide SysInv, SysReachable, SysRuns, SysAfter, Can;
    SysReachableInv(s);
    ActKeeps(s, P(Return));
    LentStays(Do(s, P(Return)), acts, token);
  }

  /** A live write guard takes every edit and every token, its own or foreign; and
      every living `Evicted` can be leaked, during the guard and after it. */
  lemma WriterTakesAll<K(!new), V(!new)>(s: Sys<K, V>, k: K, v: V, f: V -> V, token: O.Leaked<V>, e: O.Evicted<V>)
    requires SysReachable(s) && !s.ended && !s.p.aborted
    ensures s.p.pc.Writing? ==> Can(s, Insert(k, v)) && Can(s, Update(k, f)) && Can(s, Delete(k))
    ensures s.p.pc.Writing? && O.Outstanding(s.d, token) ==> Can(s, DropLazily(token))
    ensures (s.p.pc.Writing? || s.p.pc.Idle?) && O.Live(s.d, e) ==> Can(s, LeakIt(e)) && Can(s, ForgetIt(e))
  {
    hide Inv, O.Inv, AbstractOk, LentOk, Shared;
    SysReachableInv(s);
    EvictedInLog(s.d, s.p.mem.writerMap, s.p.pc.Writing?);
  }
}
