/** Every act of the whole map keeps its invariant. */
module SystemInv {
  import opened Prelude
  import opened Store
  import opened Cores
  import opened Protocol
  import opened ProtocolInv
  import opened ProtocolTheorems
  import opened Progress
  import opened OpLog
  import O = Ownership
  import opened OwnershipInv
  import opened System

  lemma InitSysInv<K, V>(s: Sys<K, V>)
    requires SysInit(s)
    ensures SysInv(s)
  {
    InitInv(s.p);
    O.InitialInv(s.d, s.p.mem.writerMap);
    hide Inv, O.Inv;
  }

  // ----- protocol steps

  lemma PhaseFacts(p: State, step: Step)
    requires Enabled(p, step)
    ensures var q := Next(p, step);
            && q.mem.writerMap == (if step.Lock? then p.mem.writerMap.Other() else p.mem.writerMap)
            && q.cycle == (if step.Lock? then p.cycle + 1 else p.cycle)
            && (q.pc.Writing? <==> (if step.StartWriting? then true else if step.Lock? then false else p.pc.Writing?))
            && (Untouched(q.pc) ==> Untouched(p.pc) || step.Lock?)
            && (!MayEvict(q.pc) ==> !MayEvict(p.pc) || step.Begin?)
            && (step.StartWriting? ==> !p.pc.Writing? && !MayEvict(p.pc))
            && (step.Lock? ==> p.pc.Writing? && Untouched(q.pc))
            && (Publishing(q) ==> Publishing(p) || step.Lock?)
            && (q.pc.Closed? ==> p.pc.Closed? || step.Close?)
  {
  }

  /** Only a new write guard can make the stale copy shared again. */
  lemma SharedShrinks(p: State, step: Step)
    requires Inv(p) && Enabled(p, step) && !step.StartWriting?
    ensures Shared(Next(p, step)) ==> Shared(p)
  {
    hide Inv, Owed, DebtOf, Helpful;
    PhaseFacts(p, step);
    if step.Lock? || step.Swap? {
      hide Next;
    } else {
      DebtShrinks(p, step);
    }
  }

  lemma LendingEnds(p: State, step: Step, lent: bool)
    requires LentOk(p, lent) && Enabled(p, step)
    ensures Lends(p, step, lent) && lent ==> MayLend(Next(p, step).pc) && !step.Lock? && !step.Swap?
    ensures Lends(p, step, lent) && !lent ==> Exclusive(p) && Next(p, step).pc.Idle? && step.Return?
  {
    hide Owed;
  }

  lemma ExclusiveOwesNothing(p: State)
    requires Inv(p) && Exclusive(p)
    ensures Owed(p.guards, p.versions) == {}
  {
    hide Shape, Owed;
  }

  lemma LendingKeeps(p: State, step: Step, lent: bool)
    requires Inv(p) && LentOk(p, lent) && Enabled(p, step)
    ensures LentOk(Next(p, step), Lends(p, step, lent))
  {
    hide Inv, Owed, Next, Enabled, Lends, DebtOf, Exclusive;
    LendingEnds(p, step, lent);
    if Lends(p, step, lent) {
      if !lent {
        ExclusiveOwesNothing(p);
      }
      DebtShrinks(p, step);
    }
  }

  lemma ProtocolDataOk<K, V>(s: Sys<K, V>, step: Step)
    requires Inv(s.p) && DataOk(s) && Can(s, P(step))
    ensures DataOk(Do(s, P(step)))
  {
    hide Inv, O.Inv, Next, Enabled, Untouched, MayEvict, Shared, Ids;
    PhaseFacts(s.p, step);
    if step.StartWriting? {
      StartKeeps(s.d, s.p.mem.writerMap);
      CurrentClean(s.d, s.p.mem.writerMap);
    } else {
      SharedShrinks(s.p, step);
      if step.Lock? {
        PublishKeeps(s.d, s.p.mem.writerMap);
      }
    }
  }

  lemma CurrentClean<K, V>(d: O.Data<K, V>, wm: MapIndex)
    requires O.Inv(d, wm, false) && d.log == []
    ensures Clean(d, O.Stale(d, wm, true))
  {
    hide O.Inv, Ids, O.Dead;
    forall i | i in Ids(O.Stale(d, wm, true))
      ensures !O.Dead(d, i)
    {
      O.CurrentIsAlive(d, wm, false, i);
    }
  }

  lemma ProtocolAbstractOk<K, V>(s: Sys<K, V>, step: Step)
    requires Inv(s.p) && DataOk(s) && AbstractOk(s) && Can(s, P(step))
    ensures AbstractOk(Do(s, P(step)))
  {
    hide Inv, O.Inv, Next, Enabled, Untouched, MayEvict, Shared, Clean, Contents;
    PhaseFacts(s.p, step);
    if step.StartWriting? {
      StartKeeps(s.d, s.p.mem.writerMap);
    }
  }

  // ----- edits

  lemma PutContents<K, V>(t: Table<K, V>, k: K, e: Entry<K, V>)
    ensures Contents(t[k := e]) == Contents(t)[k := e.value.value]
  {
  }

  lemma CutContents<K, V>(t: Table<K, V>, k: K)
    ensures Contents(t - {k}) == Contents(t) - {k}
  {
  }

  lemma InsertMeaning<K, V>(d: O.Data<K, V>, wm: MapIndex, k: K, v: V)
    ensures var d', t := O.Insert(d, wm, k, v), d.tables.Get(wm);
            && d'.tables.Get(wm.Other()) == d.tables.Get(wm.Other())
            && Contents(d'.tables.Get(wm)) == Contents(t)[k := v]
            && d'.evicted == if k in t then d.evicted[|d.log| := t[k].value] else d.evicted
  {
    hide Contents;
    var t := d.tables.Get(wm);
    PutContents(t, k, Entry(if k in t then t[k].key else Alias(d.next, k), Alias(d.next + 1, v)));
  }

  lemma UpdateMeaning<K, V>(d: O.Data<K, V>, wm: MapIndex, k: K, f: V -> V)
    ensures var d', t := O.Update(d, wm, k, f), d.tables.Get(wm);
            && d'.tables.Get(wm.Other()) == d.tables.Get(wm.Other())
            && Contents(d'.tables.Get(wm)) == (if k in t then Contents(t)[k := f(t[k].value.value)] else Contents(t))
            && d'.evicted == if k in t then d.evicted[|d.log| := t[k].value] else d.evicted
  {
    hide Contents;
    var t := d.tables.Get(wm);
    if k in t {
      PutContents(t, k, Entry(t[k].key, Alias(d.next + 1, f(t[k].value.value))));
    }
  }

  lemma DeleteMeaning<K, V>(d: O.Data<K, V>, wm: MapIndex, k: K)
    ensures var d', t := O.Delete(d, wm, k), d.tables.Get(wm);
            && d'.tables.Get(wm.Other()) == d.tables.Get(wm.Other())
            && Contents(d'.tables.Get(wm)) == Contents(t) - {k}
            && d'.evicted == if k in t then d.evicted[|d.log| := t[k].value] else d.evicted
  {
    CutContents(d.tables.Get(wm), k);
    if k !in d.tables.Get(wm) {
      assert Contents(d.tables.Get(wm)) - {k} == Contents(d.tables.Get(wm));
    }
  }

  ghost predicate IsEdit<K, V>(act: Act<K, V>) {
    act.Insert? || act.Update? || act.Delete? || act.DropLazily?
  }

  /** The edited copy shows what the abstract map makes of the edit, and the
      readers' copy is untouched. */
  lemma EditMeaning<K, V>(s: Sys<K, V>, act: Act<K, V>)
    requires Can(s, act) && IsEdit(act)
    ensures var t, wm := Do(s, act), s.p.mem.writerMap;
            && t.p == s.p && t.versions == s.versions && !t.ended
            && t.d.tables.Get(wm.Other()) == s.d.tables.Get(wm.Other())
            && Contents(t.d.tables.Get(wm)) == Meaning(Contents(s.d.tables.Get(wm)), act)
            && t.draft == Meaning(s.draft, act)
  {
    hide O.Insert, O.Update, O.Delete;
    var wm := s.p.mem.writerMap;
    match act
    case Insert(k, v) => InsertMeaning(s.d, wm, k, v);
    case Update(k, f) => UpdateMeaning(s.d, wm, k, f);
    case Delete(k) => DeleteMeaning(s.d, wm, k);
    case DropLazily(_) =>
  }

  lemma EditDead<K, V>(s: Sys<K, V>, act: Act<K, V>, i: nat)
    requires Can(s, act) && IsEdit(act)
    ensures O.Dead(Do(s, act).d, i) ==> O.Dead(s.d, i) || i == s.d.next
  {
  }

  lemma EditDataOk<K, V>(s: Sys<K, V>, act: Act<K, V>)
    requires DataOk(s) && Can(s, act) && IsEdit(act)
    ensures DataOk(Do(s, act))
  {
    hide O.Inv, O.Insert, O.Update, O.Delete, O.DropLazily, O.Dead, Ids, Contents, Shared, Meaning;
    var t, wm := Do(s, act), s.p.mem.writerMap;
    EditMeaning(s, act);
    match act {
      case Insert(k, v) => InsertKeeps(s.d, wm, k, v);
      case Update(k, f) => UpdateKeeps(s.d, wm, k, f);
      case Delete(k) => DeleteKeeps(s.d, wm, k);
      case DropLazily(token) => DropLazilyKeeps(s.d, wm, token);
    }
    assert O.Stale(t.d, wm, true) == O.Stale(s.d, wm, true);
    assert O.Past(O.Stale(s.d, wm, true), s.d.next) by { StaleIsPast(s.d, wm); }
    forall i | Shared(s.p) && i in Ids(O.Stale(t.d, wm, true))
      ensures !O.Dead(t.d, i)
    {
      EditDead(s, act, i);
    }
  }

  lemma StaleIsPast<K, V>(d: O.Data<K, V>, wm: MapIndex)
    requires O.Inv(d, wm, true)
    ensures O.Past(O.Stale(d, wm, true), d.next)
  {
  }

  lemma EditAbstractOk<K, V>(s: Sys<K, V>, act: Act<K, V>)
    requires AbstractOk(s) && Can(s, act) && IsEdit(act)
    ensures AbstractOk(Do(s, act))
  {
    hide Do, Contents, Meaning;
    EditMeaning(s, act);
  }

  // ----- tokens, replay, and the end

  lemma TokenActOk<K, V>(s: Sys<K, V>, act: Act<K, V>)
    requires Inv(s.p) && LentOk(s.p, s.lent) && DataOk(s) && AbstractOk(s) && Can(s, act)
    requires act.LeakIt? || act.ForgetIt? || act.Reclaim?
    ensures DataOk(Do(s, act)) && AbstractOk(Do(s, act))
  {
    hide Inv, O.Inv, Ids, Contents, Owed;
    var wm, writing := s.p.mem.writerMap, s.p.pc.Writing?;
    match act
    case LeakIt(e) => LeakKeeps(s.d, wm, writing, e);
    case ForgetIt(e) => ForgetKeeps(s.d, wm, writing, e);
    case Reclaim(token) =>
      ReclaimKeeps(s.d, wm, token);
      assert !Shared(s.p);
  }

  /** When `synchronize` has returned no guard reads the stale copy. */
  lemma NotShared(p: State)
    requires Inv(p) && p.pc.Ready?
    ensures !Shared(p)
  {
    hide Shape, Owed;
  }

  lemma FlushOk<K, V>(s: Sys<K, V>)
    requires Inv(s.p) && DataOk(s) && AbstractOk(s) && Can(s, Flush)
    ensures DataOk(Do(s, Flush)) && AbstractOk(Do(s, Flush))
  {
    hide Inv, O.Inv, Ids, Contents, Shared, Legal, Drops, Apply;
    FlushKeeps(s.d, s.p.mem.writerMap);
    NotShared(s.p);
  }

  lemma EndOk<K, V>(s: Sys<K, V>)
    requires Inv(s.p) && LentOk(s.p, s.lent) && DataOk(s) && Can(s, End)
    ensures SysInv(Do(s, End))
  {
    hide Inv, O.Inv, Ids, Shared, O.Settled, LentOk;
    DrainEnds(s.d, s.p.mem.writerMap);
  }

  lemma ActKeeps<K, V>(s: Sys<K, V>, act: Act<K, V>)
    requires SysInv(s) && Can(s, act)
    ensures SysInv(Do(s, act))
  {
    hide Inv, DataOk, AbstractOk, LentOk, Next, Enabled;
    match act
    case P(step) =>
      StepKeeps(s.p, step);
      LendingKeeps(s.p, step, s.lent);
      ProtocolDataOk(s, step);
      ProtocolAbstractOk(s, step);
    case LeakIt(_) => TokenActOk(s, act);
    case ForgetIt(_) => TokenActOk(s, act);
    case Reclaim(_) => TokenActOk(s, act);
    case Flush => FlushOk(s);
    case End => EndOk(s);
    case _ =>
      EditDataOk(s, act);
      EditAbstractOk(s, act);
  }

  /** The invariant holds after every run of the whole map. */
  lemma {:induction false} SysRunKeeps<K, V>(s: Sys<K, V>, acts: seq<Act<K, V>>)
    requires SysInv(s) && SysRuns(s, acts)
    ensures SysInv(SysAfter(s, acts))
    decreases |acts|
  {
    hide SysInv, Can, Do;
    if acts != [] {
      ActKeeps(s, acts[0]);
      SysRunKeeps(Do(s, acts[0]), acts[1..]);
    }
  }
}
