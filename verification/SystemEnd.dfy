/** The map can always be brought to its end, unless the process is about to abort:
    no step that leads there is missing. */
module SystemEnd {
  import opened Prelude
  import opened Store
  import opened RefCounts
  import opened Cores
  import opened Protocol
  import opened ProtocolInv
  import opened ProtocolTheorems
  import opened Progress
  import opened OpLog
  import O = Ownership
  import opened OwnershipInv
  import opened System
  import opened SystemInv
  import opened SystemTheorems

  /** No abort has happened, and none is under way. */
  ghost predicate Sane(p: State) {
    !p.aborted && !Doomed(p) && forall g <- p.guards :: !p.guards[g].stage.Failing?
  }

  // ----- the guards end

  ghost function AllReading(guards: map<GuardId, Guard>): set<GuardId> {
    set g | g in guards && guards[g].stage.Reading?
  }

  lemma ReadingEnds(p: State, g: GuardId)
    requires Enabled(p, EndGuard(g)) && Sane(p)
    ensures var q := Next(p, EndGuard(g));
            Sane(q) && |AllReading(q.guards)| < |AllReading(p.guards)|
  {
    var q := Next(p, EndGuard(g));
    assert AllReading(q.guards) == AllReading(p.guards) - {g} && g in AllReading(p.guards);
  }

  lemma ReleasingEnds(p: State, g: GuardId)
    requires Enabled(p, FetchSub(g)) && Sane(p)
    ensures var q := Next(p, FetchSub(g));
            Sane(q) && AllReading(q.guards) == AllReading(p.guards) && |Releasers(q.guards)| < |Releasers(p.guards)|
  {
    var q := Next(p, FetchSub(g));
    assert AllReading(q.guards) == AllReading(p.guards);
    assert Releasers(q.guards) == Releasers(p.guards) - {g} && g in Releasers(p.guards);
  }

  lemma StoringEnds(p: State, g: GuardId)
    requires Enabled(p, StoreZero(g)) && Sane(p)
    ensures var q := Next(p, StoreZero(g));
            && Sane(q) && AllReading(q.guards) == AllReading(p.guards) && Releasers(q.guards) == Releasers(p.guards)
            && |Storers(q.guards)| < |Storers(p.guards)|
  {
    var q := Next(p, StoreZero(g));
    assert AllReading(q.guards) == AllReading(p.guards) && Releasers(q.guards) == Releasers(p.guards);
    assert Storers(q.guards) == Storers(p.guards) - {g} && g in Storers(p.guards);
  }

  lemma WakingEnds(p: State, g: GuardId)
    requires Enabled(p, Unpark(g)) && Sane(p)
    ensures var q := Next(p, Unpark(g));
            && Sane(q) && AllReading(q.guards) == AllReading(p.guards) && Releasers(q.guards) == Releasers(p.guards)
            && Storers(q.guards) == Storers(p.guards) && |q.guards| < |p.guards|
  {
    var q := Next(p, Unpark(g));
    assert q.guards.Keys == p.guards.Keys - {g};
    assert |q.guards| == |q.guards.Keys| && |p.guards| == |p.guards.Keys|;
  }

  /** The next step of a guard's owner. */
  function Leaves(guard: Guard, g: GuardId): Step {
    match guard.stage
    case Reading => EndGuard(g)
    case Failing => Abort(g)
    case Releasing => FetchSub(g)
    case Storing => StoreZero(g)
    case Waking(_) => Unpark(g)
  }

  lemma GuardLeaves(p: State) returns (step: Step)
    requires Inv(p) && Sane(p) && p.guards != map[]
    ensures Enabled(p, step) && (step.EndGuard? || step.FetchSub? || step.StoreZero? || step.Unpark?)
    ensures Sane(Next(p, step))
    ensures var a, b := p.guards, Next(p, step).guards;
            || |AllReading(b)| < |AllReading(a)|
            || (AllReading(b) == AllReading(a)
                && (|| |Releasers(b)| < |Releasers(a)|
                    || (Releasers(b) == Releasers(a)
                        && (|Storers(b)| < |Storers(a)| || (Storers(b) == Storers(a) && |b| < |a|)))))
  {
    hide Inv, Next, AllReading, Releasers, Storers, Doomed;
    HandlesKnown(p);
    var g :| g in p.guards;
    step := Leaves(p.guards[g], g);
    match step
    case EndGuard(_) => ReadingEnds(p, g);
    case FetchSub(_) => ReleasingEnds(p, g);
    case StoreZero(_) => StoringEnds(p, g);
    case Unpark(_) => WakingEnds(p, g);
  }

  // ----- the writer ends

  /** How far the writer is from the end, call by call: one more write guard if it
      is inside one, then the final drop. */
  function Base(why: Why): nat {
    match why
    case ForDrop => 1
    case Bare | ForReclaim => 10
    case ForGuard => 20
  }

  function Stage(pc: Pc): nat {
    match pc
    case Closed => 0
    case Idle => 9
    case Adding(_) => 17
    case Swapping(_, _, _) => 18
    case Writing => 19
    case _ => Base(pc.why) + Left(pc)
  }

  /** What is left to do at one stage. */
  function Chores<K, V>(s: Sys<K, V>): nat {
    |s.d.log| + |s.d.evicted|
    + (if s.p.pc.Swapping? then 2 * |s.p.pc.todo| + (if s.p.pc.checked then 0 else 1) else 0)
    + (if s.p.pc.Closed? then |s.p.mem.counts| else 0)
  }

  lemma NoGuardsNoDebt(p: State)
    requires p.guards == map[]
    ensures Owed(p.guards, p.versions) == {} && Stuck(p.guards, p.versions) == {} && Storers(p.guards) == {}
    ensures Debt(p) == 0
  {
    assert Late(p.guards, p.versions) == {} && Releasers(p.guards) == {};
    assert Storers(p.guards) == {} && Wakers(p.guards, p.cycle) == {};
  }

  /** The writer's next step inside `synchronize`. */
  function SyncStep(pc: Pc): Step {
    match pc
    case Loading(_) => Load
    case Registering(_) => Register
    case Announcing(_) => Announce
    case Parked(_) => Wake
    case Rechecking(_) => Recheck
    case _ => Reset
  }

  lemma SyncAdvances(p: State)
    requires Inv(p) && Sane(p) && p.guards == map[] && Synchronizing(p)
    ensures Enabled(p, SyncStep(p.pc))
    ensures var q := Next(p, SyncStep(p.pc));
            && Sane(q) && q.guards == map[] && Stage(q.pc) < Stage(p.pc)
  {
    hide Inv, Debt, Stuck;
    NoGuardsNoDebt(p);
    NothingOwed(p);
  }

  /** The writer's next step while it publishes. */
  lemma PublishAdvances(p: State) returns (step: Step)
    requires Inv(p) && Sane(p) && p.guards == map[] && p.pc.Swapping?
    ensures Enabled(p, step) && (step.Check? || step.Unlock? || step.Swap?)
    ensures var q := Next(p, step);
            && Sane(q) && q.guards == map[]
            && (q.pc.Adding?
                || (q.pc.Swapping?
                    && 2 * |q.pc.todo| + (if q.pc.checked then 0 else 1)
                       < 2 * |p.pc.todo| + (if p.pc.checked then 0 else 1)))
  {
    hide HandlesOk, GuardsOk, Accounts;
    if !p.pc.checked {
      step := Check;
    } else if p.pc.todo == {} {
      step := Unlock;
    } else {
      var h :| h in p.pc.todo;
      step := Swap(h);
      NothingCounted(p, h);
    }
  }

  lemma NothingCounted(p: State, h: Handle)
    requires Inv(p) && !Doomed(p) && p.guards == map[] && Enabled(p, Swap(h))
    ensures p.mem.counts[h].count == 0 && 0 <= p.pc.sum < p.half
  {
    SwapTarget(p, h);
    SumInRange(p);
    hide HandlesOk, GuardsOk, Accounts;
    assert Counted(p.guards, h) == {};
  }

  /** The writer's other steps. */
  function OtherStep(pc: Pc): Step {
    match pc
    case Idle => Begin(ForDrop, 0)
    case Writing => Lock
    case Adding(_) => Add
    case Ready(why) => if why == ForGuard then StartWriting else if why == ForDrop then Close else Return
    case _ => Add
  }

  lemma OtherAdvances(p: State)
    requires Sane(p) && p.guards == map[] && (p.pc.Idle? || p.pc.Writing? || p.pc.Adding? || p.pc.Ready?)
    ensures Enabled(p, OtherStep(p.pc))
    ensures var q := Next(p, OtherStep(p.pc));
            Sane(q) && q.guards == map[] && Stage(q.pc) < Stage(p.pc)
  {
  }

  lemma HandleGoes(p: State, h: Handle)
    requires Sane(p) && p.guards == map[] && p.pc.Closed? && h in p.mem.counts
    ensures Enabled(p, DropReader(h))
    ensures var q := Next(p, DropReader(h));
            Sane(q) && q.guards == map[] && q.pc == p.pc && |q.mem.counts| < |p.mem.counts|
  {
    var q := Next(p, DropReader(h));
    assert q.mem.counts.Keys == p.mem.counts.Keys - {h};
    assert |q.mem.counts| == |q.mem.counts.Keys| && |p.mem.counts| == |p.mem.counts.Keys|;
  }

  // ----- the whole map ends

  /** One act that brings a map without guards closer to its end. */
  ghost predicate Closer<K, V>(s: Sys<K, V>, t: Sys<K, V>) {
    && Sane(t.p) && t.p.guards == map[]
    && (t.ended || Stage(t.p.pc) < Stage(s.p.pc) || (Stage(t.p.pc) == Stage(s.p.pc) && Chores(t) < Chores(s)))
  }

  ghost predicate Quiet<K, V>(s: Sys<K, V>) {
    SysInv(s) && !s.ended && Sane(s.p) && s.p.guards == map[]
  }

  lemma SanePart(p: State)
    requires Sane(p)
    ensures !p.aborted
  {
  }

  lemma SyncAct<K, V>(s: Sys<K, V>)
    requires Quiet(s) && Synchronizing(s.p)
    ensures var act := P(SyncStep(s.p.pc)); Can(s, act) && Closer(s, Do(s, act))
  {
    hide Inv, DataOk, AbstractOk, LentOk, Next, Enabled, Sane, Stage, Lends;
    SanePart(s.p);
    SyncAdvances(s.p);
  }

  lemma PublishAct<K, V>(s: Sys<K, V>) returns (act: Act<K, V>)
    requires Quiet(s) && s.p.pc.Swapping?
    ensures Can(s, act) && Closer(s, Do(s, act))
  {
    hide Inv, DataOk, AbstractOk, LentOk, Next, Enabled, Sane, Lends;
    SanePart(s.p);
    var step := PublishAdvances(s.p);
    act := P(step);
  }

  /** An `Evicted` that is still alive is dropped. */
  lemma ForgetAct<K, V>(s: Sys<K, V>) returns (act: Act<K, V>)
    requires Quiet(s) && (s.p.pc.Idle? || s.p.pc.Writing?) && s.d.evicted != map[]
    ensures Can(s, act) && Closer(s, Do(s, act))
  {
    hide Inv, DataOk, AbstractOk, LentOk, Sane;
    SanePart(s.p);
    var i :| i in s.d.evicted;
    act := ForgetIt(O.Evicted(s.d.evicted[i], i));
    var t := Do(s, act);
    assert t.d.evicted.Keys == s.d.evicted.Keys - {i};
    assert |t.d.evicted| == |t.d.evicted.Keys| && |s.d.evicted| == |s.d.evicted.Keys|;
  }

  lemma FlushAct<K, V>(s: Sys<K, V>)
    requires Quiet(s) && (s.p.pc == Ready(ForGuard) || s.p.pc == Ready(ForDrop)) && s.d.log != []
    ensures Can(s, Flush) && Closer(s, Do(s, Flush))
  {
    hide Inv, O.Inv, AbstractOk, LentOk, Sane, Legal, Apply, Drops, Shared, Ids;
    SanePart(s.p);
    FlushLegal(s.d, s.p.mem.writerMap);
  }

  lemma OtherAct<K, V>(s: Sys<K, V>)
    requires Quiet(s) && (s.p.pc.Idle? || s.p.pc.Writing? || s.p.pc.Adding? || s.p.pc.Ready?)
    requires s.p.pc.Idle? ==> s.d.evicted == map[]
    requires s.p.pc == Ready(ForGuard) || s.p.pc == Ready(ForDrop) ==> s.d.log == []
    ensures var act := P(OtherStep(s.p.pc)); Can(s, act) && Closer(s, Do(s, act))
  {
    hide Inv, DataOk, AbstractOk, LentOk, Next, Enabled, Sane, Stage, Lends, Chores;
    SanePart(s.p);
    OtherAdvances(s.p);
  }

  lemma LastAct<K, V>(s: Sys<K, V>) returns (act: Act<K, V>)
    requires Quiet(s) && s.p.pc.Closed?
    ensures Can(s, act) && Closer(s, Do(s, act))
  {
    hide Inv, DataOk, AbstractOk, LentOk, Next, Enabled, Sane, Lends, Ids;
    SanePart(s.p);
    if h :| h in s.p.mem.counts {
      HandleGoes(s.p, h);
      act := P(DropReader(h));
    } else {
      assert s.p.mem.counts == map[];
      CanEnd(s);
      act := End;
    }
  }

  lemma CanEnd<K, V>(s: Sys<K, V>)
    requires !s.ended && !s.p.aborted && s.p.pc.Closed? && s.p.mem.counts == map[]
    ensures Can(s, End) && Do(s, End).p == s.p && Do(s, End).ended
  {
    hide Ids;
  }

  lemma QuietAct<K, V>(s: Sys<K, V>) returns (act: Act<K, V>)
    requires Quiet(s)
    ensures Can(s, act) && Closer(s, Do(s, act))
  {
    hide Quiet, Closer, Can, Do;
    if Synchronizing(s.p) {
      SyncAct(s);
      act := P(SyncStep(s.p.pc));
    } else if s.p.pc.Swapping? {
      act := PublishAct(s);
    } else if s.p.pc.Closed? {
      act := LastAct(s);
    } else if (s.p.pc.Idle? || s.p.pc.Writing?) && s.d.evicted != map[] {
      act := ForgetAct(s);
    } else if (s.p.pc == Ready(ForGuard) || s.p.pc == Ready(ForDrop)) && s.d.log != [] {
      FlushAct(s);
      act := Flush;
    } else {
      OtherAct(s);
      act := P(OtherStep(s.p.pc));
    }
  }

  lemma Prefix<K, V>(s: Sys<K, V>, act: Act<K, V>, rest: seq<Act<K, V>>)
    requires Can(s, act) && SysRuns(Do(s, act), rest)
    ensures SysRuns(s, [act] + rest) && SysAfter(s, [act] + rest) == SysAfter(Do(s, act), rest)
  {
    hide Can, Do;
    assert ([act] + rest)[0] == act && ([act] + rest)[1..] == rest;
  }

  lemma {:induction false} QuietEnds<K, V>(s: Sys<K, V>) returns (acts: seq<Act<K, V>>)
    requires SysInv(s) && Sane(s.p) && s.p.guards == map[]
    ensures SysRuns(s, acts) && SysAfter(s, acts).ended
    decreases !s.ended, Stage(s.p.pc), Chores(s)
  {
    hide SysInv, Can, Do, Sane, Stage, Chores;
    acts := [];
    if !s.ended {
      var act := QuietAct(s);
      ActKeeps(s, act);
      var rest := QuietEnds(Do(s, act));
      Prefix(s, act, rest);
      acts := [act] + rest;
    }
  }

  lemma GuardAct<K, V>(s: Sys<K, V>, step: Step)
    requires !s.ended && !s.p.aborted && Enabled(s.p, step)
    requires step.EndGuard? || step.FetchSub? || step.StoreZero? || step.Unpark?
    ensures Can(s, P(step)) && Do(s, P(step)).p == Next(s.p, step) && !Do(s, P(step)).ended
  {
    hide Enabled, Next;
  }

  lemma {:induction false} EveryGuardEnds<K, V>(s: Sys<K, V>) returns (acts: seq<Act<K, V>>)
    requires SysInv(s) && !s.ended && Sane(s.p)
    ensures SysRuns(s, acts) && SysAfter(s, acts).ended
    decreases |AllReading(s.p.guards)|, |Releasers(s.p.guards)|, |Storers(s.p.guards)|, |s.p.guards|
  {
    if s.p.guards == map[] {
      acts := QuietEnds(s);
    } else {
      acts := LeaveAndGoOn(s);
    }
  }

  lemma {:induction false} LeaveAndGoOn<K, V>(s: Sys<K, V>) returns (acts: seq<Act<K, V>>)
    requires SysInv(s) && !s.ended && Sane(s.p) && s.p.guards != map[]
    ensures SysRuns(s, acts) && SysAfter(s, acts).ended
    decreases |AllReading(s.p.guards)|, |Releasers(s.p.guards)|, |Storers(s.p.guards)|, |s.p.guards|, 0
  {
    hide SysInv, Can, Do, Enabled, Next, AllReading, Releasers, Storers;
    InvPart(s);
    SanePart(s.p);
    var step := GuardLeaves(s.p);
    GuardAct(s, step);
    ActKeeps(s, P(step));
    var rest := EveryGuardEnds(Do(s, P(step)));
    Prefix(s, P(step), rest);
    acts := [P(step)] + rest;
  }

  lemma InvPart<K, V>(s: Sys<K, V>)
    requires SysInv(s)
    ensures Inv(s.p)
  {
    hide Inv;
  }

  // ----- and otherwise it cannot

  lemma InsaneStays(p: State, step: Step)
    requires !Sane(p) && Enabled(p, step)
    ensures !Sane(Next(p, step))
  {
    if Doomed(p) {
      DoomedStays(p, step);
    } else {
      var g :| g in p.guards && p.guards[g].stage.Failing?;
      hide Doomed;
      assert g in Next(p, step).guards && Next(p, step).guards[g].stage.Failing?;
    }
  }

  lemma InsaneAct<K, V>(s: Sys<K, V>, act: Act<K, V>)
    requires SysInv(s) && !s.ended && !Sane(s.p) && Can(s, act)
    ensures !Sane(Do(s, act).p) && !Do(s, act).ended
  {
    hide DataOk, AbstractOk, LentOk, Next, Enabled, Shape, Accounts, Lends, Sane;
    if act.P? {
      InsaneStays(s.p, act.step);
    } else if act.End? {
      SaneAtEnd(s);
    }
  }

  lemma SaneAtEnd<K, V>(s: Sys<K, V>)
    requires SysInv(s) && Can(s, End)
    ensures Sane(s.p)
  {
    hide DataOk, AbstractOk, LentOk, Accounts;
    HandlesKnown(s.p);
  }

  lemma {:induction false} InsaneRun<K, V>(s: Sys<K, V>, acts: seq<Act<K, V>>)
    requires SysInv(s) && !s.ended && !Sane(s.p) && SysRuns(s, acts)
    ensures !SysAfter(s, acts).ended
    decreases |acts|
  {
    hide SysInv, Can, Do, Sane;
    if acts != [] {
      InsaneAct(s, acts[0]);
      ActKeeps(s, acts[0]);
      InsaneRun(Do(s, acts[0]), acts[1..]);
    }
  }

  /** Every reachable map can be brought to its end, whatever its guards, handles,
      tokens and log, and wherever the writer is, if and only if no abort has
      happened or is under way: no failed increment, and no overflowed sum. */
  lemma EndIsReachable<K(!new), V(!new)>(s: Sys<K, V>)
    requires SysReachable(s)
    ensures (exists acts: seq<Act<K, V>> :: SysRuns(s, acts) && SysAfter(s, acts).ended) <==> s.ended || Sane(s.p)
  {
    hide SysReachable, SysInv, SysRuns, SysAfter, Sane;
    SysReachableInv(s);
    if s.ended {
      AlreadyEnded(s);
    } else if Sane(s.p) {
      var acts := EveryGuardEnds(s);
    } else {
      forall acts: seq<Act<K, V>> | SysRuns(s, acts)
        ensures !SysAfter(s, acts).ended
      {
        InsaneRun(s, acts);
      }
    }
  }

  lemma AlreadyEnded<K, V>(s: Sys<K, V>)
    ensures SysRuns(s, []) && SysAfter(s, []) == s
  {
  }
}
