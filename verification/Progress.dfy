/** The writer's wait ends once the finitely many old guards are dropped. */
module Progress {
  import opened Prelude
  import opened Store
  import opened RefCounts
  import opened Cores
  import opened Protocol
  import opened ProtocolInv
  import opened ProtocolTheorems

  /** Guards that still read a version their handle has left. */
  ghost function Late(guards: map<GuardId, Guard>, versions: map<Handle, nat>): set<GuardId> {
    set g | g in guards && guards[g].stage.Reading? && Owes(guards[g], versions)
  }

  ghost function Releasers(guards: map<GuardId, Guard>): set<GuardId> {
    set g | g in guards && guards[g].stage.Releasing?
  }

  /** The steps of the waker that are left: storing zero and unparking, ahead of
      the cycle's waker once there is one (`woken`), and of whoever releases last
      before. */
  ghost function WakeOf(guards: map<GuardId, Guard>, versions: map<Handle, nat>, cycle: nat, woken: bool): nat {
    if woken then 2 * |Storers(guards)| + |Wakers(guards, cycle)|
    else if Late(guards, versions) + Releasers(guards) != {} then 2
    else 0
  }

  /** The reader steps that separate the writer from its wake-up. */
  ghost function DebtOf(guards: map<GuardId, Guard>, versions: map<Handle, nat>, cycle: nat, woken: bool): nat {
    2 * |Late(guards, versions)| + |Releasers(guards)| + WakeOf(guards, versions, cycle, woken)
  }

  ghost function Debt(s: State): nat {
    DebtOf(s.guards, s.versions, s.cycle, s.cycle in s.woken)
  }

  /** A step of a reader that the writer may be waiting for. */
  ghost predicate Helpful(s: State, step: Step) {
    match step
    case EndGuard(g) => g in Late(s.guards, s.versions)
    case FetchSub(_) => true
    case StoreZero(_) => true
    case Unpark(g) => g in Wakers(s.guards, s.cycle)
    case _ => false
  }

  /** How many of the steps of a run were helpful. */
  ghost function Helps(s: State, steps: seq<Step>): nat
    requires Runs(s, steps)
    decreases |steps|
  {
    if steps == [] then 0 else (if Helpful(s, steps[0]) then 1 else 0) + Helps(Next(s, steps[0]), steps[1..])
  }

  lemma MovedSets(guards: map<GuardId, Guard>, versions: map<Handle, nat>, cycle: nat, g: GuardId, next: Option<Stage>)
    requires g in guards && next != Some(Reading)
    ensures var after := Moved(guards, g, next);
            && Late(after, versions) == Late(guards, versions) - {g}
            && (!guards[g].stage.Failing? && next != Some(Failing) ==>
                  Stuck(after, versions) == Stuck(guards, versions))
            && Releasers(after) == (if next == Some(Releasing) then Releasers(guards)
                + {g} else Releasers(guards) - {g})
            && Storers(after) == (if next == Some(Storing) then Storers(guards) + {g} else Storers(guards) - {g})
            && Wakers(after, cycle) == if next == Some(Waking(cycle)) then Wakers(guards, cycle)
                + {g} else Wakers(guards, cycle) - {g}
    ensures g in Late(guards, versions) <==> guards[g].stage.Reading? && Owes(guards[g], versions)
    ensures g in Releasers(guards) <==> guards[g].stage.Releasing?
    ensures g in Storers(guards) <==> guards[g].stage.Storing?
    ensures g in Wakers(guards, cycle) <==> guards[g].stage == Waking(cycle)
  {
  }

  /** What is owed are the late guards, those inside a release, and the stuck. */
  lemma OwedParts(guards: map<GuardId, Guard>, versions: map<Handle, nat>)
    ensures Owed(guards, versions) == Late(guards, versions) + Releasers(guards) + Stuck(guards, versions)
  {
  }

  lemma MovedOwed(guards: map<GuardId, Guard>, versions: map<Handle, nat>, g: GuardId, next: Option<Stage>)
    requires g in guards && !guards[g].stage.Failing? && next != Some(Reading) && next != Some(Failing)
    requires next == Some(Releasing) ==> Owes(guards[g], versions)
    ensures var after := Moved(guards, g, next);
            Stuck(after, versions) == Stuck(guards, versions) && Owed(after, versions) <= Owed(guards, versions)
  {
  }

  /** A residual guard that ends pays one. */
  lemma EndDebt(guards: map<GuardId, Guard>, versions: map<Handle, nat>, cycle: nat, woken: bool, g: GuardId)
    requires g in guards && guards[g].stage.Reading? && Owes(guards[g], versions)
    ensures DebtOf(Moved(guards, g, Some(Releasing)), versions, cycle, woken) + 1
        == DebtOf(guards, versions, cycle, woken)
  {
    hide Moved, Late, Releasers, Storers, Wakers, Owes;
    MovedSets(guards, versions, cycle, g, Some(Releasing));
  }

  /** A guard that is not residual pays nothing. */
  lemma FreshEnds(guards: map<GuardId, Guard>, versions: map<Handle, nat>, cycle: nat, woken: bool, g: GuardId)
    requires g in guards && guards[g].stage.Reading? && !Owes(guards[g], versions)
    ensures DebtOf(guards - {g}, versions, cycle, woken) == DebtOf(guards, versions, cycle, woken)
  {
    assert Late(guards - {g}, versions) == Late(guards, versions) && Releasers(guards - {g}) == Releasers(guards);
    assert Storers(guards - {g}) == Storers(guards) && Wakers(guards - {g}, cycle) == Wakers(guards, cycle);
  }

  /** A release pays one, and more only if it is the last one and wakes nobody. */
  lemma LeaveDebt(guards: map<GuardId, Guard>, versions: map<Handle, nat>, cycle: nat, woken: bool, g: GuardId)
    requires g in guards && guards[g].stage.Releasing?
    ensures var after := guards - {g};
            var left := DebtOf(after, versions, cycle, woken) + 1;
            && left <= DebtOf(guards, versions, cycle, woken)
            && (woken || Late(after, versions) + Releasers(after) != {} ==>
                  left == DebtOf(guards, versions, cycle, woken))
  {
    hide Late, Releasers, Storers, Wakers;
    MovedSets(guards, versions, cycle, g, None);
  }

  /** The last release pays one and leaves the two steps of the waker. */
  lemma LastDebt(guards: map<GuardId, Guard>, versions: map<Handle, nat>, cycle: nat, g: GuardId)
    requires g in guards && guards[g].stage.Releasing? && Storers(guards) == {} && Wakers(guards, cycle) == {}
    ensures DebtOf(Moved(guards, g, Some(Storing)), versions, cycle, true) + 1 == DebtOf(guards, versions, cycle, false)
  {
    hide Moved, Late, Releasers, Storers, Wakers;
    MovedSets(guards, versions, cycle, g, Some(Storing));
  }

  lemma StoreDebt(guards: map<GuardId, Guard>, versions: map<Handle, nat>, cycle: nat, g: GuardId)
    requires g in guards && guards[g].stage.Storing?
    ensures DebtOf(Moved(guards, g, Some(Waking(cycle))), versions, cycle, true) + 1
        == DebtOf(guards, versions, cycle, true)
  {
    hide Moved, Late, Releasers, Storers, Wakers;
    MovedSets(guards, versions, cycle, g, Some(Waking(cycle)));
  }

  /** An unpark pays one, unless it is meant for the writer of an earlier cycle. */
  lemma UnparkDebt(guards: map<GuardId, Guard>, versions: map<Handle, nat>, cycle: nat, woken: bool, g: GuardId)
    requires g in guards && guards[g].stage.Waking? && (guards[g].stage.cycle == cycle ==> woken)
    ensures DebtOf(guards - {g}, versions, cycle, woken) + (if g in Wakers(guards, cycle) then 1 else 0)
        == DebtOf(guards, versions, cycle, woken)
  {
    hide Late, Releasers, Storers, Wakers;
    MovedSets(guards, versions, cycle, g, None);
  }

  lemma NewGuardDebt(guards: map<GuardId, Guard>, versions: map<Handle, nat>, cycle: nat, woken: bool,
      g: GuardId, guard: Guard)
    requires g !in guards && guard.stage.Counts() && !Owes(guard, versions)
    ensures Stuck(guards[g := guard], versions) == Stuck(guards, versions)
    ensures Owed(guards[g := guard], versions) == Owed(guards, versions)
    ensures DebtOf(guards[g := guard], versions, cycle, woken) == DebtOf(guards, versions, cycle, woken)
  {
    var after := guards[g := guard];
    assert Late(after, versions) == Late(guards, versions) && Releasers(after) == Releasers(guards);
    assert Storers(after) == Storers(guards) && Wakers(after, cycle) == Wakers(guards, cycle);
  }

  lemma VersionsDebt(guards: map<GuardId, Guard>, versions: map<Handle, nat>, versions': map<Handle, nat>,
      cycle: nat, woken: bool)
    requires forall g <- guards :: guards[g].handle in versions && guards[g].handle in versions'
                                   && versions[guards[g].handle] == versions'[guards[g].handle]
    ensures Stuck(guards, versions') == Stuck(guards, versions)
    ensures Owed(guards, versions') == Owed(guards, versions)
    ensures DebtOf(guards, versions', cycle, woken) == DebtOf(guards, versions, cycle, woken)
  {
    assert Late(guards, versions') == Late(guards, versions);
  }

  lemma HandlesKnown(s: State)
    requires Inv(s)
    ensures forall g <- s.guards :: s.guards[g].handle in s.versions && s.guards[g].handle in s.mem.counts
  {
    hide HandlesOk, Accounts;
  }

  /** What a reader's step on its way out does to the debt. */
  lemma GuardsMove(s: State, step: Step)
    requires Inv(s) && Enabled(s, step)
    requires step.EndGuard? || step.FetchSub? || step.StoreZero? || step.Unpark?
    ensures var t := Next(s, step);
            && Stuck(t.guards, t.versions) == Stuck(s.guards, s.versions)
            && Owed(t.guards, t.versions) <= Owed(s.guards, s.versions)
            && Debt(t) + (if Helpful(s, step) then 1 else 0) <= Debt(s)
            && (Waiting(s) && Stuck(s.guards, s.versions) == {} ==>
                  Debt(t) + (if Helpful(s, step) then 1 else 0) == Debt(s))
  {
    hide HandlesOk, GuardsOk, Accounts, Owed, Late, Wakers, DebtOf, Releasers, Storers, Stuck;
    match step
    case EndGuard(g) =>
      ComparisonIsExact(s, g);
      InSets(s, g);
      MovedOwed(s.guards, s.versions, g, if Owes(s.guards[g], s.versions) then Some(Releasing) else None);
      if Owes(s.guards[g], s.versions) {
        EndDebt(s.guards, s.versions, s.cycle, s.cycle in s.woken, g);
      } else {
        FreshEnds(s.guards, s.versions, s.cycle, s.cycle in s.woken, g);
      }
    case FetchSub(g) => ReleaseDebt(s, g);
    case StoreZero(g) =>
      WakerIsRecorded(s, g);
      MovedOwed(s.guards, s.versions, g, Some(Waking(s.cycle)));
      StoreDebt(s.guards, s.versions, s.cycle, g);
    case Unpark(g) =>
      WakerIsRecorded(s, g);
      MovedOwed(s.guards, s.versions, g, None);
      UnparkDebt(s.guards, s.versions, s.cycle, s.cycle in s.woken, g);
  }

  lemma WakerIsRecorded(s: State, g: GuardId)
    requires Inv(s) && g in s.guards
    ensures s.guards[g].stage.Storing? ==> s.cycle in s.woken
    ensures s.guards[g].stage.Waking? ==> s.guards[g].stage.cycle in s.woken
  {
    hide HandlesOk, Accounts, IndexOf;
  }

  lemma ReleaseDebt(s: State, g: GuardId)
    requires Inv(s) && Enabled(s, FetchSub(g))
    ensures var t := Next(s, FetchSub(g));
            && Stuck(t.guards, t.versions) == Stuck(s.guards, s.versions)
            && Owed(t.guards, t.versions) <= Owed(s.guards, s.versions)
            && Debt(t) + 1 <= Debt(s)
            && (Waiting(s) && Stuck(s.guards, s.versions) == {} ==> Debt(t) + 1 == Debt(s))
  {
    hide Shape, Accounts, Owed, Late, Wakers, DebtOf, Releasers, Storers, Stuck, Next, Enabled, Doomed;
    var t, last := Next(s, FetchSub(g)), s.mem.residual == LastResidual(s.half);
    var next := if last then Some(Storing) else None;
    FetchSubNext(s, g);
    FetchSubOwed(s.guards, s.versions, g, next);
    SoundWidth(s);
    LastRelease(s);
    MovedOwed(s.guards, s.versions, g, next);
    if last {
      NoWakerYet(s);
      LastDebt(s.guards, s.versions, s.cycle, g);
    } else {
      LeaveDebt(s.guards, s.versions, s.cycle, s.cycle in s.woken, g);
      OwedParts(t.guards, t.versions);
      if Waiting(s) {
        WaitingIsCalm(s);
      }
    }
  }

  lemma SoundWidth(s: State)
    requires Shape(s)
    ensures s.half >= 2
  {
  }

  lemma WaitingIsCalm(s: State)
    requires Waiting(s)
    ensures !Doomed(s)
  {
  }

  lemma InSets(s: State, g: GuardId)
    requires g in s.guards && s.guards[g].stage.Reading?
    ensures g in Owed(s.guards, s.versions) <==> Owes(s.guards[g], s.versions)
    ensures g in Late(s.guards, s.versions) <==> Owes(s.guards[g], s.versions)
  {
  }

  /** Between publishes no step makes a guard residual or adds to the debt, and
      every helpful step pays some of it: exactly one while the writer waits. */
  lemma DebtShrinks(s: State, step: Step)
    requires Inv(s) && Enabled(s, step) && !step.Lock? && !step.Swap?
    ensures var t := Next(s, step);
            && Stuck(t.guards, t.versions) == Stuck(s.guards, s.versions)
            && Owed(t.guards, t.versions) <= Owed(s.guards, s.versions)
            && Debt(t) + (if Helpful(s, step) then 1 else 0) <= Debt(s)
            && (Waiting(s) && Stuck(s.guards, s.versions) == {} ==>
                  Debt(t) + (if Helpful(s, step) then 1 else 0) == Debt(s))
  {
    hide Inv, Owed, DebtOf, Late, Wakers, Stuck;
    match step
    case EndGuard(_) | FetchSub(_) | StoreZero(_) | Unpark(_) => GuardsMove(s, step);
    case NewGuard(h, g) => NewGuardDebt(s.guards, s.versions, s.cycle, s.cycle in s.woken, g, NewGuardOn(s, h));
    case NewReader(_, _) | DropReader(_) =>
      HandlesKnown(s);
      VersionsDebt(s.guards, s.versions, Next(s, step).versions, s.cycle, s.cycle in s.woken);
    case _ =>
  }

  /** Over any run between two publishes the residual guards only become fewer,
      and at most `Debt` steps of readers separate the writer from its wake-up,
      whatever guards and handles are made meanwhile. */
  lemma {:induction false} WaitIsBounded(s: State, steps: seq<Step>)
    requires Inv(s) && Runs(s, steps)
    requires forall step <- steps :: !step.Lock? && !step.Swap?
    ensures var t := After(s, steps);
            && Inv(t)
            && Stuck(t.guards, t.versions) == Stuck(s.guards, s.versions)
            && Owed(t.guards, t.versions) <= Owed(s.guards, s.versions)
            && Debt(t) + Helps(s, steps) <= Debt(s)
    decreases |steps|
  {
    hide Inv, Enabled, Next, Owed, DebtOf, Helpful, Stuck;
    if steps != [] {
      DebtShrinks(s, steps[0]);
      StepKeeps(s, steps[0]);
      WaitIsBounded(Next(s, steps[0]), steps[1..]);
    }
  }

  /** With no debt left, a parked writer finds a token, unless an increment that
      `publish` counted is about to abort the process. */
  lemma TokenWaits(s: State)
    requires Inv(s) && Waiting(s) && Debt(s) == 0
    ensures s.mem.residual == 0 <==> Stuck(s.guards, s.versions) == {}
    ensures s.pc.Parked? && s.mem.residual == 0 ==> s.writer in s.tokens
  {
    DebtPaid(s);
    hide Shape, Stuck, Owed, DebtOf, Storers, Wakers;
  }

  /** No debt: no guard owes a release, and nobody is about to wake the writer. */
  lemma DebtPaid(s: State)
    requires Inv(s) && Debt(s) == 0
    ensures Owed(s.guards, s.versions) == Stuck(s.guards, s.versions)
    ensures Storers(s.guards) == {} && Wakers(s.guards, s.cycle) == {}
  {
    hide Shape, Accounts, Stuck, Owed, Storers, Wakers, Late, Releasers;
    assert Late(s.guards, s.versions) == {} && Releasers(s.guards) == {};
    OwedParts(s.guards, s.versions);
    if s.cycle !in s.woken {
      NoWakerYet(s);
    }
  }

  /** The writer's own next step while it waits. */
  function OwnStep(pc: Pc): Step {
    if pc.Rechecking? then Recheck else Wake
  }

  /** Nothing but its own next step moves a waiting writer. */
  lemma WaitingStep(s: State, step: Step)
    requires Waiting(s) && Enabled(s, step) && step != OwnStep(s.pc)
    ensures Next(s, step).pc == s.pc && !step.Lock? && !step.Swap?
  {
  }

  /** While some of the debt is left, some reader can pay. */
  lemma SomeoneCanHelp(s: State) returns (step: Step)
    requires Inv(s) && !s.aborted && Debt(s) > 0
    ensures Enabled(s, step) && Helpful(s, step)
  {
    hide HandlesOk, Accounts, Readers, Counted, IndexOf;
    if g :| g in Late(s.guards, s.versions) {
      step := EndGuard(g);
    } else if g :| g in Releasers(s.guards) {
      step := FetchSub(g);
    } else if g :| g in Storers(s.guards) {
      step := StoreZero(g);
    } else {
      assert Late(s.guards, s.versions) == {} && Releasers(s.guards) == {} && Storers(s.guards) == {};
      var g :| g in Wakers(s.guards, s.cycle);
      step := Unpark(g);
    }
  }

  /** While the writer waits, helpful steps pay off the debt one by one, whatever
      else happens. */
  lemma {:induction false} DebtIsExact(s: State, steps: seq<Step>)
    requires Inv(s) && Waiting(s) && Runs(s, steps) && OwnStep(s.pc) !in steps
    ensures var t := After(s, steps);
            && Inv(t) && t.pc == s.pc && Stuck(t.guards, t.versions) == Stuck(s.guards, s.versions)
            && Helps(s, steps) + Debt(t) <= Debt(s)
            && (Stuck(s.guards, s.versions) == {} ==> Helps(s, steps) + Debt(t) == Debt(s))
    decreases |steps|
  {
    hide Inv, Enabled, Next, Owed, DebtOf, Helpful, Stuck;
    if steps != [] {
      WaitingStep(s, steps[0]);
      DebtShrinks(s, steps[0]);
      StepKeeps(s, steps[0]);
      DebtIsExact(Next(s, steps[0]), steps[1..]);
    }
  }

  /** Every run wakes the writer. Whatever else happens before the writer moves,
      helpful steps and what is left of the debt add up to the debt at the start;
      while some is left, an old guard's owner can take another helpful step; and
      when none is left, `residual` is zero and a parked writer has its token,
      unless an increment that `publish` counted is about to abort the process. */
  lemma EveryRunWakes(s: State, steps: seq<Step>)
    requires Reachable(s) && Waiting(s) && Runs(s, steps) && OwnStep(s.pc) !in steps
    ensures var t := After(s, steps);
            && t.pc == s.pc
            && Helps(s, steps) + Debt(t) <= Debt(s)
            && (Stuck(s.guards, s.versions) == {} ==> Helps(s, steps) + Debt(t) == Debt(s))
            && (t.aborted || Debt(t) == 0 || exists step :: Enabled(t, step) && Helpful(t, step))
            && (Debt(t) == 0 ==>
                  && (t.mem.residual == 0 <==> Stuck(s.guards, s.versions) == {})
                  && (t.mem.residual == 0 && t.pc.Parked? ==> t.writer in t.tokens))
  {
    hide Inv, Reachable, Runs, After, Helps, Stuck, Owed, DebtOf, Enabled, Helpful;
    ReachableInv(s);
    DebtIsExact(s, steps);
    var t := After(s, steps);
    if Debt(t) == 0 {
      TokenWaits(t);
    } else if !t.aborted {
      var step := SomeoneCanHelp(t);
    }
  }

  /** A helpful step leaves the writer where it is. */
  lemma HelpKeepsWaiting(s: State, step: Step)
    requires Enabled(s, step) && Helpful(s, step)
    ensures Next(s, step).pc == s.pc && !Next(s, step).aborted && !step.Lock? && !step.Swap? && !step.Wake?
  {
  }

  /** Every return from `park` is due to a token. */
  ghost predicate NoSpuriousWake(s: State, steps: seq<Step>)
    requires Runs(s, steps)
    decreases |steps|
  {
    steps == [] || ((steps[0].Wake? ==> s.writer in s.tokens) && NoSpuriousWake(Next(s, steps[0]), steps[1..]))
  }

  /** The writer is inside `synchronize`. */
  ghost predicate Synchronizing(s: State) {
    s.pc.Loading? || s.pc.Registering? || s.pc.Announcing? || Waiting(s) || s.pc.Resetting?
  }

  /** How many steps of its own the writer is from waiting, at most. */
  function Ahead(pc: Pc): nat {
    match pc
    case Loading(_) => 4
    case Registering(_) => 3
    case Announcing(_) => 2
    case Resetting(_) => 1
    case _ => 0
  }

  lemma WriterAdvances(s: State) returns (step: Step)
    requires Inv(s) && !s.aborted && Synchronizing(s) && !Waiting(s)
    ensures Enabled(s, step) && !step.Wake? && !step.Lock? && !step.Swap?
    ensures var t := Next(s, step);
            && !t.aborted && t.guards == s.guards && t.versions == s.versions
            && t.cycle == s.cycle && t.woken == s.woken
            && Ahead(t.pc) < Ahead(s.pc)
            && (t.pc == Ready(s.pc.why) || (Synchronizing(t) && t.pc.why == s.pc.why))
  {
    hide Inv;
    match s.pc
    case Loading(_) => step := Load;
    case Registering(_) => step := Register;
    case Announcing(_) => step := Announce;
    case Resetting(_) => step := Reset;
  }

  lemma Prepend(s: State, step: Step, rest: seq<Step>)
    requires Enabled(s, step) && !step.Wake? && Runs(Next(s, step), rest) && NoSpuriousWake(Next(s, step), rest)
    ensures Runs(s, [step] + rest) && NoSpuriousWake(s, [step] + rest)
    ensures After(s, [step] + rest) == After(Next(s, step), rest)
  {
    hide Enabled, Next;
    assert ([step] + rest)[0] == step && ([step] + rest)[1..] == rest;
  }

  lemma Finish(s: State) returns (steps: seq<Step>)
    requires !s.aborted && Waiting(s) && s.mem.residual == 0 && (s.pc.Parked? ==> s.writer in s.tokens)
    ensures Runs(s, steps) && NoSpuriousWake(s, steps)
    ensures After(s, steps).pc == Ready(s.pc.why) && |steps| <= 2
  {
    if s.pc.Parked? {
      steps := [Wake, Recheck];
      var s1 := Next(s, Wake);
      assert steps[1..] == [Recheck] && [Recheck][1..] == [];
      assert Runs(s1, [Recheck]) && After(s1, [Recheck]).pc == Ready(s.pc.why);
    } else {
      steps := [Recheck];
      assert [Recheck][1..] == [];
    }
  }

  lemma {:induction false} WaitingReturns(s: State) returns (steps: seq<Step>)
    requires Inv(s) && !s.aborted && Waiting(s) && Stuck(s.guards, s.versions) == {}
    ensures Runs(s, steps) && NoSpuriousWake(s, steps)
    ensures After(s, steps).pc == Ready(s.pc.why) && |steps| <= Debt(s) + 2
    decreases Debt(s)
  {
    hide Shape, Accounts, DebtOf, Stuck, Owed;
    if Debt(s) > 0 {
      var step := SomeoneCanHelp(s);
      hide Enabled, Next, Helpful;
      HelpKeepsWaiting(s, step);
      DebtShrinks(s, step);
      StepKeeps(s, step);
      var rest := WaitingReturns(Next(s, step));
      Prepend(s, step, rest);
      steps := [step] + rest;
    } else {
      TokenWaits(s);
      steps := Finish(s);
    }
  }

  /** No deadlock: from every state inside `synchronize`, at most `Debt` steps of
      the old guards' owners and six of the writer, without any spurious wake-up,
      let it return, unless an increment that `publish` counted is about to abort
      the process (`StuckBlocks`). */
  lemma {:induction false} SynchronizeReturns(s: State) returns (steps: seq<Step>)
    requires Inv(s) && !s.aborted && Synchronizing(s) && Stuck(s.guards, s.versions) == {}
    ensures Runs(s, steps) && NoSpuriousWake(s, steps)
    ensures After(s, steps).pc == Ready(s.pc.why) && |steps| <= Debt(s) + Ahead(s.pc) + 2
    decreases Ahead(s.pc)
  {
    hide Shape, Accounts, DebtOf, Stuck, Enabled, Next;
    if Waiting(s) {
      steps := WaitingReturns(s);
    } else {
      var step := WriterAdvances(s);
      StepKeeps(s, step);
      var t, rest := Next(s, step), [];
      if Synchronizing(t) {
        rest := SynchronizeReturns(t);
      }
      Prepend(s, step, rest);
      steps := [step] + rest;
    }
  }

  /** The steps that `synchronize` itself takes. */
  predicate OfSynchronize(step: Step) {
    step.Load? || step.Register? || step.Announce? || step.Wake? || step.Recheck? || step.Reset?
  }

  function OwnSteps(steps: seq<Step>): nat {
    if steps == [] then 0 else (if OfSynchronize(steps[0]) then 1 else 0) + OwnSteps(steps[1..])
  }

  /** How many of them are left when there is no debt. */
  function Left(pc: Pc): nat {
    match pc
    case Loading(_) | Rechecking(_) | Resetting(_) => 1
    case Parked(_) | Announcing(_) => 2
    case Registering(_) => 3
    case _ => 0
  }

  lemma NothingOwed(s: State)
    requires Inv(s) && Synchronizing(s) && Debt(s) == 0 && Stuck(s.guards, s.versions) == {}
    ensures !s.pc.Resetting? && !s.pc.Registering? ==> s.mem.residual == 0
  {
    DebtPaid(s);
    hide Shape, Stuck, Owed, DebtOf, Storers, Wakers, OneWaker;
  }

  lemma FreeStep(s: State, step: Step)
    requires Inv(s) && Synchronizing(s) && Debt(s) == 0 && Stuck(s.guards, s.versions) == {} && Enabled(s, step)
    ensures !step.Lock? && !step.Swap?
    ensures Synchronizing(Next(s, step)) ==>
              Left(Next(s, step).pc) + (if OfSynchronize(step) then 1 else 0) <= Left(s.pc)
  {
    hide Inv, Debt, Stuck;
    NothingOwed(s);
  }

  lemma OutsideStays(s: State, step: Step)
    requires !Synchronizing(s) && Enabled(s, step) && !step.Begin?
    ensures !Synchronizing(Next(s, step))
  {
  }

  lemma {:induction false} OutsideRun(s: State, steps: seq<Step>)
    requires !Synchronizing(s) && Runs(s, steps) && forall step <- steps :: !step.Begin?
    ensures !Synchronizing(After(s, steps))
    decreases |steps|
  {
    hide Enabled, Next, Synchronizing;
    if steps != [] {
      OutsideStays(s, steps[0]);
      OutsideRun(Next(s, steps[0]), steps[1..]);
    }
  }

  /** Without debt, spurious wake-ups or not, the writer is out within three steps
      of its own. */
  lemma {:induction false} FreeRun(s: State, steps: seq<Step>)
    requires Inv(s) && Synchronizing(s) && Debt(s) == 0 && Stuck(s.guards, s.versions) == {}
    requires Runs(s, steps) && forall step <- steps :: !step.Begin?
    ensures Synchronizing(After(s, steps)) ==> OwnSteps(steps) < Left(s.pc)
    decreases |steps|
  {
    hide Inv, Enabled, Next, Synchronizing, DebtOf, Stuck, Helpful, Owed;
    if steps == [] {
      LeftPositive(s);
    } else {
      FreeStep(s, steps[0]);
      DebtShrinks(s, steps[0]);
      StepKeeps(s, steps[0]);
      if Synchronizing(Next(s, steps[0])) {
        FreeRun(Next(s, steps[0]), steps[1..]);
      } else {
        OutsideRun(Next(s, steps[0]), steps[1..]);
      }
    }
  }

  lemma LeftPositive(s: State)
    requires Synchronizing(s)
    ensures 0 < Left(s.pc) <= 3
  {
  }

  lemma InsideStays(s: State, step: Step)
    requires Synchronizing(s) && Enabled(s, step)
    ensures !step.Lock? && !step.Swap?
  {
  }

  /** As long as one call of `synchronize` lasts, its debt only shrinks. */
  lemma {:induction false} InsideRun(s: State, steps: seq<Step>)
    requires Inv(s) && Synchronizing(s) && Runs(s, steps) && forall step <- steps :: !step.Begin?
    requires Synchronizing(After(s, steps))
    ensures var t := After(s, steps);
            && Inv(t) && Stuck(t.guards, t.versions) == Stuck(s.guards, s.versions)
            && Helps(s, steps) + Debt(t) <= Debt(s)
    decreases |steps|
  {
    hide Inv, Enabled, Next, Synchronizing, DebtOf, Stuck, Helpful, Owed;
    if steps != [] {
      InsideStays(s, steps[0]);
      DebtShrinks(s, steps[0]);
      StepKeeps(s, steps[0]);
      if Synchronizing(Next(s, steps[0])) {
        InsideRun(Next(s, steps[0]), steps[1..]);
      } else {
        OutsideRun(Next(s, steps[0]), steps[1..]);
      }
    }
  }

  /** Every run returns: from anywhere inside a call of `synchronize` there are at
      most `Debt` helpful steps, and while there is debt left an old guard's owner
      can take one; once there is none, three more steps of the writer, in any
      interleaving and with any spurious wake-ups, end the call. */
  lemma EveryRunReturns(s: State, first: seq<Step>, rest: seq<Step>)
    requires Inv(s) && Synchronizing(s) && Stuck(s.guards, s.versions) == {}
    requires Runs(s, first) && Runs(After(s, first), rest)
    requires (forall step <- first :: !step.Begin?) && forall step <- rest :: !step.Begin?
    ensures var t := After(s, first);
            && (Synchronizing(t) ==>
                  && Helps(s, first) + Debt(t) <= Debt(s)
                  && (t.aborted || Debt(t) == 0 || exists step :: Enabled(t, step) && Helpful(t, step)))
            && (Debt(t) == 0 && OwnSteps(rest) >= 3 ==> !Synchronizing(After(t, rest)))
  {
    hide Inv, Enabled, Next, Synchronizing, DebtOf, Stuck, Helpful, Runs, After, Helps, OwnSteps;
    var t := After(s, first);
    if !Synchronizing(t) {
      OutsideRun(t, rest);
    } else {
      InsideRun(s, first);
      if Debt(t) == 0 {
        FreeRun(t, rest);
        LeftPositive(t);
      } else if !t.aborted {
        var step := SomeoneCanHelp(t);
      }
    }
  }

  lemma StuckStep(s: State, step: Step)
    requires Inv(s) && Synchronizing(s) && Stuck(s.guards, s.versions) != {} && Enabled(s, step)
    ensures Synchronizing(Next(s, step)) && !step.Lock? && !step.Swap?
  {
    hide Shape, Stuck, Residual, Storers, Wakers, OneWaker;
    OwedSplits(s.guards, s.versions);
  }

  /** Once `publish` has counted a failed increment, `synchronize` never returns,
      in any run; all the while that increment can abort the process. */
  lemma {:induction false} StuckBlocks(s: State, steps: seq<Step>, g: GuardId)
    requires Inv(s) && Synchronizing(s) && g in Stuck(s.guards, s.versions) && Runs(s, steps)
    ensures var t := After(s, steps);
            Synchronizing(t) && (t.aborted || Enabled(t, Abort(g)))
    decreases |steps|
  {
    hide Inv, Enabled, Next, Stuck, Synchronizing;
    if steps == [] {
      CanAbort(s, g);
    } else {
      StuckStep(s, steps[0]);
      DebtShrinks(s, steps[0]);
      StepKeeps(s, steps[0]);
      StuckBlocks(Next(s, steps[0]), steps[1..], g);
    }
  }

  lemma CanAbort(s: State, g: GuardId)
    requires Inv(s) && g in Stuck(s.guards, s.versions)
    ensures s.aborted || Enabled(s, Abort(g))
  {
    HandlesKnown(s);
  }

  // ----- who waits

  lemma SameCaller(s: State, step: Step)
    requires Enabled(s, step) && !step.Begin?
    ensures var t := Next(s, step);
            && t.writer == s.writer
            && (Synchronizing(t) ==> Synchronizing(s) && t.pc.why == s.pc.why)
  {
  }

  lemma {:induction false} SameCall(s: State, steps: seq<Step>)
    requires Runs(s, steps) && forall step <- steps :: !step.Begin?
    ensures var t := After(s, steps);
            && t.writer == s.writer
            && (Synchronizing(t) ==> Synchronizing(s) && t.pc.why == s.pc.why)
    decreases |steps|
  {
    hide Enabled, Next, Synchronizing;
    if steps != [] {
      SameCaller(s, steps[0]);
      SameCall(Next(s, steps[0]), steps[1..]);
    }
  }

  /** The thread that calls `synchronize` is the one that is registered, and the one
      that is woken: from its announcement until it returns, whatever else runs, an
      unpark leaves the token to it, and when no debt is left it has one. */
  lemma CallerIsWoken(s: State, why: Why, thread: Thread, steps: seq<Step>, g: GuardId)
    requires Reachable(s) && Enabled(s, Begin(why, thread)) && Runs(Next(s, Begin(why, thread)), steps)
    requires forall step <- steps :: !step.Begin?
    ensures var t := After(Next(s, Begin(why, thread)), steps);
            && (Synchronizing(t) ==> t.pc.why == why)
            && (t.pc.Announcing? || Waiting(t) ==> t.mem.writerThread == Some(thread))
            && (Waiting(t) && Enabled(t, Unpark(g)) ==> thread in Next(t, Unpark(g)).tokens)
            && (Enabled(t, Wake) ==> thread !in Next(t, Wake).tokens)
            && (t.pc.Parked? && Debt(t) == 0 && Stuck(t.guards, t.versions) == {} ==> thread in t.tokens)
  {
    hide Inv, Reachable, Runs, After, Debt, Stuck, Enabled, Next, Synchronizing;
    ReachableInv(s);
    StepKeeps(s, Begin(why, thread));
    CallStarts(s, why, thread);
    var s1 := Next(s, Begin(why, thread));
    RunKeeps(s1, steps);
    SameCall(s1, steps);
    CallFacts(After(s1, steps), g);
  }

  lemma CallStarts(s: State, why: Why, thread: Thread)
    requires Enabled(s, Begin(why, thread))
    ensures var t := Next(s, Begin(why, thread));
            t.writer == thread && Synchronizing(t) && t.pc.why == why
  {
  }

  lemma CallFacts(s: State, g: GuardId)
    requires Inv(s)
    ensures s.pc.Announcing? || Waiting(s) ==> s.mem.writerThread == Some(s.writer)
    ensures Waiting(s) && Enabled(s, Unpark(g)) ==> s.writer in Next(s, Unpark(g)).tokens
    ensures Enabled(s, Wake) ==> s.writer !in Next(s, Wake).tokens
    ensures s.pc.Parked? && Debt(s) == 0 && Stuck(s.guards, s.versions) == {} ==> s.writer in s.tokens
  {
    hide Shape, Stuck, Owed, Storers, Wakers, OneWaker, Debt;
    if s.pc.Parked? && Debt(s) == 0 && Stuck(s.guards, s.versions) == {} {
      TokenWaits(s);
    }
  }

  // ----- tokens and aborts

  /** Whether a thread has a token after some steps, if it `had` one before: it gets
      one from a reader that unparks the registered thread or from a stranger, and
      uses it up when it returns from `park` as the writer. */
  ghost function Holds(s: State, steps: seq<Step>, thread: Thread, had: bool): bool
    requires Runs(s, steps)
    decreases |steps|
  {
    if steps == [] then had
    else
      var step := steps[0];
      var gets := step == StrayToken(thread) || (step.Unpark? && s.mem.writerThread == Some(thread));
      Holds(Next(s, step), steps[1..], thread, gets || (had && !(step.Wake? && s.writer == thread)))
  }

  lemma TokenStep(s: State, step: Step, thread: Thread)
    requires Enabled(s, step)
    ensures thread in Next(s, step).tokens <==>
              || step == StrayToken(thread) || (step.Unpark? && s.mem.writerThread == Some(thread))
              || (thread in s.tokens && !(step.Wake? && s.writer == thread))
  {
  }

  /** Over every run, tokens come from unparks and go with the writer's returns from
      `park`, and in no other way. */
  lemma {:induction false} TokensFollowSteps(s: State, steps: seq<Step>, thread: Thread)
    requires Runs(s, steps)
    ensures thread in After(s, steps).tokens <==> Holds(s, steps, thread, thread in s.tokens)
    decreases |steps|
  {
    hide Enabled, Next;
    if steps != [] {
      TokenStep(s, steps[0], thread);
      TokensFollowSteps(Next(s, steps[0]), steps[1..], thread);
    }
  }

  /** A failed increment can abort at any time, and nothing happens afterwards. */
  lemma AbortIsFinal(s: State, g: GuardId, steps: seq<Step>)
    requires Inv(s) && !s.aborted && g in s.guards && s.guards[g].stage.Failing?
    ensures Enabled(s, Abort(g)) && (Runs(Next(s, Abort(g)), steps) ==> steps == [])
  {
    HandlesKnown(s);
    hide Inv;
  }
}
