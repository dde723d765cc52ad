/** What the protocol guarantees in every reachable state and over every run. */
module ProtocolTheorems {
  import opened Prelude
  import opened Store
  import opened RefCounts
  import opened Cores
  import opened Protocol
  import opened ProtocolInv

  ghost predicate Reachable(s: State) {
    exists s0, steps :: Init(s0) && Runs(s0, steps) && After(s0, steps) == s
  }

  lemma ReachableInv(s: State)
    requires Reachable(s)
    ensures Inv(s)
  {
    hide Init, Inv, Runs, After;
    var s0, steps :| Init(s0) && Runs(s0, steps) && After(s0, steps) == s;
    InitInv(s0);
    RunKeeps(s0, steps);
  }

  // ----- single states

  /** While the writer holds its map, every guard that still reads, and every
      failed increment, has the last published version, so none points at the
      writer's map. */
  lemma MutualExclusion(s: State)
    requires Reachable(s) && Exclusive(s)
    ensures forall g <- s.guards | s.guards[g].stage.Counts() ::
              s.guards[g].version == s.cycle && s.guards[g].index != s.mem.writerMap
    ensures forall g <- s.guards :: !s.guards[g].stage.Releasing? && !s.guards[g].stage.Storing?
  {
    ReachableInv(s);
    ExclusiveGuards(s);
  }

  lemma ExclusiveGuards(s: State)
    requires Inv(s) && (Exclusive(s) || (!Publishing(s) && Owed(s.guards, s.versions) == {}))
    ensures forall g <- s.guards | s.guards[g].stage.Counts() ::
              s.guards[g].version == s.cycle && s.guards[g].index != s.mem.writerMap
    ensures Exclusive(s) ==>
              forall g <- s.guards :: !s.guards[g].stage.Releasing? && !s.guards[g].stage.Storing?
  {
    hide Counted, Readers, IndexOf;
    assert Owed(s.guards, s.versions) == {} && (Exclusive(s) ==> Storers(s.guards) == {});
    assert forall g <- s.guards :: g !in Owed(s.guards, s.versions) && (Exclusive(s) ==> g !in Storers(s.guards));
    assert forall h <- s.versions :: h in s.mem.counts && s.versions[h] == s.cycle;
  }

  /** The running sum of a publish that has not reached `residual` yet. */
  function Pending(pc: Pc): int {
    if pc.Swapping? || pc.Adding? then pc.sum else 0
  }

  /** The writer has announced that it waits, and nobody has taken that back. */
  ghost predicate Announced(s: State) {
    s.pc.Resetting? || (Waiting(s) && (Owed(s.guards, s.versions) != {} || Storers(s.guards) != {}))
  }

  /** Failed increments that a publish has counted; no release will ever follow. */
  ghost function Stuck(guards: map<GuardId, Guard>, versions: map<Handle, nat>): set<GuardId> {
    set g | g in guards && guards[g].stage.Failing? && Owes(guards[g], versions)
  }

  /** Guards that owe a release: their handle was swapped since they were made, or
      they have decremented their count already. */
  ghost function Residual(guards: map<GuardId, Guard>, versions: map<Handle, nat>): set<GuardId> {
    set g | g in guards && !guards[g].stage.Failing? && Owes(guards[g], versions)
  }

  lemma OwedSplits(guards: map<GuardId, Guard>, versions: map<Handle, nat>)
    ensures Owed(guards, versions) == Residual(guards, versions) + Stuck(guards, versions)
    ensures |Owed(guards, versions)| == |Residual(guards, versions)| + |Stuck(guards, versions)|
  {
    assert Owed(guards, versions) == Residual(guards, versions) + Stuck(guards, versions);
    assert Residual(guards, versions) !! Stuck(guards, versions);
  }

  lemma CalmAccounting(s: State)
    requires Accounts(s) && !Doomed(s)
    ensures s.mem.residual + Pending(s.pc) == |Owed(s.guards, s.versions)| - (if Announced(s) then s.half else 0)
    ensures s.pc.Writing? ==> s.mem.residual == 0
    ensures s.half > 0 ==> IsSigned(s.mem.residual, s.half)
  {
    hide Owed, Storers, OneWaker;
  }

  lemma DoomedAccounting(s: State)
    requires Accounts(s) && Doomed(s)
    ensures s.mem.residual + Pending(s.pc) == |Owed(s.guards, s.versions)| <==> s.mem.residual > 0
    ensures IsSigned(s.mem.residual, s.half) && !Announced(s) && !s.pc.Writing?
  {
    hide Owed, Storers, OneWaker;
  }

  /** `residual` and the pending sum count the residual guards, and the failed
      increments that a publish has swapped, offset by `isize::MIN` exactly while
      the announcement stands. This fails in exactly one situation: an overflowed
      sum awaits its test, and `residual` has not been counted down beyond
      `isize::MIN`, or zero was stored over it. `publish` starts at zero. */
  lemma ResidualAccounting(s: State)
    requires Reachable(s)
    ensures s.mem.residual + Pending(s.pc) == |Residual(s.guards, s.versions)| + |Stuck(s.guards, s.versions)|
                                              - (if Announced(s) then s.half else 0)
            <==> !Doomed(s) || s.mem.residual > 0
    ensures s.pc.Writing? ==> s.mem.residual == 0
    ensures IsSigned(s.mem.residual, s.half)
  {
    hide Accounts, HandlesOk, GuardsOk, Doomed, Announced, Pending, Owed, Residual, Stuck, Reachable;
    ReachableInv(s);
    OwedSplits(s.guards, s.versions);
    if Doomed(s) {
      DoomedAccounting(s);
    } else {
      CalmAccounting(s);
    }
  }

  /** A parked writer is never forgotten: someone owes a release, or is about to
      store zero, or is about to unpark, or has left a token, or is about to abort
      the process; and the registered thread is the one that parked. A non-zero
      value read again is negative. */
  lemma NoLostWakeup(s: State)
    requires Reachable(s) && Waiting(s)
    ensures s.mem.writerThread == Some(s.writer)
    ensures s.pc.Parked? && Stuck(s.guards, s.versions) == {} ==>
              || Residual(s.guards, s.versions) != {} || Storers(s.guards) != {}
              || Wakers(s.guards, s.cycle) != {} || s.writer in s.tokens
    ensures s.mem.residual <= 0
    ensures s.mem.residual == 0 <==>
            Residual(s.guards, s.versions) == {} && Stuck(s.guards, s.versions) == {} && Storers(s.guards) == {}
  {
    ReachableInv(s);
    hide Shape, Owed, Storers, Wakers, Residual, Stuck;
    OwedSplits(s.guards, s.versions);
  }

  /** Whenever the lock is free, every registered word points away from the
      writer's map; and every word counts the guards of its handle and the failed
      increments on it, which stays below the flag. */
  lemma RegistrationIsConsistent(s: State, h: Handle)
    requires Reachable(s) && h in s.mem.counts
    ensures LockFree(s) ==> s.mem.counts[h].index == s.mem.writerMap.Other()
    ensures s.mem.counts[h].count == |Readers(s.guards, h)| + |Failures(s.guards, h)|
    ensures s.mem.counts[h].count < s.half && 2 * |Readers(s.guards, h)| <= s.half + 1
  {
    ReachableInv(s);
    hide GuardsOk, Counted, Readers, Failures, IndexOf;
    CountedSplits(s.guards, h);
  }

  lemma CountedSplits(guards: map<GuardId, Guard>, h: Handle)
    ensures |Counted(guards, h)| == |Readers(guards, h)| + |Failures(guards, h)|
  {
    assert Counted(guards, h) == Readers(guards, h) + Failures(guards, h);
    assert Readers(guards, h) !! Failures(guards, h);
  }

  /** The only increments that are not steps would find the overflow bit set while
      `half / 2 - 1` others on the same handle are failing already. */
  lemma OnlyCrowdsAreExcluded(s: State, h: Handle, g: GuardId)
    requires Reachable(s) && !s.aborted && h in s.mem.counts && g !in s.guards && s.half % 2 == 0
    ensures !Enabled(s, NewGuard(h, g)) ==>
              Overflowing(s.mem.counts[h], s.half) && |Failures(s.guards, h)| + 1 >= s.half / 2
  {
    ReachableInv(s);
    RegistrationIsConsistent(s, h);
    hide GuardsOk, HandlesOk, Accounts, Readers, Failures, IndexOf, Reachable;
  }

  /** A reader about to store zero overwrites the announcement of its own cycle
      and nothing else, if and only if no overflowed sum awaits its test. A reader
      about to unpark finds a registered thread if and only if the writer has ever
      registered one in this run; which it has, unless that reader became the waker
      of the current cycle in front of an overflowed sum. */
  lemma WakersAreTimely(s0: State, steps: seq<Step>, g: GuardId)
    requires Init(s0) && Runs(s0, steps) && g in After(s0, steps).guards
    ensures var s := After(s0, steps);
            s.guards[g].stage.Storing? ==>
              && s.guards[g].version + 1 == s.cycle
              && (Waiting(s) && s.mem.residual == 0 - s.half && Owed(s.guards, s.versions) == {} <==> !Doomed(s))
    ensures var s := After(s0, steps);
            s.guards[g].stage.Waking? ==>
              && (s.mem.writerThread.Some? <==> Register in steps)
              && (Register !in steps ==> Doomed(s) && s.guards[g].stage.cycle == s.cycle)
  {
    hide Inv, Runs, After;
    var s := After(s0, steps);
    InitInv(s0);
    RunKeeps(s0, steps);
    RunRegisters(s0, steps);
    WakerFacts(s, g);
  }

  lemma RegistersOnce(s: State, step: Step)
    requires Enabled(s, step)
    ensures Next(s, step).mem.writerThread.Some? <==> s.mem.writerThread.Some? || step == Register
  {
  }

  lemma {:induction false} RunRegisters(s: State, steps: seq<Step>)
    requires Runs(s, steps)
    ensures After(s, steps).mem.writerThread.Some? <==> s.mem.writerThread.Some? || Register in steps
    decreases |steps|
  {
    hide Enabled, Next;
    if steps != [] {
      RegistersOnce(s, steps[0]);
      RunRegisters(Next(s, steps[0]), steps[1..]);
      assert steps == [steps[0]] + steps[1..];
    }
  }

  lemma WakerFacts(s: State, g: GuardId)
    requires Inv(s) && g in s.guards
    ensures s.guards[g].stage.Storing? ==>
              && s.guards[g].version + 1 == s.cycle
              && (Waiting(s) && s.mem.residual == 0 - s.half && Owed(s.guards, s.versions) == {} <==> !Doomed(s))
    ensures s.guards[g].stage.Waking? && s.mem.writerThread == None ==>
              Doomed(s) && s.guards[g].stage.cycle == s.cycle
  {
    hide HandlesOk, Owed, Wakers, IndexOf, Storers;
    if s.guards[g].stage.Storing? {
      InStorers(s.guards, g);
      if s.cycle !in s.woken {
        NoWakerYet(s);
      }
    }
  }

  lemma InStorers(guards: map<GuardId, Guard>, g: GuardId)
    requires g in guards && guards[g].stage.Storing?
    ensures g in Storers(guards)
  {
  }

  // ----- whole runs

  /** What one step does to cycles, versions and the record of wakers. */
  lemma StepGrows(s: State, step: Step)
    requires Enabled(s, step)
    ensures var t := Next(s, step);
            && t.cycle == (if step.Lock? then s.cycle + 1 else s.cycle)
            && (t.pc.Swapping? && !s.pc.Swapping? ==> step.Lock?)
            && s.woken <= t.woken
            && (forall h <- t.versions ::
                  t.versions[h] == s.cycle || (h in s.versions && t.versions[h] == s.versions[h]))
  {
  }

  lemma {:induction false} RunGrows(s: State, steps: seq<Step>)
    requires Runs(s, steps)
    ensures var t := After(s, steps);
            && s.cycle <= t.cycle && s.woken <= t.woken
            && (LockFree(s) && t.cycle == s.cycle ==> LockFree(t))
    decreases |steps|
  {
    hide Enabled, Next;
    if steps != [] {
      StepGrows(s, steps[0]);
      RunGrows(Next(s, steps[0]), steps[1..]);
    }
  }

  /** No handle ever stands for a version older than `v` once `v` is a lower bound. */
  lemma {:induction false} VersionFloor(s: State, steps: seq<Step>, h: Handle, v: nat)
    requires Runs(s, steps) && v <= s.cycle && (h in s.versions ==> v <= s.versions[h])
    ensures var t := After(s, steps); h in t.versions ==> v <= t.versions[h]
    decreases |steps|
  {
    hide Enabled, Next;
    if steps != [] {
      StepGrows(s, steps[0]);
      VersionFloor(Next(s, steps[0]), steps[1..], h, v);
    }
  }

  /** Reads of one handle never go back: a guard made later has a version at
      least that of any guard made before. */
  lemma MonotoneReads(s: State, steps: seq<Step>, old': GuardId, g: GuardId)
    requires Reachable(s) && Runs(s, steps)
    requires old' in s.guards
    requires Enabled(After(s, steps), NewGuard(s.guards[old'].handle, g))
    ensures var t := Next(After(s, steps), NewGuard(s.guards[old'].handle, g));
            s.guards[old'].version <= t.guards[g].version
  {
    ReachableInv(s);
    GuardBound(s, old');
    hide Inv, Reachable, Runs, After;
    VersionFloor(s, steps, s.guards[old'].handle, s.guards[old'].version);
  }

  lemma GuardBound(s: State, g: GuardId)
    requires Inv(s) && g in s.guards
    ensures s.guards[g].handle in s.versions && s.guards[g].version <= s.versions[s.guards[g].handle] <= s.cycle
  {
    hide IndexOf, Readers, Accounts;
    HandleBound(s, s.guards[g].handle);
  }

  lemma HandleBound(s: State, h: Handle)
    requires Inv(s) && h in s.versions
    ensures s.versions[h] <= s.cycle <= s.versions[h] + 1
    ensures LockFree(s) ==> s.versions[h] == s.cycle
  {
    hide GuardsOk, Counted, Readers, IndexOf, Accounts;
  }

  /** A clone is never older than any guard made before it. */
  lemma CloneIsNotOlder(s: State, parent: Handle, h: Handle, steps: seq<Step>, old': GuardId, g: GuardId)
    requires Reachable(s) && old' in s.guards
    requires Runs(s, [NewReader(parent, h)] + steps)
    requires Enabled(After(s, [NewReader(parent, h)] + steps), NewGuard(h, g))
    ensures var t := Next(After(s, [NewReader(parent, h)] + steps), NewGuard(h, g));
            s.guards[old'].version <= t.guards[g].version
  {
    ReachableInv(s);
    var all := [NewReader(parent, h)] + steps;
    assert all[0] == NewReader(parent, h) && all[1..] == steps;
    GuardBound(s, old');
    hide Inv, Reachable;
    VersionFloor(Next(s, all[0]), steps, h, s.guards[old'].version);
  }

  /** Any guard made after a publish has let go of the lock sees it or a later one. */
  lemma PublishIsVisible(s: State, steps: seq<Step>, h: Handle, g: GuardId)
    requires Reachable(s) && LockFree(s) && Runs(s, steps)
    requires Enabled(After(s, steps), NewGuard(h, g))
    ensures s.cycle <= Next(After(s, steps), NewGuard(h, g)).guards[g].version
  {
    ReachableInv(s);
    if h in s.versions {
      HandleBound(s, h);
    }
    hide Inv;
    VersionFloor(s, steps, h, s.cycle);
  }

  /** How often a run swaps a handle. */
  function Swaps(steps: seq<Step>, h: Handle): nat {
    if steps == [] then 0 else (if steps[0] == Swap(h) then 1 else 0) + Swaps(steps[1..], h)
  }

  lemma GuardStays(s: State, step: Step, g: GuardId)
    requires Inv(s) && Enabled(s, step) && g in s.guards && s.guards[g].stage.Reading? && step != EndGuard(g)
    ensures var t := Next(s, step);
            var h := s.guards[g].handle;
            && g in t.guards && t.guards[g] == s.guards[g]
            && h in s.versions && h in t.versions
            && t.versions[h] == s.versions[h] + (if step == Swap(h) then 1 else 0)
  {
    hide HandlesOk, Accounts, Owed, IndexOf;
    if step == Swap(s.guards[g].handle) {
      SwapTarget(s, step.h);
    }
  }

  lemma {:induction false} GuardLives(s: State, steps: seq<Step>, g: GuardId)
    requires Inv(s) && Runs(s, steps) && g in s.guards && s.guards[g].stage.Reading? && EndGuard(g) !in steps
    ensures var t := After(s, steps);
            var h := s.guards[g].handle;
            && Inv(t) && g in t.guards && t.guards[g] == s.guards[g]
            && h in s.versions && h in t.versions
            && t.versions[h] == s.versions[h] + Swaps(steps, h)
    decreases |steps|
  {
    hide Inv, Enabled, Next;
    if steps == [] {
      HandleKnown(s, g);
    } else {
      GuardStays(s, steps[0], g);
      StepKeeps(s, steps[0]);
      GuardLives(Next(s, steps[0]), steps[1..], g);
    }
  }

  lemma HandleKnown(s: State, g: GuardId)
    requires Inv(s) && g in s.guards
    ensures s.guards[g].handle in s.versions && s.guards[g].handle in s.mem.counts
  {
    hide HandlesOk, Accounts;
  }

  /** A handle is swapped at most once during the life of any of its guards, and
      the guard calls `release_residual` if and only if it was. */
  lemma SwappedAtMostOnce(s: State, h: Handle, g: GuardId, steps: seq<Step>)
    requires Reachable(s) && Enabled(s, NewGuard(h, g)) && Next(s, NewGuard(h, g)).guards[g].stage.Reading?
    requires Runs(Next(s, NewGuard(h, g)), steps) && EndGuard(g) !in steps
    requires Enabled(After(Next(s, NewGuard(h, g)), steps), EndGuard(g))
    ensures var t := After(Next(s, NewGuard(h, g)), steps);
            && Swaps(steps, h) <= 1
            && (g in Next(t, EndGuard(g)).guards <==> Swaps(steps, h) == 1)
  {
    ReachableInv(s);
    var s1 := Next(s, NewGuard(h, g));
    StepKeeps(s, NewGuard(h, g));
    assert s1.guards[g] == Guard(h, s.mem.counts[h].index, s.versions[h], Reading) && s1.versions == s.versions;
    GuardLives(s1, steps, g);
    hide Runs, After;
    EndReleases(After(s1, steps), g);
  }

  lemma EndReleases(t: State, g: GuardId)
    requires Inv(t) && Enabled(t, EndGuard(g))
    ensures t.guards[g].version <= t.versions[t.guards[g].handle] <= t.guards[g].version + 1
    ensures g in Next(t, EndGuard(g)).guards <==> t.versions[t.guards[g].handle] == t.guards[g].version + 1
  {
    ComparisonIsExact(t, g);
    hide HandlesOk, Accounts, IndexOf;
  }

  lemma SwapsLeft(s: State, step: Step, h: Handle)
    requires Inv(s) && Enabled(s, step) && Publishing(s) && Publishing(Next(s, step))
    ensures var t := Next(s, step);
            && t.mem.counts.Keys >= (if s.pc.Swapping? then s.pc.todo else {})
            && (h in Todo(s) <==> h in Todo(t) || step == Swap(h)) && (step == Swap(h) ==> h !in Todo(t))
  {
    hide HandlesOk, GuardsOk, Accounts;
  }

  function Todo(s: State): set<Handle> {
    if s.pc.Swapping? then s.pc.todo else {}
  }

  lemma StaysPublishing(s: State, step: Step)
    requires Enabled(s, step) && Publishing(s)
    ensures Publishing(Next(s, step)) || (step == Add && Next(s, step).pc == Idle)
  {
  }

  /** Each publish swaps every handle registered when it took the lock exactly
      once and no other, whatever readers do meanwhile. */
  lemma {:induction false} EachHandleSwappedOnce(s: State, steps: seq<Step>, h: Handle)
    requires Inv(s) && Publishing(s) && Runs(s, steps) && Add !in steps
    ensures var t := After(s, steps);
            && Publishing(t)
            && Swaps(steps, h) == (if h in Todo(s) then 1 else 0) - (if h in Todo(t) then 1 else 0)
            && (t.pc.Adding? ==> Swaps(steps, h) == if h in Todo(s) then 1 else 0)
    decreases |steps|
  {
    hide Inv, Enabled, Next;
    if steps != [] {
      StaysPublishing(s, steps[0]);
      SwapsLeft(s, steps[0], h);
      StepKeeps(s, steps[0]);
      EachHandleSwappedOnce(Next(s, steps[0]), steps[1..], h);
    }
  }

  /** From taking the lock to releasing it, one publish swaps exactly the handles
      registered when it began, each of them once. */
  lemma PublishSwapsAll(s: State, steps: seq<Step>, h: Handle)
    requires Reachable(s) && Enabled(s, Lock)
    requires Runs(Next(s, Lock), steps) && Add !in steps && After(Next(s, Lock), steps).pc.Adding?
    ensures Swaps(steps, h) == if h in s.mem.counts then 1 else 0
  {
    hide Shape, Accounts, Runs, After;
    ReachableInv(s);
    StepKeeps(s, Lock);
    EachHandleSwappedOnce(Next(s, Lock), steps, h);
  }

  // ----- which handles there are

  /** Whether a handle is registered after some steps, if it `was` before. */
  function Registered(steps: seq<Step>, h: Handle, was: bool): bool {
    if steps == [] then was
    else
      var step := steps[0];
      Registered(steps[1..], h, if step.NewReader? && step.h == h then true else step != DropReader(h) && was)
  }

  lemma RegisteredStep(s: State, step: Step, h: Handle)
    requires Enabled(s, step)
    ensures h in Next(s, step).mem.counts <==> Registered([step], h, h in s.mem.counts)
  {
    assert [step][1..] == [];
  }

  /** A handle is registered exactly from the step that makes it to the step that
      drops it, in every run. */
  lemma {:induction false} RegistrationFollowsSteps(s: State, steps: seq<Step>, h: Handle)
    requires Runs(s, steps)
    ensures h in After(s, steps).mem.counts <==> Registered(steps, h, h in s.mem.counts)
    decreases |steps|
  {
    hide Enabled, Next;
    if steps != [] {
      RegisteredStep(s, steps[0], h);
      assert [steps[0]][1..] == [];
      RegistrationFollowsSteps(Next(s, steps[0]), steps[1..], h);
    }
  }

  lemma {:induction false} NotRegistered(s: State, steps: seq<Step>, h: Handle)
    requires Runs(s, steps) && h !in s.mem.counts && forall step <- steps :: !(step.NewReader? && step.h == h)
    ensures h !in After(s, steps).mem.counts && Swaps(steps, h) == 0
    decreases |steps|
  {
    hide Enabled, Next;
    if steps != [] {
      RegisteredStep(s, steps[0], h);
      assert [steps[0]][1..] == [];
      SwapsKnown(s, steps[0]);
      NotRegistered(Next(s, steps[0]), steps[1..], h);
    }
  }

  lemma SwapsKnown(s: State, step: Step)
    requires Enabled(s, step)
    ensures step.Swap? ==> step.h in s.mem.counts
  {
  }

  /** A dropped handle is gone: until its key is taken again, no guard of it is
      made and no publish swaps it, in any run; the other handles keep their words
      and their versions. */
  lemma DroppedReaderIsGone(s: State, h: Handle, steps: seq<Step>, g: GuardId)
    requires Enabled(s, DropReader(h)) && Runs(Next(s, DropReader(h)), steps)
    requires forall step <- steps :: !(step.NewReader? && step.h == h)
    ensures var t := Next(s, DropReader(h));
            && (forall k <- s.mem.counts | k != h :: k in t.mem.counts && t.mem.counts[k] == s.mem.counts[k])
            && (forall k <- s.versions | k != h :: k in t.versions && t.versions[k] == s.versions[k])
            && t.guards == s.guards
    ensures var u := After(Next(s, DropReader(h)), steps);
            !Enabled(u, NewGuard(h, g)) && !Enabled(u, Swap(h)) && Swaps(steps, h) == 0
  {
    NotRegistered(Next(s, DropReader(h)), steps, h);
  }

  /** What a step adds to the sum of a publish: the count it swaps. */
  function Adds(s: State, step: Step): nat {
    if step.Swap? && step.h in s.mem.counts then s.mem.counts[step.h].count else 0
  }

  /** The sum of the counts that a run swaps, each at the moment of its swap. */
  ghost function SwappedSum(s: State, steps: seq<Step>): nat
    requires Runs(s, steps)
    decreases |steps|
  {
    if steps == [] then 0 else Adds(s, steps[0]) + SwappedSum(Next(s, steps[0]), steps[1..])
  }

  lemma {:induction false} DoomedRun(s: State, steps: seq<Step>)
    requires Doomed(s) && Runs(s, steps)
    ensures Doomed(After(s, steps)) && SwappedSum(s, steps) == 0
    decreases |steps|
  {
    hide Enabled, Next;
    if steps != [] {
      DoomedStays(s, steps[0]);
      DoomedRun(Next(s, steps[0]), steps[1..]);
    }
  }

  lemma SwapCount(s: State, h: Handle)
    requires Inv(s) && Enabled(s, Swap(h))
    ensures s.mem.counts[h].count < s.half
  {
    hide GuardsOk, Accounts;
    SwapTarget(s, h);
  }

  lemma SwapSum(s: State, h: Handle)
    requires Enabled(s, Swap(h)) && 0 <= s.pc.sum < s.half && s.mem.counts[h].count < s.half
    ensures var t, sum := Next(s, Swap(h)), s.pc.sum + s.mem.counts[h].count;
            Publishing(t) && (Doomed(t) <==> sum > s.half - 1) && (!Doomed(t) ==> t.pc.sum == sum)
  {
  }

  lemma OtherSum(s: State, step: Step)
    requires Publishing(s) && Enabled(s, step) && step != Add && !step.Swap?
    ensures Publishing(Next(s, step)) && Next(s, step).pc.sum == s.pc.sum
    ensures s.pc.sum >= 0 ==> !Doomed(Next(s, step))
  {
  }

  /** What one step does to the running sum, as long as that has not overflowed. */
  lemma SumStep(s: State, step: Step)
    requires Inv(s) && Publishing(s) && !Doomed(s) && Enabled(s, step) && step != Add
    ensures var t, sum := Next(s, step), s.pc.sum + Adds(s, step);
            Publishing(t) && (Doomed(t) <==> sum > s.half - 1) && (!Doomed(t) ==> t.pc.sum == sum)
  {
    hide Inv, Next, Doomed, Publishing;
    SumInRange(s);
    if step.Swap? {
      SwapCount(s, step.h);
      SwapSum(s, step.h);
    } else {
      OtherSum(s, step);
    }
  }

  lemma {:induction false} SumOfRun(s: State, steps: seq<Step>)
    requires Inv(s) && Publishing(s) && !Doomed(s) && Runs(s, steps) && Add !in steps
    ensures var t, sum := After(s, steps), s.pc.sum + SwappedSum(s, steps);
            && Publishing(t)
            && (Doomed(t) <==> sum > s.half - 1)
            && (!Doomed(t) ==> t.pc.sum == sum)
    decreases |steps|
  {
    hide Enabled, Next, Shape, Accounts, Doomed, Publishing;
    if steps == [] {
      SumInRange(s);
    } else {
      var s1 := Next(s, steps[0]);
      SumStep(s, steps[0]);
      StepKeeps(s, steps[0]);
      SameHalf(s, steps[0]);
      if Doomed(s1) {
        DoomedRun(s1, steps[1..]);
        DoomedPublishes(After(s1, steps[1..]));
      } else {
        SumOfRun(s1, steps[1..]);
      }
    }
  }

  lemma SumInRange(s: State)
    requires Inv(s) && Publishing(s) && !Doomed(s)
    ensures 0 <= s.pc.sum < s.half
  {
    hide Shape, Owed;
  }

  lemma SameHalf(s: State, step: Step)
    requires Enabled(s, step)
    ensures Next(s, step).half == s.half
  {
  }

  lemma DoomedPublishes(s: State)
    requires Doomed(s)
    ensures Publishing(s)
  {
  }

  /** The overflow test of `publish` is exact, whatever readers do between its
      swaps: at any point of one publish, the next test aborts if and only if the
      counts, each taken when it was swapped, sum up to more than `isize::MAX`;
      otherwise the accumulator is that sum, and it is what reaches `residual`. */
  lemma OverflowTestIsExact(s: State, steps: seq<Step>)
    requires Reachable(s) && Enabled(s, Lock) && Runs(Next(s, Lock), steps) && Add !in steps
    ensures var t, sum := After(Next(s, Lock), steps), SwappedSum(Next(s, Lock), steps);
            && Publishing(t)
            && (Enabled(t, Check) ==> (Next(t, Check).aborted <==> sum > s.half - 1))
            && (t.pc.Adding? ==> sum <= s.half - 1)
            && (!Doomed(t) ==> t.pc.sum == sum)
            && (Doomed(t) <==> sum > s.half - 1)
  {
    hide Inv, Runs, After, SwappedSum, Reachable, Enabled, Next, Doomed, Publishing;
    ReachableInv(s);
    StepKeeps(s, Lock);
    LockStarts(s);
    SumOfRun(Next(s, Lock), steps);
    CheckAborts(After(Next(s, Lock), steps));
  }

  lemma LockStarts(s: State)
    requires Enabled(s, Lock)
    ensures var t := Next(s, Lock);
            Publishing(t) && !Doomed(t) && t.pc.sum == 0 && t.half == s.half
  {
  }

  lemma CheckAborts(s: State)
    requires Publishing(s)
    ensures Enabled(s, Check) ==> (Next(s, Check).aborted <==> Doomed(s))
    ensures s.pc.Adding? ==> !Doomed(s)
  {
  }

  /** The value that makes a reader the waker is exact: a release finds it, and no
      overflowed sum awaits its test, if and only if the writer waits for this one
      release. And a release that finds it finds the writer waiting, with its
      thread registered, if and only if no overflowed sum awaits its test. */
  lemma LastResidualIsExact(s: State, g: GuardId)
    requires Reachable(s) && Enabled(s, FetchSub(g))
    ensures s.mem.residual == LastResidual(s.half) && !Doomed(s) <==> Waiting(s) && |Owed(s.guards, s.versions)| == 1
    ensures s.mem.residual == LastResidual(s.half) ==>
              (Waiting(s) && s.mem.writerThread == Some(s.writer) <==> !Doomed(s))
  {
    hide HandlesOk, GuardsOk, Storers, Wakers, OneWaker;
    ReachableInv(s);
    assert g in Owed(s.guards, s.versions);
    LastRelease(s);
  }

  /** In each cycle, even one whose sum has overflowed, at most one reader finds
      the last-residual value. */
  lemma OneWakerPerCycle(s: State, g: GuardId, steps: seq<Step>, g': GuardId)
    requires Reachable(s) && Enabled(s, FetchSub(g)) && s.mem.residual == LastResidual(s.half)
    requires Runs(Next(s, FetchSub(g)), steps)
    requires var t := After(Next(s, FetchSub(g)), steps);
             Enabled(t, FetchSub(g')) && t.mem.residual == LastResidual(t.half)
    ensures s.cycle < After(Next(s, FetchSub(g)), steps).cycle
  {
    hide Inv, Enabled, Next, Runs, After, Reachable, Doomed, Waiting;
    ReachableInv(s);
    var s1 := Next(s, FetchSub(g));
    FirstOfCycle(s, g);
    StepKeeps(s, FetchSub(g));
    RunKeeps(s1, steps);
    RunGrows(s1, steps);
    FirstOfCycle(After(s1, steps), g');
  }

  lemma FirstOfCycle(s: State, g: GuardId)
    requires Inv(s) && Enabled(s, FetchSub(g)) && s.mem.residual == LastResidual(s.half)
    ensures s.cycle !in s.woken && s.cycle in Next(s, FetchSub(g)).woken
    ensures Next(s, FetchSub(g)).cycle == s.cycle
  {
    hide HandlesOk, GuardsOk, Storers, Wakers, OneWaker;
    assert g in Owed(s.guards, s.versions);
    LastRelease(s);
  }
}
