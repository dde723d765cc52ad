/** Every step of the protocol keeps its invariant. For each kind of step, one
    lemma treats the shape of the state and one the meaning of `residual`. */
module ProtocolInv {
  import opened Prelude
  import opened Store
  import opened RefCounts
  import opened Cores
  import opened Protocol

  lemma NewReaderShape(s: State, parent: Handle, h: Handle)
    requires Shape(s) && Enabled(s, NewReader(parent, h))
    ensures Shape(Next(s, NewReader(parent, h)))
  {
    assert Counted(s.guards, h) == {} && Readers(s.guards, h) == {};
  }

  lemma NewReaderBalance(s: State, parent: Handle, h: Handle)
    requires Shape(s) && Accounts(s) && Enabled(s, NewReader(parent, h))
    ensures Accounts(Next(s, NewReader(parent, h)))
  {
    hide HandlesOk;
    assert Owed(s.guards, Next(s, NewReader(parent, h)).versions) == Owed(s.guards, s.versions);
  }

  lemma DropReaderShape(s: State, h: Handle)
    requires Shape(s) && Enabled(s, DropReader(h))
    ensures Shape(Next(s, DropReader(h)))
  {
  }

  lemma DropReaderBalance(s: State, h: Handle)
    requires Shape(s) && Accounts(s) && Enabled(s, DropReader(h))
    ensures Accounts(Next(s, DropReader(h)))
  {
    hide HandlesOk;
    assert Owed(s.guards, Next(s, DropReader(h)).versions) == Owed(s.guards, s.versions);
  }

  lemma NewGuardSets(guards: map<GuardId, Guard>, g: GuardId, guard: Guard)
    requires g !in guards && guard.stage.Counts()
    ensures var after, h := guards[g := guard], guard.handle;
            && Counted(after, h) == Counted(guards, h) + {g}
            && Readers(after, h) == (if guard.stage.Reading? then Readers(guards, h) + {g} else Readers(guards, h))
            && g !in Counted(guards, h) && Readers(guards, h) <= Counted(guards, h)
  {
  }

  lemma NewGuardElsewhere(guards: map<GuardId, Guard>, g: GuardId, guard: Guard, k: Handle)
    requires g !in guards && k != guard.handle
    ensures Counted(guards[g := guard], k) == Counted(guards, k)
    ensures Readers(guards[g := guard], k) == Readers(guards, k)
  {
  }

  lemma NewGuardCounts(guards: map<GuardId, Guard>, g: GuardId, guard: Guard)
    requires g !in guards && guard.stage.Counts()
    ensures var after, h := guards[g := guard], guard.handle;
            && |Counted(after, h)| == |Counted(guards, h)| + 1
            && |Readers(after, h)| == |Readers(guards, h)| + (if guard.stage.Reading? then 1 else 0)
            && |Readers(guards, h)| <= |Counted(guards, h)|
            && forall k | k != h :: Counted(after, k) == Counted(guards, k) && Readers(after, k) == Readers(guards, k)
  {
    hide Counted, Readers;
    NewGuardSets(guards, g, guard);
    SubsetSize(Readers(guards, guard.handle), Counted(guards, guard.handle));
    forall k | k != guard.handle { NewGuardElsewhere(guards, g, guard, k); }
  }

  lemma SubsetSize<T>(a: set<T>, b: set<T>)
    requires a <= b
    ensures |a| <= |b|
  {
    assert a + (b - a) == b;
  }

  lemma NewGuardHandles(s: State, h: Handle, g: GuardId)
    requires Shape(s) && Enabled(s, NewGuard(h, g))
    ensures HandlesOk(Next(s, NewGuard(h, g)))
  {
    hide Counted, Readers, GuardsOk, IndexOf;
    NewGuardCounts(s.guards, g, NewGuardOn(s, h));
  }

  lemma NewGuardShape(s: State, h: Handle, g: GuardId)
    requires Shape(s) && Enabled(s, NewGuard(h, g))
    ensures Shape(Next(s, NewGuard(h, g)))
  {
    hide Counted, Readers, IndexOf;
    NewGuardHandles(s, h, g);
  }

  lemma NewGuardBalance(s: State, h: Handle, g: GuardId)
    requires Shape(s) && Accounts(s) && Enabled(s, NewGuard(h, g))
    ensures Accounts(Next(s, NewGuard(h, g)))
  {
    hide HandlesOk, IndexOf;
    var t := Next(s, NewGuard(h, g));
    assert Owed(t.guards, t.versions) == Owed(s.guards, s.versions);
    assert Storers(t.guards) == Storers(s.guards) && Wakers(t.guards, t.cycle) == Wakers(s.guards, s.cycle);
  }

  /** The index comparison in `ReadGuard::drop` is exact: it finds a difference
      if and only if the guard is residual. */
  lemma ComparisonIsExact(s: State, g: GuardId)
    requires Shape(s) && Enabled(s, EndGuard(g))
    ensures s.mem.counts[s.guards[g].handle].index != s.guards[g].index <==> g in Owed(s.guards, s.versions)
  {
    hide Counted, Readers;
  }

  lemma EndGuardCounts(guards: map<GuardId, Guard>, after: map<GuardId, Guard>, g: GuardId)
    requires g in guards && guards[g].stage.Reading?
    requires after == guards - {g} || (g in after && after == guards[g := after[g]] && !after[g].stage.Counts())
    ensures var h := guards[g].handle;
            && |Counted(after, h)| == |Counted(guards, h)| - 1 && |Readers(after, h)| == |Readers(guards, h)| - 1
            && forall k | k != h :: Counted(after, k) == Counted(guards, k) && Readers(after, k) == Readers(guards, k)
  {
    var h := guards[g].handle;
    assert g in Counted(guards, h) && g in Readers(guards, h);
    assert Counted(after, h) == Counted(guards, h) - {g} && Readers(after, h) == Readers(guards, h) - {g};
    assert forall k | k != h :: Counted(after, k) == Counted(guards, k) && Readers(after, k) == Readers(guards, k);
  }

  lemma EndGuardHandles(s: State, g: GuardId)
    requires Shape(s) && Enabled(s, EndGuard(g))
    ensures HandlesOk(Next(s, EndGuard(g)))
  {
    hide Counted, Readers, GuardsOk, IndexOf;
    EndGuardCounts(s.guards, Next(s, EndGuard(g)).guards, g);
  }

  lemma EndGuardShape(s: State, g: GuardId)
    requires Shape(s) && Enabled(s, EndGuard(g))
    ensures Shape(Next(s, EndGuard(g)))
  {
    hide HandlesOk, Counted, Readers, IndexOf;
    ComparisonIsExact(s, g);
    EndGuardHandles(s, g);
  }

  /** Ending a guard does not change who is residual. */
  lemma EndGuardSets(guards: map<GuardId, Guard>, after: map<GuardId, Guard>, versions: map<Handle, nat>,
      cycle: nat, g: GuardId)
    requires g in guards && guards[g].stage.Reading?
    requires after == if g in Owed(guards, versions) then guards[g := guards[g].(stage := Releasing)] else guards - {g}
    ensures Owed(after, versions) == Owed(guards, versions)
    ensures Storers(after) == Storers(guards) && Wakers(after, cycle) == Wakers(guards, cycle)
    ensures OneWaker(guards, cycle) ==> OneWaker(after, cycle)
  {
  }

  lemma EndGuardBalance(s: State, g: GuardId)
    requires Shape(s) && Accounts(s) && Enabled(s, EndGuard(g))
    ensures Accounts(Next(s, EndGuard(g)))
  {
    hide HandlesOk, GuardsOk, Owed, Storers, Wakers, OneWaker;
    ComparisonIsExact(s, g);
    EndGuardSets(s.guards, Next(s, EndGuard(g)).guards, s.versions, s.cycle, g);
  }

  /** A guard that is past its decrement moves on to `next`, or is gone. */
  ghost function Moved(guards: map<GuardId, Guard>, g: GuardId, next: Option<Stage>): map<GuardId, Guard>
    requires g in guards
  {
    if next.Some? then guards[g := guards[g].(stage := next.value)] else guards - {g}
  }

  lemma MovedCounts(guards: map<GuardId, Guard>, g: GuardId, next: Option<Stage>)
    requires g in guards && !guards[g].stage.Counts() && (next.Some? ==> !next.value.Counts())
    ensures var after := Moved(guards, g, next);
            forall h :: Counted(after, h) == Counted(guards, h) && Readers(after, h) == Readers(guards, h)
  {
    var after := Moved(guards, g, next);
    assert forall h :: Counted(after, h) == Counted(guards, h) && Readers(after, h) == Readers(guards, h);
  }

  lemma MovedShape(s: State, t: State, g: GuardId, next: Option<Stage>)
    requires Shape(s) && g in s.guards && !s.guards[g].stage.Counts() && (next.Some? ==> !next.value.Counts())
    requires t.guards == Moved(s.guards, g, next)
    requires t.half == s.half && t.mem.counts == s.mem.counts && t.mem.writerMap == s.mem.writerMap
        && t.mem.writerThread == s.mem.writerThread
    requires t.versions == s.versions && t.cycle == s.cycle && t.pc == s.pc
    requires t.woken == s.woken || t.woken == s.woken + {s.cycle}
    requires g in t.guards ==> GuardOk(t.guards[g], t.versions[t.guards[g].handle], t.cycle, t.woken)
    ensures Shape(t)
  {
    hide Counted, Readers, IndexOf, HandleOk;
    MovedCounts(s.guards, g, next);
  }

  lemma FetchSubShape(s: State, g: GuardId)
    requires Shape(s) && Enabled(s, FetchSub(g))
    ensures Shape(Next(s, FetchSub(g)))
  {
    hide HandlesOk, Counted, Readers, IndexOf;
    MovedShape(s, Next(s, FetchSub(g)), g, if s.mem.residual == LastResidual(s.half) then Some(Storing) else None);
  }

  lemma FetchSubOwed(guards: map<GuardId, Guard>, versions: map<Handle, nat>, g: GuardId, next: Option<Stage>)
    requires g in guards && guards[g].stage.Releasing? && (next == None || next == Some(Storing))
    ensures var after := Moved(guards, g, next);
            Owed(guards, versions) != {} && |Owed(after, versions)| == |Owed(guards, versions)| - 1
  {
    assert g in Owed(guards, versions);
    assert Owed(Moved(guards, g, next), versions) == Owed(guards, versions) - {g};
  }

  lemma FetchSubSets(guards: map<GuardId, Guard>, cycle: nat, g: GuardId, last: bool)
    requires g in guards && guards[g].stage.Releasing?
    ensures var after := Moved(guards, g, if last then Some(Storing) else None);
            && Storers(after) == (if last then Storers(guards) + {g} else Storers(guards))
            && Wakers(after, cycle) == Wakers(guards, cycle)
            && (OneWaker(guards, cycle) && (last ==> Storers(guards) == Wakers(guards, cycle) == {}) ==>
                  OneWaker(after, cycle))
  {
    var after := Moved(guards, g, if last then Some(Storing) else None);
    assert Storers(after) == if last then Storers(guards) + {g} else Storers(guards);
    assert Wakers(after, cycle) == Wakers(guards, cycle);
    assert forall k <- after :: IsWaker(after[k], cycle) ==> k in Storers(after) || k in Wakers(after, cycle);
    if last && Storers(guards) == Wakers(guards, cycle) == {} {
      assert forall k <- after :: IsWaker(after[k], cycle) ==> k == g;
    }
  }

  /** Until a reader has become the waker of this cycle, none is about to store
      zero or to unpark for it. */
  lemma NoWakerYet(s: State)
    requires Shape(s) && s.cycle !in s.woken
    ensures Storers(s.guards) == {} && Wakers(s.guards, s.cycle) == {}
  {
    hide HandlesOk, IndexOf;
  }

  /** A release that finds the last-residual value is the first such release of
      the cycle. It is the only one outstanding and the writer waits for it, unless
      an overflowed sum awaits its test. */
  lemma LastRelease(s: State)
    requires Accounts(s) && s.half >= 2
    requires Owed(s.guards, s.versions) != {}
    ensures s.mem.residual == LastResidual(s.half) && !Doomed(s) <==> Waiting(s) && |Owed(s.guards, s.versions)| == 1
    ensures Waiting(s) ==> s.mem.writerThread == Some(s.writer)
    ensures s.mem.residual == LastResidual(s.half) || !Doomed(s) ==> s.cycle !in s.woken
  {
    hide Owed, Storers, Wakers, OneWaker;
  }

  /** The balance after one release, `n` residual guards before it. */
  lemma ReleaseBalance(s: State, t: State, n: nat, last: bool, awake: bool, awake': bool)
    requires Balance(s, n, false, awake) && !Doomed(s) && n > 0 && s.half >= 2 && s.cycle !in s.woken
    requires last == (s.mem.residual == LastResidual(s.half))
    requires t.mem == AddResidual(s.mem, -1, s.half) && t.half == s.half && t.cycle == s.cycle && t.pc == s.pc
        && t.writer == s.writer
    requires t.woken == if last then s.woken + {s.cycle} else s.woken
    ensures Balance(t, n - 1, last, awake')
  {
  }

  lemma DoomedRelease(s: State, t: State, n: nat, last: bool, storing: bool)
    requires Doomed(s) && DoomedBalance(s, n, storing) && n > 0 && s.half >= 2
    requires s.cycle !in s.woken ==> !storing
    requires last == (s.mem.residual == LastResidual(s.half))
    requires t.mem == AddResidual(s.mem, -1, s.half) && t.half == s.half && t.cycle == s.cycle && t.pc == s.pc
    requires t.woken == if last then s.woken + {s.cycle} else s.woken
    ensures DoomedBalance(t, n - 1, last || storing)
  {
  }

  lemma FetchSubNext(s: State, g: GuardId)
    requires Enabled(s, FetchSub(g))
    ensures var t, last := Next(s, FetchSub(g)), s.mem.residual == LastResidual(s.half);
            && g in s.guards && s.guards[g].stage.Releasing?
            && t.guards == Moved(s.guards, g, if last then Some(Storing) else None)
            && t.mem == AddResidual(s.mem, -1, s.half) && t.half == s.half
            && t.cycle == s.cycle && t.pc == s.pc && t.writer == s.writer && t.versions == s.versions
            && t.woken == if last then s.woken + {s.cycle} else s.woken
  {
  }

  lemma FetchSubBalance(s: State, g: GuardId)
    requires Shape(s) && Accounts(s) && Enabled(s, FetchSub(g))
    ensures Accounts(Next(s, FetchSub(g)))
  {
    hide HandlesOk, GuardsOk, Owed, Storers, Wakers, OneWaker, Balance, DoomedBalance, Awake, Next, Enabled, Moved,
      AddResidual;
    var t, last := Next(s, FetchSub(g)), s.mem.residual == LastResidual(s.half);
    FetchSubNext(s, g);
    FetchSubOwed(s.guards, s.versions, g, if last then Some(Storing) else None);
    FetchSubSets(s.guards, s.cycle, g, last);
    LastRelease(s);
    if s.cycle !in s.woken {
      NoWakerYet(s);
    }
    if Doomed(s) {
      DoomedRelease(s, t, |Owed(s.guards, s.versions)|, last, Storers(s.guards) != {});
    } else {
      ReleaseBalance(s, t, |Owed(s.guards, s.versions)|, last, Awake(s), Awake(t));
    }
  }

  lemma StoreZeroShape(s: State, g: GuardId)
    requires Shape(s) && Enabled(s, StoreZero(g))
    ensures Shape(Next(s, StoreZero(g)))
  {
    hide HandlesOk, Counted, Readers, IndexOf;
    MovedShape(s, Next(s, StoreZero(g)), g, Some(Waking(s.cycle)));
  }

  lemma StoreZeroSets(guards: map<GuardId, Guard>, versions: map<Handle, nat>, cycle: nat, g: GuardId)
    requires g in guards && guards[g].stage.Storing? && OneWaker(guards, cycle)
    ensures var after := Moved(guards, g, Some(Waking(cycle)));
            && Owed(after, versions) == Owed(guards, versions)
            && g in Storers(guards) && Storers(after) == {} && Wakers(after, cycle) != {} && OneWaker(after, cycle)
  {
    var after := Moved(guards, g, Some(Waking(cycle)));
    assert forall k <- guards | k != g :: !IsWaker(guards[k], cycle);
    assert g in Wakers(after, cycle);
  }

  lemma StoreZeroBalance(s: State, g: GuardId)
    requires Shape(s) && Accounts(s) && Enabled(s, StoreZero(g))
    ensures Accounts(Next(s, StoreZero(g)))
  {
    hide HandlesOk, GuardsOk, Owed, Storers, Wakers, OneWaker;
    StoreZeroSets(s.guards, s.versions, s.cycle, g);
    if s.cycle !in s.woken {
      NoWakerYet(s);
    }
  }

  lemma UnparkShape(s: State, g: GuardId)
    requires Shape(s) && Enabled(s, Unpark(g))
    ensures Shape(Next(s, Unpark(g)))
  {
    hide HandlesOk, GuardsOk, Counted, Readers, IndexOf;
    MovedShape(s, Next(s, Unpark(g)), g, None);
  }

  lemma UnparkSets(guards: map<GuardId, Guard>, versions: map<Handle, nat>, cycle: nat, g: GuardId)
    requires g in guards && guards[g].stage.Waking? && OneWaker(guards, cycle)
    ensures var after := guards - {g};
            && Owed(after, versions) == Owed(guards, versions)
            && Storers(after) == Storers(guards)
            && (g !in Wakers(guards, cycle) ==> Wakers(after, cycle) == Wakers(guards, cycle))
            && OneWaker(after, cycle)
  {
    var after := guards - {g};
    assert Owed(after, versions) == Owed(guards, versions);
    assert Storers(after) == Storers(guards);
    assert Wakers(after, cycle) == Wakers(guards, cycle) - {g};
  }

  lemma UnparkBalance(s: State, g: GuardId)
    requires Shape(s) && Accounts(s) && Enabled(s, Unpark(g))
    ensures Accounts(Next(s, Unpark(g)))
  {
    hide HandlesOk, GuardsOk, Owed, Storers, Wakers, OneWaker;
    UnparkSets(s.guards, s.versions, s.cycle, g);
  }

  /** The writer's steps other than the swap, and those steps of others that touch
      neither guards nor counters. */
  predicate OfWriter(step: Step) {
    step.Begin? || step.Load? || step.Register? || step.Announce? || step.Wake? || step.Recheck? || step.Reset?
    || step.Return? || step.StartWriting? || step.Close? || step.Lock? || step.Check? || step.Unlock? || step.Add?
    || step.StrayToken? || step.Abort?
  }

  /** A step that leaves handles and guards alone, outside `publish`'s loop. */
  lemma SameShape(s: State, t: State)
    requires Shape(s)
    requires t.half == s.half && t.mem.counts == s.mem.counts && t.mem.writerMap == s.mem.writerMap
    requires t.guards == s.guards && t.versions == s.versions && t.cycle == s.cycle && t.woken == s.woken
    requires forall h :: Target(t.pc, h, t.cycle) == Target(s.pc, h, s.cycle)
    requires s.mem.writerThread.Some? ==> t.mem.writerThread.Some?
    requires t.pc.Swapping? ==> t.pc.todo <= t.mem.counts.Keys && (t.pc.checked ==> t.pc.sum >= 0)
    ensures Shape(t)
  {
    hide HandleOk, GuardOk, Counted, Readers, IndexOf, Target;
  }

  lemma WriterFrame(s: State, step: Step)
    requires OfWriter(step) && !step.Lock? && Enabled(s, step)
    ensures var t := Next(s, step);
            && t.half == s.half && t.mem.counts == s.mem.counts && t.mem.writerMap == s.mem.writerMap
            && t.guards == s.guards && t.versions == s.versions && t.cycle == s.cycle && t.woken == s.woken
            && (forall h :: Target(t.pc, h, t.cycle) == Target(s.pc, h, s.cycle))
            && (s.mem.writerThread.Some? ==> t.mem.writerThread.Some?)
            && (t.pc.Swapping? ==> s.pc.Swapping? && t.pc.todo == s.pc.todo && t.pc.sum == s.pc.sum
                                   && (t.pc.checked ==> s.pc.checked || s.pc.sum >= 0))
  {
  }

  lemma WriterShape(s: State, step: Step)
    requires Inv(s) && OfWriter(step) && Enabled(s, step)
    ensures Shape(Next(s, step))
  {
    hide HandlesOk, GuardsOk, Next, Enabled, Accounts, Target;
    if step.Lock? {
      LockShape(s);
    } else {
      WriterFrame(s, step);
      SameShape(s, Next(s, step));
    }
  }

  /** When `publish` begins no guard is residual: every reading guard has the
      version of its handle, and no reader of this cycle is inside a release. */
  lemma AllCurrent(s: State)
    requires Shape(s) && Accounts(s) && s.pc.Writing?
    ensures forall g <- s.guards :: match s.guards[g].stage
                                    case Reading | Failing =>
                                      s.guards[g].version == s.versions[s.guards[g].handle]
                                    case Waking(c) => true
                                    case _ => false
  {
    hide HandlesOk, IndexOf;
    assert Owed(s.guards, s.versions) == {} && Storers(s.guards) == {};
    assert forall g <- s.guards :: g !in Owed(s.guards, s.versions) && g !in Storers(s.guards);
  }

  lemma LockShape(s: State)
    requires Inv(s) && Enabled(s, Lock)
    ensures Shape(Next(s, Lock))
  {
    AllCurrent(s);
    assert forall c <- s.woken :: c < s.cycle + 1 && s.mem.writerThread.Some?;
    hide Counted, Readers, Accounts;
  }

  lemma CallBalance(s: State, step: Step)
    requires Shape(s) && Accounts(s) && Enabled(s, step)
    requires step.Begin? || step.Return? || step.StartWriting? || step.Close? || step.StrayToken?
        || step.Abort?
    ensures Accounts(Next(s, step))
  {
    hide HandlesOk, GuardsOk, Owed, Storers, Wakers, OneWaker;
  }

  lemma SyncBalance(s: State, step: Step)
    requires Shape(s) && Accounts(s) && Enabled(s, step)
    requires step.Load? || step.Register? || step.Announce? || step.Reset?
    ensures Accounts(Next(s, step))
  {
    hide HandlesOk, GuardsOk, Owed, Storers, Wakers, OneWaker;
  }

  lemma WaitBalance(s: State, step: Step)
    requires Shape(s) && Accounts(s) && Enabled(s, step) && (step.Wake? || step.Recheck?)
    ensures Accounts(Next(s, step))
  {
    hide HandlesOk, GuardsOk, Owed, Storers, Wakers, OneWaker;
  }

  lemma LockBalance(s: State)
    requires Shape(s) && Accounts(s) && Enabled(s, Lock)
    ensures Accounts(Next(s, Lock))
  {
    hide HandlesOk, IndexOf, Owed;
    AllCurrent(s);
    assert Wakers(s.guards, s.cycle + 1) == {};
  }

  lemma PublishBalance(s: State, step: Step)
    requires Shape(s) && Accounts(s) && Enabled(s, step) && (step.Check? || step.Unlock? || step.Add?)
    ensures Accounts(Next(s, step))
  {
    hide HandlesOk, GuardsOk, Owed, Storers, Wakers, OneWaker;
  }

  lemma WriterBalance(s: State, step: Step)
    requires Shape(s) && Accounts(s) && OfWriter(step) && Enabled(s, step)
    ensures Accounts(Next(s, step))
  {
    hide Shape, Accounts, Enabled, Next;
    match step
    case Begin(_, _) | Return | StartWriting | Close | StrayToken(_) | Abort(_) => CallBalance(s, step);
    case Load | Register | Announce | Reset => SyncBalance(s, step);
    case Wake | Recheck => WaitBalance(s, step);
    case Lock => LockBalance(s);
    case Check | Unlock | Add => PublishBalance(s, step);
  }

  /** A handle that `publish` has yet to swap. */
  lemma SwapTarget(s: State, h: Handle)
    requires Shape(s) && Enabled(s, Swap(h))
    ensures s.versions[h] + 1 == s.cycle
    ensures s.mem.counts[h].count == |Counted(s.guards, h)| && s.mem.counts[h].count < s.half
  {
    hide Counted, Readers, GuardsOk, IndexOf;
  }

  lemma OwedAfterSwap(guards: map<GuardId, Guard>, versions: map<Handle, nat>, h: Handle, cycle: nat)
    requires h in versions && versions[h] < cycle
    requires forall g <- guards | guards[g].handle == h && guards[g].stage.Counts() :: guards[g].version == versions[h]
    ensures Owed(guards, versions) !! Counted(guards, h)
    ensures Owed(guards, versions[h := cycle]) == Owed(guards, versions) + Counted(guards, h)
  {
  }

  /** Swapping a handle makes all that its word counts owed; nothing of it was before. */
  lemma SwapOwed(s: State, h: Handle)
    requires Shape(s) && Enabled(s, Swap(h))
    ensures var t := Next(s, Swap(h));
            && Owed(s.guards, s.versions) !! Counted(s.guards, h)
            && |Owed(t.guards, t.versions)| == |Owed(s.guards, s.versions)| + s.mem.counts[h].count
  {
    SwapTarget(s, h);
    OwedAfterSwap(s.guards, s.versions, h, s.cycle) by { hide HandlesOk, IndexOf; }
    hide HandlesOk, GuardsOk, Owed, Counted;
  }

  lemma SwapHandles(s: State, h: Handle)
    requires Shape(s) && Enabled(s, Swap(h))
    ensures HandlesOk(Next(s, Swap(h)))
  {
    hide GuardsOk, Counted, Readers;
  }

  lemma SwapGuards(s: State, h: Handle)
    requires Shape(s) && Enabled(s, Swap(h))
    requires Owed(s.guards, s.versions) !! Counted(s.guards, h)
    ensures GuardsOk(Next(s, Swap(h)))
  {
    var t := Next(s, Swap(h));
    SwapTarget(s, h);
    hide HandlesOk, IndexOf;
    forall g <- t.guards
      ensures t.guards[g].handle in t.versions && GuardOk(t.guards[g], t.versions[t.guards[g].handle], t.cycle, t.woken)
    {
      if s.guards[g].handle == h {
        assert s.guards[g].stage.Counts() ==> g in Counted(s.guards, h) && g !in Owed(s.guards, s.versions);
      }
    }
  }

  lemma SwapShape(s: State, h: Handle)
    requires Shape(s) && Enabled(s, Swap(h))
    ensures Shape(Next(s, Swap(h)))
  {
    SwapOwed(s, h);
    SwapHandles(s, h);
    SwapGuards(s, h);
    hide HandlesOk, GuardsOk;
  }

  lemma SwapBalance(s: State, h: Handle)
    requires Inv(s) && Enabled(s, Swap(h))
    ensures Accounts(Next(s, Swap(h)))
  {
    hide HandlesOk, GuardsOk, Owed, Counted, Readers, Storers, Wakers, OneWaker;
    SwapOwed(s, h);
    SwapTarget(s, h);
  }

  /** Nothing but the abort leads out of an overflowed sum. */
  lemma DoomedStays(s: State, step: Step)
    requires Doomed(s) && Enabled(s, step)
    ensures Doomed(Next(s, step)) && !step.Swap? && !step.Lock? && (step.Check? ==> Next(s, step).aborted)
  {
  }

  lemma StepKeeps(s: State, step: Step)
    requires Inv(s) && Enabled(s, step)
    ensures Inv(Next(s, step))
  {
    hide Shape, Accounts, Enabled, Next;
    match step
    case NewReader(parent, h) => NewReaderShape(s, parent, h); NewReaderBalance(s, parent, h);
    case DropReader(h) => DropReaderShape(s, h); DropReaderBalance(s, h);
    case NewGuard(h, g) => NewGuardShape(s, h, g); NewGuardBalance(s, h, g);
    case EndGuard(g) => EndGuardShape(s, g); EndGuardBalance(s, g);
    case FetchSub(g) => FetchSubShape(s, g); FetchSubBalance(s, g);
    case StoreZero(g) => StoreZeroShape(s, g); StoreZeroBalance(s, g);
    case Unpark(g) => UnparkShape(s, g); UnparkBalance(s, g);
    case Swap(h) => SwapShape(s, h); SwapBalance(s, h);
    case _ => WriterShape(s, step); WriterBalance(s, step);
  }

  /** The invariant holds after every run. */
  lemma {:induction false} RunKeeps(s: State, steps: seq<Step>)
    requires Inv(s) && Runs(s, steps)
    ensures Inv(After(s, steps))
    decreases |steps|
  {
    hide Inv, Enabled, Next;
    if steps != [] {
      StepKeeps(s, steps[0]);
      RunKeeps(Next(s, steps[0]), steps[1..]);
    }
  }
}
