/** The reader/writer protocol as a state machine. Every step is one atomic
    operation of one thread (src/core/mod.rs, src/read.rs, src/write.rs), so a run
    of steps is an interleaving of any number of readers with the one writer. */
module Protocol {
  import opened Prelude
  import opened Store
  import opened RefCounts
  import opened Cores

  type GuardId = nat

  /** Where a read guard is in its life. `Failing` is not a guard yet and never
      will be: its increment found the overflow bit, and it is about to abort the
      process. `Releasing` has decremented its count and still owes `residual` one;
      `Storing` found the last-residual value and is about to store zero; `Waking`
      is about to unpark, for that cycle's writer. */
  datatype Stage = Reading | Failing | Releasing | Storing | Waking(cycle: nat)
  {
    /** The handle's word counts it. */
    predicate Counts() {
      Reading? || Failing?
    }
  }

  /** `version` is the number of publishes visible through the guard's map. */
  datatype Guard = Guard(handle: Handle, index: MapIndex, version: nat, stage: Stage)

  /** The calls that begin with `synchronize`. */
  datatype Why = Bare | ForGuard | ForReclaim | ForDrop

  /** What the writer does next. */
  datatype Pc =
    | Idle
    | Loading(why: Why) | Registering(why: Why) | Announcing(why: Why)
    | Parked(why: Why) | Rechecking(why: Why) | Resetting(why: Why)
    | Ready(why: Why)
    | Writing
    | Swapping(todo: set<Handle>, sum: int, checked: bool)
    | Adding(sum: int)
    | Closed

  /** `half` is `-isize::MIN`. `versions` says which version each handle's flag
      stands for, `cycle` counts the publishes begun, `tokens` are the pending
      unpark tokens, `woken` the cycles in which a reader became the waker. */
  datatype State = State(
    half: nat, mem: Mem, aborted: bool,
    guards: map<GuardId, Guard>, versions: map<Handle, nat>, cycle: nat,
    pc: Pc, writer: Thread, tokens: set<Thread>, woken: set<nat>)

  datatype Step =
    // readers
    | NewReader(parent: Handle, h: Handle) | DropReader(h: Handle)
    | NewGuard(h: Handle, g: GuardId) | Abort(g: GuardId) | EndGuard(g: GuardId)
    | FetchSub(g: GuardId) | StoreZero(g: GuardId) | Unpark(g: GuardId)
    // the writer
    | Begin(why: Why, t: Thread) | Load | Register | Announce | Wake | Recheck | Reset
    | Return | StartWriting | Close
    | Lock | Swap(h: Handle) | Check | Unlock | Add
    // anything else in the process may unpark a thread
    | StrayToken(t: Thread)

  ghost predicate Init(s: State) {
    && s.half >= 2
    && s.mem == Mem(0, map[0 := Rc(First, 0)], None, Second)
    && !s.aborted && s.guards == map[] && s.versions == map[0 := 0] && s.cycle == 0
    && s.pc == Idle && s.woken == {}
  }

  predicate LockFree(s: State) {
    !s.pc.Swapping?
  }

  /** An increment that would carry into the flag is not a step of this protocol.
      That takes almost `half / 2` threads inside `increment`, between a failed
      test and its abort, on one handle (`ProtocolTheorems.OnlyCrowdsAreExcluded`);
      what it does to the word is `RefCounts.FlagIsIsolatedExactly`. */
  predicate HasRoom(r: Rc, half: nat) {
    r.count + 1 < half
  }

  predicate AtStage(s: State, g: GuardId, stage: Stage) {
    g in s.guards && s.guards[g].stage == stage && s.guards[g].handle in s.mem.counts
        && s.guards[g].handle in s.versions
  }

  predicate Enabled(s: State, step: Step) {
    && !s.aborted
    && match step
       case NewReader(parent, h) => LockFree(s) && parent in s.mem.counts && h !in s.mem.counts
       case DropReader(h) =>
         LockFree(s) && h in s.mem.counts && forall g <- s.guards :: s.guards[g].handle != h
       case NewGuard(h, g) =>
         h in s.mem.counts && h in s.versions && g !in s.guards && HasRoom(s.mem.counts[h], s.half)
       case Abort(g) => AtStage(s, g, Failing)
       case EndGuard(g) => AtStage(s, g, Reading)
       case FetchSub(g) => AtStage(s, g, Releasing)
       case StoreZero(g) => AtStage(s, g, Storing)
       case Unpark(g) => g in s.guards && s.guards[g].stage.Waking?
       case Begin(why, t) => s.pc.Idle?
       case Load => s.pc.Loading?
       case Register => s.pc.Registering?
       case Announce => s.pc.Announcing?
       case Wake => s.pc.Parked?
       case Recheck => s.pc.Rechecking?
       case Reset => s.pc.Resetting?
       case Return => s.pc == Ready(Bare) || s.pc == Ready(ForReclaim)
       case StartWriting => s.pc == Ready(ForGuard)
       case Close => s.pc == Ready(ForDrop)
       case Lock => s.pc.Writing?
       case Swap(h) => s.pc.Swapping? && s.pc.checked && h in s.pc.todo && h in s.mem.counts
       case Check => s.pc.Swapping? && !s.pc.checked
       case Unlock => s.pc.Swapping? && s.pc.checked && s.pc.todo == {}
       case Add => s.pc.Adding?
       case StrayToken(t) => true
  }

  /** What an increment finds: the index to read, or the overflow bit. */
  function NewGuardOn(s: State, h: Handle): Guard
    requires h in s.mem.counts && h in s.versions
  {
    var r := s.mem.counts[h];
    Guard(h, r.index, s.versions[h], if Overflowing(r, s.half) then Failing else Reading)
  }

  function Next(s: State, step: Step): State
    requires Enabled(s, step)
  {
    var m := s.mem;
    match step
    case NewReader(_, h) =>
      s.(mem := m.(counts := m.counts[h := Rc(m.writerMap.Other(), 0)]), versions := s.versions[h := s.cycle])
    case DropReader(h) =>
      s.(mem := m.(counts := m.counts - {h}), versions := s.versions - {h})
    case NewGuard(h, g) =>
      var r := m.counts[h];
      s.(mem := m.(counts := m.counts[h := Incremented(r, s.half)]), guards := s.guards[g := NewGuardOn(s, h)])
    case Abort(g) => s.(aborted := true)
    case EndGuard(g) =>
      var guard := s.guards[g];
      var r := m.counts[guard.handle];
      s.(mem := m.(counts := m.counts[guard.handle := Decremented(r, s.half)]),
         guards := if r.index != guard.index then s.guards[g := guard.(stage := Releasing)] else s.guards - {g})
    case FetchSub(g) =>
      var last := m.residual == LastResidual(s.half);
      s.(mem := AddResidual(m, -1, s.half),
         guards := if last then s.guards[g := s.guards[g].(stage := Storing)] else s.guards - {g},
         woken := if last then s.woken + {s.cycle} else s.woken)
    case StoreZero(g) =>
      s.(mem := m.(residual := 0), guards := s.guards[g := s.guards[g].(stage := Waking(s.cycle))])
    case Unpark(g) =>
      s.(tokens := if m.writerThread.Some? then s.tokens
          + {m.writerThread.value} else s.tokens, guards := s.guards - {g})
    case Begin(why, t) => s.(pc := Loading(why), writer := t)
    case Load => s.(pc := if m.residual != 0 then Registering(s.pc.why) else Ready(s.pc.why))
    case Register => s.(mem := m.(writerThread := Some(s.writer)), pc := Announcing(s.pc.why))
    case Announce =>
      s.(mem := AddResidual(m, 0 - s.half, s.half), pc := if m.residual != 0 then Parked(s.pc.why)
          else Resetting(s.pc.why))
    case Wake => s.(pc := Rechecking(s.pc.why), tokens := s.tokens - {s.writer})
    case Recheck => s.(pc := if m.residual == 0 then Ready(s.pc.why) else Parked(s.pc.why))
    case Reset => s.(mem := m.(residual := 0), pc := Ready(s.pc.why))
    case Return => s.(pc := Idle)
    case StartWriting => s.(pc := Writing)
    case Close => s.(pc := Closed)
    case Lock =>
      s.(mem := m.(writerMap := m.writerMap.Other()), cycle := s.cycle + 1, pc := Swapping(m.counts.Keys, 0, true))
    case Swap(h) =>
      var r := m.counts[h];
      s.(mem := m.(counts := m.counts[h := Swapped(r)]), versions := s.versions[h := s.cycle],
         pc := Swapping(s.pc.todo - {h}, Wrap(s.pc.sum + r.count, s.half), false))
    case Check => if s.pc.sum < 0 then s.(aborted := true) else s.(pc := s.pc.(checked := true))
    case Unlock => s.(pc := Adding(s.pc.sum))
    case Add => s.(mem := AddResidual(m, s.pc.sum, s.half), pc := Idle)
    case StrayToken(t) => s.(tokens := s.tokens + {t})
  }

  /** A run from `s`. */
  ghost predicate Runs(s: State, steps: seq<Step>)
    decreases |steps|
  {
    steps == [] || (Enabled(s, steps[0]) && Runs(Next(s, steps[0]), steps[1..]))
  }

  ghost function After(s: State, steps: seq<Step>): State
    requires Runs(s, steps)
    decreases |steps|
  {
    if steps == [] then s else After(Next(s, steps[0]), steps[1..])
  }

  // ----- the invariant

  /** The guards of a handle that read. */
  ghost function Readers(guards: map<GuardId, Guard>, h: Handle): set<GuardId> {
    set g | g in guards && guards[g].stage.Reading? && guards[g].handle == h
  }

  /** The failed increments on a handle's word. */
  ghost function Failures(guards: map<GuardId, Guard>, h: Handle): set<GuardId> {
    set g | g in guards && guards[g].stage.Failing? && guards[g].handle == h
  }

  /** What the handle's word counts. */
  ghost function Counted(guards: map<GuardId, Guard>, h: Handle): set<GuardId> {
    set g | g in guards && guards[g].stage.Counts() && guards[g].handle == h
  }

  /** Whatever `publish` counts towards `residual` and has not been released: the
      residual guards, whose handle was swapped since they were made or who have
      decremented their count already, and the failed increments it has swapped. */
  ghost function Owed(guards: map<GuardId, Guard>, versions: map<Handle, nat>): set<GuardId> {
    set g | g in guards && Owes(guards[g], versions)
  }

  ghost predicate Owes(guard: Guard, versions: map<Handle, nat>) {
    guard.stage.Releasing?
    || (guard.stage.Counts() && guard.handle in versions && guard.version != versions[guard.handle])
  }

  /** The readers about to store zero. */
  ghost function Storers(guards: map<GuardId, Guard>): set<GuardId> {
    set g | g in guards && guards[g].stage.Storing?
  }

  /** The readers about to unpark the writer of that cycle. */
  ghost function Wakers(guards: map<GuardId, Guard>, cycle: nat): set<GuardId> {
    set g | g in guards && guards[g].stage == Waking(cycle)
  }

  /** `now` is the version of the guard's handle. */
  ghost predicate GuardOk(guard: Guard, now: nat, cycle: nat, woken: set<nat>) {
    && guard.index == IndexOf(guard.version)
    && match guard.stage
       case Reading | Failing => guard.version == now || guard.version + 1 == now == cycle
       case Releasing => guard.version + 1 == cycle
       case Storing => guard.version + 1 == cycle && cycle in woken
       case Waking(c) => guard.version + 1 == c <= cycle && c in woken
  }

  ghost predicate HandleOk(r: Rc, counted: nat, readers: nat, now: nat, target: int, half: nat) {
    r.index == IndexOf(now) && r.count == counted < half && 2 * readers <= half + 1 && now == target
  }

  /** The version a handle stands for: the last one, or the one before while
      `publish` has yet to swap it. */
  ghost function Target(pc: Pc, h: Handle, cycle: nat): int {
    if pc.Swapping? && h in pc.todo then cycle - 1 else cycle
  }

  ghost predicate HandlesOk(s: State) {
    forall h <- s.mem.counts :: h in s.versions &&
      HandleOk(s.mem.counts[h], |Counted(s.guards, h)|, |Readers(s.guards, h)|, s.versions[h],
               Target(s.pc, h, s.cycle), s.half)
  }

  ghost predicate GuardsOk(s: State) {
    forall g <- s.guards :: s.guards[g].handle in s.versions &&
      GuardOk(s.guards[g], s.versions[s.guards[g].handle], s.cycle, s.woken)
  }

  /** What holds in every reachable state. */
  ghost predicate Shape(s: State) {
    && s.half >= 2
    && s.mem.counts.Keys == s.versions.Keys
    && s.mem.writerMap == IndexOf(s.cycle).Other()
    && HandlesOk(s) && GuardsOk(s)
    && (forall c <- s.woken :: c <= s.cycle && (c < s.cycle ==> s.mem.writerThread.Some?))
    && (s.pc.Swapping? ==> s.pc.todo <= s.mem.counts.Keys && (s.pc.checked ==> s.pc.sum >= 0))
  }

  /** The sum of `publish` has overflowed and its sign has not been tested yet:
      the writer's next step aborts the process. */
  ghost predicate Doomed(s: State) {
    s.pc.Swapping? && !s.pc.checked && s.pc.sum < 0
  }

  ghost predicate Waiting(s: State) {
    s.pc.Parked? || s.pc.Rechecking?
  }

  ghost predicate Publishing(s: State) {
    s.pc.Swapping? || s.pc.Adding?
  }

  /** The writer may touch its map, or has let go of it for good. */
  ghost predicate Exclusive(s: State) {
    s.pc.Ready? || s.pc.Writing? || s.pc.Closed?
  }

  /** What `residual` stands for, phase by phase, when `n` are owed.
      `storing` says that a reader is about to store zero, `awake` that the writer
      need not be woken any more, or will be. */
  ghost predicate Balance(s: State, n: nat, storing: bool, awake: bool) {
    var r := s.mem.residual;
    && n < s.half
    && (Publishing(s) ==> r <= 0 <= s.pc.sum < s.half && r + s.pc.sum == n && s.cycle !in s.woken)
    && (s.pc.Announcing? || Waiting(s) ==> s.mem.writerThread == Some(s.writer))
    && (Waiting(s) ==>
          if n > 0 then r == n - s.half else if storing then r == 0 - s.half else r == 0 && awake)
    && (s.pc.Resetting? ==> n == 0 && r == 0 - s.half)
    && (!Publishing(s) && !Waiting(s) && !s.pc.Resetting? ==> r == n)
    && (!Waiting(s) ==> !storing)
    && (Exclusive(s) ==> n == 0)
    && (s.cycle in s.woken ==> n == 0)
    && (s.woken != {} ==> s.mem.writerThread.Some?)
  }

  /** What is left of that while the overflowed sum waits for its test. The sum
      has wrapped once, so `n` and the releases since `publish` began are known;
      `residual` counts the releases down, past the last-residual value, and its
      reader stores zero over some of them. */
  ghost predicate DoomedBalance(s: State, n: nat, storing: bool)
    requires Doomed(s)
  {
    var r, sum := s.mem.residual, s.pc.sum + 2 * s.half;
    var released := sum - n;
    && s.half <= sum < 2 * s.half - 1 && n <= sum
    && if s.cycle !in s.woken then released < s.half && r == 0 - released
       else if storing then released >= s.half && r == Wrap(0 - released, s.half)
       else s.half - released <= r <= 0
  }

  ghost predicate IsWaker(guard: Guard, cycle: nat) {
    guard.stage.Storing? || guard.stage == Waking(cycle)
  }

  /** At most one reader is, or is about to be, the waker of the current cycle. */
  ghost predicate OneWaker(guards: map<GuardId, Guard>, cycle: nat) {
    forall g, g' :: g in guards && g' in guards && IsWaker(guards[g], cycle) && IsWaker(guards[g'], cycle) ==> g == g'
  }

  ghost predicate Awake(s: State) {
    s.pc.Rechecking? || s.writer in s.tokens || Wakers(s.guards, s.cycle) != {}
  }

  ghost predicate Accounts(s: State) {
    var n, storing := |Owed(s.guards, s.versions)|, Storers(s.guards) != {};
    && (if Doomed(s) then DoomedBalance(s, n, storing) else Balance(s, n, storing, Awake(s)))
    && OneWaker(s.guards, s.cycle)
  }

  ghost predicate Inv(s: State) {
    Shape(s) && Accounts(s)
  }

  lemma InitInv(s: State)
    requires Init(s)
    ensures Inv(s)
  {
    assert Counted(s.guards, 0) == {} && Readers(s.guards, 0) == {};
    assert Owed(s.guards, s.versions) == {};
  }
}
