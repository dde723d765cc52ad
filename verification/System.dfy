/** The whole map: the protocol's steps and the writer's steps on its data, next
    to an abstract map with versions that knows nothing of copies and logs. */
module System {
  import opened Prelude
  import opened Store
  import opened Cores
  import opened Protocol
  import opened ProtocolInv
  import opened ProtocolTheorems
  import opened Progress
  import opened OpLog
  import O = Ownership
  import opened OwnershipInv

  /** `versions[n]` is the abstract map after `n` published write guards, `draft`
      what the live write guard has made of the last one. Both change by the
      meaning of the edits only. `lent` says that a function returned by
      `reclaimer` may still be alive: it shares the writer's borrow, so it ends
      before the next write guard begins. */
  datatype Sys<K, V> = Sys(p: State, d: O.Data<K, V>, versions: seq<map<K, V>>, draft: map<K, V>, lent: bool,
                           ended: bool)

  datatype Act<K, !V> =
    | P(step: Step)
    // through a write guard
    | Insert(k: K, v: V) | Update(k: K, f: V -> V) | Delete(k: K) | DropLazily(token: O.Leaked<V>)
    // on an `Evicted`, which may outlive its write guard
    | LeakIt(e: O.Evicted<V>) | ForgetIt(e: O.Evicted<V>)
    // one turn of `flush_operations`
    | Flush
    | Reclaim(token: O.Leaked<V>)
    // the last handle is gone
    | End

  /** What the abstract map makes of an edit. */
  function Meaning<K, V>(m: map<K, V>, act: Act<K, V>): map<K, V> {
    match act
    case Insert(k, v) => m[k := v]
    case Update(k, f) => if k in m then m[k := f(m[k])] else m
    case Delete(k) => m - {k}
    case _ => m
  }

  function Contents<K, V>(t: Table<K, V>): map<K, V> {
    map k | k in t :: t[k].value.value
  }

  ghost predicate SysInit<K, V>(s: Sys<K, V>) {
    Init(s.p) && O.Initial(s.d) && s.versions == [map[]] && s.draft == map[] && !s.lent && !s.ended
  }

  /** The borrows that the source's types enforce are part of what is enabled: no
      call that synchronizes may begin while an `Evicted` lives. */
  ghost predicate Can<K, V>(s: Sys<K, V>, act: Act<K, V>) {
    && !s.ended && !s.p.aborted
    && match act
       case P(step) =>
         && Enabled(s.p, step)
         && (step.Begin? ==> s.d.evicted == map[])
         && (step.StartWriting? || step.Close? ==> s.d.log == [])
       case Insert(_, _) => s.p.pc.Writing?
       case Update(_, _) => s.p.pc.Writing?
       case Delete(_) => s.p.pc.Writing?
       case DropLazily(token) => s.p.pc.Writing? && O.Outstanding(s.d, token)
       case LeakIt(e) => (s.p.pc.Writing? || s.p.pc.Idle?) && O.Live(s.d, e) && e.operation < |s.d.log|
       case ForgetIt(e) => (s.p.pc.Writing? || s.p.pc.Idle?) && O.Live(s.d, e)
       case Flush =>
         && (s.p.pc == Ready(ForGuard) || s.p.pc == Ready(ForDrop))
         && s.d.log != [] && Legal(s.d.log[0], s.d.tables.Get(s.p.mem.writerMap))
       case Reclaim(token) => s.lent && O.Outstanding(s.d, token)
       case End => s.p.pc.Closed? && s.p.mem.counts == map[]
  }

  /** `reclaimer` has returned, or its function must be gone. */
  predicate Lends(p: State, step: Step, lent: bool) {
    if step.Return? then lent || p.pc == Ready(ForReclaim)
    else if step.Begin? then lent && step.why != ForGuard && step.why != ForDrop
    else lent
  }

  ghost function Do<K, V>(s: Sys<K, V>, act: Act<K, V>): Sys<K, V>
    requires Can(s, act)
  {
    var wm := s.p.mem.writerMap;
    match act
    case P(step) =>
      Sys(Next(s.p, step), s.d,
          if step.Lock? then s.versions + [s.draft] else s.versions,
          if step.StartWriting? && s.versions != [] then s.versions[|s.versions| - 1] else s.draft,
          Lends(s.p, step, s.lent), false)
    case Insert(k, v) => s.(d := O.Insert(s.d, wm, k, v), draft := Meaning(s.draft, act))
    case Update(k, f) => s.(d := O.Update(s.d, wm, k, f), draft := Meaning(s.draft, act))
    case Delete(k) => s.(d := O.Delete(s.d, wm, k), draft := Meaning(s.draft, act))
    case DropLazily(token) => s.(d := O.DropLazily(s.d, wm, token))
    case LeakIt(e) => s.(d := O.LeakToken(s.d, e))
    case ForgetIt(e) => s.(d := O.Forget(s.d, e))
    case Flush => s.(d := O.FlushOne(s.d, wm))
    case Reclaim(token) => s.(d := O.Reclaim(s.d, token))
    case End => s.(d := O.Drain(s.d, wm), ended := true)
  }

  ghost predicate SysRuns<K, V>(s: Sys<K, V>, acts: seq<Act<K, V>>)
    decreases |acts|
  {
    acts == [] || (Can(s, acts[0]) && SysRuns(Do(s, acts[0]), acts[1..]))
  }

  ghost function SysAfter<K, V>(s: Sys<K, V>, acts: seq<Act<K, V>>): Sys<K, V>
    requires SysRuns(s, acts)
    decreases |acts|
  {
    if acts == [] then s else SysAfter(Do(s, acts[0]), acts[1..])
  }

  // ----- the invariant

  ghost predicate Clean<K, V>(d: O.Data<K, V>, t: Table<K, V>) {
    forall i :: i in Ids(t) ==> !O.Dead(d, i)
  }

  /** A guard may be reading the stale copy, or is about to. */
  ghost predicate Shared(p: State) {
    p.pc.Writing? || Publishing(p) || Owed(p.guards, p.versions) != {}
  }

  /** The stale copy has not been touched since it was published. */
  ghost predicate Untouched(pc: Pc) {
    !pc.Writing? && !pc.Closed? && pc != Ready(ForGuard) && pc != Ready(ForDrop)
  }

  ghost predicate MayEvict(pc: Pc) {
    pc.Writing? || pc.Swapping? || pc.Adding? || pc.Idle?
  }

  ghost predicate DataOk<K, V>(s: Sys<K, V>) {
    var wm, writing := s.p.mem.writerMap, s.p.pc.Writing?;
    && O.Inv(s.d, wm, writing)
    && (Shared(s.p) ==> Clean(s.d, O.Stale(s.d, wm, writing)))
    && (!MayEvict(s.p.pc) ==> s.d.evicted == map[])
    && (s.p.pc.Closed? ==> s.d.log == [])
  }

  ghost predicate AbstractOk<K, V>(s: Sys<K, V>) {
    var wm, writing := s.p.mem.writerMap, s.p.pc.Writing?;
    var stale, current := Contents(O.Stale(s.d, wm, writing)), Contents(O.Current(s.d, wm, writing));
    && |s.versions| == s.p.cycle + 1
    && current == (if writing then s.draft else s.versions[s.p.cycle])
    && (writing ==> stale == s.versions[s.p.cycle])
    && (Untouched(s.p.pc) && s.p.cycle > 0 ==> stale == s.versions[s.p.cycle - 1])
  }

  /** Where the writer can be while its handle is lent out: in no call that needs
      the handle to itself. */
  predicate MayLend(pc: Pc) {
    pc.Idle?
    || ((pc.Loading? || pc.Registering? || pc.Announcing? || pc.Parked? || pc.Rechecking? || pc.Resetting? || pc.Ready?)
        && (pc.why == Bare || pc.why == ForReclaim))
  }

  /** A `reclaimer` still in use has nobody reading the stale copy. */
  ghost predicate LentOk(p: State, lent: bool) {
    lent ==> MayLend(p.pc) && Owed(p.guards, p.versions) == {}
  }

  ghost predicate SysInv<K, V>(s: Sys<K, V>) {
    && Inv(s.p) && LentOk(s.p, s.lent)
    && if s.ended then s.d.tables == Tables(map[], map[]) && forall i: nat :: O.Settled(s.d, i)
       else DataOk(s) && AbstractOk(s)
  }
}
