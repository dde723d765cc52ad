/** Both windows before an abort are within reach of few guards. Between an
    overflowing swap and its test, not even a bound on the guards alive at one time
    keeps readers from taking the last-residual branch for nobody. And one failed
    increment that has not aborted yet is enough to leave the writer parked with
    nobody to wake it. */
module Overflow {
  import opened Prelude
  import opened Store
  import opened RefCounts
  import opened Cores
  import opened Protocol
  import opened ProtocolTheorems

  /** Never more than `limit` guards at one time, releasing ones included. */
  ghost predicate Calm(s: State, steps: seq<Step>, limit: nat)
    requires Runs(s, steps)
    decreases |steps|
  {
    |s.guards| <= limit && (steps == [] || Calm(Next(s, steps[0]), steps[1..], limit))
  }

  ghost predicate CalmlyReachable(s: State, limit: nat) {
    exists s0, steps :: Init(s0) && Runs(s0, steps) && Calm(s0, steps, limit) && After(s0, steps) == s
  }

  lemma {:induction false} CalmAppend(s: State, steps: seq<Step>, step: Step, limit: nat)
    requires Runs(s, steps) && Enabled(After(s, steps), step)
    requires Calm(s, steps, limit) && |Next(After(s, steps), step).guards| <= limit
    ensures Runs(s, steps + [step]) && After(s, steps + [step]) == Next(After(s, steps), step)
    ensures Calm(s, steps + [step], limit)
    decreases |steps|
  {
    hide Enabled, Next;
    var all := steps + [step];
    if steps == [] {
      assert all == [step] && all[1..] == [];
    } else {
      CalmAppend(Next(s, steps[0]), steps[1..], step, limit);
      assert all[0] == steps[0] && all[1..] == steps[1..] + [step];
    }
  }

  lemma CalmNext(s: State, step: Step, limit: nat)
    requires CalmlyReachable(s, limit) && Enabled(s, step) && |Next(s, step).guards| <= limit
    ensures CalmlyReachable(Next(s, step), limit)
  {
    hide Init, Enabled, Next, Runs, After, Calm;
    var s0, steps :| Init(s0) && Runs(s0, steps) && Calm(s0, steps, limit) && After(s0, steps) == s;
    CalmAppend(s0, steps, step, limit);
  }

  lemma CalmReachable(s: State, limit: nat)
    requires CalmlyReachable(s, limit)
    ensures Reachable(s)
  {
    hide Init, Runs, After, Calm;
  }

  // ----- guards come and go

  ghost function Range(lo: nat, hi: nat): (r: set<nat>)
    ensures forall g :: g in r <==> lo <= g < hi
    ensures |r| == (if lo < hi then hi - lo else 0)
    decreases hi
  {
    if lo < hi then Range(lo, hi - 1) + {hi - 1} else {}
  }

  /** Guards `lo..hi` of a handle that read the first version. */
  ghost function Team(h: Handle, lo: nat, hi: nat): map<GuardId, Guard> {
    map g | g in Range(lo, hi) :: Guard(h, First, 0, Reading)
  }

  lemma TeamSize(h: Handle, lo: nat, hi: nat)
    requires lo <= hi
    ensures |Team(h, lo, hi)| == hi - lo
  {
    assert Team(h, lo, hi).Keys == Range(lo, hi);
  }

  lemma NoTeam(h: Handle, k: nat)
    ensures Team(h, k, k) == map[]
  {
  }

  /** `s` with other guards, another word for `h`, and another residual. */
  ghost function With(s: State, h: Handle, r: Rc, guards: map<GuardId, Guard>, residual: int): State {
    s.(mem := s.mem.(counts := s.mem.counts[h := r], residual := residual), guards := guards)
  }

  lemma Join(s: State, h: Handle, n: nat)
    requires h in s.mem.counts && h in s.versions && s.versions[h] == 0 && !s.aborted
    requires s.mem.counts[h] == Rc(First, n) && s.guards == Team(h, 0, n) && 2 * n < s.half && n + 1 < s.half
    ensures Enabled(s, NewGuard(h, n))
    ensures Next(s, NewGuard(h, n)) == With(s, h, Rc(First, n + 1), Team(h, 0, n + 1), s.mem.residual)
  {
    assert Team(h, 0, n + 1) == Team(h, 0, n)[n := Guard(h, First, 0, Reading)];
  }

  /** A handle gets `k` guards. */
  lemma {:induction false} Fill(s: State, h: Handle, n: nat, k: nat, limit: nat)
    requires h in s.mem.counts && h in s.versions && s.versions[h] == 0 && !s.aborted
    requires s.mem.counts[h] == Rc(First, n) && s.guards == Team(h, 0, n) && n <= k <= limit && 2 * k == s.half
    requires CalmlyReachable(s, limit)
    ensures CalmlyReachable(With(s, h, Rc(First, k), Team(h, 0, k), s.mem.residual), limit)
    decreases k - n
  {
    hide CalmlyReachable, Enabled, Next, Team;
    if n < k {
      Join(s, h, n);
      TeamSize(h, 0, n + 1);
      CalmNext(s, NewGuard(h, n), limit);
      var t := Next(s, NewGuard(h, n));
      Fill(t, h, n + 1, k, limit);
      assert With(t, h, Rc(First, k), Team(h, 0, k), t.mem.residual)
          == With(s, h, Rc(First, k), Team(h, 0, k), s.mem.residual);
    } else {
      assert s == With(s, h, Rc(First, k), Team(h, 0, k), s.mem.residual);
    }
  }

  /** A team next to `others`, which are numbered from `k` on. */
  ghost function Crew(h: Handle, lo: nat, k: nat, others: map<GuardId, Guard>): map<GuardId, Guard> {
    Team(h, lo, k) + others
  }

  ghost predicate Apart(others: map<GuardId, Guard>, k: nat) {
    forall g <- others :: k <= g
  }

  lemma CrewSize(h: Handle, lo: nat, k: nat, others: map<GuardId, Guard>)
    requires lo <= k && Apart(others, k)
    ensures |Crew(h, lo, k, others)| == k - lo + |others|
  {
    TeamSize(h, lo, k);
    var team, all := Team(h, lo, k), Crew(h, lo, k, others);
    assert team.Keys !! others.Keys && all.Keys == team.Keys + others.Keys;
    assert |team| == |team.Keys| && |others| == |others.Keys| && |all| == |all.Keys|;
  }

  lemma CrewShrinks(h: Handle, lo: nat, k: nat, others: map<GuardId, Guard>, guard: Guard)
    requires lo < k && Apart(others, k)
    ensures lo in Crew(h, lo, k, others) && Crew(h, lo, k, others)[lo] == Guard(h, First, 0, Reading)
    ensures Crew(h, lo, k, others)[lo := guard] - {lo} == Crew(h, lo + 1, k, others)
  {
  }

  /** The first guard of the team has decremented its count. */
  ghost function Leaving(s: State, h: Handle, r: Rc, lo: nat, k: nat, others: map<GuardId, Guard>): State {
    With(s, h, r, Crew(h, lo, k, others)[lo := Guard(h, First, 0, Releasing)], s.mem.residual)
  }

  lemma Leave(s: State, h: Handle, c: nat, lo: nat, k: nat, others: map<GuardId, Guard>)
    requires h in s.mem.counts && h in s.versions && !s.aborted && lo < k && Apart(others, k)
    requires s.mem.counts[h] == Rc(Second, c + 1) && s.guards == Crew(h, lo, k, others)
    ensures Enabled(s, EndGuard(lo)) && Next(s, EndGuard(lo)) == Leaving(s, h, Rc(Second, c), lo, k, others)
  {
    hide Crew;
    CrewShrinks(h, lo, k, others, Guard(h, First, 0, Releasing));
  }

  lemma LeavingSize(s: State, h: Handle, r: Rc, lo: nat, k: nat, others: map<GuardId, Guard>)
    requires h in s.mem.counts && lo < k && Apart(others, k)
    ensures |Leaving(s, h, r, lo, k, others).guards| == k - lo + |others|
  {
    hide Crew, Apart;
    CrewShrinks(h, lo, k, others, Guard(h, First, 0, Releasing));
    CrewSize(h, lo, k, others);
    SameSize(Crew(h, lo, k, others), Leaving(s, h, r, lo, k, others).guards);
  }

  lemma Release(s: State, h: Handle, r: Rc, lo: nat, k: nat, others: map<GuardId, Guard>)
    requires h in s.mem.counts && h in s.versions && !s.aborted && lo < k && Apart(others, k)
    ensures Enabled(Leaving(s, h, r, lo, k, others), FetchSub(lo))
    ensures LastResidual(s.half) < s.mem.residual < s.half ==>
              Next(Leaving(s, h, r, lo, k, others), FetchSub(lo))
              == With(s, h, r, Crew(h, lo + 1, k, others), s.mem.residual - 1)
  {
    hide Crew, Apart;
    CrewShrinks(h, lo, k, others, Guard(h, First, 0, Releasing));
  }

  /** Guards `lo..hi` of a swapped handle are dropped, short of the last-residual
      value, while its word goes on counting `c` more. */
  lemma {:induction false} Empty(s: State, h: Handle, c: nat, lo: nat, hi: nat, k: nat,
      others: map<GuardId, Guard>, limit: nat)
    requires h in s.mem.counts && h in s.versions && !s.aborted && lo <= hi <= k && Apart(others, k)
    requires s.mem.counts[h] == Rc(Second, c + (hi - lo)) && s.guards == Crew(h, lo, k, others)
    requires LastResidual(s.half) <= s.mem.residual - (hi - lo) <= s.mem.residual < s.half
    requires CalmlyReachable(s, limit) && k - lo + |others| <= limit
    ensures CalmlyReachable(With(s, h, Rc(Second, c), Crew(h, hi, k, others), s.mem.residual - (hi - lo)), limit)
    decreases hi - lo
  {
    hide CalmlyReachable, Enabled, Next, Crew, Apart;
    if lo < hi {
      var c' := c + (hi - lo) - 1;
      Leave(s, h, c', lo, k, others);
      LeavingSize(s, h, Rc(Second, c'), lo, k, others);
      CalmNext(s, EndGuard(lo), limit);
      Release(s, h, Rc(Second, c'), lo, k, others);
      CrewSize(h, lo + 1, k, others);
      CalmNext(Leaving(s, h, Rc(Second, c'), lo, k, others), FetchSub(lo), limit);
      var t := With(s, h, Rc(Second, c'), Crew(h, lo + 1, k, others), s.mem.residual - 1);
      Empty(t, h, c, lo + 1, hi, k, others, limit);
      assert With(t, h, Rc(Second, c), Crew(h, hi, k, others), s.mem.residual - (hi - lo))
          == With(s, h, Rc(Second, c), Crew(h, hi, k, others), s.mem.residual - (hi - lo));
    } else {
      assert s == With(s, h, Rc(Second, c), Crew(h, hi, k, others), s.mem.residual - (hi - lo));
    }
  }

  lemma Alone(h: Handle, lo: nat, k: nat)
    ensures Crew(h, lo, k, map[]) == Team(h, lo, k) && Apart(map[], k)
  {
  }

  lemma SameSize<A, B>(a: map<A, B>, b: map<A, B>)
    requires a.Keys == b.Keys
    ensures |a| == |b|
  {
    assert |a| == |a.Keys| && |b| == |b.Keys|;
  }

  // ----- one publish over two handles

  /** Two handles, `k` guards on the first; the writer is at `pc`. */
  ghost function Before(k: nat, pc: Pc): State {
    State(2 * k, Mem(0, map[0 := Rc(First, k), 1 := Rc(First, 0)], None, Second), false, Team(0, 0, k),
          map[0 := 0, 1 := 0], 0, pc, 0, {}, {})
  }

  /** The first handle swapped, its `n` guards left and `k - n` released; `m` guards
      on the second handle. */
  ghost function Between(k: nat, n: nat, m: nat, guards: map<GuardId, Guard>): State
    requires n <= k
  {
    State(2 * k, Mem(n - k, map[0 := Rc(Second, n), 1 := Rc(First, m)], None, First), false, guards,
          map[0 := 1, 1 := 0], 1, Swapping({1}, k, true), 0, {}, {})
  }

  /** The second handle swapped as well: the sum `k + k` has wrapped. */
  ghost function Overflown(k: nat, n: nat, residual: int, guards: map<GuardId, Guard>): State {
    State(2 * k, Mem(residual, map[0 := Rc(Second, 0), 1 := Rc(Second, n)], None, First), false, guards,
          map[0 := 1, 1 := 1], 1, Swapping({}, 0 - 2 * k, false), 0, {}, {})
  }

  ghost function Fresh(k: nat): State {
    State(2 * k, Mem(0, map[0 := Rc(First, 0)], None, Second), false, map[], map[0 := 0], 0, Idle, 0, {}, {})
  }

  lemma SecondHandle(k: nat)
    requires k > 0
    ensures Enabled(Fresh(k), NewReader(0, 1))
    ensures var s := Next(Fresh(k), NewReader(0, 1));
            && !s.aborted && s.half == 2 * k && s.guards == map[]
            && s.mem.counts == map[0 := Rc(First, 0), 1 := Rc(First, 0)]
            && s.versions == map[0 := 0, 1 := 0]
            && With(s, 0, Rc(First, k), Team(0, 0, k), s.mem.residual) == Before(k, Idle)
  {
  }

  lemma Nothing(s: State, limit: nat)
    requires Init(s)
    ensures CalmlyReachable(s, limit)
  {
    assert Runs(s, []) && After(s, []) == s && Calm(s, [], limit);
  }

  lemma Opening(k: nat)
    requires k > 0
    ensures CalmlyReachable(Before(k, Idle), k)
  {
    hide CalmlyReachable, Enabled, Next, Team;
    assert CalmlyReachable(Fresh(k), k) by { Nothing(Fresh(k), k); }
    SecondHandle(k);
    CalmNext(Fresh(k), NewReader(0, 1), k);
    NoTeam(0, 0);
    Fill(Next(Fresh(k), NewReader(0, 1)), 0, 0, k, k);
  }

  lemma BeforeSteps(k: nat)
    requires k > 0
    ensures Enabled(Before(k, Idle), Begin(ForGuard, 0))
        && Next(Before(k, Idle), Begin(ForGuard, 0)) == Before(k, Loading(ForGuard))
    ensures Enabled(Before(k, Loading(ForGuard)), Load)
        && Next(Before(k, Loading(ForGuard)), Load) == Before(k, Ready(ForGuard))
    ensures Enabled(Before(k, Ready(ForGuard)), StartWriting)
        && Next(Before(k, Ready(ForGuard)), StartWriting) == Before(k, Writing)
  {
  }

  /** The lock is taken. */
  ghost function Locked(k: nat): State {
    Before(k, Swapping({0, 1}, 0, true)).(cycle := 1,
        mem := Mem(0, map[0 := Rc(First, k), 1 := Rc(First, 0)], None, First))
  }

  lemma TakeLock(k: nat)
    requires k > 0
    ensures Enabled(Before(k, Writing), Lock) && Next(Before(k, Writing), Lock) == Locked(k)
  {
    hide Team;
    assert Before(k, Writing).mem.counts.Keys == {0, 1};
  }

  lemma FirstSwap(k: nat)
    requires k > 0
    ensures Enabled(Locked(k), Swap(0))
    ensures var s := Next(Locked(k), Swap(0));
            s.guards == Team(0, 0, k) && Enabled(s, Check) && Next(s, Check) == Between(k, k, 0, Team(0, 0, k))
  {
    hide Team;
    var s := Next(Locked(k), Swap(0));
    assert s.pc == Swapping({1}, k, false);
    assert s.mem.counts == map[0 := Rc(Second, k), 1 := Rc(First, 0)] && s.versions == map[0 := 1, 1 := 0];
  }

  lemma BetweenReachable(k: nat)
    requires k > 0
    ensures CalmlyReachable(Between(k, k, 0, Team(0, 0, k)), k)
  {
    hide CalmlyReachable, Enabled, Next, Team;
    Opening(k);
    TeamSize(0, 0, k);
    BeforeSteps(k);
    CalmNext(Before(k, Idle), Begin(ForGuard, 0), k);
    CalmNext(Before(k, Loading(ForGuard)), Load, k);
    CalmNext(Before(k, Ready(ForGuard)), StartWriting, k);
    TakeLock(k);
    CalmNext(Before(k, Writing), Lock, k);
    FirstSwap(k);
    CalmNext(Locked(k), Swap(0), k);
    CalmNext(Next(Locked(k), Swap(0)), Check, k);
  }

  lemma SecondSwap(k: nat)
    requires k > 0
    ensures Enabled(Between(k, 0, k, Team(1, 0, k)), Swap(1))
    ensures Next(Between(k, 0, k, Team(1, 0, k)), Swap(1)) == Overflown(k, k, 0 - k, Team(1, 0, k))
  {
    hide Team;
    var t := Next(Between(k, 0, k, Team(1, 0, k)), Swap(1));
    assert t.pc == Swapping({}, 0 - 2 * k, false);
    assert t.mem.counts == map[0 := Rc(Second, 0), 1 := Rc(Second, k)] && t.versions == map[0 := 1, 1 := 1];
  }

  /** The guards of the first handle are gone before those of the second are made. */
  lemma FirstGone(k: nat)
    requires k > 0
    ensures CalmlyReachable(Between(k, 0, 0, Team(1, 0, 0)), k)
  {
    hide CalmlyReachable, Enabled, Next, Team;
    BetweenReachable(k);
    var s := Between(k, k, 0, Team(0, 0, k));
    Alone(0, 0, k);
    Alone(0, k, k);
    Empty(s, 0, 0, 0, k, k, map[], k);
    NoTeam(0, k);
    NoTeam(1, 0);
    assert With(s, 0, Rc(Second, 0), Team(1, 0, 0), 0 - k) == Between(k, 0, 0, Team(1, 0, 0));
  }

  lemma OverflownReachable(k: nat)
    requires k > 0
    ensures CalmlyReachable(Overflown(k, k, 0 - k, Team(1, 0, k)), k)
  {
    hide CalmlyReachable, Enabled, Next, Team;
    FirstGone(k);
    var s := Between(k, 0, 0, Team(1, 0, 0));
    Fill(s, 1, 0, k, k);
    assert With(s, 1, Rc(First, k), Team(1, 0, k), 0 - k) == Between(k, 0, k, Team(1, 0, k));
    SecondSwap(k);
    TeamSize(1, 0, k);
    CalmNext(Between(k, 0, k, Team(1, 0, k)), Swap(1), k);
  }

  /** For words of any even `half`, without ever having more than `half / 2` guards
      at one time, the sum of `publish` overflows, and before its test aborts a
      reader takes the last-residual branch although no thread was ever registered.
      Outside that window no reader does (`ProtocolTheorems.LastResidualIsExact`). */
  lemma MisfireWhileDoomed(half: nat)
    requires half >= 2 && half % 2 == 0
    ensures exists s: State, g :: s.half == half && CalmlyReachable(s, half / 2) && Reachable(s)
                                  && Doomed(s) && Enabled(s, FetchSub(g))
                                  && s.mem.residual == LastResidual(half) && s.mem.writerThread == None
  {
    hide CalmlyReachable, Reachable, Enabled, Next, Team, Crew;
    var k := half / 2;
    OverflownReachable(k);
    var s := Overflown(k, k, 0 - k, Team(1, 0, k));
    Alone(1, 0, k);
    Empty(s, 1, 1, 0, k - 1, k, map[], k);
    var t := With(s, 1, Rc(Second, 1), Crew(1, k - 1, k, map[]), LastResidual(half));
    Leave(t, 1, 0, k - 1, k, map[]);
    LeavingSize(t, 1, Rc(Second, 0), k - 1, k, map[]);
    CalmNext(t, EndGuard(k - 1), k);
    Release(t, 1, Rc(Second, 0), k - 1, k, map[]);
    CalmReachable(Next(t, EndGuard(k - 1)), k);
    assert Doomed(Next(t, EndGuard(k - 1))) && Enabled(Next(t, EndGuard(k - 1)), FetchSub(k - 1));
  }

  // ----- a failed increment counted by a publish

  ghost function Failed(k: nat): map<GuardId, Guard> {
    map[k := Guard(0, First, 0, Failing)]
  }

  /** One handle with `k` guards and one failed increment, before its swap. */
  ghost function Unswapped(k: nat, cycle: nat, pc: Pc): State {
    State(2 * k, Mem(0, map[0 := Rc(First, k + 1)], None, IndexOf(cycle).Other()), false, Crew(0, 0, k, Failed(k)),
          map[0 := 0], cycle, pc, 0, {}, {})
  }

  /** The same after its swap. */
  ghost function Jammed(k: nat, residual: int, thread: Option<Thread>, pc: Pc): State {
    State(2 * k, Mem(residual, map[0 := Rc(Second, k + 1)], thread, First), false, Crew(0, 0, k, Failed(k)),
          map[0 := 1], 1, pc, 0, {}, {})
  }

  lemma JamSize(k: nat)
    ensures |Crew(0, 0, k, Failed(k))| == k + 1 && Apart(Failed(k), k)
  {
    CrewSize(0, 0, k, Failed(k));
  }

  /** The last increment finds the overflow bit. */
  lemma Fails(k: nat)
    requires k >= 2
    ensures var s := With(Fresh(k), 0, Rc(First, k), Team(0, 0, k), 0);
            Enabled(s, NewGuard(0, k)) && Next(s, NewGuard(0, k)) == Unswapped(k, 0, Idle)
  {
    assert Team(0, 0, k)[k := Guard(0, First, 0, Failing)] == Crew(0, 0, k, Failed(k));
    hide Team, Crew;
  }

  lemma JamStart(k: nat)
    requires k >= 2
    ensures CalmlyReachable(Unswapped(k, 0, Idle), k + 1)
  {
    hide CalmlyReachable, Enabled, Next, Team, Crew;
    assert CalmlyReachable(Fresh(k), k + 1) by { Nothing(Fresh(k), k + 1); }
    NoTeam(0, 0);
    Fill(Fresh(k), 0, 0, k, k + 1);
    Fails(k);
    JamSize(k);
    CalmNext(With(Fresh(k), 0, Rc(First, k), Team(0, 0, k), 0), NewGuard(0, k), k + 1);
  }

  lemma UnswappedSteps(k: nat)
    requires k >= 2
    ensures Enabled(Unswapped(k, 0, Idle), Begin(ForGuard, 0))
        && Next(Unswapped(k, 0, Idle), Begin(ForGuard, 0)) == Unswapped(k, 0, Loading(ForGuard))
    ensures Enabled(Unswapped(k, 0, Loading(ForGuard)), Load)
        && Next(Unswapped(k, 0, Loading(ForGuard)), Load) == Unswapped(k, 0, Ready(ForGuard))
    ensures Enabled(Unswapped(k, 0, Ready(ForGuard)), StartWriting)
        && Next(Unswapped(k, 0, Ready(ForGuard)), StartWriting) == Unswapped(k, 0, Writing)
  {
    hide Crew;
  }

  lemma JamLock(k: nat)
    requires k >= 2
    ensures Enabled(Unswapped(k, 0, Writing), Lock)
        && Next(Unswapped(k, 0, Writing), Lock) == Unswapped(k, 1, Swapping({0}, 0, true))
  {
    hide Crew;
    assert Unswapped(k, 0, Writing).mem.counts.Keys == {0};
  }

  lemma JamSwap(k: nat)
    requires k >= 2
    ensures Enabled(Unswapped(k, 1, Swapping({0}, 0, true)), Swap(0))
    ensures Next(Unswapped(k, 1, Swapping({0}, 0, true)), Swap(0)) == Jammed(k, 0, None, Swapping({}, k + 1, false))
  {
    hide Crew;
    var t := Next(Unswapped(k, 1, Swapping({0}, 0, true)), Swap(0));
    assert t.pc == Swapping({}, k + 1, false);
    assert t.mem.counts == map[0 := Rc(Second, k + 1)] && t.versions == map[0 := 1];
  }

  lemma JamPublish(k: nat)
    requires k >= 2
    ensures Enabled(Jammed(k, 0, None, Swapping({}, k + 1, false)), Check)
        && Next(Jammed(k, 0, None, Swapping({}, k + 1, false)), Check)
           == Jammed(k, 0, None, Swapping({}, k + 1, true))
    ensures Enabled(Jammed(k, 0, None, Swapping({}, k + 1, true)), Unlock)
        && Next(Jammed(k, 0, None, Swapping({}, k + 1, true)), Unlock) == Jammed(k, 0, None, Adding(k + 1))
    ensures Enabled(Jammed(k, 0, None, Adding(k + 1)), Add)
        && Next(Jammed(k, 0, None, Adding(k + 1)), Add) == Jammed(k, k + 1, None, Idle)
  {
    hide Crew;
  }

  lemma JamWait(k: nat)
    requires k >= 2
    ensures Enabled(Jammed(k, k + 1, None, Idle), Begin(Bare, 0))
        && Next(Jammed(k, k + 1, None, Idle), Begin(Bare, 0)) == Jammed(k, k + 1, None, Loading(Bare))
    ensures Enabled(Jammed(k, k + 1, None, Loading(Bare)), Load)
        && Next(Jammed(k, k + 1, None, Loading(Bare)), Load) == Jammed(k, k + 1, None, Registering(Bare))
    ensures Enabled(Jammed(k, k + 1, None, Registering(Bare)), Register)
        && Next(Jammed(k, k + 1, None, Registering(Bare)), Register) == Jammed(k, k + 1, Some(0), Announcing(Bare))
    ensures Enabled(Jammed(k, k + 1, Some(0), Announcing(Bare)), Announce)
        && Next(Jammed(k, k + 1, Some(0), Announcing(Bare)), Announce) == Jammed(k, 1 - k, Some(0), Parked(Bare))
  {
    hide Crew;
  }

  lemma JamReachable(k: nat)
    requires k >= 2
    ensures CalmlyReachable(Jammed(k, 1 - k, Some(0), Parked(Bare)), k + 1)
  {
    hide CalmlyReachable, Enabled, Next, Crew;
    JamStart(k);
    JamSize(k);
    UnswappedSteps(k);
    JamLock(k);
    CalmNext(Unswapped(k, 0, Idle), Begin(ForGuard, 0), k + 1);
    CalmNext(Unswapped(k, 0, Loading(ForGuard)), Load, k + 1);
    CalmNext(Unswapped(k, 0, Ready(ForGuard)), StartWriting, k + 1);
    CalmNext(Unswapped(k, 0, Writing), Lock, k + 1);
    JamSwap(k);
    CalmNext(Unswapped(k, 1, Swapping({0}, 0, true)), Swap(0), k + 1);
    JamPublish(k);
    CalmNext(Jammed(k, 0, None, Swapping({}, k + 1, false)), Check, k + 1);
    CalmNext(Jammed(k, 0, None, Swapping({}, k + 1, true)), Unlock, k + 1);
    CalmNext(Jammed(k, 0, None, Adding(k + 1)), Add, k + 1);
    JamWait(k);
    CalmNext(Jammed(k, k + 1, None, Idle), Begin(Bare, 0), k + 1);
    CalmNext(Jammed(k, k + 1, None, Loading(Bare)), Load, k + 1);
    CalmNext(Jammed(k, k + 1, None, Registering(Bare)), Register, k + 1);
    CalmNext(Jammed(k, k + 1, Some(0), Announcing(Bare)), Announce, k + 1);
  }

  lemma OnlyTheFailed(s: State, k: nat)
    requires s.guards == Crew(0, k, k, Failed(k)) && s.versions == map[0 := 1]
    ensures Stuck(s.guards, s.versions) == {k} && Residual(s.guards, s.versions) == {}
    ensures Storers(s.guards) == {} && Wakers(s.guards, s.cycle) == {}
  {
    NoTeam(0, k);
    assert s.guards == Failed(k);
  }

  /** For words of any even `half` from 4 on, `half / 2` guards and one increment
      that fails are enough: once `publish` has counted them and the guards are
      gone, the writer is parked, no reader will wake it and no token waits. */
  lemma ParkedForNobody(half: nat)
    requires half >= 4 && half % 2 == 0
    ensures exists s: State :: s.half == half && CalmlyReachable(s, half / 2 + 1) && Reachable(s) && !s.aborted
                               && s.pc.Parked? && |Stuck(s.guards, s.versions)| == 1
                               && Residual(s.guards, s.versions) == {} && Storers(s.guards) == {}
                               && Wakers(s.guards, s.cycle) == {} && s.tokens == {}
  {
    hide CalmlyReachable, Reachable, Enabled, Next, Team, Crew, Stuck, Residual, Storers, Wakers;
    var k := half / 2;
    JamReachable(k);
    JamSize(k);
    var s := Jammed(k, 1 - k, Some(0), Parked(Bare));
    Empty(s, 0, 1, 0, k, k, Failed(k), k + 1);
    var t := With(s, 0, Rc(Second, 1), Crew(0, k, k, Failed(k)), 1 - 2 * k);
    OnlyTheFailed(t, k);
    CalmReachable(t, k + 1);
    assert |Stuck(t.guards, t.versions)| == 1;
  }
}
