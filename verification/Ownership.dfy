/** The writer's data: two tables, the log, the tokens handed to the user, and
    the fate of every key and value (src/write.rs, src/util/aliasing.rs). */
module Ownership {
  import opened Prelude
  import opened Store
  import opened OpLog

  /** A value taken out of the map; `operation` is the log entry that did it. */
  datatype Evicted<V> = Evicted(value: Alias<V>, operation: nat)

  /** A leaked value and the writer it came from. */
  datatype Leaked<V> = Leaked(value: Alias<V>, uid: nat)

  /** `evicted` holds the values whose `Evicted` is alive, by the log entry it names.
      Identities `0..next` have been given to the map: one per key and value passed
      in. `leaked` are the values whose token is out, `dropped` those the map has
      destroyed, `returned` those it has given back as owned values. */
  datatype Data<K, V> = Data(
    uid: nat, tables: Tables<Table<K, V>>, log: Log<K, V>,
    evicted: map<nat, Alias<V>>, leaked: map<nat, V>,
    next: nat, dropped: multiset<nat>, returned: multiset<nat>)

  ghost predicate Initial<K, V>(d: Data<K, V>) {
    d == Data(d.uid, Tables(map[], map[]), [], map[], map[], 0, multiset{}, multiset{})
  }

  // ----- the operations; `wm` is the index of the writer's map

  function Push<K, V>(d: Data<K, V>, wm: MapIndex, op: Operation<K, V>, given: nat): Data<K, V>
    requires Legal(op, d.tables.Get(wm))
  {
    d.(tables := d.tables.Set(wm, Apply(op, d.tables.Get(wm))), log := d.log + [op], next := d.next + given)
  }

  function Evict<K, V>(d: Data<K, V>, wm: MapIndex, op: Operation<K, V>, given: nat): Data<K, V>
    requires Legal(op, d.tables.Get(wm)) && (op.raw.Replace? || op.raw.Remove?)
  {
    Push(d, wm, op, given).(evicted := d.evicted[|d.log| := Displaced(op, d.tables.Get(wm))])
  }

  /** A key passed to an operation that finds nothing to do is dropped at once. */
  function DropKey<K, V>(d: Data<K, V>): Data<K, V> {
    d.(next := d.next + 1, dropped := d.dropped + One(d.next))
  }

  function Insert<K, V>(d: Data<K, V>, wm: MapIndex, k: K, v: V): Data<K, V> {
    var key, value := Alias(d.next, k), Alias(d.next + 1, v);
    if k in d.tables.Get(wm) then Evict(d, wm, Operation(Replace(key, value), false), 2)
    else Push(d, wm, Operation(InsertUnique(key, value), false), 2)
  }

  function Update<K, V>(d: Data<K, V>, wm: MapIndex, k: K, f: V -> V): Data<K, V> {
    var t := d.tables.Get(wm);
    if k in t then Evict(d, wm, Operation(Replace(Alias(d.next, k), Alias(d.next + 1, f(t[k].value.value))), false), 2)
    else DropKey(d)
  }

  function Delete<K, V>(d: Data<K, V>, wm: MapIndex, k: K): Data<K, V> {
    if k in d.tables.Get(wm) then Evict(d, wm, Operation(Remove(Alias(d.next, k)), false), 1)
    else DropKey(d)
  }

  /** The `Evicted` is one of those alive. */
  ghost predicate Live<K, V>(d: Data<K, V>, e: Evicted<V>) {
    e.operation in d.evicted && d.evicted[e.operation] == e.value
  }

  /** The token must be one this map has given out, if it claims to be. */
  ghost predicate Outstanding<K, V>(d: Data<K, V>, token: Leaked<V>) {
    token.uid == d.uid ==> token.value.id in d.leaked && d.leaked[token.value.id] == token.value.value
  }

  /** A foreign token makes the call panic before anything changes. */
  function DropLazily<K, V>(d: Data<K, V>, wm: MapIndex, token: Leaked<V>): Data<K, V>
    requires Outstanding(d, token)
  {
    if token.uid != d.uid then d
    else Push(d, wm, Operation(Drop(token.value), false), 0).(leaked := d.leaked - {token.value.id})
  }

  function Reclaim<K, V>(d: Data<K, V>, token: Leaked<V>): Data<K, V>
    requires Outstanding(d, token)
  {
    if token.uid != d.uid then d
    else d.(leaked := d.leaked - {token.value.id}, returned := d.returned + One(token.value.id))
  }

  function LeakToken<K, V>(d: Data<K, V>, e: Evicted<V>): Data<K, V>
    requires e.operation < |d.log|
  {
    d.(evicted := d.evicted - {e.operation}, log := Leak(d.log, e.operation),
        leaked := d.leaked[e.value.id := e.value.value])
  }

  /** An `Evicted` that is dropped without being leaked. */
  function Forget<K, V>(d: Data<K, V>, e: Evicted<V>): Data<K, V> {
    d.(evicted := d.evicted - {e.operation})
  }

  /** One turn of the loop of `flush_operations`. */
  function FlushOne<K, V>(d: Data<K, V>, wm: MapIndex): Data<K, V>
    requires d.log != [] && Legal(d.log[0], d.tables.Get(wm))
  {
    var t := d.tables.Get(wm);
    d.(tables := d.tables.Set(wm, Apply(d.log[0], t)), log := d.log[1..], dropped := d.dropped + Drops(d.log[0], t))
  }

  /** The end of the map: the readers' copy is drained and both are freed. */
  ghost function Drain<K, V>(d: Data<K, V>, wm: MapIndex): Data<K, V> {
    d.(tables := Tables(map[], map[]), dropped := d.dropped + Ids(d.tables.Get(wm.Other())))
  }

  // ----- the invariant

  /** The copy the log starts from: the readers' while a write guard is live, the
      writer's afterwards. */
  function Stale<K, V>(d: Data<K, V>, wm: MapIndex, writing: bool): Table<K, V> {
    d.tables.Get(if writing then wm.Other() else wm)
  }

  function Current<K, V>(d: Data<K, V>, wm: MapIndex, writing: bool): Table<K, V> {
    d.tables.Get(if writing then wm else wm.Other())
  }

  /** All identities given so far, once each. */
  ghost function Given(n: nat): multiset<nat> {
    if n == 0 then multiset{} else Given(n - 1) + One(n - 1)
  }

  ghost function Tokens<V>(leaked: map<nat, V>): multiset<nat> {
    multiset(leaked.Keys)
  }

  /** Where every identity is: in the current copy, on its way to being dropped by
      the replay, in the hands of the user, dropped, or given back. */
  ghost predicate Conserved<K, V>(d: Data<K, V>, stale: Table<K, V>, current: Table<K, V>)
    requires ReplayLegal(d.log, stale)
  {
    Given(d.next) == Ids(current) + ReplayDrops(d.log, stale) + Tokens(d.leaked) + d.dropped + d.returned
  }

  /** The log entry named by an `Evicted` displaced exactly its value. */
  ghost predicate EvictedOk<K, V>(log: Log<K, V>, stale: Table<K, V>, i: nat, value: Alias<V>)
    requires ReplayLegal(log, stale)
  {
    && i < |log| && !log[i].leaky && (log[i].raw.Replace? || log[i].raw.Remove?)
    && DisplacedAt(log, i, stale) == value
  }

  ghost predicate AllEvictedOk<K, V>(d: Data<K, V>, stale: Table<K, V>)
    requires ReplayLegal(d.log, stale)
  {
    forall i <- d.evicted :: EvictedOk(d.log, stale, i, d.evicted[i])
  }

  /** Entries are filed under the key they alias. */
  ghost predicate Filed<K, V>(t: Table<K, V>) {
    forall k <- t :: t[k].key.value == k
  }

  /** No identity from the future is stored. */
  ghost predicate Past<K, V>(t: Table<K, V>, next: nat) {
    forall i :: i in Ids(t) ==> i < next
  }

  ghost predicate LogOk<K, V>(d: Data<K, V>, stale: Table<K, V>, current: Table<K, V>) {
    ReplayLegal(d.log, stale) && Replay(d.log, stale) == current && Filed(stale) && Filed(current)
  }

  ghost predicate Inv<K, V>(d: Data<K, V>, wm: MapIndex, writing: bool) {
    var stale, current := Stale(d, wm, writing), Current(d, wm, writing);
    && LogOk(d, stale, current)
    && Conserved(d, stale, current)
    && AllEvictedOk(d, stale)
    && (writing ==> Past(stale, d.next))
  }

  lemma InitialInv<K, V>(d: Data<K, V>, wm: MapIndex)
    requires Initial(d)
    ensures Inv(d, wm, false)
  {
  }

  /** The fate of an identity is settled: it was dropped once, or given back once,
      or its token is still out, and nothing else; or it was never given. */
  ghost predicate Settled<K, V>(d: Data<K, V>, i: nat) {
    d.dropped[i] + d.returned[i] + (if i in d.leaked then 1 else 0) == if i < d.next then 1 else 0
  }

  // ----- consequences of conservation

  lemma {:induction false} GivenCount(n: nat, i: nat)
    ensures Given(n)[i] == if i < n then 1 else 0
  {
    if n > 0 {
      GivenCount(n - 1, i);
    }
  }

  ghost predicate Dead<K, V>(d: Data<K, V>, i: nat) {
    i in d.dropped || i in d.returned
  }

  /** Every identity is in exactly one place. */
  lemma OnePlace<K, V>(d: Data<K, V>, stale: Table<K, V>, current: Table<K, V>, i: nat)
    requires ReplayLegal(d.log, stale) && Conserved(d, stale, current)
    ensures Ids(current)[i] + ReplayDrops(d.log, stale)[i] + Tokens(d.leaked)[i] + d.dropped[i]
        + d.returned[i] == if i < d.next then 1 else 0
  {
    hide Ids, Tokens;
    GivenCount(d.next, i);
    var a, b, c := Ids(current), ReplayDrops(d.log, stale), Tokens(d.leaked);
    assert (a + b + c + d.dropped + d.returned)[i] == a[i] + b[i] + c[i] + d.dropped[i] + d.returned[i];
  }

  /** Nothing visible in the current copy is dead. */
  lemma CurrentIsAlive<K, V>(d: Data<K, V>, wm: MapIndex, writing: bool, i: nat)
    requires Inv(d, wm, writing) && i in Ids(Current(d, wm, writing))
    ensures i < d.next && !Dead(d, i)
  {
    hide Ids, Replay, ReplayDrops, Tokens;
    OnePlace(d, Stale(d, wm, writing), Current(d, wm, writing), i);
  }
}
