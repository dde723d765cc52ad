/** The operation log and its replay on the stale copy (src/write.rs). */
module OpLog {

  /** An alias: the identity of its family and the value all members share. */
  datatype Alias<T> = Alias(id: nat, value: T)

  datatype Entry<K, V> = Entry(key: Alias<K>, value: Alias<V>)

  type Table<K, V> = map<K, Entry<K, V>>

  /** `Replace` and `Remove` own a plain key; it has an identity too, since it is
      dropped together with the operation. */
  datatype RawOperation<K, V> =
    | InsertUnique(key: Alias<K>, value: Alias<V>)
    | Replace(key: Alias<K>, value: Alias<V>)
    | Remove(key: Alias<K>)
    | Drop(value: Alias<V>)

  datatype Operation<K, V> = Operation(raw: RawOperation<K, V>, leaky: bool)

  type Log<K, V> = seq<Operation<K, V>>

  /** What the unchecked replay relies on. */
  predicate Legal<K, V>(op: Operation<K, V>, t: Table<K, V>) {
    match op.raw
    case InsertUnique(key, _) => key.value !in t
    case Replace(key, _) => key.value in t
    case Remove(key) => key.value in t
    case Drop(_) => true
  }

  function Apply<K, V>(op: Operation<K, V>, t: Table<K, V>): Table<K, V>
    requires Legal(op, t)
  {
    match op.raw
    case InsertUnique(key, value) => t[key.value := Entry(key, value)]
    case Replace(key, value) => t[key.value := Entry(t[key.value].key, value)]
    case Remove(key) => t - {key.value}
    case Drop(_) => t
  }

  function One(id: nat): multiset<nat> {
    multiset{id}
  }

  /** The identities an operation drops when it is replayed. */
  function Drops<K, V>(op: Operation<K, V>, t: Table<K, V>): multiset<nat>
    requires Legal(op, t)
  {
    match op.raw
    case InsertUnique(_, _) => multiset{}
    case Replace(key, _) =>
      One(key.id) + if op.leaky then multiset{} else One(t[key.value].value.id)
    case Remove(key) =>
      One(key.id) + One(t[key.value].key.id) + if op.leaky then multiset{} else One(t[key.value].value.id)
    case Drop(value) => One(value.id)
  }

  /** The value an operation takes out of the table. */
  function Displaced<K, V>(op: Operation<K, V>, t: Table<K, V>): Alias<V>
    requires Legal(op, t) && (op.raw.Replace? || op.raw.Remove?)
  {
    t[op.raw.key.value].value
  }

  ghost predicate ReplayLegal<K, V>(log: Log<K, V>, t: Table<K, V>)
    decreases |log|
  {
    log == [] || (Legal(log[0], t) && ReplayLegal(log[1..], Apply(log[0], t)))
  }

  ghost function Replay<K, V>(log: Log<K, V>, t: Table<K, V>): Table<K, V>
    requires ReplayLegal(log, t)
    decreases |log|
  {
    if log == [] then t else Replay(log[1..], Apply(log[0], t))
  }

  ghost function ReplayDrops<K, V>(log: Log<K, V>, t: Table<K, V>): multiset<nat>
    requires ReplayLegal(log, t)
    decreases |log|
  {
    if log == [] then multiset{} else Drops(log[0], t) + ReplayDrops(log[1..], Apply(log[0], t))
  }

  /** Appending to the log extends the replay. */
  lemma {:induction false} ReplayAppend<K, V>(log: Log<K, V>, op: Operation<K, V>, t: Table<K, V>)
    requires ReplayLegal(log, t) && Legal(op, Replay(log, t))
    ensures ReplayLegal(log + [op], t)
    ensures Replay(log + [op], t) == Apply(op, Replay(log, t))
    ensures ReplayDrops(log + [op], t) == ReplayDrops(log, t) + Drops(op, Replay(log, t))
    decreases |log|
  {
    var all := log + [op];
    if log == [] {
      assert all == [op] && all[1..] == [];
    } else {
      ReplayAppend(log[1..], op, Apply(log[0], t));
      assert all[0] == log[0] && all[1..] == log[1..] + [op];
    }
  }

  /** A prefix of a legal replay is legal. */
  lemma {:induction false} ReplayPrefix<K, V>(log: Log<K, V>, i: nat, t: Table<K, V>)
    requires ReplayLegal(log, t) && i <= |log|
    ensures ReplayLegal(log[..i], t)
    ensures i < |log| ==> Legal(log[i], Replay(log[..i], t))
    decreases |log|
  {
    if i > 0 {
      ReplayPrefix(log[1..], i - 1, Apply(log[0], t));
      assert log[..i][0] == log[0] && log[..i][1..] == log[1..][..i - 1];
    }
  }

  /** The value that entry `i` of the log takes out when it is replayed. */
  ghost function DisplacedAt<K, V>(log: Log<K, V>, i: nat, t: Table<K, V>): Alias<V>
    requires ReplayLegal(log, t) && i < |log| && (log[i].raw.Replace? || log[i].raw.Remove?)
  {
    ReplayPrefix(log, i, t);
    Displaced(log[i], Replay(log[..i], t))
  }

  function Leak<K, V>(log: Log<K, V>, i: nat): Log<K, V>
    requires i < |log|
  {
    log[i := log[i].(leaky := true)]
  }

  lemma LeakOne<K, V>(op: Operation<K, V>, t: Table<K, V>)
    requires Legal(op, t) && !op.leaky && (op.raw.Replace? || op.raw.Remove?)
    ensures var op' := op.(leaky := true);
            && Legal(op', t) && Apply(op', t) == Apply(op, t)
            && Drops(op, t) == Drops(op', t) + One(Displaced(op, t).id)
  {
  }

  /** Marking entry `i` leaky changes no table; it takes exactly the value that
      entry displaces off the list of values the replay drops. */
  lemma {:induction false} LeakSuppressesOneDrop<K, V>(log: Log<K, V>, i: nat, t: Table<K, V>)
    requires ReplayLegal(log, t) && i < |log| && !log[i].leaky && (log[i].raw.Replace? || log[i].raw.Remove?)
    ensures ReplayLegal(Leak(log, i), t)
    ensures Replay(Leak(log, i), t) == Replay(log, t)
    ensures ReplayDrops(log, t) == ReplayDrops(Leak(log, i), t) + One(DisplacedAt(log, i, t).id)
    decreases |log|
  {
    hide Legal, Apply, Drops, Displaced;
    var log' := Leak(log, i);
    if i == 0 {
      LeakOne(log[0], t);
      assert log'[1..] == log[1..] && log[..0] == [];
    } else {
      LeakSuppressesOneDrop(log[1..], i - 1, Apply(log[0], t));
      assert log'[0] == log[0] && log'[1..] == Leak(log[1..], i - 1);
      ReplayPrefix(log, i, t);
      assert log[..i][0] == log[0] && log[..i][1..] == log[1..][..i - 1];
    }
  }

  /** An entry displaces the same value whatever is appended, and whatever other
      entry is marked leaky. */
  lemma {:induction false} DisplacedIsStable<K, V>(log: Log<K, V>, log': Log<K, V>, i: nat, t: Table<K, V>)
    requires ReplayLegal(log, t) && ReplayLegal(log', t) && i < |log| <= |log'|
    requires forall j | 0 <= j <= i :: log[j].raw == log'[j].raw
    requires log[i].raw.Replace? || log[i].raw.Remove?
    ensures DisplacedAt(log', i, t) == DisplacedAt(log, i, t)
    decreases |log|
  {
    ReplayPrefix(log, i, t);
    ReplayPrefix(log', i, t);
    if i > 0 {
      DisplacedIsStable(log[1..], log'[1..], i - 1, Apply(log[0], t));
      assert log[..i][0] == log[0] && log[..i][1..] == log[1..][..i - 1];
      assert log'[..i][0] == log'[0] && log'[..i][1..] == log'[1..][..i - 1];
    } else {
      assert log[..0] == [] && log'[..0] == [];
    }
  }

  // ----- identities

  /** All identities a table holds, keys and values, with multiplicity. */
  ghost function Ids<K, V>(t: Table<K, V>): multiset<nat> {
    if t == map[] then multiset{}
    else
      var k :| k in t;
      EntryIds(t[k]) + Ids(t - {k})
  }

  ghost function EntryIds<K, V>(e: Entry<K, V>): multiset<nat> {
    One(e.key.id) + One(e.value.id)
  }

  lemma IdsStep<K, V>(t: Table<K, V>) returns (k: K)
    requires t != map[]
    ensures k in t && Ids(t) == EntryIds(t[k]) + Ids(t - {k})
  {
    k :| k in t && Ids(t) == EntryIds(t[k]) + Ids(t - {k});
  }

  lemma {:induction false} IdsSplit<K, V>(t: Table<K, V>, k: K)
    requires k in t
    ensures Ids(t) == EntryIds(t[k]) + Ids(t - {k})
    decreases |t|
  {
    hide Ids, EntryIds;
    var c := IdsStep(t);
    if c != k {
      IdsSplit(t - {c}, k);
      IdsSplit(t - {k}, c);
      assert t - {c} - {k} == t - {k} - {c};
    }
  }

  lemma IdsPut<K, V>(t: Table<K, V>, k: K, e: Entry<K, V>)
    ensures Ids(t[k := e]) == EntryIds(e) + Ids(t - {k})
  {
    hide Ids, EntryIds;
    IdsSplit(t[k := e], k);
    assert t[k := e] - {k} == t - {k};
  }

  /** The identities an operation brings along. */
  function Brings<K, V>(op: Operation<K, V>): multiset<nat> {
    match op.raw
    case InsertUnique(key, value) => One(key.id) + One(value.id)
    case Replace(key, value) => One(key.id) + One(value.id)
    case Remove(key) => One(key.id)
    case Drop(value) => One(value.id)
  }

  /** The identities a leaky operation leaves to whoever leaked them. */
  function Leaves<K, V>(op: Operation<K, V>, t: Table<K, V>): multiset<nat>
    requires Legal(op, t)
  {
    if op.leaky && (op.raw.Replace? || op.raw.Remove?) then One(Displaced(op, t).id) else multiset{}
  }

  lemma InsertConserves<K, V>(op: Operation<K, V>, t: Table<K, V>)
    requires Legal(op, t) && op.raw.InsertUnique?
    ensures Ids(t) + Brings(op) == Ids(Apply(op, t)) + (Drops(op, t) + Leaves(op, t))
  {
    hide Ids;
    IdsPut(t, op.raw.key.value, Entry(op.raw.key, op.raw.value));
    assert t - {op.raw.key.value} == t;
  }

  lemma Exchange(key: multiset<nat>, was: multiset<nat>, now: multiset<nat>, rest: multiset<nat>, own: multiset<nat>)
    ensures (key + was + rest) + (own + now) == (key + now + rest) + (own + was)
  {
  }

  lemma ReplaceConserves<K, V>(op: Operation<K, V>, t: Table<K, V>)
    requires Legal(op, t) && op.raw.Replace?
    ensures Ids(t) + Brings(op) == Ids(Apply(op, t)) + (Drops(op, t) + Leaves(op, t))
  {
    hide Ids, One;
    var k := op.raw.key.value;
    IdsSplit(t, k);
    IdsPut(t, k, Entry(t[k].key, op.raw.value));
    Exchange(One(t[k].key.id), One(t[k].value.id), One(op.raw.value.id), Ids(t - {k}), One(op.raw.key.id));
  }

  lemma RemoveConserves<K, V>(op: Operation<K, V>, t: Table<K, V>)
    requires Legal(op, t) && op.raw.Remove?
    ensures Ids(t) + Brings(op) == Ids(Apply(op, t)) + (Drops(op, t) + Leaves(op, t))
  {
    hide Ids, One;
    var k := op.raw.key.value;
    IdsSplit(t, k);
  }

  /** Replaying one operation loses no identity and invents none. */
  lemma ApplyConserves<K, V>(op: Operation<K, V>, t: Table<K, V>)
    requires Legal(op, t)
    ensures Ids(t) + Brings(op) == Ids(Apply(op, t)) + (Drops(op, t) + Leaves(op, t))
  {
    hide Ids, EntryIds;
    match op.raw
    case InsertUnique(_, _) => InsertConserves(op, t);
    case Replace(_, _) => ReplaceConserves(op, t);
    case Remove(_) => RemoveConserves(op, t);
    case Drop(_) =>
  }

  /** A key of the stale copy is never leaked: it ends in the replayed table or
      is dropped on the way. */
  lemma {:induction false} KeysEndSomewhere<K, V>(log: Log<K, V>, t: Table<K, V>, k: K)
    requires ReplayLegal(log, t) && k in t
    ensures t[k].key.id in Ids(Replay(log, t)) + ReplayDrops(log, t)
    decreases |log|
  {
    if log == [] {
      IdsSplit(t, k);
    } else {
      var t1 := Apply(log[0], t);
      if k in t1 {
        assert t1[k].key == t[k].key;
        KeysEndSomewhere(log[1..], t1, k);
      } else {
        assert log[0].raw.Remove? && log[0].raw.key.value == k;
      }
    }
  }

  /** Nor is the key that an operation brings. */
  lemma OwnKeyEndsSomewhere<K, V>(log: Log<K, V>, t: Table<K, V>)
    requires ReplayLegal(log, t) && log != [] && !log[0].raw.Drop?
    ensures log[0].raw.key.id in Ids(Replay(log, t)) + ReplayDrops(log, t)
  {
    var key := log[0].raw.key;
    if log[0].raw.InsertUnique? {
      KeysEndSomewhere(log[1..], Apply(log[0], t), key.value);
    } else {
      assert key.id in Drops(log[0], t);
    }
  }
}
