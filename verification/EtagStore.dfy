// The key/value store of internal/state: entries guarded by ETags and a
// transaction that checks every expected ETag against the pre-state before it
// writes anything.
module EtagStore {
  import opened Options

  // The in-memory store counts writes in a uint64 and skips zero, so an ETag is
  // one of the 2^64 - 1 non-zero values and the counter wraps from the last to 1.
  const ETAG_COUNT := 0xFFFF_FFFF_FFFF_FFFF

  type ETag = n: int | 0 < n <= ETAG_COUNT witness 1

  datatype Record<+V> = Record(value: V, etag: ETag)

  type Table<K, +V> = map<K, Record<V>>

  datatype Entry<+V> = Absent | Present(value: V, etag: ETag) {
    // The ETag a later write expects: none when nothing was there.
    function Expected(): Option<ETag> {
      if Absent? then None else Some(etag)
    }
  }

  // `expected` is None for the empty ETag string: such a write is unconditional.
  datatype Operation<+K, +V> =
    | Upsert(key: K, value: V, expected: Option<ETag>)
    | Delete(key: K, expected: Option<ETag>)
    | Unsupported(key: K, expected: Option<ETag>)

  datatype StoreError = EtagConflict | UnsupportedOperation

  function Lookup<K, V>(table: Table<K, V>, key: K): Entry<V> {
    if key in table then Present(table[key].value, table[key].etag) else Absent
  }

  ghost function Values<K, V>(table: Table<K, V>): map<K, V> {
    map key | key in table :: table[key].value
  }

  function NextETag(etag: ETag): ETag {
    if etag == ETAG_COUNT then 1 else etag + 1
  }

  function Written<K, V>(table: Table<K, V>, key: K): ETag {
    if key in table then NextETag(table[key].etag) else 1
  }

  predicate Matches<K, V>(table: Table<K, V>, key: K, expected: Option<ETag>) {
    expected.Some? ==> key in table && table[key].etag == expected.value
  }

  ghost predicate AllMatch<K, V>(table: Table<K, V>, operations: seq<Operation<K, V>>) {
    forall operation <- operations :: Matches(table, operation.key, operation.expected)
  }

  ghost function AppliedOne<K, V>(table: Table<K, V>, operation: Operation<K, V>): Table<K, V>
    requires !operation.Unsupported?
  {
    if operation.Upsert? then table[operation.key := Record(operation.value, Written(table, operation.key))]
    else table - {operation.key}
  }

  // Writes in order up to the first unsupported operation; what precedes it stays written.
  ghost function Applied<K, V>(table: Table<K, V>, operations: seq<Operation<K, V>>): Table<K, V>
    decreases |operations|
  {
    if operations == [] || operations[0].Unsupported? then table
    else Applied(AppliedOne(table, operations[0]), operations[1..])
  }

  ghost predicate Supported<K, V>(operations: seq<Operation<K, V>>) {
    forall operation <- operations :: !operation.Unsupported?
  }

  class MemoryStore<K(==), V> {
    var values: Table<K, V>

    constructor ()
      ensures values == map[]
    {
      values := map[];
    }

    method Get(key: K) returns (entry: Entry<V>)
      ensures entry == Lookup(values, key)
    {
      if key in values {
        entry := Present(values[key].value, values[key].etag);
      } else {
        entry := Absent;
      }
    }

    // A conflict writes nothing; otherwise every operation is written, unless one is unsupported.
    method Transact(operations: seq<Operation<K, V>>) returns (result: Result<(), StoreError>)
      modifies this
      ensures result == Err(EtagConflict) <==> !AllMatch(old(values), operations)
      ensures result == Err(EtagConflict) ==> values == old(values)
      ensures result != Err(EtagConflict) ==> values == Applied(old(values), operations)
      ensures result.Ok? <==> AllMatch(old(values), operations) && Supported(operations)
    {
      for i := 0 to |operations|
        invariant values == old(values)
        invariant AllMatch(values, operations[..i])
      {
        var expected := operations[i].expected;
        if expected.Some? && (operations[i].key !in values || values[operations[i].key].etag != expected.value) {
          assert !Matches(values, operations[i].key, expected);
          return Err(EtagConflict);
        }
        assert operations[..i + 1] == operations[..i] + [operations[i]];
      }
      assert operations[..|operations|] == operations;
      for i := 0 to |operations|
        invariant Applied(values, operations[i..]) == Applied(old(values), operations)
        invariant Supported(operations[..i])
      {
        match operations[i] {
          case Upsert(key, value, _) =>
            values := values[key := Record(value, Written(values, key))];
          case Delete(key, _) =>
            values := values - {key};
          case Unsupported(_, _) =>
            return Err(UnsupportedOperation);
        }
        assert operations[i..][1..] == operations[i + 1..];
        assert operations[..i + 1] == operations[..i] + [operations[i]];
      }
      assert operations[..|operations|] == operations;
      return Ok(());
    }
  }

  // ---- A transaction over distinct keys is one simultaneous write ----

  datatype Write<+V> = Put(value: V, expected: Option<ETag>) | Remove(expected: Option<ETag>)

  type Batch<K, +V> = map<K, Write<V>>

  ghost predicate BatchMatches<K, V>(table: Table<K, V>, batch: Batch<K, V>) {
    forall key <- batch :: Matches(table, key, batch[key].expected)
  }

  // The keys that hold a record once the batch is written over `before`.
  ghost function KeysAfter<K, V>(before: set<K>, batch: Batch<K, V>): set<K> {
    set key | key in before + batch.Keys && (key in batch ==> batch[key].Put?)
  }

  ghost function Committed<K, V>(table: Table<K, V>, batch: Batch<K, V>): Table<K, V> {
    map key | key in KeysAfter(table.Keys, batch) ::
      if key in batch then Record(batch[key].value, Written(table, key)) else table[key]
  }

  ghost predicate DistinctKeys<K, V>(operations: seq<Operation<K, V>>) {
    forall i, j :: 0 <= i < j < |operations| ==> operations[i].key != operations[j].key
  }

  ghost function WriteOf<K, V>(operation: Operation<K, V>): Write<V>
    requires !operation.Unsupported?
  {
    if operation.Upsert? then Put(operation.value, operation.expected) else Remove(operation.expected)
  }

  ghost function BatchOf<K, V>(operations: seq<Operation<K, V>>): Batch<K, V>
    requires Supported(operations)
  {
    if operations == [] then map[]
    else
      var last := operations[|operations| - 1];
      BatchOf(operations[..|operations| - 1])[last.key := WriteOf(last)]
  }

  lemma {:induction false} AppliedAppend<K, V>(table: Table<K, V>, operations: seq<Operation<K, V>>, last: Operation<K, V>)
    requires Supported(operations) && !last.Unsupported?
    ensures Applied(table, operations + [last]) == AppliedOne(Applied(table, operations), last)
    decreases |operations|
  {
    var all := operations + [last];
    if operations == [] {
      assert all == [last];
    } else {
      assert all[0] == operations[0] && all[1..] == operations[1..] + [last];
      AppliedAppend(AppliedOne(table, operations[0]), operations[1..], last);
    }
  }

  lemma {:induction false} BatchOfKeys<K, V>(operations: seq<Operation<K, V>>)
    requires Supported(operations)
    ensures BatchOf(operations).Keys == set operation <- operations :: operation.key
  {
    if operations != [] {
      var init, last := operations[..|operations| - 1], operations[|operations| - 1];
      BatchOfKeys(init);
      assert operations == init + [last];
    }
  }

  lemma CommittedExtend<K, V>(table: Table<K, V>, batch: Batch<K, V>, operation: Operation<K, V>)
    requires !operation.Unsupported? && operation.key !in batch
    ensures AppliedOne(Committed(table, batch), operation) == Committed(table, batch[operation.key := WriteOf(operation)])
    ensures BatchMatches(table, batch[operation.key := WriteOf(operation)])
       <==> BatchMatches(table, batch) && Matches(table, operation.key, operation.expected)
  {
    var key, more := operation.key, batch[operation.key := WriteOf(operation)];
    assert Written(Committed(table, batch), key) == Written(table, key);
    assert more[key].expected == operation.expected;
    assert forall other <- batch :: more[other] == batch[other];
  }

  // The transaction loop over distinct keys has the effect of one simultaneous write.
  lemma {:induction false} AppliedIsCommitted<K, V>(table: Table<K, V>, operations: seq<Operation<K, V>>)
    requires Supported(operations) && DistinctKeys(operations)
    ensures Applied(table, operations) == Committed(table, BatchOf(operations))
    ensures AllMatch(table, operations) <==> BatchMatches(table, BatchOf(operations))
    decreases |operations|
  {
    if operations == [] {
      assert Committed(table, map[]) == table;
    } else {
      var init, last := operations[..|operations| - 1], operations[|operations| - 1];
      assert operations == init + [last];
      AppliedIsCommitted(table, init);
      AppliedAppend(table, init, last);
      BatchOfKeys(init);
      CommittedExtend(table, BatchOf(init), last);
      assert forall operation <- operations :: operation in init || operation == last;
    }
  }

  // ---- Building a batch as an operation list ----

  ghost function KeysOf<K, V>(operations: seq<Operation<K, V>>): set<K> {
    set operation <- operations :: operation.key
  }

  ghost function Elements<K>(keys: seq<K>): set<K> {
    set key <- keys :: key
  }

  ghost predicate Agrees<K, V>(operation: Operation<K, V>, batch: Batch<K, V>) {
    !operation.Unsupported? && operation.key in batch && WriteOf(operation) == batch[operation.key]
  }

  // The list holds, once each, the batch's writes of exactly the given keys.
  ghost predicate Lists<K, V>(operations: seq<Operation<K, V>>, batch: Batch<K, V>, keys: seq<K>) {
    && DistinctKeys(operations)
    && (forall operation <- operations :: Agrees(operation, batch))
    && KeysOf(operations) == Elements(keys)
  }

  lemma {:induction false} BatchOfAt<K, V>(operations: seq<Operation<K, V>>, operation: Operation<K, V>)
    requires Supported(operations) && DistinctKeys(operations) && operation in operations
    ensures operation.key in BatchOf(operations) && BatchOf(operations)[operation.key] == WriteOf(operation)
  {
    var init, last := operations[..|operations| - 1], operations[|operations| - 1];
    assert operations == init + [last];
    if operation in init {
      BatchOfAt(init, operation);
      assert operation.key != last.key;
    }
  }

  lemma ListsAll<K, V>(operations: seq<Operation<K, V>>, batch: Batch<K, V>, keys: seq<K>)
    requires Lists(operations, batch, keys) && forall key <- batch :: key in keys
    ensures BatchOf(operations) == batch
  {
    BatchOfKeys(operations);
    assert BatchOf(operations).Keys == KeysOf(operations);
    forall key <- BatchOf(operations)
      ensures key in batch && BatchOf(operations)[key] == batch[key]
    {
      var operation :| operation in operations && operation.key == key;
      BatchOfAt(operations, operation);
      assert Agrees(operation, batch);
    }
  }

  lemma ListsEach<K, V>(operations: seq<Operation<K, V>>, batch: Batch<K, V>, keys: seq<K>)
    requires |operations| == |keys| && NoDuplicates(keys)
    requires forall i :: 0 <= i < |keys| ==> Agrees(operations[i], batch) && operations[i].key == keys[i]
    ensures Lists(operations, batch, keys)
  {
    forall key
      ensures key in KeysOf(operations) <==> key in keys
    {
      if key in keys {
        var i :| 0 <= i < |keys| && keys[i] == key;
        assert operations[i] in operations;
      }
    }
  }

  lemma ElementsConcat<K>(left: seq<K>, right: seq<K>)
    ensures Elements(left + right) == Elements(left) + Elements(right)
  {
    var all := left + right;
    forall x <- Elements(left) + Elements(right)
      ensures x in all
    {
      if x in left {
        var i :| 0 <= i < |left| && left[i] == x;
        assert all[i] == x;
      } else {
        var i :| 0 <= i < |right| && right[i] == x;
        assert all[|left| + i] == x;
      }
    }
  }

  lemma ListsJoin<K, V>(left: seq<Operation<K, V>>, right: seq<Operation<K, V>>, batch: Batch<K, V>, leftKeys: seq<K>, rightKeys: seq<K>)
    requires Lists(left, batch, leftKeys) && Lists(right, batch, rightKeys) && forall key <- rightKeys :: key !in leftKeys
    ensures Lists(left + right, batch, leftKeys + rightKeys)
  {
    var all := left + right;
    forall i, j | 0 <= i < j < |all|
      ensures all[i].key != all[j].key
    {
      if i < |left| <= j {
        assert all[i].key in KeysOf(left) && all[j].key in KeysOf(right);
      }
    }
    assert forall operation :: operation in all <==> operation in left || operation in right;
    assert KeysOf(all) == KeysOf(left) + KeysOf(right);
    ElementsConcat(leftKeys, rightKeys);
  }

  // ---- Counting writes without wrap-around ----

  // `version` counts the writes since the key was created; the store only shows its ETag.
  type Version = n: int | n > 0 witness 1

  datatype Cell<+V> = Cell(value: V, version: Version)

  type History<K, +V> = map<K, Cell<V>>

  ghost function ETagOf(version: Version): ETag {
    (version - 1) % ETAG_COUNT + 1
  }

  ghost function Visible<K, V>(history: History<K, V>): Table<K, V> {
    map key | key in history :: Record(history[key].value, ETagOf(history[key].version))
  }

  ghost function Contents<K, V>(history: History<K, V>): map<K, V> {
    map key | key in history :: history[key].value
  }

  ghost function Advanced<K, V>(history: History<K, V>, batch: Batch<K, V>): History<K, V> {
    map key | key in KeysAfter(history.Keys, batch) ::
      if key in batch then Cell(batch[key].value, if key in history then history[key].version + 1 else 1)
      else history[key]
  }

  ghost function Overlay<K, V>(contents: map<K, V>, batch: Batch<K, V>): map<K, V> {
    map key | key in KeysAfter(contents.Keys, batch) ::
      if key in batch then batch[key].value else contents[key]
  }

  // What a client of the store sees of the unwrapped history is what the store does.
  lemma VisibleAdvanced<K, V>(history: History<K, V>, batch: Batch<K, V>)
    ensures Visible(Advanced(history, batch)) == Committed(Visible(history), batch)
    ensures Contents(Advanced(history, batch)) == Overlay(Contents(history), batch)
  {
    forall key | key in history && key in batch && batch[key].Put?
      ensures ETagOf(history[key].version + 1) == Written(Visible(history), key)
    {
      NextVersion(history[key].version);
    }
  }

  lemma ValuesCommitted<K, V>(table: Table<K, V>, batch: Batch<K, V>)
    ensures Values(Committed(table, batch)) == Overlay(Values(table), batch)
  {
  }

  lemma NextVersion(version: Version)
    ensures ETagOf(version + 1) == NextETag(ETagOf(version))
  {
  }

  // Within fewer than 2^64 - 1 writes, equal ETags mean equal versions.
  lemma SameETag(earlier: Version, later: Version)
    requires earlier <= later < earlier + ETAG_COUNT
    requires ETagOf(earlier) == ETagOf(later)
    ensures earlier == later
  {
  }
}
