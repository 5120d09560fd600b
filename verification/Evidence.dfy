/** Evidence rows indexed by identity, as both continuity checks and the first-stage check read them. */
module Evidence {
  import opened Json
  import opened Durables

  /** A stream is keyed by its name, a durable by stream, durable, role and topic. */
  type Key = seq<string>

  datatype Kind = StreamRows | DurableRows

  datatype Snapshot = Snapshot(streams: map<Key, Json>, durables: map<Key, Json>)

  predicate IsBlank(s: string)
  {
    forall i :: 0 <= i < |s| ==> s[i] in {' ', '\t', '\n', '\r'}
  }

  predicate IsName(j: Json)
  {
    j.JStr? && !IsBlank(j.text)
  }

  function KeyParts(identity: Json, kind: Kind): seq<Json>
  {
    var v := ViewIdentity(identity);
    if kind == StreamRows then [v.name] else [v.stream, v.durable, v.role, v.topic]
  }

  function RowKey(row: Json, kind: Kind): Result<Key, EvidenceError>
  {
    if !IsMapping(row) || !IsMapping(ViewRow(row).identity) then Err(Malformed)
    else
      var parts := KeyParts(ViewRow(row).identity, kind);
      if forall i :: 0 <= i < |parts| ==> IsName(parts[i]) then
        Ok(seq(|parts|, i requires 0 <= i < |parts| => TextOf(parts[i])))
      else
        Err(BadName)
  }

  /** The four cursor components, each of which must be a non-negative integer. */
  function ReadCursor(cursor: Json): Result<ConsumerCursor, EvidenceError>
  {
    var v := ViewCursor(cursor);
    if IsMapping(cursor) && IsRowInteger(v.deliveredStream) && IsRowInteger(v.deliveredConsumer)
       && IsRowInteger(v.ackFloorStream) && IsRowInteger(v.ackFloorConsumer)
    then Ok(ConsumerCursor(v.deliveredStream.num, v.deliveredConsumer.num, v.ackFloorStream.num, v.ackFloorConsumer.num))
    else Err(Malformed)
  }

  type KeyReader = Json -> Result<Key, EvidenceError>

  /** The dictionary built from a list of rows; a second row with a key already seen is an error. */
  function Index(rows: seq<Json>, keyOf: KeyReader): Result<map<Key, Json>, EvidenceError>
  {
    if rows == [] then Ok(map[]) else
      var last := |rows| - 1;
      var before := Index(rows[..last], keyOf);
      if before.Err? then before else
        var key := keyOf(rows[last]);
        if key.Err? then Err(key.error)
        else if key.value in before.value then Err(DuplicateIdentity)
        else Ok(before.value[key.value := rows[last]])
  }

  function KeyReaderFor(kind: Kind): KeyReader
  {
    row => RowKey(row, kind)
  }

  /** `_indexed_rows` */
  function IndexedRows(rows: Json, kind: Kind): Result<map<Key, Json>, EvidenceError>
  {
    if rows.JArr? then Index(rows.items, KeyReaderFor(kind)) else Err(Malformed)
  }

  method IndexRows(rows: Json, kind: Kind) returns (result: Result<map<Key, Json>, EvidenceError>)
    ensures result == IndexedRows(rows, kind)
  {
    if !rows.JArr? {
      return Err(Malformed);
    }
    var index: map<Key, Json> := map[];
    for i := 0 to |rows.items|
      invariant Index(rows.items[..i], KeyReaderFor(kind)) == Ok(index)
    {
      assert rows.items[..i + 1][..i] == rows.items[..i];
      var key := RowKey(rows.items[i], kind);
      if key.Err? {
        IndexFailsFrom(rows.items, i + 1, KeyReaderFor(kind));
        return Err(key.error);
      }
      if key.value in index {
        IndexFailsFrom(rows.items, i + 1, KeyReaderFor(kind));
        return Err(DuplicateIdentity);
      }
      index := index[key.value := rows.items[i]];
    }
    assert rows.items[..|rows.items|] == rows.items;
    return Ok(index);
  }

  lemma {:induction false} IndexFailsFrom(rows: seq<Json>, n: nat, keyOf: KeyReader)
    requires n <= |rows| && Index(rows[..n], keyOf).Err?
    ensures Index(rows, keyOf) == Index(rows[..n], keyOf)
    decreases |rows|
  {
    if n == |rows| {
      assert rows[..n] == rows;
    } else {
      assert rows[..|rows| - 1][..n] == rows[..n];
      IndexFailsFrom(rows[..|rows| - 1], n, keyOf);
    }
  }

  /** An index loses nothing: rows and entries correspond one to one under the rows' own keys. */
  lemma {:induction false} IndexIsBijective(rows: seq<Json>, keyOf: KeyReader)
    requires Index(rows, keyOf).Ok?
    ensures var index := Index(rows, keyOf).value;
      && |index| == |rows|
      && (forall i :: 0 <= i < |rows| ==>
            keyOf(rows[i]).Ok? && keyOf(rows[i]).value in index && index[keyOf(rows[i]).value] == rows[i])
      && (forall k :: k in index ==> exists i :: 0 <= i < |rows| && keyOf(rows[i]) == Ok(k))
  {
    if rows != [] {
      var last := |rows| - 1;
      var before := rows[..last];
      IndexIsBijective(before, keyOf);
      var index, smaller := Index(rows, keyOf).value, Index(before, keyOf).value;
      assert forall i :: 0 <= i < last ==> before[i] == rows[i];
      forall k | k in index
        ensures exists i :: 0 <= i < |rows| && keyOf(rows[i]) == Ok(k)
      {
        if k in smaller {
          var i :| 0 <= i < |before| && keyOf(before[i]) == Ok(k);
          assert keyOf(rows[i]) == Ok(k);
        } else {
          assert keyOf(rows[last]) == Ok(k);
        }
      }
    }
  }

  /** What every row satisfies under its own key, every entry of the index satisfies under its key. */
  lemma IndexedSatisfy(rows: seq<Json>, keyOf: KeyReader, index: map<Key, Json>, good: (Key, Json) -> bool)
    requires Index(rows, keyOf) == Ok(index)
    requires forall i :: 0 <= i < |rows| && keyOf(rows[i]).Ok? ==> good(keyOf(rows[i]).value, rows[i])
    ensures |index| == |rows| && forall k :: k in index ==> good(k, index[k])
  {
    IndexIsBijective(rows, keyOf);
  }

  /** Rows with pairwise different readable keys can always be indexed. */
  lemma {:induction false} DistinctKeysIndex(rows: seq<Json>, keyOf: KeyReader)
    requires forall i :: 0 <= i < |rows| ==> keyOf(rows[i]).Ok?
    requires forall i, j :: 0 <= i < j < |rows| ==> keyOf(rows[i]) != keyOf(rows[j])
    ensures Index(rows, keyOf).Ok?
  {
    if rows != [] {
      var before := rows[..|rows| - 1];
      DistinctKeysIndex(before, keyOf);
      IndexIsBijective(before, keyOf);
    }
  }
}
