/** Driver values, their normalisation into JSON-friendly values, and the
    building of one exported row from a scanned result row. */
module Values {
  import opened Common

  /** A Go time.Time: seconds since January 1 of year 1 UTC, the nanosecond
      within that second, and the offset of its location (which does not take
      part in IsZero). */
  datatype Time = Time(seconds: int, nanos: int, offsetSeconds: int)
  {
    /** Go's IsZero: the instant is January 1, year 1, 00:00:00 UTC. */
    predicate IsZero()
    {
      seconds == 0 && nanos == 0
    }
  }

  /** The zero time.Time value. */
  const ZeroTime: Time := Time(0, 0, 0)

  /** A value as the SQL driver scans it into an interface{} slot. */
  datatype Value =
    | Nil
    | Bytes(bytes: seq<byte>)
    | Str(text: seq<byte>)
    | Timestamp(time: Time)
    | Int64(i: int64)
    | Uint64(u: uint64)
    | Float64(f: real)
    | Bool(b: bool)

  /** A value that json.Marshal renders without further conversion: neither a
      raw byte slice nor a time. */
  predicate JsonFriendly(v: Value)
  {
    !v.Bytes? && !v.Timestamp?
  }

  /** normalizeValue: bytes become the string with the same bytes, a zero time
      becomes nil, a non-zero time becomes its RFC 3339 text (the formatter is a
      parameter), everything else is returned as it is. */
  function Normalize(v: Value, rfc3339: Time -> seq<byte>): (r: Value)
    ensures JsonFriendly(r)
    ensures v.Bytes? ==> r == Str(v.bytes)
    ensures v.Timestamp? && v.time.IsZero() ==> r == Nil
    ensures v.Timestamp? && !v.time.IsZero() ==> r == Str(rfc3339(v.time))
    ensures JsonFriendly(v) ==> r == v
  {
    match v
    case Bytes(b) => Str(b)
    case Timestamp(t) => if t.IsZero() then Nil else Str(rfc3339(t))
    case Nil => Nil
    case _ => v
  }

  /** Normalising twice is normalising once. */
  lemma NormalizeIdempotent(v: Value, rfc3339: Time -> seq<byte>)
    ensures Normalize(Normalize(v, rfc3339), rfc3339) == Normalize(v, rfc3339)
  {
  }

  /** The values Normalize leaves alone are exactly the JSON-friendly ones. */
  lemma NormalizeFixedPoints(v: Value, rfc3339: Time -> seq<byte>)
    ensures Normalize(v, rfc3339) == v <==> JsonFriendly(v)
  {
  }

  /** truncateHash: the first 8 bytes of a hash, or the whole hash if shorter. */
  function TruncateHash(h: string): (r: string)
    ensures |r| == if |h| <= 8 then |h| else 8
    ensures r == h[..|r|]
  {
    if |h| > 8 then h[..8] else h
  }

  /** One exported row: column name to normalised value. */
  type Row = map<string, Value>

  /** The row the exporter builds from the columns and one scanned tuple: the
      columns are visited in order and a later column of the same name
      overwrites an earlier one. */
  function RowOf(cols: seq<string>, vals: seq<Value>, rfc3339: Time -> seq<byte>): Row
    requires |cols| == |vals|
  {
    if |cols| == 0 then map[]
    else
      RowOf(cols[..|cols| - 1], vals[..|vals| - 1], rfc3339)
        [cols[|cols| - 1] := Normalize(vals[|vals| - 1], rfc3339)]
  }

  /** i is the last position at which its column name occurs. */
  predicate LastOccurrence(cols: seq<string>, i: int)
    requires 0 <= i < |cols|
  {
    forall j :: i < j < |cols| ==> cols[j] != cols[i]
  }

  /** The keys of a built row are exactly the column names. */
  lemma {:induction false} RowOfKeys(cols: seq<string>, vals: seq<Value>, rfc3339: Time -> seq<byte>)
    requires |cols| == |vals|
    ensures RowOf(cols, vals, rfc3339).Keys == set c | c in cols
  {
    if |cols| > 0 {
      var n := |cols| - 1;
      RowOfKeys(cols[..n], vals[..n], rfc3339);
      assert cols == cols[..n] + [cols[n]];
      assert (set c | c in cols) == (set c | c in cols[..n]) + {cols[n]};
    }
  }

  /** Each column name of a built row holds the normalised value of its last
      occurrence. */
  lemma {:induction false} RowOfLookup(cols: seq<string>, vals: seq<Value>, rfc3339: Time -> seq<byte>)
    requires |cols| == |vals|
    ensures forall i :: 0 <= i < |cols| && LastOccurrence(cols, i) ==>
              cols[i] in RowOf(cols, vals, rfc3339) && RowOf(cols, vals, rfc3339)[cols[i]] == Normalize(vals[i], rfc3339)
  {
    if |cols| > 0 {
      var n := |cols| - 1;
      var pc, pv := cols[..n], vals[..n];
      RowOfLookup(pc, pv, rfc3339);
      var prev := RowOf(pc, pv, rfc3339);
      assert RowOf(cols, vals, rfc3339) == prev[cols[n] := Normalize(vals[n], rfc3339)];
      forall i | 0 <= i < |cols| && LastOccurrence(cols, i)
        ensures cols[i] in RowOf(cols, vals, rfc3339) && RowOf(cols, vals, rfc3339)[cols[i]] == Normalize(vals[i], rfc3339)
      {
        if i < n {
          assert pc[i] == cols[i] && pv[i] == vals[i];
          assert LastOccurrence(pc, i) by {
            forall j | i < j < n ensures pc[j] != pc[i] {
              assert pc[j] == cols[j];
            }
          }
          assert cols[n] != cols[i];
        }
      }
    }
  }

  /** Every value of a built row is JSON-friendly. */
  lemma {:induction false} RowOfFriendly(cols: seq<string>, vals: seq<Value>, rfc3339: Time -> seq<byte>)
    requires |cols| == |vals|
    ensures forall c :: c in RowOf(cols, vals, rfc3339) ==> JsonFriendly(RowOf(cols, vals, rfc3339)[c])
  {
    if |cols| > 0 {
      RowOfFriendly(cols[..|cols| - 1], vals[..|vals| - 1], rfc3339);
    }
  }

  /** The inner loop of both exporters: row[col] = normalizeValue(values[i]). */
  method BuildRow(cols: seq<string>, vals: seq<Value>, rfc3339: Time -> seq<byte>) returns (row: Row)
    requires |cols| == |vals|
    ensures row == RowOf(cols, vals, rfc3339)
  {
    row := map[];
    var i := 0;
    while i < |cols|
      invariant 0 <= i <= |cols|
      invariant row == RowOf(cols[..i], vals[..i], rfc3339)
    {
      assert cols[..i + 1][..i] == cols[..i] && vals[..i + 1][..i] == vals[..i];
      row := row[cols[i] := Normalize(vals[i], rfc3339)];
      i := i + 1;
    }
    assert cols[..i] == cols && vals[..i] == vals;
  }
}
