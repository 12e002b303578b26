/** The row loop shared by both exporters: scan each tuple, build its row,
    marshal it, and append it with a newline to the buffer; the events exporter
    also tracks the highest int64 id. The specification functions say what a
    whole query result turns into; the two methods are the loops. */
module Jsonl {
  import opened Common
  import opened Values
  import opened Queries

  /** The serialisers the exporter calls: the RFC 3339 formatter of
      time.Time.Format and json.Marshal of a row, which may fail. */
  datatype RowCodec = RowCodec(rfc3339: Time -> seq<byte>, marshal: Row -> Option<seq<byte>>)

  /** json.Marshal writes compact JSON: no raw newline inside an object. */
  ghost predicate Compact(c: RowCodec)
  {
    forall row :: c.marshal(row).Some? ==> Newline !in c.marshal(row).value
  }

  /** rows.Scan into one slot per column: fails on a driver error or when the
      tuple does not have one value per column. */
  function ScanRow(cols: seq<string>, s: Scan, rfc3339: Time -> seq<byte>): (r: Result<Row, Error>)
    ensures r.Err? ==> r.error == ScanFailed
    ensures r.Ok? <==> s.Scanned? && |s.values| == |cols|
  {
    match s
    case ScanError => Err(ScanFailed)
    case Scanned(vals) => if |vals| != |cols| then Err(ScanFailed) else Ok(RowOf(cols, vals, rfc3339))
  }

  /** One line's JSON object, or the scan or marshal error. */
  function EncodeRow(cols: seq<string>, s: Scan, c: RowCodec): (r: Result<seq<byte>, Error>)
    ensures r.Err? ==> r.error == ScanFailed || r.error == MarshalFailed
  {
    match ScanRow(cols, s, c.rfc3339)
    case Err(e) => Err(e)
    case Ok(row) =>
      match c.marshal(row)
      case None => Err(MarshalFailed)
      case Some(data) => Ok(data)
  }

  /** The JSON objects of all tuples in order, or the error of the first tuple
      that fails. */
  function EncodeAll(cols: seq<string>, scans: seq<Scan>, c: RowCodec): Result<seq<seq<byte>>, Error>
  {
    if |scans| == 0 then Ok([])
    else
      match EncodeAll(cols, scans[..|scans| - 1], c)
      case Err(e) => Err(e)
      case Ok(objs) =>
        match EncodeRow(cols, scans[|scans| - 1], c)
        case Err(e) => Err(e)
        case Ok(data) => Ok(objs + [data])
  }

  /** The JSONL buffer: each object followed by a newline. */
  function Jsonl(objs: seq<seq<byte>>): seq<byte>
  {
    if |objs| == 0 then [] else Jsonl(objs[..|objs| - 1]) + objs[|objs| - 1] + [Newline]
  }

  /** The id the high-water mark looks at: row["id"] when it is an int64. */
  function IdOf(row: Row): Option<int64>
  {
    if "id" in row && row["id"].Int64? then Some(row["id"].i) else None
  }

  function ScannedId(cols: seq<string>, s: Scan, rfc3339: Time -> seq<byte>): Option<int64>
  {
    match ScanRow(cols, s, rfc3339)
    case Ok(row) => IdOf(row)
    case Err(_) => None
  }

  /** maxID: starts at 0 and is raised by every larger int64 id. */
  function HighWater(cols: seq<string>, scans: seq<Scan>, rfc3339: Time -> seq<byte>): int64
  {
    if |scans| == 0 then 0
    else
      var m := HighWater(cols, scans[..|scans| - 1], rfc3339);
      match ScannedId(cols, scans[|scans| - 1], rfc3339)
      case Some(id) => if id > m then id else m
      case None => m
  }

  /** What exportTable hands to the atomic writer: the buffer and the count. */
  datatype Batch = Batch(lines: seq<byte>, count: nat)

  /** What exportEventsIncremental collects: buffer, count and maxID. */
  datatype EventBatch = EventBatch(lines: seq<byte>, count: nat, maxId: int64)

  /** The outcome of exportTable's query and loop, before anything is written. */
  function TableBatch(res: QueryResult, c: RowCodec): Result<Batch, Error>
  {
    match res
    case QueryError => Err(QueryFailed)
    case ColumnsError => Err(ColumnsFailed)
    case Rows(cols, scans, iterationError) =>
      match EncodeAll(cols, scans, c)
      case Err(e) => Err(e)
      case Ok(objs) => if iterationError then Err(IterationFailed) else Ok(Batch(Jsonl(objs), |objs|))
  }

  /** The outcome of exportEventsIncremental's query and loop. */
  function EventsBatch(res: QueryResult, c: RowCodec): Result<EventBatch, Error>
  {
    match TableBatch(res, c)
    case Err(e) => Err(e)
    case Ok(b) => Ok(EventBatch(b.lines, b.count, HighWater(res.columns, res.scans, c.rfc3339)))
  }

  // ---------------------------------------------------------------------
  // Properties of the specification

  /** The objects are produced exactly when every tuple scans and marshals,
      one object per tuple, in order. */
  lemma {:induction false} EncodeAllOk(cols: seq<string>, scans: seq<Scan>, c: RowCodec)
    ensures EncodeAll(cols, scans, c).Ok? <==> forall i :: 0 <= i < |scans| ==> EncodeRow(cols, scans[i], c).Ok?
    ensures EncodeAll(cols, scans, c).Ok? ==>
              |EncodeAll(cols, scans, c).value| == |scans| &&
              forall i :: 0 <= i < |scans| ==> EncodeAll(cols, scans, c).value[i] == EncodeRow(cols, scans[i], c).value
  {
    if |scans| > 0 {
      var n := |scans| - 1;
      EncodeAllOk(cols, scans[..n], c);
      assert forall i :: 0 <= i < n ==> scans[..n][i] == scans[i];
    }
  }

  /** A failure is the error of the first tuple that fails. */
  lemma {:induction false} EncodeAllFirstError(cols: seq<string>, scans: seq<Scan>, c: RowCodec)
    requires EncodeAll(cols, scans, c).Err?
    ensures exists i :: 0 <= i < |scans| && EncodeRow(cols, scans[i], c) == Err(EncodeAll(cols, scans, c).error) &&
                        forall j :: 0 <= j < i ==> EncodeRow(cols, scans[j], c).Ok?
  {
    var n := |scans| - 1;
    assert forall j :: 0 <= j < n ==> scans[..n][j] == scans[j];
    if EncodeAll(cols, scans[..n], c).Err? {
      EncodeAllFirstError(cols, scans[..n], c);
      var i :| 0 <= i < n && EncodeRow(cols, scans[..n][i], c) == Err(EncodeAll(cols, scans[..n], c).error) &&
               forall j :: 0 <= j < i ==> EncodeRow(cols, scans[..n][j], c).Ok?;
      assert EncodeRow(cols, scans[i], c) == Err(EncodeAll(cols, scans, c).error);
    } else {
      EncodeAllOk(cols, scans[..n], c);
      assert EncodeRow(cols, scans[n], c) == Err(EncodeAll(cols, scans, c).error);
    }
  }

  /** Once a prefix fails, the whole result is that failure. */
  lemma {:induction false} EncodeAllKeepsError(cols: seq<string>, scans: seq<Scan>, k: nat, c: RowCodec)
    requires k <= |scans| && EncodeAll(cols, scans[..k], c).Err?
    ensures EncodeAll(cols, scans, c) == EncodeAll(cols, scans[..k], c)
  {
    if k < |scans| {
      var n := |scans| - 1;
      assert scans[..n][..k] == scans[..k];
      EncodeAllKeepsError(cols, scans[..n], k, c);
    } else {
      assert scans[..k] == scans;
    }
  }

  /** Buffers concatenate. */
  lemma {:induction false} JsonlConcat(a: seq<seq<byte>>, b: seq<seq<byte>>)
    ensures Jsonl(a + b) == Jsonl(a) + Jsonl(b)
  {
    if |b| > 0 {
      var n := |b| - 1;
      JsonlConcat(a, b[..n]);
      assert (a + b)[..|a + b| - 1] == a + b[..n];
    } else {
      assert a + b == a;
    }
  }

  /** The length of the first line of s, up to its first newline. */
  function LineEnd(s: seq<byte>): (k: nat)
    ensures k <= |s| && Newline !in s[..k] && (k < |s| ==> s[k] == Newline)
  {
    if |s| == 0 || s[0] == Newline then 0
    else
      var k := 1 + LineEnd(s[1..]);
      assert s[..k] == [s[0]] + s[1..][..k - 1];
      k
  }

  /** A reader's view of a JSONL file: the lines between newlines. */
  function SplitLines(s: seq<byte>): seq<seq<byte>>
    decreases |s|
  {
    if |s| == 0 then []
    else
      var k := LineEnd(s);
      if k == |s| then [s] else [s[..k]] + SplitLines(s[k + 1..])
  }

  lemma {:induction false} LineEndAt(x: seq<byte>, rest: seq<byte>)
    requires Newline !in x
    ensures LineEnd(x + [Newline] + rest) == |x|
  {
    if |x| > 0 {
      assert (x + [Newline] + rest)[1..] == x[1..] + [Newline] + rest;
      LineEndAt(x[1..], rest);
    }
  }

  /** JSONL framing: when no object holds a raw newline, splitting the buffer
      at newlines gives back exactly the objects, one per line. */
  lemma {:induction false} SplitJsonl(objs: seq<seq<byte>>)
    requires forall i :: 0 <= i < |objs| ==> Newline !in objs[i]
    ensures SplitLines(Jsonl(objs)) == objs
  {
    if |objs| > 0 {
      var x, rest := objs[0], objs[1..];
      assert objs == [x] + rest;
      JsonlConcat([x], rest);
      var single: seq<seq<byte>> := [x];
      assert single[..0] == [];
      assert Jsonl(single) == x + [Newline];
      var s := Jsonl(objs);
      assert s == x + [Newline] + Jsonl(rest);
      LineEndAt(x, Jsonl(rest));
      assert s[..|x|] == x && s[|x| + 1..] == Jsonl(rest);
      SplitJsonl(rest);
    }
  }

  /** A table export is the snapshot of its query: it succeeds exactly when
      the query, the columns, every tuple and the iteration succeed; then the
      count is the number of tuples and the buffer is one compact object per
      line, in the store's order. Zero tuples give an empty buffer. */
  lemma TableBatchContents(res: QueryResult, c: RowCodec)
    requires Compact(c)
    ensures TableBatch(res, c).Ok? <==>
              res.Rows? && !res.iterationError &&
              forall i :: 0 <= i < |res.scans| ==> EncodeRow(res.columns, res.scans[i], c).Ok?
    ensures TableBatch(res, c).Ok? ==>
              var b := TableBatch(res, c).value;
              b.count == |res.scans| &&
              |SplitLines(b.lines)| == b.count &&
              forall i :: 0 <= i < b.count ==> SplitLines(b.lines)[i] == EncodeRow(res.columns, res.scans[i], c).value
    ensures res.Rows? && res.scans == [] && !res.iterationError ==> TableBatch(res, c) == Ok(Batch([], 0))
  {
    if res.Rows? {
      var objs := EncodeAll(res.columns, res.scans, c);
      EncodeAllOk(res.columns, res.scans, c);
      if objs.Ok? {
        forall i | 0 <= i < |objs.value| ensures Newline !in objs.value[i] {
          var row := ScanRow(res.columns, res.scans[i], c.rfc3339).value;
          assert c.marshal(row).Some?;
        }
        SplitJsonl(objs.value);
      }
    }
  }

  /** The high-water mark is never negative, is at least every int64 id seen,
      and is either 0 or one of those ids. */
  lemma {:induction false} HighWaterBounds(cols: seq<string>, scans: seq<Scan>, rfc3339: Time -> seq<byte>)
    ensures HighWater(cols, scans, rfc3339) >= 0
    ensures forall i :: 0 <= i < |scans| && ScannedId(cols, scans[i], rfc3339).Some? ==>
              ScannedId(cols, scans[i], rfc3339).value <= HighWater(cols, scans, rfc3339)
    ensures HighWater(cols, scans, rfc3339) == 0 ||
            exists i :: 0 <= i < |scans| && ScannedId(cols, scans[i], rfc3339) == Some(HighWater(cols, scans, rfc3339))
  {
    if |scans| > 0 {
      var n := |scans| - 1;
      HighWaterBounds(cols, scans[..n], rfc3339);
      assert forall i :: 0 <= i < n ==> scans[..n][i] == scans[i];
      var m := HighWater(cols, scans[..n], rfc3339);
      if HighWater(cols, scans, rfc3339) != m {
        assert ScannedId(cols, scans[n], rfc3339) == Some(HighWater(cols, scans, rfc3339));
      } else if m != 0 {
        var i :| 0 <= i < n && ScannedId(cols, scans[..n][i], rfc3339) == Some(m);
        assert ScannedId(cols, scans[i], rfc3339) == Some(m);
      }
    }
  }

  /** Every int64 id the store returns lies above the watermark w, as the
      query's WHERE id > ? demands. */
  ghost predicate IdsAbove(cols: seq<string>, scans: seq<Scan>, rfc3339: Time -> seq<byte>, w: int)
  {
    forall i :: 0 <= i < |scans| && ScannedId(cols, scans[i], rfc3339).Some? ==> ScannedId(cols, scans[i], rfc3339).value > w
  }

  /** When the store honours the filter, the new mark exceeds the old one
      exactly when some returned row has an int64 id; when none has, the mark
      falls back to 0. */
  lemma HighWaterAdvances(cols: seq<string>, scans: seq<Scan>, rfc3339: Time -> seq<byte>, w: int64)
    requires 0 <= w && IdsAbove(cols, scans, rfc3339, w)
    ensures HighWater(cols, scans, rfc3339) > w <==>
              exists i :: 0 <= i < |scans| && ScannedId(cols, scans[i], rfc3339).Some?
    ensures (forall i :: 0 <= i < |scans| ==> ScannedId(cols, scans[i], rfc3339).None?) ==>
              HighWater(cols, scans, rfc3339) == 0
  {
    HighWaterBounds(cols, scans, rfc3339);
  }

  /** The id of a scanned tuple is the driver value of the last "id" column
      when the driver gave an int64; any other type (a byte slice from a text
      protocol, say) or a missing column gives none. */
  lemma IdFromDriver(cols: seq<string>, vals: seq<Value>, rfc3339: Time -> seq<byte>)
    requires |cols| == |vals|
    ensures "id" !in cols ==> ScannedId(cols, Scanned(vals), rfc3339) == None
    ensures forall i :: 0 <= i < |cols| && cols[i] == "id" && LastOccurrence(cols, i) ==>
              ScannedId(cols, Scanned(vals), rfc3339) == if vals[i].Int64? then Some(vals[i].i) else None
  {
    RowOfKeys(cols, vals, rfc3339);
    RowOfLookup(cols, vals, rfc3339);
  }

  // ---------------------------------------------------------------------
  // The loops

  /** exportTable's `for rows.Next()` loop over a result set. */
  method CollectTable(cols: seq<string>, scans: seq<Scan>, iterationError: bool, c: RowCodec)
    returns (r: Result<Batch, Error>)
    ensures r == TableBatch(Rows(cols, scans, iterationError), c)
  {
    var lines: seq<byte> := [];
    var count := 0;
    ghost var objs: seq<seq<byte>> := [];
    var i := 0;
    while i < |scans|
      invariant 0 <= i <= |scans|
      invariant EncodeAll(cols, scans[..i], c) == Ok(objs)
      invariant lines == Jsonl(objs) && count == i == |objs|
    {
      assert scans[..i + 1][..i] == scans[..i];
      var s := scans[i];
      if s.ScanError? || |s.values| != |cols| {
        EncodeAllKeepsError(cols, scans, i + 1, c);
        return Err(ScanFailed);
      }
      var row := BuildRow(cols, s.values, c.rfc3339);
      var data := c.marshal(row);
      if data.None? {
        EncodeAllKeepsError(cols, scans, i + 1, c);
        return Err(MarshalFailed);
      }
      lines := lines + data.value + [Newline];
      count := count + 1;
      objs := objs + [data.value];
      assert objs[..|objs| - 1] == objs[..i];
      i := i + 1;
    }
    assert scans[..i] == scans;
    if iterationError {
      return Err(IterationFailed);
    }
    return Ok(Batch(lines, count));
  }

  /** exportEventsIncremental's loop: the same buffer and count, and maxID. */
  method CollectEvents(cols: seq<string>, scans: seq<Scan>, iterationError: bool, c: RowCodec)
    returns (r: Result<EventBatch, Error>)
    ensures r == EventsBatch(Rows(cols, scans, iterationError), c)
  {
    var lines: seq<byte> := [];
    var count := 0;
    var maxId: int64 := 0;
    ghost var objs: seq<seq<byte>> := [];
    var i := 0;
    while i < |scans|
      invariant 0 <= i <= |scans|
      invariant EncodeAll(cols, scans[..i], c) == Ok(objs)
      invariant lines == Jsonl(objs) && count == i == |objs|
      invariant maxId == HighWater(cols, scans[..i], c.rfc3339)
    {
      assert scans[..i + 1][..i] == scans[..i];
      var s := scans[i];
      if s.ScanError? || |s.values| != |cols| {
        EncodeAllKeepsError(cols, scans, i + 1, c);
        return Err(ScanFailed);
      }
      var row := BuildRow(cols, s.values, c.rfc3339);
      if "id" in row && row["id"].Int64? && row["id"].i > maxId {
        maxId := row["id"].i;
      }
      var data := c.marshal(row);
      if data.None? {
        EncodeAllKeepsError(cols, scans, i + 1, c);
        return Err(MarshalFailed);
      }
      lines := lines + data.value + [Newline];
      count := count + 1;
      objs := objs + [data.value];
      assert objs[..|objs| - 1] == objs[..i];
      i := i + 1;
    }
    assert scans[..i] == scans;
    if iterationError {
      return Err(IterationFailed);
    }
    return Ok(EventBatch(lines, count, maxId));
  }
}
