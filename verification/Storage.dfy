/** What the analyzer stores and the viewer reads back: the query store (map_query in
    src/analyzer.rs, read_queries in src/viewer.rs) and the chunk table over the trace rows
    (write_trace and finish in src/analyzer.rs, chunk_row_range in src/viewer.rs). */
module Storage {
  import opened Wrappers
  import opened Bytes
  import opened CaptureFormat

  type Text = seq<byte>

  /* ----- the query store ----- */

  function QueryEntry(text: Text, types: seq<nat>): seq<byte> {
    LE(4, |text|) + (text + (LE(2, |types|) + EncInts(4, types, 0)))
  }

  /** How a text of one byte with one parameter type is stored. */
  lemma SampleEntry()
    ensures QueryEntry([65], [23]) == [1, 0, 0, 0] + [65] + [1, 0] + [23, 0, 0, 0]
  {
    hide LE;
    ShortLE(1);
    ShortLE(23);
    assert EncInts(4, [23], 1) == [];
    assert EncInts(4, [23], 0) == [23, 0, 0, 0];
  }

  /** What the reader of the capture can deliver. */
  predicate Fits(text: Text, types: seq<nat>) {
    |text| < 0x1_0000_0000 && |types| < 0x1_0000
  }

  /** The error of a store that ends too soon; slicing past its end panics. */
  datatype Fetched = Bytes(bytes: seq<byte>) | Truncated | Panicked

  function FetchOne(store: seq<byte>, offset: nat): Fetched {
    if offset > |store| then Panicked
    else
      var buf := store[offset..];
      if |buf| < 4 then Truncated
      else
        var afterText := 4 + FromLE(buf[..4]);
        if |buf| < afterText + 2 then Truncated
        else
          var total := afterText + 2 + FromLE(buf[afterText..afterText + 2]) * 4;
          if |buf| < total then Truncated else Bytes(buf[..total])
  }

  /** The entries at the offsets from offsets[i] on, put behind `out`. */
  function FetchFrom(store: seq<byte>, offsets: seq<nat>, i: nat, out: seq<byte>): Fetched
    requires i <= |offsets|
    decreases |offsets| - i
  {
    if i == |offsets| then Bytes(out)
    else
      var one := FetchOne(store, offsets[i]);
      if one.Bytes? then FetchFrom(store, offsets, i + 1, out + one.bytes) else one
  }

  method ReadQueries(store: seq<byte>, offsets: seq<nat>) returns (r: Fetched)
    ensures r == FetchFrom(store, offsets, 0, [])
  {
    hide FetchOne;
    var out := [];
    for i := 0 to |offsets|
      invariant FetchFrom(store, offsets, i, out) == FetchFrom(store, offsets, 0, [])
    {
      var one := FetchOne(store, offsets[i]);
      if !one.Bytes? {
        return one;
      }
      out := out + one.bytes;
    }
    r := Bytes(out);
  }

  lemma {:induction false} EncIntsLength(width: nat, xs: seq<nat>, i: nat)
    requires i <= |xs|
    ensures |EncInts(width, xs, i)| == width * (|xs| - i)
    decreases |xs| - i
  {
    if i < |xs| {
      EncIntsLength(width, xs, i + 1);
    }
  }

  /** An entry is read back whole, whatever follows it. */
  lemma FetchEntry(store: seq<byte>, offset: nat, text: Text, types: seq<nat>)
    requires Fits(text, types) && At(store, offset, QueryEntry(text, types))
    ensures FetchOne(store, offset) == Bytes(QueryEntry(text, types))
  {
    hide LE, FromLE;
    var buf := store[offset..];
    var ints := EncInts(4, types, 0);
    EncIntsLength(4, types, 0);
    var n := |QueryEntry(text, types)|;
    assert buf[..n] == QueryEntry(text, types);
    assert buf[..4] == LE(4, |text|) by { assert buf[..n][..4] == LE(4, |text|); }
    assert buf[4 + |text|..4 + |text| + 2] == LE(2, |types|) by {
      assert buf[..n][4 + |text|..] == LE(2, |types|) + ints;
    }
    Widths();
    LERoundTrip(4, |text|);
    LERoundTrip(2, |types|);
  }

  function Entries(texts: seq<Text>, types: map<Text, seq<nat>>, i: nat): seq<byte>
    requires i <= |texts| && forall k :: 0 <= k < |texts| ==> texts[k] in types
    decreases |texts| - i
  {
    if i == |texts| then [] else QueryEntry(texts[i], types[texts[i]]) + Entries(texts, types, i + 1)
  }

  /** Every text that has been mapped stands in the store, with the types it came with first. */
  ghost predicate Listed(store: seq<byte>, offsets: map<Text, nat>, types: map<Text, seq<nat>>) {
    && offsets.Keys == types.Keys
    && forall text :: text in offsets ==> At(store, offsets[text], QueryEntry(text, types[text]))
  }

  /** Any list of offsets that map_query has given out, with repetitions, is read back as the
      entries of the texts they were given for, in order. */
  lemma {:induction false} QueriesRoundTrip(store: seq<byte>, offsets: map<Text, nat>, types: map<Text, seq<nat>>,
                                           texts: seq<Text>, asked: seq<nat>, i: nat, out: seq<byte>)
    requires Listed(store, offsets, types) && |asked| == |texts| && i <= |texts|
    requires forall k :: 0 <= k < |texts| ==>
      texts[k] in offsets && asked[k] == offsets[texts[k]] && Fits(texts[k], types[texts[k]])
    ensures FetchFrom(store, asked, i, out) == Bytes(out + Entries(texts, types, i))
    decreases |texts| - i
  {
    hide FetchOne, QueryEntry, Fits;
    if i < |texts| {
      var entry := QueryEntry(texts[i], types[texts[i]]);
      FetchEntry(store, asked[i], texts[i], types[texts[i]]);
      QueriesRoundTrip(store, offsets, types, texts, asked, i + 1, out + entry);
      assert out + entry + Entries(texts, types, i + 1) == out + (entry + Entries(texts, types, i + 1));
    } else {
      assert out + [] == out;
    }
  }

  lemma ListedMore(store: seq<byte>, offsets: map<Text, nat>, types: map<Text, seq<nat>>, text: Text, ts: seq<nat>)
    requires Listed(store, offsets, types) && text !in offsets
    ensures Listed(store + QueryEntry(text, ts), offsets[text := |store|], types[text := ts])
  {
    hide QueryEntry;
    var store' := store + QueryEntry(text, ts);
    forall t | t in offsets
      ensures At(store', offsets[t], QueryEntry(t, types[t]))
    {
      var e := QueryEntry(t, types[t]);
      assert store'[offsets[t]..offsets[t] + |e|] == store[offsets[t]..offsets[t] + |e|];
    }
    assert store'[|store|..|store| + |QueryEntry(text, ts)|] == QueryEntry(text, ts);
  }

  /* ----- the parameters: only their place ----- */

  /** The accounted size of the first n values. */
  function ValuesSize(params: seq<Param>, n: nat): nat
    requires n <= |params|
  {
    if n == 0 then 0
    else ValuesSize(params, n - 1) + 4 + (if params[n - 1].value.Some? then |params[n - 1].value.value| else 0)
  }

  function ParamsSize(params: seq<Param>, formats: seq<nat>): (n: nat)
    ensures n >= 14
  {
    12 + |params| * 2 + ValuesSize(params, |params|) + 2 + |formats| * 2
  }

  /* ----- the chunk table ----- */

  /** Times and durations in microseconds; the stored floats keep their order. */
  datatype Row = Row(queryOffset: nat, paramsOffset: nat, ts: nat, client: nat, duration: nat, eventType: byte)

  datatype Chunk = Chunk(longest: nat, start: nat)

  type Seconds = r: real | r > 0.0 witness 1.0

  /** The chunk a row falls into. */
  function ChunkOf(row: Row, secs: Seconds): nat {
    var quotient := (row.ts as real / 1000000.0) / secs;
    if quotient < 0.0 then 0 else quotient.Floor
  }

  /** Chunk c holds the rows of the c-th stretch of `secs` seconds, and no others. */
  lemma ChunkBounds(row: Row, secs: Seconds, c: nat)
    ensures ChunkOf(row, secs) == c <==>
            c as real * secs <= row.ts as real / 1000000.0 < (c + 1) as real * secs
  {
    var seconds := row.ts as real / 1000000.0;
    var q := seconds / secs;
    NotLess(seconds, secs, 0.0);
    NotLess(seconds, secs, c as real);
    NotLess(seconds, secs, (c + 1) as real);
    assert ChunkOf(row, secs) == q.Floor;
  }

  lemma NotLess(x: real, y: real, n: real)
    requires y > 0.0
    ensures n <= x / y <==> n * y <= x
  {
    var q := x / y;
    assert q * y == x;
    if n <= q {
      Scales(n, q, y);
    } else {
      assert q < n;
      ScalesStrictly(q, n, y);
    }
  }

  lemma Scales(a: real, b: real, y: real)
    requires a <= b && y > 0.0
    ensures a * y <= b * y
  {
  }

  lemma ScalesStrictly(a: real, b: real, y: real)
    requires a < b && y > 0.0
    ensures a * y < b * y
  {
  }

  /** r is the first row whose chunk is at least i. */
  predicate IsFirst(rows: seq<Row>, secs: Seconds, i: nat, r: nat) {
    && r < |rows| && i <= ChunkOf(rows[r], secs)
    && forall q :: 0 <= q < r ==> ChunkOf(rows[q], secs) < i
  }

  /** m is the longest duration in chunk i, or zero if it has no rows. */
  predicate IsLongest(rows: seq<Row>, secs: Seconds, i: nat, m: nat) {
    && (forall r :: 0 <= r < |rows| && ChunkOf(rows[r], secs) == i ==> rows[r].duration <= m)
    && (m == 0 || exists r :: 0 <= r < |rows| && ChunkOf(rows[r], secs) == i && rows[r].duration == m)
  }

  /** The table has a chunk for every number up to the largest that occurs. */
  predicate Table(rows: seq<Row>, secs: Seconds, chunks: seq<Chunk>) {
    && (forall r :: 0 <= r < |rows| ==> ChunkOf(rows[r], secs) < |chunks|)
    && (forall i :: 0 <= i < |chunks| ==>
          IsFirst(rows, secs, i, chunks[i].start) && IsLongest(rows, secs, i, chunks[i].longest))
  }

  function Resized(chunks: seq<Chunk>, size: nat, fill: Chunk): seq<Chunk> {
    if size <= |chunks| then chunks else chunks + seq(size - |chunks|, _ => fill)
  }

  /** One more row: new chunks start at it, and its own chunk may have a new maximum. */
  function WithRow(chunks: seq<Chunk>, idx: nat, count: nat, duration: nat): seq<Chunk> {
    var chunks := if idx >= |chunks| then Resized(chunks, idx + 1, Chunk(0, count)) else chunks;
    chunks[idx := chunks[idx].(longest := if chunks[idx].longest < duration then duration else chunks[idx].longest)]
  }

  lemma LongestMore(rows: seq<Row>, secs: Seconds, i: nat, m: nat, row: Row)
    requires IsLongest(rows, secs, i, m)
    ensures IsLongest(rows + [row], secs, i,
                      if ChunkOf(row, secs) == i && m < row.duration then row.duration else m)
  {
    hide ChunkOf;
    var rows' := rows + [row];
    if ChunkOf(row, secs) == i && m < row.duration {
      assert rows'[|rows|] == row;
    } else if m != 0 {
      var r :| 0 <= r < |rows| && ChunkOf(rows[r], secs) == i && rows[r].duration == m;
      assert rows'[r] == rows[r];
    }
  }

  lemma TableMore(rows: seq<Row>, secs: Seconds, chunks: seq<Chunk>, row: Row)
    requires Table(rows, secs, chunks)
    ensures Table(rows + [row], secs, WithRow(chunks, ChunkOf(row, secs), |rows|, row.duration))
  {
    hide ChunkOf, IsLongest;
    var idx := ChunkOf(row, secs);
    var rows', chunks' := rows + [row], WithRow(chunks, idx, |rows|, row.duration);
    forall i | 0 <= i < |chunks'|
      ensures IsFirst(rows', secs, i, chunks'[i].start) && IsLongest(rows', secs, i, chunks'[i].longest)
    {
      if i < |chunks| {
        assert IsFirst(rows, secs, i, chunks[i].start);
        LongestMore(rows, secs, i, chunks[i].longest, row);
      } else {
        assert IsLongest(rows, secs, i, 0) by { NoRows(rows, secs, chunks, i); }
        LongestMore(rows, secs, i, 0, row);
      }
    }
  }

  lemma NoRows(rows: seq<Row>, secs: Seconds, chunks: seq<Chunk>, i: nat)
    requires Table(rows, secs, chunks) && i >= |chunks|
    ensures IsLongest(rows, secs, i, 0)
  {
  }

  /* ----- the chunks file ----- */

  /** A stored 32-bit float: only its width matters here. */
  type Float = s: seq<byte> | |s| == 4 witness [0, 0, 0, 0]

  function ChunkEntries(chunks: seq<Chunk>, float: nat -> Float, i: nat): seq<byte>
    requires i <= |chunks|
    decreases |chunks| - i
  {
    if i == |chunks| then []
    else float(chunks[i].longest) + LE(8, chunks[i].start) + ChunkEntries(chunks, float, i + 1)
  }

  function ChunkFile(secs: Float, count: nat, chunks: seq<Chunk>, float: nat -> Float): seq<byte> {
    secs + LE(8, count) + ChunkEntries(chunks, float, 0)
  }

  /** A table of one chunk, two rows in all, as it stands in the file. */
  lemma SampleChunkFile(secs: Float, float: nat -> Float)
    ensures ChunkFile(secs, 2, [Chunk(5, 1)], float) ==
            secs + [2, 0, 0, 0, 0, 0, 0, 0] + float(5) + [1, 0, 0, 0, 0, 0, 0, 0]
  {
    hide LE;
    ShortLE(1);
    ShortLE(2);
    assert ChunkEntries([Chunk(5, 1)], float, 1) == [];
    assert ChunkEntries([Chunk(5, 1)], float, 0) == float(5) + [1, 0, 0, 0, 0, 0, 0, 0];
  }

  function EntryStart(file: seq<byte>, i: nat): nat
    requires 12 + 12 * i + 12 <= |file|
  {
    FromLE(file[12 + 12 * i + 4..12 + 12 * i + 12])
  }

  /** None: the file has no header, and indexing it panics. */
  function ChunkRowRange(file: seq<byte>, from: nat, to: nat): Option<(nat, nat)> {
    if |file| < 12 then None
    else
      var totalRows := FromLE(file[4..12]);
      var numChunks := (|file| - 12) / 12;
      if numChunks == 0 then Some((0, 0))
      else
        var from := if from < numChunks - 1 then from else numChunks - 1;
        var to := if to < numChunks - 1 then to else numChunks - 1;
        Some((EntryStart(file, from), if to + 1 < numChunks then EntryStart(file, to + 1) else totalRows))
  }

  lemma {:induction false} EntriesLength(chunks: seq<Chunk>, float: nat -> Float, i: nat)
    requires i <= |chunks|
    ensures |ChunkEntries(chunks, float, i)| == 12 * (|chunks| - i)
    decreases |chunks| - i
  {
    hide LE;
    if i < |chunks| {
      EntriesLength(chunks, float, i + 1);
    }
  }

  lemma SliceBehind(head: seq<byte>, rest: seq<byte>, lo: nat, hi: nat)
    requires lo <= hi <= |rest|
    ensures (head + rest)[|head| + lo..|head| + hi] == rest[lo..hi]
  {
  }

  lemma {:induction false} EntriesAt(chunks: seq<Chunk>, float: nat -> Float, i: nat, k: nat)
    requires i <= k < |chunks|
    ensures 12 * (k - i) + 12 <= |ChunkEntries(chunks, float, i)|
    ensures ChunkEntries(chunks, float, i)[12 * (k - i) + 4..12 * (k - i) + 12] == LE(8, chunks[k].start)
    decreases |chunks| - i
  {
    hide LE;
    var head := float(chunks[i].longest) + LE(8, chunks[i].start);
    var rest := ChunkEntries(chunks, float, i + 1);
    EntriesLength(chunks, float, i);
    if i < k {
      EntriesAt(chunks, float, i + 1, k);
      SliceBehind(head, rest, 12 * (k - i - 1) + 4, 12 * (k - i - 1) + 12);
    } else {
      assert (head + rest)[4..12] == LE(8, chunks[i].start);
    }
  }

  lemma FileReads(secs: Float, count: nat, chunks: seq<Chunk>, float: nat -> Float, k: nat)
    requires count < Pow256(8) && k < |chunks| && chunks[k].start < Pow256(8)
    ensures var file := ChunkFile(secs, count, chunks, float);
            && |file| == 12 + 12 * |chunks| && FromLE(file[4..12]) == count
            && EntryStart(file, k) == chunks[k].start
  {
    hide LE, FromLE, Pow256;
    EntriesLength(chunks, float, 0);
    EntriesAt(chunks, float, 0, k);
    var entries := ChunkEntries(chunks, float, 0);
    var file := ChunkFile(secs, count, chunks, float);
    assert file == secs + LE(8, count) + entries;
    assert file[4..12] == LE(8, count);
    assert file[12 + 12 * k + 4..12 + 12 * k + 12] == entries[12 * k + 4..12 * k + 12];
    LERoundTrip(8, count);
    LERoundTrip(8, chunks[k].start);
  }

  /** The row r is the first of chunk `from` or a later one, or comes after such a row, and no
      row up to it is beyond chunk `to`. */
  predicate Between(rows: seq<Row>, secs: Seconds, from: nat, to: nat, r: nat)
    requires r < |rows|
  {
    && (exists q :: 0 <= q <= r && from <= ChunkOf(rows[q], secs))
    && (forall q :: 0 <= q <= r ==> ChunkOf(rows[q], secs) <= to)
  }

  function Clamp(n: nat, chunks: seq<Chunk>): nat
    requires |chunks| > 0
  {
    if n < |chunks| - 1 then n else |chunks| - 1
  }

  /** The range the viewer serves is exactly the rows between the two chunks, whatever the
      order of the rows' times. */
  lemma RangeIsExact(secs: Float, rows: seq<Row>, size: Seconds, chunks: seq<Chunk>, float: nat -> Float,
                     from: nat, to: nat, r: nat)
    requires Table(rows, size, chunks) && 0 < |rows| < Pow256(8) && r < |rows|
    ensures |chunks| > 0
    ensures var range := ChunkRowRange(ChunkFile(secs, |rows|, chunks, float), from, to);
            range.Some? && (range.value.0 <= r < range.value.1 <==>
                            Between(rows, size, Clamp(from, chunks), Clamp(to, chunks), r))
  {
    hide LE, FromLE, Pow256, ChunkOf, IsLongest, ChunkFile, EntryStart;
    assert ChunkOf(rows[0], size) < |chunks|;
    var f, t := Clamp(from, chunks), Clamp(to, chunks);
    assert IsFirst(rows, size, f, chunks[f].start);
    FileReads(secs, |rows|, chunks, float, f);
    if t + 1 < |chunks| {
      assert IsFirst(rows, size, t + 1, chunks[t + 1].start);
      FileReads(secs, |rows|, chunks, float, t + 1);
    }
    FirstDivides(rows, size, f, chunks[f].start, r);
    if t + 1 < |chunks| {
      FirstDivides(rows, size, t + 1, chunks[t + 1].start, r);
    }
  }

  lemma FirstDivides(rows: seq<Row>, secs: Seconds, i: nat, first: nat, r: nat)
    requires IsFirst(rows, secs, i, first) && r < |rows|
    ensures first <= r <==> exists q :: 0 <= q <= r && i <= ChunkOf(rows[q], secs)
  {
    hide ChunkOf;
  }

  /** The rows' chunk numbers never decrease. */
  predicate InTimeOrder(rows: seq<Row>, secs: Seconds) {
    forall p, q :: 0 <= p < q < |rows| ==> ChunkOf(rows[p], secs) <= ChunkOf(rows[q], secs)
  }

  predicate IsServed(file: seq<byte>, from: nat, to: nat, r: nat) {
    var range := ChunkRowRange(file, from, to);
    range.Some? && range.value.0 <= r < range.value.1
  }

  /** The rows served are exactly those of the chunks asked for. */
  predicate Exact(rows: seq<Row>, secs: Seconds, file: seq<byte>, from: nat, to: nat) {
    forall r :: 0 <= r < |rows| ==> (IsServed(file, from, to, r) <==> from <= ChunkOf(rows[r], secs) <= to)
  }

  lemma RangeOfOrdered(secs: Float, rows: seq<Row>, size: Seconds, chunks: seq<Chunk>, float: nat -> Float,
                       from: nat, to: nat)
    requires Table(rows, size, chunks) && 0 < |rows| < Pow256(8) && from <= to < |chunks| && InTimeOrder(rows, size)
    ensures Exact(rows, size, ChunkFile(secs, |rows|, chunks, float), from, to)
  {
    hide ChunkOf, Table, ChunkRowRange, ChunkFile, Pow256;
    forall r | 0 <= r < |rows|
      ensures IsServed(ChunkFile(secs, |rows|, chunks, float), from, to, r) <==> from <= ChunkOf(rows[r], size) <= to
    {
      RangeIsExact(secs, rows, size, chunks, float, from, to, r);
    }
  }

  /** A row after one of a later chunk is missed when just its own chunk is asked for. */
  lemma LaterRowIsMissed(secs: Float, rows: seq<Row>, size: Seconds, chunks: seq<Chunk>, float: nat -> Float, p: nat, q: nat)
    requires Table(rows, size, chunks) && p < q < |rows| < Pow256(8)
    requires ChunkOf(rows[q], size) < ChunkOf(rows[p], size)
    ensures ChunkOf(rows[q], size) < |chunks|
    ensures var own := ChunkOf(rows[q], size); !IsServed(ChunkFile(secs, |rows|, chunks, float), own, own, q)
  {
    hide ChunkOf, ChunkRowRange, ChunkFile, Pow256;
    var own := ChunkOf(rows[q], size);
    RangeIsExact(secs, rows, size, chunks, float, own, own, q);
  }

  /** Every range of existing chunks is served as exactly the rows of those chunks if and only
      if the rows' chunks never go back. */
  lemma ExactIffInOrder(secs: Float, rows: seq<Row>, size: Seconds, chunks: seq<Chunk>, float: nat -> Float)
    requires Table(rows, size, chunks) && 0 < |rows| < Pow256(8)
    ensures InTimeOrder(rows, size) <==>
            forall from: nat, to: nat {:trigger Exact(rows, size, ChunkFile(secs, |rows|, chunks, float), from, to)} ::
              from <= to < |chunks| ==> Exact(rows, size, ChunkFile(secs, |rows|, chunks, float), from, to)
  {
    hide ChunkOf, Table, IsServed, ChunkFile, Pow256;
    var file := ChunkFile(secs, |rows|, chunks, float);
    if InTimeOrder(rows, size) {
      forall from: nat, to: nat | from <= to < |chunks|
        ensures Exact(rows, size, file, from, to)
      {
        RangeOfOrdered(secs, rows, size, chunks, float, from, to);
      }
    } else {
      var p, q :| 0 <= p < q < |rows| && ChunkOf(rows[q], size) < ChunkOf(rows[p], size);
      LaterRowIsMissed(secs, rows, size, chunks, float, p, q);
      var own := ChunkOf(rows[q], size);
      assert !Exact(rows, size, file, own, own);
    }
  }

  /** An input: a row of chunk 1, then one of chunk 0, and the request for chunk 0. */
  lemma OutOfOrderIsMissed(secs: Float, float: nat -> Float)
    ensures var late, early := Row(0, 0, 1_500_000, 7, 5, 0), Row(0, 0, 0, 7, 5, 0);
            var chunks := WithRow(WithRow([], 1, 0, 5), 0, 1, 5);
            && Table([late, early], 1.0, chunks) && ChunkOf(early, 1.0) == 0
            && !IsServed(ChunkFile(secs, 2, chunks, float), 0, 0, 1)
  {
    var late, early := Row(0, 0, 1_500_000, 7, 5, 0), Row(0, 0, 0, 7, 5, 0);
    assert ChunkOf(late, 1.0) == 1 && ChunkOf(early, 1.0) == 0;
    TableMore([], 1.0, [], late);
    var one := WithRow([], 1, 0, 5);
    assert [] + [late] == [late];
    TableMore([late], 1.0, one, early);
    assert [late] + [early] == [late, early];
    assert 2 < Pow256(8) by { Widths(); }
    LaterRowIsMissed(secs, [late, early], 1.0, WithRow(one, 0, 1, 5), float, 0, 1);
  }

  /* ----- the object ----- */

  class StorageWriter {
    /** The files. */
    var queries: seq<byte>
    var traces: seq<Row>
    var queryOffset: nat
    var paramsOffset: nat
    /** Keyed by the text itself: a hash without collisions. */
    var queryMap: map<Text, nat>
    const chunkSecs: Seconds
    var chunks: seq<Chunk>
    var traceRowCount: nat
    ghost var types: map<Text, seq<nat>>

    ghost predicate Valid()
      reads this
    {
      && queryOffset == |queries| && traceRowCount == |traces|
      && Listed(queries, queryMap, types) && Table(traces, chunkSecs, chunks)
    }

    constructor (chunkSecs: Seconds)
      ensures Valid() && queryMap == map[] && types == map[] && traces == [] && paramsOffset == 0
    {
      this.chunkSecs := chunkSecs;
      queries, traces, queryOffset, paramsOffset, queryMap, types := [], [], 0, 0, map[], map[];
      chunks, traceRowCount := [], 0;
    }

    /** Each text is stored once. */
    method MapQuery(text: Text, parameterTypes: seq<nat>) returns (offset: nat)
      requires Valid()
      modifies this`queries, this`queryOffset, this`queryMap, this`types
      ensures Valid() && text in queryMap && queryMap[text] == offset
      ensures text in old(queryMap) ==> queryMap == old(queryMap) && queries == old(queries)
      ensures text !in old(queryMap) ==>
        && queryMap == old(queryMap)[text := |old(queries)|]
        && queries == old(queries) + QueryEntry(text, parameterTypes)
      ensures types == if text in old(types) then old(types) else old(types)[text := parameterTypes]
    {
      hide QueryEntry, Table;
      if text in queryMap {
        return queryMap[text];
      }
      offset := queryOffset;
      ListedMore(queries, queryMap, types, text, parameterTypes);
      queries := queries + QueryEntry(text, parameterTypes);
      queryOffset := queryOffset + |QueryEntry(text, parameterTypes)|;
      queryMap := queryMap[text := offset];
      types := types[text := parameterTypes];
    }

    /** Moves on by the size it accounts for; the bytes themselves are not part of this model. */
    method WriteParams(params: seq<Param>, formats: seq<nat>) returns (offset: nat)
      requires Valid()
      modifies this`paramsOffset
      ensures Valid() && offset == old(paramsOffset) && paramsOffset == offset + ParamsSize(params, formats)
    {
      offset := paramsOffset;
      var size := 8 + 2 + |params| * 2 + 2;
      for i := 0 to |params|
        invariant size == 12 + |params| * 2 + ValuesSize(params, i)
      {
        match params[i].value {
          case Some(bytes) => size := size + 4 + |bytes|;
          case None => size := size + 4;
        }
      }
      paramsOffset := paramsOffset + size + 2 + |formats| * 2;
    }

    method WriteTrace(row: Row)
      requires Valid()
      modifies this`traces, this`chunks, this`traceRowCount
      ensures Valid() && traces == old(traces) + [row]
    {
      hide Listed, IsFirst, IsLongest, ChunkOf;
      TableMore(traces, chunkSecs, chunks, row);
      traces := traces + [row];
      var idx := ChunkOf(row, chunkSecs);
      if idx >= |chunks| {
        chunks := Resized(chunks, idx + 1, Chunk(0, traceRowCount));
      }
      if chunks[idx].longest < row.duration {
        chunks := chunks[idx := chunks[idx].(longest := row.duration)];
      } else {
        assert chunks == chunks[idx := chunks[idx]];
      }
      traceRowCount := traceRowCount + 1;
    }

    /** The chunks file. */
    method Finish(secs: Float, float: nat -> Float) returns (file: seq<byte>)
      requires Valid()
      ensures file == ChunkFile(secs, |traces|, chunks, float)
    {
      hide LE;
      file := secs + LE(8, traceRowCount);
      for i := 0 to |chunks|
        invariant file + ChunkEntries(chunks, float, i) == ChunkFile(secs, |traces|, chunks, float)
      {
        var entry := float(chunks[i].longest) + LE(8, chunks[i].start);
        assert file + (entry + ChunkEntries(chunks, float, i + 1)) == file + entry + ChunkEntries(chunks, float, i + 1);
        file := file + entry;
      }
      assert file + [] == file;
    }
  }
}
