/** The capture file format: the messages a backend records (extension/src/capture.c) and the
    reader the tools use (src/capture.rs).  Strings are their bytes; the C side runs on a
    little-endian host, as the reader's from_le_bytes expects. */
module CaptureFormat {
  import opened Wrappers
  import opened Bytes

  const MSG_LSN: byte := 1
  const MSG_CONNECT: byte := 2
  const MSG_DISCONNECT: byte := 3
  const MSG_SIMPLE_QUERY: byte := 4
  const MSG_PARSE: byte := 5
  const MSG_BIND: byte := 6
  const MSG_EXECUTE: byte := 7
  const MSG_SYNC: byte := 8
  const MSG_TX_END: byte := 9
  const MSG_CLOSE: byte := 10

  const NULL_LEN := 0xFFFF_FFFF
  const TWO_TO_64 := 0x1_0000_0000_0000_0000

  datatype Param = Param(oid: nat, value: Option<seq<byte>>)

  datatype Event =
    | Lsn(lsn: nat)
    | Connect(session: seq<byte>)
    | Disconnect
    | SimpleQuery(text: seq<byte>)
    | Parse(name: seq<byte>, query: seq<byte>, types: seq<nat>)
    | Bind(portal: seq<byte>, statement: seq<byte>, formats: seq<nat>, params: seq<Param>)
    | Execute(target: seq<byte>, maxRows: int)
    | Sync
    | TxEnd(committed: bool, xid: nat, endLsn: nat)
    | Close(kind: byte, closed: seq<byte>)

  datatype Message = Message(id: nat, ts: nat, event: Event)

  /* ----- the writer's format ----- */

  function Tag(e: Event): byte {
    match e
    case Lsn(_) => MSG_LSN
    case Connect(_) => MSG_CONNECT
    case Disconnect => MSG_DISCONNECT
    case SimpleQuery(_) => MSG_SIMPLE_QUERY
    case Parse(_, _, _) => MSG_PARSE
    case Bind(_, _, _, _) => MSG_BIND
    case Execute(_, _) => MSG_EXECUTE
    case Sync => MSG_SYNC
    case TxEnd(_, _, _) => MSG_TX_END
    case Close(_, _) => MSG_CLOSE
  }

  function EncStr(s: seq<byte>): seq<byte> {
    LE(4, |s|) + s
  }

  /** The integers from xs[i] on. */
  function EncInts(width: nat, xs: seq<nat>, i: nat): seq<byte>
    requires i <= |xs|
    decreases |xs| - i
  {
    if i == |xs| then [] else LE(width, xs[i]) + EncInts(width, xs, i + 1)
  }

  function EncParam(p: Param): seq<byte> {
    LE(4, p.oid) + (if p.value.None? then LE(4, NULL_LEN) else EncStr(p.value.value))
  }

  /** The parameters from ps[i] on. */
  function EncParams(ps: seq<Param>, i: nat): seq<byte>
    requires i <= |ps|
    decreases |ps| - i
  {
    if i == |ps| then [] else EncParam(ps[i]) + EncParams(ps, i + 1)
  }

  function EncValues(formats: seq<nat>, params: seq<Param>): seq<byte> {
    LE(2, |formats|) + (EncInts(2, formats, 0) + (LE(2, |params|) + EncParams(params, 0)))
  }

  /** The C cast of a signed 64-bit value to unsigned, and back. */
  function ToU64(x: int): nat {
    x % TWO_TO_64
  }

  function FromU64(x: nat): int {
    if x < TWO_TO_64 / 2 then x else x - TWO_TO_64
  }

  function EncBody(e: Event): seq<byte> {
    match e
    case Lsn(lsn) => LE(8, lsn)
    case Connect(session) => EncStr(session)
    case Disconnect => []
    case SimpleQuery(text) => EncStr(text)
    case Parse(name, query, types) => EncStr(name) + (EncStr(query) + (LE(2, |types|) + EncInts(4, types, 0)))
    case Bind(portal, statement, formats, params) =>
      EncStr(portal) + (EncStr(statement) + EncValues(formats, params))
    case Execute(target, maxRows) => EncStr(target) + LE(8, ToU64(maxRows))
    case Sync => []
    case TxEnd(committed, xid, endLsn) => LE(1, if committed then 1 else 0) + (LE(4, xid) + LE(8, endLsn))
    case Close(kind, closed) => [kind] + EncStr(closed)
  }

  function Encode(m: Message): seq<byte> {
    [Tag(m.event)] + (LE(4, m.id) + (LE(8, m.ts) + EncBody(m.event)))
  }

  /* ----- the reader ----- */

  function ReadStr(buf: seq<byte>, pos: nat): Parsed<seq<byte>> {
    var (n, p) :- ReadLE(buf, pos, 4);
    ReadRaw(buf, p, n)
  }

  function ReadInts(buf: seq<byte>, pos: nat, width: nat, n: nat): Parsed<seq<nat>>
    decreases n
  {
    if n == 0 then Got([], pos) else
    var (x, p) :- ReadLE(buf, pos, width);
    var (xs, q) :- ReadInts(buf, p, width, n - 1);
    Got([x] + xs, q)
  }

  function ReadParam(buf: seq<byte>, pos: nat): Parsed<Param> {
    var (oid, p) :- ReadLE(buf, pos, 4);
    var (len, q) :- ReadLE(buf, p, 4);
    if len == NULL_LEN then Got(Param(oid, None), q) else
    var (v, r) :- ReadRaw(buf, q, len);
    Got(Param(oid, Some(v)), r)
  }

  function ReadParams(buf: seq<byte>, pos: nat, n: nat): Parsed<seq<Param>>
    decreases n
  {
    if n == 0 then Got([], pos) else
    var (x, p) :- ReadParam(buf, pos);
    var (xs, q) :- ReadParams(buf, p, n - 1);
    Got([x] + xs, q)
  }

  function ReadParse(buf: seq<byte>, pos: nat): Parsed<Event> {
    var (name, p) :- ReadStr(buf, pos);
    var (query, q) :- ReadStr(buf, p);
    var (n, r) :- ReadLE(buf, q, 2);
    var (types, s) :- ReadInts(buf, r, 4, n);
    Got(Parse(name, query, types), s)
  }

  function ReadBind(buf: seq<byte>, pos: nat): Parsed<Event> {
    var (portal, p) :- ReadStr(buf, pos);
    var (statement, q) :- ReadStr(buf, p);
    var (v, r) :- ReadValues(buf, q);
    Got(Bind(portal, statement, v.0, v.1), r)
  }

  function ReadValues(buf: seq<byte>, pos: nat): Parsed<(seq<nat>, seq<Param>)> {
    var (nf, p) :- ReadLE(buf, pos, 2);
    var (formats, q) :- ReadInts(buf, p, 2, nf);
    var (np, r) :- ReadLE(buf, q, 2);
    var (params, s) :- ReadParams(buf, r, np);
    Got((formats, params), s)
  }

  function ReadExecute(buf: seq<byte>, pos: nat): Parsed<Event> {
    var (target, p) :- ReadStr(buf, pos);
    var (rows, q) :- ReadLE(buf, p, 8);
    Got(Execute(target, FromU64(rows)), q)
  }

  function ReadTxEnd(buf: seq<byte>, pos: nat): Parsed<Event> {
    var (c, p) :- ReadLE(buf, pos, 1);
    var (xid, q) :- ReadLE(buf, p, 4);
    var (lsn, r) :- ReadLE(buf, q, 8);
    Got(TxEnd(c != 0, xid, lsn), r)
  }

  function ReadClose(buf: seq<byte>, pos: nat): Parsed<Event> {
    var (kind, p) :- ReadRaw(buf, pos, 1);
    var (closed, q) :- ReadStr(buf, p);
    Got(Close(kind[0], closed), q)
  }

  function ReadOther(tag: byte, buf: seq<byte>, pos: nat): Parsed<Event> {
    if tag == MSG_LSN then
      var (lsn, p) :- ReadLE(buf, pos, 8);
      Got(Lsn(lsn), p)
    else if tag == MSG_CONNECT then
      var (session, p) :- ReadStr(buf, pos);
      Got(Connect(session), p)
    else if tag == MSG_DISCONNECT then
      Got(Disconnect, pos)
    else if tag == MSG_SIMPLE_QUERY then
      var (text, p) :- ReadStr(buf, pos);
      Got(SimpleQuery(text), p)
    else if tag == MSG_SYNC then
      Got(Sync, pos)
    else Bad
  }

  function ReadEvent(tag: byte, buf: seq<byte>, pos: nat): Parsed<Event> {
    if tag == MSG_PARSE then ReadParse(buf, pos)
    else if tag == MSG_BIND then ReadBind(buf, pos)
    else if tag == MSG_EXECUTE then ReadExecute(buf, pos)
    else if tag == MSG_TX_END then ReadTxEnd(buf, pos)
    else if tag == MSG_CLOSE then ReadClose(buf, pos)
    else ReadOther(tag, buf, pos)
  }

  function ReadBody(tag: byte, buf: seq<byte>, pos: nat): Parsed<Message> {
    var (id, p) :- ReadLE(buf, pos, 4);
    var (ts, q) :- ReadLE(buf, p, 8);
    var (e, r) :- ReadEvent(tag, buf, q);
    Got(Message(id, ts, e), r)
  }

  /** One call of the reader: Eof both at a clean end and inside a cut-off message. */
  function ReadMessage(buf: seq<byte>, pos: nat): Parsed<Message> {
    if pos >= |buf| then Eof else ReadBody(buf[pos], buf, pos + 1)
  }

  /** How a whole read ends: at end of stream, or on a byte string that is no message. */
  datatype Ending = EndOfStream | InvalidData

  /** Calls the reader until it stops; every message consumes at least its tag. */
  function ReadAll(buf: seq<byte>, pos: nat): (r: (seq<Message>, Ending))
    decreases |buf| - pos
  {
    match ReadMessage(buf, pos)
    case Eof => ([], EndOfStream)
    case Bad => ([], InvalidData)
    case Got(m, next) =>
      if pos < next <= |buf| then
        var (ms, e) := ReadAll(buf, next);
        ([m] + ms, e)
      else ([m], EndOfStream)
  }

  /* ----- round trip ----- */

  predicate StrOk(s: seq<byte>) { |s| < NULL_LEN }

  predicate ParamOk(p: Param) { p.oid <= NULL_LEN && (p.value.Some? ==> StrOk(p.value.value)) }

  predicate EventOk(e: Event) {
    match e
    case Lsn(lsn) => lsn < TWO_TO_64
    case Connect(session) => StrOk(session)
    case Disconnect => true
    case SimpleQuery(text) => StrOk(text)
    case Parse(name, query, types) =>
      StrOk(name) && StrOk(query) && |types| < 0x1_0000 && forall i :: 0 <= i < |types| ==> types[i] <= NULL_LEN
    case Bind(portal, statement, formats, params) =>
      && StrOk(portal) && StrOk(statement)
      && |formats| < 0x1_0000 && |params| < 0x1_0000
      && (forall i :: 0 <= i < |formats| ==> formats[i] < 0x1_0000)
      && (forall i :: 0 <= i < |params| ==> ParamOk(params[i]))
    case Execute(target, maxRows) => StrOk(target) && -TWO_TO_64 / 2 <= maxRows < TWO_TO_64 / 2
    case Sync => true
    case TxEnd(_, xid, endLsn) => xid <= NULL_LEN && endLsn < TWO_TO_64
    case Close(_, closed) => StrOk(closed)
  }

  /** Every number fits the width the C types give it. */
  predicate MessageOk(m: Message) {
    m.id <= NULL_LEN && m.ts < TWO_TO_64 && EventOk(m.event)
  }

  lemma ReadStrAt(buf: seq<byte>, pos: nat, s: seq<byte>)
    requires StrOk(s) && At(buf, pos, EncStr(s))
    ensures ReadStr(buf, pos) == Got(s, pos + |EncStr(s)|)
  {
    hide At;
    Widths();
    AtSplit(buf, pos, LE(4, |s|), s);
    ReadLEAt(buf, pos, 4, |s|);
    ReadRawAt(buf, pos + 4, s);
  }

  lemma {:induction false} ReadIntsAt(buf: seq<byte>, pos: nat, width: nat, xs: seq<nat>, i: nat)
    requires i <= |xs| && forall k :: 0 <= k < |xs| ==> xs[k] < Pow256(width)
    requires At(buf, pos, EncInts(width, xs, i))
    ensures ReadInts(buf, pos, width, |xs| - i) == Got(xs[i..], pos + |EncInts(width, xs, i)|)
    decreases |xs| - i
  {
    hide At;
    if i < |xs| {
      AtSplit(buf, pos, LE(width, xs[i]), EncInts(width, xs, i + 1));
      ReadLEAt(buf, pos, width, xs[i]);
      ReadIntsAt(buf, pos + width, width, xs, i + 1);
      assert xs[i..] == [xs[i]] + xs[i + 1..];
    }
  }

  lemma ReadParamAt(buf: seq<byte>, pos: nat, p: Param)
    requires ParamOk(p) && At(buf, pos, EncParam(p))
    ensures ReadParam(buf, pos) == Got(p, pos + |EncParam(p)|)
  {
    hide At;
    Widths();
    var rest := if p.value.None? then LE(4, NULL_LEN) else EncStr(p.value.value);
    AtSplit(buf, pos, LE(4, p.oid), rest);
    ReadLEAt(buf, pos, 4, p.oid);
    if p.value.None? {
      ReadLEAt(buf, pos + 4, 4, NULL_LEN);
    } else {
      var v := p.value.value;
      AtSplit(buf, pos + 4, LE(4, |v|), v);
      ReadLEAt(buf, pos + 4, 4, |v|);
      ReadRawAt(buf, pos + 8, v);
    }
  }

  lemma {:induction false} ReadParamsAt(buf: seq<byte>, pos: nat, ps: seq<Param>, i: nat)
    requires i <= |ps| && forall k :: 0 <= k < |ps| ==> ParamOk(ps[k])
    requires At(buf, pos, EncParams(ps, i))
    ensures ReadParams(buf, pos, |ps| - i) == Got(ps[i..], pos + |EncParams(ps, i)|)
    decreases |ps| - i
  {
    hide At, ReadParam, EncParam, ParamOk;
    if i < |ps| {
      AtSplit(buf, pos, EncParam(ps[i]), EncParams(ps, i + 1));
      ReadParamAt(buf, pos, ps[i]);
      ReadParamsAt(buf, pos + |EncParam(ps[i])|, ps, i + 1);
      assert ps[i..] == [ps[i]] + ps[i + 1..];
    }
  }

  lemma ReadParseAt(buf: seq<byte>, pos: nat, e: Event)
    requires e.Parse? && EventOk(e) && At(buf, pos, EncBody(e))
    ensures ReadParse(buf, pos) == Got(e, pos + |EncBody(e)|)
  {
    hide At, ReadStr, ReadLE, ReadInts, EncStr, EncInts, LE, Pow256;
    var c := EncInts(4, e.types, 0);
    var b := LE(2, |e.types|) + c;
    var p := pos + |EncStr(e.name)|;
    var q := p + |EncStr(e.query)|;
    AtSplit(buf, pos, EncStr(e.name), EncStr(e.query) + b);
    ReadStrAt(buf, pos, e.name);
    AtSplit(buf, p, EncStr(e.query), b);
    ReadStrAt(buf, p, e.query);
    AtSplit(buf, q, LE(2, |e.types|), c);
    ReadCountAt(buf, q, |e.types|);
    assert ReadInts(buf, q + 2, 4, |e.types|) == Got(e.types, q + 2 + |c|) by {
      Widths();
      ReadIntsAt(buf, q + 2, 4, e.types, 0);
      assert e.types[0..] == e.types;
    }
  }

  lemma ReadValuesAt(buf: seq<byte>, pos: nat, formats: seq<nat>, params: seq<Param>)
    requires |formats| < 0x1_0000 && |params| < 0x1_0000
    requires forall i :: 0 <= i < |formats| ==> formats[i] < 0x1_0000
    requires forall i :: 0 <= i < |params| ==> ParamOk(params[i])
    requires At(buf, pos, EncValues(formats, params))
    ensures ReadValues(buf, pos) == Got((formats, params), pos + |EncValues(formats, params)|)
  {
    hide At, ReadLE, ReadInts, ReadParams, LE, EncInts, EncParams;
    var a := EncInts(2, formats, 0);
    var b := LE(2, |params|) + EncParams(params, 0);
    AtSplit(buf, pos, LE(2, |formats|), a + b);
    AtSplit(buf, pos + 2, a, b);
    var s := pos + 2 + |a|;
    AtSplit(buf, s, LE(2, |params|), EncParams(params, 0));
    ReadParamsAt(buf, s + 2, params, 0);
    assert params[0..] == params;
    assert ReadLE(buf, pos, 2) == Got(|formats|, pos + 2) by { ReadCountAt(buf, pos, |formats|); }
    assert ReadLE(buf, s, 2) == Got(|params|, s + 2) by { ReadCountAt(buf, s, |params|); }
    assert ReadInts(buf, pos + 2, 2, |formats|) == Got(formats, s) by {
      Widths();
      ReadIntsAt(buf, pos + 2, 2, formats, 0);
      assert formats[0..] == formats;
    }
  }

  lemma ReadCountAt(buf: seq<byte>, pos: nat, n: nat)
    requires n < 0x1_0000 && At(buf, pos, LE(2, n))
    ensures ReadLE(buf, pos, 2) == Got(n, pos + 2)
  {
    hide At;
    Widths();
    ReadLEAt(buf, pos, 2, n);
  }

  lemma ReadBindAt(buf: seq<byte>, pos: nat, e: Event)
    requires e.Bind? && EventOk(e) && At(buf, pos, EncBody(e))
    ensures ReadBind(buf, pos) == Got(e, pos + |EncBody(e)|)
  {
    hide At, ReadStr, ReadValues, EncStr, EncValues;
    var c := EncValues(e.formats, e.params);
    AtSplit(buf, pos, EncStr(e.portal), EncStr(e.statement) + c);
    ReadStrAt(buf, pos, e.portal);
    var p := pos + |EncStr(e.portal)|;
    AtSplit(buf, p, EncStr(e.statement), c);
    ReadStrAt(buf, p, e.statement);
    ReadValuesAt(buf, p + |EncStr(e.statement)|, e.formats, e.params);
  }

  lemma ReadExecuteAt(buf: seq<byte>, pos: nat, e: Event)
    requires e.Execute? && EventOk(e) && At(buf, pos, EncBody(e))
    ensures ReadExecute(buf, pos) == Got(e, pos + |EncBody(e)|)
  {
    hide At, LE, FromLE, ReadLE, ReadStr, Pow256;
    var rows := ToU64(e.maxRows);
    AtSplit(buf, pos, EncStr(e.target), LE(8, rows));
    ReadStrAt(buf, pos, e.target);
    var p := pos + |EncStr(e.target)|;
    assert ReadLE(buf, p, 8) == Got(rows, p + 8) by {
      Widths();
      ReadLEAt(buf, p, 8, rows);
    }
  }

  lemma ReadTxEndAt(buf: seq<byte>, pos: nat, e: Event)
    requires e.TxEnd? && EventOk(e) && At(buf, pos, EncBody(e))
    ensures ReadTxEnd(buf, pos) == Got(e, pos + |EncBody(e)|)
  {
    hide At, ReadLE, LE;
    var c := if e.committed then 1 else 0;
    AtSplit(buf, pos, LE(1, c), LE(4, e.xid) + LE(8, e.endLsn));
    AtSplit(buf, pos + 1, LE(4, e.xid), LE(8, e.endLsn));
    assert ReadLE(buf, pos, 1) == Got(c, pos + 1)
        && ReadLE(buf, pos + 1, 4) == Got(e.xid, pos + 5)
        && ReadLE(buf, pos + 5, 8) == Got(e.endLsn, pos + 13) by {
      Widths();
      ReadLEAt(buf, pos, 1, c);
      ReadLEAt(buf, pos + 1, 4, e.xid);
      ReadLEAt(buf, pos + 5, 8, e.endLsn);
    }
  }

  lemma ReadCloseAt(buf: seq<byte>, pos: nat, e: Event)
    requires e.Close? && EventOk(e) && At(buf, pos, EncBody(e))
    ensures ReadClose(buf, pos) == Got(e, pos + |EncBody(e)|)
  {
    AtSplit(buf, pos, [e.kind], EncStr(e.closed));
    ReadStrAt(buf, pos + 1, e.closed);
  }

  lemma ReadEventAt(buf: seq<byte>, pos: nat, e: Event)
    requires EventOk(e) && At(buf, pos, EncBody(e))
    ensures ReadEvent(Tag(e), buf, pos) == Got(e, pos + |EncBody(e)|)
  {
    hide At;
    match e
    case Lsn(lsn) =>
      assert ReadLE(buf, pos, 8) == Got(lsn, pos + 8) by {
        Widths();
        ReadLEAt(buf, pos, 8, lsn);
      }
    case Connect(session) => ReadStrAt(buf, pos, session);
    case SimpleQuery(text) => ReadStrAt(buf, pos, text);
    case Parse(_, _, _) => ReadParseAt(buf, pos, e);
    case Bind(_, _, _, _) => ReadBindAt(buf, pos, e);
    case Execute(_, _) => ReadExecuteAt(buf, pos, e);
    case TxEnd(_, _, _) => ReadTxEndAt(buf, pos, e);
    case Close(_, _) => ReadCloseAt(buf, pos, e);
    case Disconnect =>
    case Sync =>
  }

  /** One message survives the trip, wherever it stands in a file. */
  lemma ReadMessageAt(buf: seq<byte>, pos: nat, m: Message)
    requires MessageOk(m) && At(buf, pos, Encode(m))
    ensures ReadMessage(buf, pos) == Got(m, pos + |Encode(m)|)
  {
    Widths();
    var c := LE(8, m.ts) + EncBody(m.event);
    AtSplit(buf, pos, [Tag(m.event)], LE(4, m.id) + c);
    assert buf[pos..pos + 1][0] == Tag(m.event);
    AtSplit(buf, pos + 1, LE(4, m.id), c);
    ReadLEAt(buf, pos + 1, 4, m.id);
    AtSplit(buf, pos + 5, LE(8, m.ts), EncBody(m.event));
    ReadLEAt(buf, pos + 5, 8, m.ts);
    ReadEventAt(buf, pos + 13, m.event);
  }

  /* ----- a read cannot be changed by what follows it ----- */

  /** The read r of a file still gives the same result when the file is longer:
      only an Eof can turn into something else. */
  ghost predicate Settled<T>(size: nat, pos: nat, r: Parsed<T>, longer: Parsed<T>) {
    && (r.Got? ==> pos <= r.next <= size && longer == r)
    && (r.Bad? ==> longer.Bad?)
  }

  lemma RawSettled(a: seq<byte>, b: seq<byte>, pos: nat, n: nat)
    requires pos <= |a|
    ensures Settled(|a|, pos, ReadRaw(a, pos, n), ReadRaw(a + b, pos, n))
    ensures Settled(|a|, pos, ReadLE(a, pos, n), ReadLE(a + b, pos, n))
  {
    if pos + n <= |a| {
      assert (a + b)[pos..pos + n] == a[pos..pos + n];
    }
  }

  lemma StrSettled(a: seq<byte>, b: seq<byte>, pos: nat)
    requires pos <= |a|
    ensures Settled(|a|, pos, ReadStr(a, pos), ReadStr(a + b, pos))
  {
    RawSettled(a, b, pos, 4);
    var r := ReadLE(a, pos, 4);
    if r.Got? {
      RawSettled(a, b, r.next, r.value);
    }
  }

  lemma {:induction false} IntsSettled(a: seq<byte>, b: seq<byte>, pos: nat, width: nat, n: nat)
    requires pos <= |a|
    ensures Settled(|a|, pos, ReadInts(a, pos, width, n), ReadInts(a + b, pos, width, n))
    decreases n
  {
    if n > 0 {
      RawSettled(a, b, pos, width);
      var r := ReadLE(a, pos, width);
      if r.Got? {
        IntsSettled(a, b, r.next, width, n - 1);
      }
    }
  }

  lemma ParamSettled(a: seq<byte>, b: seq<byte>, pos: nat)
    requires pos <= |a|
    ensures Settled(|a|, pos, ReadParam(a, pos), ReadParam(a + b, pos))
  {
    RawSettled(a, b, pos, 4);
    var r := ReadLE(a, pos, 4);
    if r.Got? {
      RawSettled(a, b, r.next, 4);
      var s := ReadLE(a, r.next, 4);
      if s.Got? {
        RawSettled(a, b, s.next, s.value);
      }
    }
  }

  lemma {:induction false} ParamsSettled(a: seq<byte>, b: seq<byte>, pos: nat, n: nat)
    requires pos <= |a|
    ensures Settled(|a|, pos, ReadParams(a, pos, n), ReadParams(a + b, pos, n))
    decreases n
  {
    if n > 0 {
      ParamSettled(a, b, pos);
      var r := ReadParam(a, pos);
      if r.Got? {
        ParamsSettled(a, b, r.next, n - 1);
      }
    }
  }

  lemma ParseSettled(a: seq<byte>, b: seq<byte>, pos: nat)
    requires pos <= |a|
    ensures Settled(|a|, pos, ReadParse(a, pos), ReadParse(a + b, pos))
  {
    StrSettled(a, b, pos);
    var r := ReadStr(a, pos);
    if r.Got? {
      StrSettled(a, b, r.next);
      var s := ReadStr(a, r.next);
      if s.Got? {
        RawSettled(a, b, s.next, 2);
        var t := ReadLE(a, s.next, 2);
        if t.Got? {
          IntsSettled(a, b, t.next, 4, t.value);
        }
      }
    }
  }

  lemma ValuesSettled(a: seq<byte>, b: seq<byte>, pos: nat)
    requires pos <= |a|
    ensures Settled(|a|, pos, ReadValues(a, pos), ReadValues(a + b, pos))
  {
    RawSettled(a, b, pos, 2);
    var r := ReadLE(a, pos, 2);
    if r.Got? {
      IntsSettled(a, b, r.next, 2, r.value);
      var s := ReadInts(a, r.next, 2, r.value);
      if s.Got? {
        RawSettled(a, b, s.next, 2);
        var t := ReadLE(a, s.next, 2);
        if t.Got? {
          ParamsSettled(a, b, t.next, t.value);
        }
      }
    }
  }

  lemma BindSettled(a: seq<byte>, b: seq<byte>, pos: nat)
    requires pos <= |a|
    ensures Settled(|a|, pos, ReadBind(a, pos), ReadBind(a + b, pos))
  {
    StrSettled(a, b, pos);
    var r := ReadStr(a, pos);
    if r.Got? {
      StrSettled(a, b, r.next);
      var s := ReadStr(a, r.next);
      if s.Got? {
        ValuesSettled(a, b, s.next);
      }
    }
  }

  lemma ExecuteSettled(a: seq<byte>, b: seq<byte>, pos: nat)
    requires pos <= |a|
    ensures Settled(|a|, pos, ReadExecute(a, pos), ReadExecute(a + b, pos))
  {
    StrSettled(a, b, pos);
    var s := ReadStr(a, pos);
    if s.Got? {
      RawSettled(a, b, s.next, 8);
    }
  }

  lemma TxEndSettled(a: seq<byte>, b: seq<byte>, pos: nat)
    requires pos <= |a|
    ensures Settled(|a|, pos, ReadTxEnd(a, pos), ReadTxEnd(a + b, pos))
  {
    RawSettled(a, b, pos, 1);
    var c := ReadLE(a, pos, 1);
    if c.Got? {
      RawSettled(a, b, c.next, 4);
      var x := ReadLE(a, c.next, 4);
      if x.Got? {
        RawSettled(a, b, x.next, 8);
      }
    }
  }

  lemma CloseSettled(a: seq<byte>, b: seq<byte>, pos: nat)
    requires pos <= |a|
    ensures Settled(|a|, pos, ReadClose(a, pos), ReadClose(a + b, pos))
  {
    RawSettled(a, b, pos, 1);
    var k := ReadRaw(a, pos, 1);
    if k.Got? {
      StrSettled(a, b, k.next);
    }
  }

  lemma EventSettled(tag: byte, a: seq<byte>, b: seq<byte>, pos: nat)
    requires pos <= |a|
    ensures Settled(|a|, pos, ReadEvent(tag, a, pos), ReadEvent(tag, a + b, pos))
  {
    if tag == MSG_PARSE { ParseSettled(a, b, pos); }
    else if tag == MSG_BIND { BindSettled(a, b, pos); }
    else if tag == MSG_EXECUTE { ExecuteSettled(a, b, pos); }
    else if tag == MSG_TX_END { TxEndSettled(a, b, pos); }
    else if tag == MSG_CLOSE { CloseSettled(a, b, pos); }
    else {
      RawSettled(a, b, pos, 8);
      StrSettled(a, b, pos);
    }
  }

  lemma MessageSettled(a: seq<byte>, b: seq<byte>, pos: nat)
    requires pos <= |a|
    ensures Settled(|a|, pos, ReadMessage(a, pos), ReadMessage(a + b, pos))
    ensures ReadMessage(a, pos).Got? ==> pos < ReadMessage(a, pos).next
  {
    if pos < |a| {
      RawSettled(a, b, pos + 1, 4);
      var r := ReadLE(a, pos + 1, 4);
      if r.Got? {
        RawSettled(a, b, r.next, 8);
        var s := ReadLE(a, r.next, 8);
        if s.Got? {
          EventSettled(a[pos], a, b, s.next);
        }
      }
    }
  }

  /** A message cut off anywhere, even at length zero, reads as the end of the stream. */
  lemma CutOffMessage(buf: seq<byte>, pos: nat, m: Message, k: nat)
    requires MessageOk(m) && k < |Encode(m)| && |buf| == pos + k
    requires At(buf, pos, Encode(m)[..k])
    ensures ReadMessage(buf, pos) == Eof
  {
    hide ReadMessage, Encode, MessageOk;
    var e := Encode(m);
    var longer := buf + e[k..];
    assert e == e[..k] + e[k..];
    assert longer[pos..pos + |e|] == buf[pos..] + e[k..];
    assert buf[pos..] == buf[pos..pos + k] == e[..k];
    MessageSettled(buf, e[k..], pos);
    ReadMessageAt(longer, pos, m);
  }

  /* ----- whole files ----- */

  predicate AllOk(ms: seq<Message>) {
    forall i :: 0 <= i < |ms| ==> MessageOk(ms[i])
  }

  /** The messages from ms[i] on, one after the other. */
  function EncodeFrom(ms: seq<Message>, i: nat): seq<byte>
    requires i <= |ms|
    decreases |ms| - i
  {
    if i == |ms| then [] else Encode(ms[i]) + EncodeFrom(ms, i + 1)
  }

  /** Where a cut after k bytes falls: ms[i..] is whole up to this index. */
  function Whole(ms: seq<Message>, i: nat, k: nat): (n: nat)
    requires i <= |ms|
    ensures i <= n <= |ms|
    decreases |ms| - i
  {
    if i < |ms| && |Encode(ms[i])| <= k then Whole(ms, i + 1, k - |Encode(ms[i])|) else i
  }

  /** The messages up to the cut fit into the k bytes, and one more would not. */
  lemma {:induction false} WholeIsMost(ms: seq<Message>, i: nat, k: nat)
    requires i <= |ms|
    ensures var n := Whole(ms, i, k);
            && |EncodeFrom(ms, i)| - |EncodeFrom(ms, n)| <= k
            && (n < |ms| ==> |EncodeFrom(ms, i)| - |EncodeFrom(ms, n + 1)| > k)
    decreases |ms| - i
  {
    if i < |ms| && |Encode(ms[i])| <= k {
      WholeIsMost(ms, i + 1, k - |Encode(ms[i])|);
    }
  }

  lemma EncodeNotEmpty(m: Message)
    ensures |Encode(m)| >= 13
  {
  }

  lemma ReadAtEnd(buf: seq<byte>)
    ensures ReadMessage(buf, |buf|) == Eof
  {
  }

  lemma {:induction false} ReadAllFrom(buf: seq<byte>, pos: nat, ms: seq<Message>, i: nat, k: nat)
    requires AllOk(ms) && i <= |ms| && |buf| == pos + k && k <= |EncodeFrom(ms, i)|
    requires At(buf, pos, EncodeFrom(ms, i)[..k])
    ensures ReadAll(buf, pos) == (ms[i..Whole(ms, i, k)], EndOfStream)
    decreases |ms| - i
  {
    hide At, ReadMessage, Encode, MessageOk;
    if i == |ms| {
      ReadAtEnd(buf);
      assert ms[i..i] == [];
    } else {
      var e, rest := Encode(ms[i]), EncodeFrom(ms, i + 1);
      if |e| <= k {
        assert (e + rest)[..k] == e + rest[..k - |e|];
        AtSplit(buf, pos, e, rest[..k - |e|]);
        ReadMessageAt(buf, pos, ms[i]);
        EncodeNotEmpty(ms[i]);
        ReadAllFrom(buf, pos + |e|, ms, i + 1, k - |e|);
        assert [ms[i]] + ms[i + 1..Whole(ms, i, k)] == ms[i..Whole(ms, i, k)];
      } else {
        assert (e + rest)[..k] == e[..k];
        CutOffMessage(buf, pos, ms[i], k);
        assert Whole(ms, i, k) == i;
        assert ms[i..i] == [];
      }
    }
  }

  lemma {:induction false} WholeOfAll(ms: seq<Message>, i: nat)
    requires i <= |ms|
    ensures Whole(ms, i, |EncodeFrom(ms, i)|) == |ms|
    decreases |ms| - i
  {
    if i < |ms| {
      WholeOfAll(ms, i + 1);
    }
  }

  /** The file format's law: whatever byte prefix of an encoded list survives, the reader
      returns exactly the messages that lie wholly in it and then the end of the stream. */
  lemma ReadPrefix(ms: seq<Message>, k: nat)
    requires AllOk(ms) && k <= |EncodeFrom(ms, 0)|
    ensures ReadAll(EncodeFrom(ms, 0)[..k], 0) == (ms[..Whole(ms, 0, k)], EndOfStream)
    ensures ReadAll(EncodeFrom(ms, 0), 0) == (ms, EndOfStream)
  {
    hide ReadAll, Encode, MessageOk, EncodeFrom;
    var all := EncodeFrom(ms, 0);
    assert all[..k][0..k] == all[..k];
    ReadAllFrom(all[..k], 0, ms, 0, k);
    assert ms[0..Whole(ms, 0, k)] == ms[..Whole(ms, 0, k)];
    assert all[..|all|] == all;
    assert all[0..|all|] == all;
    ReadAllFrom(all, 0, ms, 0, |all|);
    WholeOfAll(ms, 0);
    assert ms[0..|ms|] == ms;
  }

  /* ----- one message of each type, byte by byte ----- */

  lemma SmallLE(n: nat, x: nat)
    requires n > 0
    ensures LE(n, x) == [(x % 256) as byte] + LE(n - 1, x / 256)
  {
    forall i | 0 < i < n
      ensures LE(n, x)[i] == LE(n - 1, x / 256)[i - 1]
    {
      assert Digit(x, i) == Digit(x / 256, i - 1);
    }
  }

  lemma ShortLE(x: nat)
    requires x < 0x1_0000
    ensures LE(2, x) == [(x % 256) as byte, (x / 256) as byte]
    ensures LE(4, x) == [(x % 256) as byte, (x / 256) as byte, 0, 0]
    ensures LE(8, x) == [(x % 256) as byte, (x / 256) as byte, 0, 0, 0, 0, 0, 0]
  {
    ZeroLE(6);
    ZeroLE(2);
    ZeroLE(0);
    var y := x / 256;
    assert y / 256 == 0 && y % 256 == y;
    SmallLE(2, x);
    SmallLE(1, y);
    SmallLE(4, x);
    SmallLE(3, y);
    SmallLE(8, x);
    SmallLE(7, y);
  }

  lemma {:induction false} ZeroLE(n: nat)
    ensures LE(n, 0) == seq(n, _ => 0)
  {
    if n > 0 {
      ZeroLE(n - 1);
      SmallLE(n, 0);
    }
  }

  lemma FullLE(n: nat, x: nat)
    requires n > 0 && x == Pow256(n) - 1
    ensures LE(n, x) == seq(n, _ => 255)
    decreases n
  {
    if n > 1 {
      FullLE(n - 1, x / 256);
    }
    SmallLE(n, x);
  }

  lemma SampleParams()
    ensures EncParams([Param(23, Some([5])), Param(25, None)], 0) ==
            [23, 0, 0, 0] + [1, 0, 0, 0, 5] + [25, 0, 0, 0] + [255, 255, 255, 255]
  {
    hide LE;
    ShortLE(1);
    ShortLE(23);
    ShortLE(25);
    Widths();
    FullLE(4, NULL_LEN);
    var ps := [Param(23, Some([5])), Param(25, None)];
    assert EncParams(ps, 2) == [];
    assert EncParams(ps, 1) == [25, 0, 0, 0] + [255, 255, 255, 255];
    assert EncParam(ps[0]) == [23, 0, 0, 0] + [1, 0, 0, 0, 5];
  }

  lemma SampleFormats()
    ensures EncInts(2, [1], 0) == [1, 0]
  {
    hide LE;
    ShortLE(1);
    assert EncInts(2, [1], 1) == [];
  }

  /** What a bind with a value and a NULL looks like in the file. */
  lemma SampleBind()
    ensures Encode(Message(7, 258, Bind(['p' as byte], ['s' as byte, 't' as byte], [1],
                                        [Param(23, Some([5])), Param(25, None)]))) ==
            [6] + [7, 0, 0, 0] + [2, 1, 0, 0, 0, 0, 0, 0] +
            [1, 0, 0, 0, 'p' as byte] + [2, 0, 0, 0, 's' as byte, 't' as byte] +
            [1, 0] + [1, 0] +
            [2, 0] + ([23, 0, 0, 0] + [1, 0, 0, 0, 5] + [25, 0, 0, 0] + [255, 255, 255, 255])
  {
    hide LE, EncParams, EncInts;
    ShortLE(1);
    ShortLE(2);
    ShortLE(7);
    ShortLE(258);
    SampleParams();
    SampleFormats();
    var params, ps := EncParams([Param(23, Some([5])), Param(25, None)], 0), [Param(23, Some([5])), Param(25, None)];
    assert EncStr(['p' as byte]) == [1, 0, 0, 0, 'p' as byte];
    assert EncStr(['s' as byte, 't' as byte]) == [2, 0, 0, 0, 's' as byte, 't' as byte];
    assert EncValues([1], ps) == [1, 0] + ([1, 0] + ([2, 0] + params));
  }

  lemma SampleParse()
    ensures Encode(Message(7, 258, Parse(['n' as byte], ['q' as byte, 'r' as byte], [23, 25]))) ==
            [5] + [7, 0, 0, 0] + [2, 1, 0, 0, 0, 0, 0, 0] +
            [1, 0, 0, 0, 'n' as byte] + [2, 0, 0, 0, 'q' as byte, 'r' as byte] + [2, 0] + [23, 0, 0, 0, 25, 0, 0, 0]
  {
    hide LE, EncInts;
    ShortLE(1);
    ShortLE(2);
    ShortLE(7);
    ShortLE(258);
    SampleTypes();
    assert EncStr(['n' as byte]) == [1, 0, 0, 0, 'n' as byte];
    assert EncStr(['q' as byte, 'r' as byte]) == [2, 0, 0, 0, 'q' as byte, 'r' as byte];
  }

  lemma SampleTypes()
    ensures EncInts(4, [23, 25], 0) == [23, 0, 0, 0, 25, 0, 0, 0]
  {
    hide LE;
    ShortLE(23);
    ShortLE(25);
    assert EncInts(4, [23, 25], 2) == [];
    assert EncInts(4, [23, 25], 1) == [25, 0, 0, 0];
  }

  lemma SampleClose()
    ensures Encode(Message(7, 258, Close('S' as byte, ['n' as byte]))) ==
            [10] + [7, 0, 0, 0] + [2, 1, 0, 0, 0, 0, 0, 0] + ['S' as byte] + [1, 0, 0, 0, 'n' as byte]
  {
    hide LE;
    ShortLE(1);
    ShortLE(7);
    ShortLE(258);
    assert EncStr(['n' as byte]) == [1, 0, 0, 0, 'n' as byte];
  }

  lemma SampleTxEnd()
    ensures Encode(Message(7, 258, TxEnd(true, 9, 258))) ==
            [9] + [7, 0, 0, 0] + [2, 1, 0, 0, 0, 0, 0, 0] + [1] + [9, 0, 0, 0] + [2, 1, 0, 0, 0, 0, 0, 0]
  {
    hide LE;
    SmallLE(1, 1);
    ShortLE(7);
    ShortLE(9);
    ShortLE(258);
    assert LE(0, 0) == [] by { assert |LE(0, 0)| == 0; }
  }

  lemma SampleShort()
    ensures Encode(Message(7, 258, Lsn(258))) ==
            [1] + [7, 0, 0, 0] + [2, 1, 0, 0, 0, 0, 0, 0] + [2, 1, 0, 0, 0, 0, 0, 0]
    ensures Encode(Message(7, 258, Connect(['n' as byte]))) ==
            [2] + [7, 0, 0, 0] + [2, 1, 0, 0, 0, 0, 0, 0] + [1, 0, 0, 0, 'n' as byte]
    ensures Encode(Message(7, 258, Disconnect)) == [3] + [7, 0, 0, 0] + [2, 1, 0, 0, 0, 0, 0, 0]
    ensures Encode(Message(7, 258, SimpleQuery(['n' as byte]))) ==
            [4] + [7, 0, 0, 0] + [2, 1, 0, 0, 0, 0, 0, 0] + [1, 0, 0, 0, 'n' as byte]
    ensures Encode(Message(7, 258, Sync)) == [8] + [7, 0, 0, 0] + [2, 1, 0, 0, 0, 0, 0, 0]
  {
    hide LE;
    ShortLE(1);
    ShortLE(7);
    ShortLE(258);
    assert EncStr(['n' as byte]) == [1, 0, 0, 0, 'n' as byte];
  }

  /** And an execute without a limit, which the recorder casts to unsigned. */
  lemma SampleExecute()
    ensures Encode(Message(7, 258, Execute([], -1))) ==
            [7] + [7, 0, 0, 0] + [2, 1, 0, 0, 0, 0, 0, 0] + [0, 0, 0, 0] + [255, 255, 255, 255, 255, 255, 255, 255]
  {
    hide LE;
    ShortLE(0);
    ShortLE(7);
    ShortLE(258);
    Widths();
    FullLE(8, ToU64(-1));
    assert EncStr([]) == [0, 0, 0, 0];
  }
}
