/** Wire frames of the PostgreSQL frontend/backend protocol, version 3: a tag byte, a
    big-endian length that counts itself, and a body (section 55.7, "Message Formats", of the
    PostgreSQL 16 manual).  Built by src/manager.rs, cut out of the stream by src/proto.rs. */
module Frames {
  import opened Wrappers
  import opened Bytes
  import CF = CaptureFormat

  const F_PARSE: byte := 80
  const F_BIND: byte := 66
  const F_EXECUTE: byte := 69
  const F_CLOSE: byte := 67
  const F_SYNC: byte := 83
  const F_QUERY: byte := 81
  const F_TERMINATE: byte := 88

  const INT32_MAX := 0x7FFF_FFFF

  /* ----- cutting frames out of a stream ----- */

  /** The tag and total length of the frame at the front, once all of it has arrived. */
  function TryReadFrame(buf: seq<byte>): Option<(byte, nat)> {
    if |buf| < 5 then None
    else
      var len := FromBE(buf[1..5]);
      if |buf| < 1 + len then None else Some((buf[0], 1 + len))
  }

  /** What has been recognised stays recognised when more bytes arrive. */
  lemma FrameSettled(a: seq<byte>, b: seq<byte>)
    requires TryReadFrame(a).Some?
    ensures TryReadFrame(a + b) == TryReadFrame(a)
    ensures 1 <= TryReadFrame(a).value.1 <= |a|
  {
    assert (a + b)[1..5] == a[1..5];
  }

  /* ----- building frames ----- */

  /** begin and end around a body: the length is back-patched over four zero bytes. */
  function Frame(tag: byte, body: seq<byte>): seq<byte> {
    [tag] + BE(4, |body| + 4) + body
  }

  lemma FrameReads(tag: byte, body: seq<byte>, rest: seq<byte>)
    requires |body| + 4 <= INT32_MAX
    ensures TryReadFrame(Frame(tag, body) + rest) == Some((tag, |Frame(tag, body)|))
  {
    var s := Frame(tag, body) + rest;
    assert s[1..5] == BE(4, |body| + 4);
    Widths();
    BERoundTrip(4, |body| + 4);
  }

  /** A tag and the whole frame it heads. */
  datatype Tagged = Tagged(tag: byte, data: seq<byte>)

  predicate SelfDelimiting(f: Tagged) {
    |f.data| >= 5 && |f.data| - 1 <= INT32_MAX && f.data == Frame(f.tag, f.data[5..])
  }

  /** The frames from fs[i] on, one after the other. */
  function Wire(fs: seq<Tagged>, i: nat): seq<byte>
    requires i <= |fs|
    decreases |fs| - i
  {
    if i == |fs| then [] else fs[i].data + Wire(fs, i + 1)
  }

  /** Cuts a stream into frames as long as whole ones are in front. */
  function Cut(buf: seq<byte>): seq<Tagged>
    decreases |buf|
  {
    match TryReadFrame(buf)
    case None => []
    case Some(r) => [Tagged(r.0, buf[..r.1])] + Cut(buf[r.1..])
  }

  /** The concatenation of emitted frames falls apart into exactly those frames. */
  lemma {:induction false} CutWire(fs: seq<Tagged>, i: nat)
    requires i <= |fs| && forall k :: 0 <= k < |fs| ==> SelfDelimiting(fs[k])
    ensures Cut(Wire(fs, i)) == fs[i..]
    decreases |fs| - i
  {
    hide TryReadFrame, Frame;
    if i == |fs| {
      NothingToCut();
    } else {
      var f, rest := fs[i], Wire(fs, i + 1);
      assert SelfDelimiting(f);
      FrameReads(f.tag, f.data[5..], rest);
      assert (f.data + rest)[..|f.data|] == f.data && (f.data + rest)[|f.data|..] == rest;
      CutWire(fs, i + 1);
      assert [f] + fs[i + 1..] == fs[i..];
    }
  }

  lemma NothingToCut()
    ensures TryReadFrame([]) == None
  {
  }

  /* ----- the frames of a captured event ----- */

  /** What lies between the bounds is kept; what does not becomes the bound next to it. */
  function Clamp(x: int, lo: int, hi: int): (r: int)
    requires lo <= hi
    ensures lo <= r <= hi
    ensures lo <= x <= hi ==> r == x
    ensures x < lo ==> r == lo
    ensures x > hi ==> r == hi
  {
    if x < lo then lo else if x > hi then hi else x
  }

  function CStr(s: seq<byte>): seq<byte> {
    s + [0]
  }

  function BEInts(width: nat, xs: seq<nat>, i: nat): seq<byte>
    requires i <= |xs|
    decreases |xs| - i
  {
    if i == |xs| then [] else BE(width, xs[i]) + BEInts(width, xs, i + 1)
  }

  /** A bound value: its length and bytes, or -1 for NULL. */
  function ValueBytes(v: Option<seq<byte>>): seq<byte> {
    match v
    case None => BE(4, 0xFFFF_FFFF)
    case Some(b) => BE(4, |b|) + b
  }

  function Values(vs: seq<CF.Param>, i: nat): seq<byte>
    requires i <= |vs|
    decreases |vs| - i
  {
    if i == |vs| then [] else ValueBytes(vs[i].value) + Values(vs, i + 1)
  }

  function ParseBody(name: seq<byte>, query: seq<byte>, types: seq<nat>): seq<byte> {
    CStr(name) + (CStr(query) + (BE(2, |types|) + BEInts(4, types, 0)))
  }

  /** No parameter formats: every value goes as text. */
  function BindBody(portal: seq<byte>, statement: seq<byte>, formats: seq<nat>, params: seq<CF.Param>): seq<byte> {
    CStr(portal) + (CStr(statement) + (BE(2, 0) + BindTail(formats, params)))
  }

  function BindTail(formats: seq<nat>, params: seq<CF.Param>): seq<byte> {
    BE(2, |params|) + (Values(params, 0) + (BE(2, |formats|) + BEInts(2, formats, 0)))
  }

  /** Quotes are doubled inside the literal. */
  function Escape(s: seq<byte>): seq<byte> {
    if |s| == 0 then [] else (if s[0] == QUOTE then [QUOTE, QUOTE] else [s[0]]) + Escape(s[1..])
  }

  function Ascii(s: string): seq<byte> {
    seq(|s|, i requires 0 <= i < |s| => if s[i] as int < 256 then s[i] as int as byte else 0)
  }

  const QUOTE: byte := 39

  function RestoreQuery(session: seq<byte>): seq<byte> {
    Ascii("SELECT pgr.srestore(") + ([QUOTE] + Escape(session) + [QUOTE] + Ascii(")"))
  }

  /** What replaying one event sends: possibly a connect command, possibly a frame. */
  datatype Emission = Emission(connect: bool, frame: Option<Tagged>)

  function Built(tag: byte, body: seq<byte>): Option<Tagged> {
    Some(Tagged(tag, Frame(tag, body)))
  }

  function Emit(e: CF.Event): Emission {
    match e
    case Lsn(_) => Emission(false, None)
    case TxEnd(_, _, _) => Emission(false, None)
    case Connect(session) =>
      Emission(true, if |session| == 0 then None else Built(F_QUERY, CStr(RestoreQuery(session))))
    case Disconnect => Emission(false, Built(F_TERMINATE, []))
    case SimpleQuery(text) => Emission(false, Built(F_QUERY, CStr(text)))
    case Parse(name, query, types) => Emission(false, Built(F_PARSE, ParseBody(name, query, types)))
    case Bind(portal, statement, formats, params) =>
      Emission(false, Built(F_BIND, BindBody(portal, statement, formats, params)))
    case Execute(target, maxRows) =>
      Emission(false, Built(F_EXECUTE, CStr(target) + BE(4, Clamp(maxRows, 0, INT32_MAX))))
    case Sync => Emission(false, Built(F_SYNC, []))
    case Close(kind, closed) => Emission(false, Built(F_CLOSE, [kind] + CStr(closed)))
  }

  method Begin(tag: byte) returns (v: seq<byte>)
    ensures v == [tag, 0, 0, 0, 0]
  {
    v := [tag];
    v := v + [0, 0, 0, 0];
  }

  method End(v: seq<byte>) returns (f: seq<byte>)
    requires |v| >= 5
    ensures f == Frame(v[0], v[5..])
  {
    var n := |v| - 1;
    f := v[..1] + BE(4, n) + v[5..];
  }

  /** A frame from its parts, the length put in afterwards. */
  method Whole(tag: byte, body: seq<byte>) returns (f: seq<byte>)
    ensures f == Frame(tag, body)
  {
    var v := Begin(tag);
    v := v + body;
    f := End(v);
  }

  method AppendInts(v: seq<byte>, width: nat, xs: seq<nat>) returns (w: seq<byte>)
    ensures w == v + BEInts(width, xs, 0)
  {
    hide BE;
    w := v;
    for i := 0 to |xs|
      invariant w + BEInts(width, xs, i) == v + BEInts(width, xs, 0)
    {
      var x := BE(width, xs[i]);
      assert w + (x + BEInts(width, xs, i + 1)) == w + x + BEInts(width, xs, i + 1);
      w := w + x;
    }
    assert w + [] == w;
  }

  method AppendValues(v: seq<byte>, params: seq<CF.Param>) returns (w: seq<byte>)
    ensures w == v + Values(params, 0)
  {
    hide ValueBytes;
    w := v;
    for i := 0 to |params|
      invariant w + Values(params, i) == v + Values(params, 0)
    {
      var x := ValueBytes(params[i].value);
      assert w + (x + Values(params, i + 1)) == w + x + Values(params, i + 1);
      w := w + x;
    }
    assert w + [] == w;
  }

  method ParseFrame(name: seq<byte>, query: seq<byte>, types: seq<nat>) returns (f: seq<byte>)
    ensures f == Frame(F_PARSE, ParseBody(name, query, types))
  {
    hide BE, BEInts, CStr, Frame;
    var v := Begin(F_PARSE);
    v := v + CStr(name) + CStr(query) + BE(2, |types|);
    v := AppendInts(v, 4, types);
    assert v[5..] == ParseBody(name, query, types);
    f := End(v);
  }

  method BindFrame(portal: seq<byte>, statement: seq<byte>, formats: seq<nat>, params: seq<CF.Param>) returns (f: seq<byte>)
    ensures f == Frame(F_BIND, BindBody(portal, statement, formats, params))
  {
    hide BE, BEInts, CStr, Values, Frame;
    var v := Begin(F_BIND);
    v := v + CStr(portal) + CStr(statement) + BE(2, 0) + BE(2, |params|);
    v := AppendValues(v, params);
    v := AppendInts(v + BE(2, |formats|), 2, formats);
    assert v[5..] == BindBody(portal, statement, formats, params);
    f := End(v);
  }

  method EmitEvent(e: CF.Event) returns (r: Emission)
    ensures r == Emit(e)
  {
    hide Frame;
    var f: seq<byte>;
    match e {
      case Lsn(_) => r := Emission(false, None);
      case TxEnd(_, _, _) => r := Emission(false, None);
      case Connect(session) =>
        if |session| == 0 {
          return Emission(true, None);
        }
        f := Whole(F_QUERY, CStr(RestoreQuery(session)));
        r := Emission(true, Some(Tagged(F_QUERY, f)));
      case Disconnect =>
        f := Whole(F_TERMINATE, []);
        r := Emission(false, Some(Tagged(F_TERMINATE, f)));
      case SimpleQuery(text) =>
        f := Whole(F_QUERY, CStr(text));
        r := Emission(false, Some(Tagged(F_QUERY, f)));
      case Parse(name, query, types) =>
        f := ParseFrame(name, query, types);
        r := Emission(false, Some(Tagged(F_PARSE, f)));
      case Bind(portal, statement, formats, params) =>
        f := BindFrame(portal, statement, formats, params);
        r := Emission(false, Some(Tagged(F_BIND, f)));
      case Execute(target, maxRows) =>
        f := Whole(F_EXECUTE, CStr(target) + BE(4, Clamp(maxRows, 0, INT32_MAX)));
        r := Emission(false, Some(Tagged(F_EXECUTE, f)));
      case Sync =>
        f := Whole(F_SYNC, []);
        r := Emission(false, Some(Tagged(F_SYNC, f)));
      case Close(kind, closed) =>
        f := Whole(F_CLOSE, [kind] + CStr(closed));
        r := Emission(false, Some(Tagged(F_CLOSE, f)));
    }
  }

  /** Every emitted frame that fits a signed length delimits itself. */
  lemma EmitSelfDelimiting(e: CF.Event)
    requires Emit(e).frame.Some? && |Emit(e).frame.value.data| - 1 <= INT32_MAX
    ensures SelfDelimiting(Emit(e).frame.value)
  {
    var f := Emit(e).frame.value;
    var body := BodyOf(e);
    assert f.data == Frame(f.tag, body);
    assert f.data[5..] == body;
  }

  /* ----- some frames, byte by byte ----- */

  lemma NullBytes()
    ensures BE(4, 0xFFFF_FFFF) == [255, 255, 255, 255]
  {
    hide BE;
    BESplit(4, 0xFFFF_FFFF);
    BESplit(3, 0xFF_FFFF);
    BESplit(2, 0xFFFF);
    BESplit(1, 0xFF);
    assert BE(0, 0) == [] by { assert |BE(0, 0)| == 0; }
  }

  /** What an event that does not connect makes the replay send. */
  predicate Sends(e: CF.Event, bytes: seq<byte>) {
    && !Emit(e).connect && Emit(e).frame.Some? && Emit(e).frame.value.data == bytes
    && |bytes| > 0 && Emit(e).frame.value.tag == bytes[0]
  }

  lemma SampleParse()
    ensures Sends(CF.Parse(['n' as byte], ['q' as byte], [23]),
                  ['P' as byte] + [0, 0, 0, 14] + (['n' as byte, 0] + (['q' as byte, 0] + ([0, 1] + [0, 0, 0, 23]))))
  {
    hide BE;
    ShortBE(1);
    ShortBE(14);
    ShortBE(23);
    assert BEInts(4, [23], 1) == [];
    assert BEInts(4, [23], 0) == [0, 0, 0, 23];
    var body := ['n' as byte, 0] + (['q' as byte, 0] + ([0, 1] + [0, 0, 0, 23]));
    assert ParseBody(['n' as byte], ['q' as byte], [23]) == body;
    assert Frame(F_PARSE, body) == [F_PARSE] + [0, 0, 0, 14] + body;
  }

  lemma SampleValues()
    ensures Values([CF.Param(23, Some([5])), CF.Param(25, None)], 0) == [0, 0, 0, 1, 5, 255, 255, 255, 255]
  {
    hide BE;
    ShortBE(1);
    NullBytes();
    var ps := [CF.Param(23, Some([5])), CF.Param(25, None)];
    assert Values(ps, 2) == [];
    assert Values(ps, 1) == [255, 255, 255, 255];
  }

  /** A bind: no parameter formats, the values with the NULL as -1, then the result formats. */
  lemma SampleBind()
    ensures Sends(CF.Bind(['p' as byte], ['s' as byte], [1], [CF.Param(23, Some([5])), CF.Param(25, None)]),
                  ['B' as byte] + [0, 0, 0, 25] +
                  (['p' as byte, 0] + (['s' as byte, 0] +
                   ([0, 0] + ([0, 2] + ([0, 0, 0, 1, 5, 255, 255, 255, 255] + ([0, 1] + [0, 1])))))))
  {
    hide BE, Values;
    ShortBE(0);
    ShortBE(1);
    ShortBE(2);
    ShortBE(25);
    SampleValues();
    assert BEInts(2, [1], 1) == [];
    assert BEInts(2, [1], 0) == [0, 1];
    var ps := [CF.Param(23, Some([5])), CF.Param(25, None)];
    var tail := [0, 2] + ([0, 0, 0, 1, 5, 255, 255, 255, 255] + ([0, 1] + [0, 1]));
    assert BindTail([1], ps) == tail;
    var body := ['p' as byte, 0] + (['s' as byte, 0] + ([0, 0] + tail));
    assert BindBody(['p' as byte], ['s' as byte], [1], ps) == body;
    assert Frame(F_BIND, body) == [F_BIND] + [0, 0, 0, 25] + body;
  }

  lemma SampleOthers()
    ensures Sends(CF.SimpleQuery(['q' as byte]), ['Q' as byte] + [0, 0, 0, 6] + ['q' as byte, 0])
    ensures Sends(CF.Execute(['p' as byte], -1), ['E' as byte] + [0, 0, 0, 10] + ['p' as byte, 0, 0, 0, 0, 0])
    ensures Sends(CF.Close('S' as byte, ['n' as byte]), ['C' as byte] + [0, 0, 0, 7] + ['S' as byte, 'n' as byte, 0])
    ensures Sends(CF.Sync, ['S' as byte] + [0, 0, 0, 4])
    ensures Sends(CF.Disconnect, ['X' as byte] + [0, 0, 0, 4])
  {
    hide BE;
    ShortBE(0);
    ShortBE(4);
    ShortBE(6);
    ShortBE(7);
    ShortBE(10);
    assert CStr(['q' as byte]) == ['q' as byte, 0];
    assert CStr(['p' as byte]) + [0, 0, 0, 0] == ['p' as byte, 0, 0, 0, 0, 0];
    assert ['S' as byte] + CStr(['n' as byte]) == ['S' as byte, 'n' as byte, 0];
    assert Frame(F_SYNC, []) == [F_SYNC] + [0, 0, 0, 4];
    assert Frame(F_TERMINATE, []) == [F_TERMINATE] + [0, 0, 0, 4];
  }

  /* ----- a server's reading of the frames ----- */

  /** A frontend message as the protocol defines it. */
  datatype Front =
    | Query(text: seq<byte>)
    | ParseMsg(name: seq<byte>, query: seq<byte>, types: seq<nat>)
    | BindMsg(portal: seq<byte>, statement: seq<byte>, paramFormats: seq<nat>, values: seq<Option<seq<byte>>>, formats: seq<nat>)
    | ExecuteMsg(target: seq<byte>, maxRows: nat)
    | SyncMsg
    | CloseMsg(kind: byte, closed: seq<byte>)
    | Terminate

  function ReadBE(buf: seq<byte>, pos: nat, n: nat): Parsed<nat> {
    var (s, p) :- ReadRaw(buf, pos, n);
    Got(FromBE(s), p)
  }

  /** The string up to the next zero byte. */
  function ReadCStr(buf: seq<byte>, pos: nat): Parsed<seq<byte>>
    decreases |buf| - pos
  {
    if pos >= |buf| then Eof
    else if buf[pos] == 0 then Got([], pos + 1)
    else
      var (s, p) :- ReadCStr(buf, pos + 1);
      Got([buf[pos]] + s, p)
  }

  function ReadBEInts(buf: seq<byte>, pos: nat, width: nat, n: nat): Parsed<seq<nat>>
    decreases n
  {
    if n == 0 then Got([], pos) else
    var (x, p) :- ReadBE(buf, pos, width);
    var (xs, q) :- ReadBEInts(buf, p, width, n - 1);
    Got([x] + xs, q)
  }

  function ReadValue(buf: seq<byte>, pos: nat): Parsed<Option<seq<byte>>> {
    var (len, p) :- ReadBE(buf, pos, 4);
    if len == 0xFFFF_FFFF then Got(None, p) else
    var (v, q) :- ReadRaw(buf, p, len);
    Got(Some(v), q)
  }

  function ReadValues(buf: seq<byte>, pos: nat, n: nat): Parsed<seq<Option<seq<byte>>>>
    decreases n
  {
    if n == 0 then Got([], pos) else
    var (x, p) :- ReadValue(buf, pos);
    var (xs, q) :- ReadValues(buf, p, n - 1);
    Got([x] + xs, q)
  }

  function ReadParseMsg(buf: seq<byte>, pos: nat): Parsed<Front> {
    var (name, p) :- ReadCStr(buf, pos);
    var (query, q) :- ReadCStr(buf, p);
    var (n, r) :- ReadBE(buf, q, 2);
    var (types, s) :- ReadBEInts(buf, r, 4, n);
    Got(ParseMsg(name, query, types), s)
  }

  function ReadBindTail(buf: seq<byte>, pos: nat): Parsed<(seq<Option<seq<byte>>>, seq<nat>)> {
    var (np, p) :- ReadBE(buf, pos, 2);
    var (values, q) :- ReadValues(buf, p, np);
    var (nf, r) :- ReadBE(buf, q, 2);
    var (formats, s) :- ReadBEInts(buf, r, 2, nf);
    Got((values, formats), s)
  }

  function ReadBindMsg(buf: seq<byte>, pos: nat): Parsed<Front> {
    var (portal, p) :- ReadCStr(buf, pos);
    var (statement, q) :- ReadCStr(buf, p);
    var (n, r) :- ReadBE(buf, q, 2);
    var (pf, s) :- ReadBEInts(buf, r, 2, n);
    var (t, u) :- ReadBindTail(buf, s);
    Got(BindMsg(portal, statement, pf, t.0, t.1), u)
  }

  function ReadFrontBody(tag: byte, buf: seq<byte>, pos: nat): Parsed<Front> {
    if tag == F_QUERY then
      var (text, p) :- ReadCStr(buf, pos);
      Got(Query(text), p)
    else if tag == F_PARSE then ReadParseMsg(buf, pos)
    else if tag == F_BIND then ReadBindMsg(buf, pos)
    else if tag == F_EXECUTE then
      var (target, p) :- ReadCStr(buf, pos);
      var (rows, q) :- ReadBE(buf, p, 4);
      Got(ExecuteMsg(target, rows), q)
    else if tag == F_SYNC then Got(SyncMsg, pos)
    else if tag == F_CLOSE then
      var (kind, p) :- ReadRaw(buf, pos, 1);
      var (closed, q) :- ReadCStr(buf, p);
      Got(CloseMsg(kind[0], closed), q)
    else if tag == F_TERMINATE then Got(Terminate, pos)
    else Bad
  }

  /** A frame read as the protocol prescribes: its body must be used up exactly. */
  function ReadFront(f: Tagged): Option<Front> {
    match ReadFrontBody(f.tag, f.data, 5)
    case Got(m, end) => if end == |f.data| then Some(m) else None
    case _ => None
  }

  /* ----- replaying means the same ----- */

  predicate NoZero(s: seq<byte>) {
    forall i :: 0 <= i < |s| ==> s[i] != 0
  }

  /** C strings contain no zero byte; counts and lengths come from protocol messages. */
  predicate FromC(e: CF.Event) {
    CF.EventOk(e) && match e {
      case SimpleQuery(text) => NoZero(text)
      case Parse(name, query, _) => NoZero(name) && NoZero(query)
      case Bind(portal, statement, _, _) => NoZero(portal) && NoZero(statement)
      case Execute(target, _) => NoZero(target)
      case Close(_, closed) => NoZero(closed)
      case Connect(session) => NoZero(session)
      case _ => true
    }
  }

  function ValuesOf(params: seq<CF.Param>): (vs: seq<Option<seq<byte>>>)
    ensures |vs| == |params|
    ensures forall i :: 0 <= i < |params| ==> vs[i] == params[i].value
  {
    seq(|params|, i requires 0 <= i < |params| => params[i].value)
  }

  /** What the recorded client asked of the server; a connect that names a session asks for
      that session to be restored. */
  function Meaning(e: CF.Event): Option<Front> {
    match e
    case Connect(session) => if |session| == 0 then None else Some(Query(RestoreQuery(session)))
    case SimpleQuery(text) => Some(Query(text))
    case Parse(name, query, types) => Some(ParseMsg(name, query, types))
    case Bind(portal, statement, formats, params) => Some(BindMsg(portal, statement, [], ValuesOf(params), formats))
    case Execute(target, maxRows) => Some(ExecuteMsg(target, Clamp(maxRows, 0, INT32_MAX)))
    case Sync => Some(SyncMsg)
    case Close(kind, closed) => Some(CloseMsg(kind, closed))
    case Disconnect => Some(Terminate)
    case _ => None
  }

  lemma ReadBEAt(buf: seq<byte>, pos: nat, n: nat, x: nat)
    requires x < Pow256(n) && At(buf, pos, BE(n, x))
    ensures ReadBE(buf, pos, n) == Got(x, pos + n)
  {
    BERoundTrip(n, x);
  }

  lemma ReadBE2At(buf: seq<byte>, pos: nat, x: nat)
    requires x < 0x1_0000 && At(buf, pos, BE(2, x))
    ensures ReadBE(buf, pos, 2) == Got(x, pos + 2)
  {
    Widths();
    ReadBEAt(buf, pos, 2, x);
  }

  lemma ReadBE4At(buf: seq<byte>, pos: nat, x: nat)
    requires x <= 0xFFFF_FFFF && At(buf, pos, BE(4, x))
    ensures ReadBE(buf, pos, 4) == Got(x, pos + 4)
  {
    Widths();
    ReadBEAt(buf, pos, 4, x);
  }

  lemma {:induction false} ReadCStrAt(buf: seq<byte>, pos: nat, s: seq<byte>)
    requires NoZero(s) && At(buf, pos, CStr(s))
    ensures ReadCStr(buf, pos) == Got(s, pos + |s| + 1)
    decreases |s|
  {
    assert buf[pos] == CStr(s)[0] by {
      assert buf[pos] == buf[pos..pos + |s| + 1][0];
    }
    if |s| > 0 {
      assert CStr(s) == [s[0]] + CStr(s[1..]);
      AtSplit(buf, pos, [s[0]], CStr(s[1..]));
      ReadCStrAt(buf, pos + 1, s[1..]);
      assert s == [s[0]] + s[1..];
    }
  }

  lemma {:induction false} ReadBEIntsAt(buf: seq<byte>, pos: nat, width: nat, xs: seq<nat>, i: nat)
    requires i <= |xs| && forall k :: 0 <= k < |xs| ==> xs[k] < Pow256(width)
    requires At(buf, pos, BEInts(width, xs, i))
    ensures ReadBEInts(buf, pos, width, |xs| - i) == Got(xs[i..], pos + |BEInts(width, xs, i)|)
    decreases |xs| - i
  {
    hide At, ReadBE, BE;
    if i < |xs| {
      AtSplit(buf, pos, BE(width, xs[i]), BEInts(width, xs, i + 1));
      ReadBEAt(buf, pos, width, xs[i]);
      ReadBEIntsAt(buf, pos + width, width, xs, i + 1);
      assert xs[i..] == [xs[i]] + xs[i + 1..];
    }
  }

  lemma ReadAllBEIntsAt(buf: seq<byte>, pos: nat, width: nat, xs: seq<nat>)
    requires (width == 2 && forall k :: 0 <= k < |xs| ==> xs[k] < 0x1_0000)
          || (width == 4 && forall k :: 0 <= k < |xs| ==> xs[k] <= 0xFFFF_FFFF)
    requires At(buf, pos, BEInts(width, xs, 0))
    ensures ReadBEInts(buf, pos, width, |xs|) == Got(xs, pos + |BEInts(width, xs, 0)|)
  {
    hide At, ReadBEInts, BEInts;
    Widths();
    ReadBEIntsAt(buf, pos, width, xs, 0);
    assert xs[0..] == xs;
  }

  lemma ReadValueAt(buf: seq<byte>, pos: nat, v: Option<seq<byte>>)
    requires (v.Some? ==> |v.value| < 0xFFFF_FFFF) && At(buf, pos, ValueBytes(v))
    ensures ReadValue(buf, pos) == Got(v, pos + |ValueBytes(v)|)
  {
    match v
    case None => ReadBE4At(buf, pos, 0xFFFF_FFFF);
    case Some(b) =>
      AtSplit(buf, pos, BE(4, |b|), b);
      ReadBE4At(buf, pos, |b|);
  }

  lemma {:induction false} ReadValuesAt(buf: seq<byte>, pos: nat, params: seq<CF.Param>, i: nat)
    requires i <= |params| && forall k :: 0 <= k < |params| ==> CF.ParamOk(params[k])
    requires At(buf, pos, Values(params, i))
    ensures ReadValues(buf, pos, |params| - i) == Got(ValuesOf(params)[i..], pos + |Values(params, i)|)
    decreases |params| - i
  {
    hide At, ReadValue, ValueBytes;
    if i < |params| {
      assert CF.ParamOk(params[i]);
      var v := params[i].value;
      AtSplit(buf, pos, ValueBytes(v), Values(params, i + 1));
      ReadValueAt(buf, pos, v);
      ReadValuesAt(buf, pos + |ValueBytes(v)|, params, i + 1);
      assert ValuesOf(params)[i..] == [v] + ValuesOf(params)[i + 1..];
    }
  }

  lemma ReadParseMsgAt(buf: seq<byte>, pos: nat, e: CF.Event)
    requires e.Parse? && FromC(e) && At(buf, pos, ParseBody(e.name, e.query, e.types))
    ensures ReadParseMsg(buf, pos) == Got(ParseMsg(e.name, e.query, e.types), pos + |ParseBody(e.name, e.query, e.types)|)
  {
    hide At, ReadCStr, ReadBE, ReadBEInts, BE, BEInts;
    var d := BE(2, |e.types|) + BEInts(4, e.types, 0);
    AtSplit(buf, pos, CStr(e.name), CStr(e.query) + d);
    ReadCStrAt(buf, pos, e.name);
    var p := pos + |e.name| + 1;
    AtSplit(buf, p, CStr(e.query), d);
    ReadCStrAt(buf, p, e.query);
    var q := p + |e.query| + 1;
    AtSplit(buf, q, BE(2, |e.types|), BEInts(4, e.types, 0));
    ReadBE2At(buf, q, |e.types|);
    ReadAllBEIntsAt(buf, q + 2, 4, e.types);
  }

  lemma ReadBindTailAt(buf: seq<byte>, pos: nat, formats: seq<nat>, params: seq<CF.Param>)
    requires |formats| < 0x1_0000 && |params| < 0x1_0000
    requires forall i :: 0 <= i < |formats| ==> formats[i] < 0x1_0000
    requires forall i :: 0 <= i < |params| ==> CF.ParamOk(params[i])
    requires At(buf, pos, BindTail(formats, params))
    ensures ReadBindTail(buf, pos) == Got((ValuesOf(params), formats), pos + |BindTail(formats, params)|)
  {
    hide At, ReadValues, ReadBE, ReadBEInts, BE, BEInts, Values, ValuesOf;
    var b := BE(2, |formats|) + BEInts(2, formats, 0);
    AtSplit(buf, pos, BE(2, |params|), Values(params, 0) + b);
    ReadBE2At(buf, pos, |params|);
    AtSplit(buf, pos + 2, Values(params, 0), b);
    ReadValuesAt(buf, pos + 2, params, 0);
    assert ValuesOf(params)[0..] == ValuesOf(params);
    var q := pos + 2 + |Values(params, 0)|;
    AtSplit(buf, q, BE(2, |formats|), BEInts(2, formats, 0));
    ReadBE2At(buf, q, |formats|);
    ReadAllBEIntsAt(buf, q + 2, 2, formats);
  }

  lemma ReadBindMsgAt(buf: seq<byte>, pos: nat, e: CF.Event)
    requires e.Bind? && FromC(e) && At(buf, pos, BindBody(e.portal, e.statement, e.formats, e.params))
    ensures ReadBindMsg(buf, pos) ==
            Got(Meaning(e).value, pos + |BindBody(e.portal, e.statement, e.formats, e.params)|)
  {
    hide At, ReadCStr, ReadBE, ReadBindTail, BE, BindTail, ValuesOf;
    var t := BindTail(e.formats, e.params);
    AtSplit(buf, pos, CStr(e.portal), CStr(e.statement) + (BE(2, 0) + t));
    ReadCStrAt(buf, pos, e.portal);
    var p := pos + |e.portal| + 1;
    AtSplit(buf, p, CStr(e.statement), BE(2, 0) + t);
    ReadCStrAt(buf, p, e.statement);
    var q := p + |e.statement| + 1;
    AtSplit(buf, q, BE(2, 0), t);
    ReadBE2At(buf, q, 0);
    ReadBindTailAt(buf, q + 2, e.formats, e.params);
  }

  /** The body an event's frame is built around. */
  function BodyOf(e: CF.Event): seq<byte>
    requires Meaning(e).Some?
  {
    match e
    case Connect(session) => CStr(RestoreQuery(session))
    case SimpleQuery(text) => CStr(text)
    case Parse(name, query, types) => ParseBody(name, query, types)
    case Bind(portal, statement, formats, params) => BindBody(portal, statement, formats, params)
    case Execute(target, maxRows) => CStr(target) + BE(4, Clamp(maxRows, 0, INT32_MAX))
    case Close(kind, closed) => [kind] + CStr(closed)
    case _ => []
  }

  lemma ReadExecuteMsgAt(buf: seq<byte>, pos: nat, target: seq<byte>, rows: nat)
    requires NoZero(target) && rows <= INT32_MAX && At(buf, pos, CStr(target) + BE(4, rows))
    ensures ReadFrontBody(F_EXECUTE, buf, pos) == Got(ExecuteMsg(target, rows), pos + |CStr(target) + BE(4, rows)|)
  {
    hide At, ReadCStr, ReadBE, NoZero, BE;
    AtSplit(buf, pos, CStr(target), BE(4, rows));
    ReadCStrAt(buf, pos, target);
    ReadBE4At(buf, pos + |target| + 1, rows);
  }

  lemma ReadCloseMsgAt(buf: seq<byte>, pos: nat, kind: byte, closed: seq<byte>)
    requires NoZero(closed) && At(buf, pos, [kind] + CStr(closed))
    ensures ReadFrontBody(F_CLOSE, buf, pos) == Got(CloseMsg(kind, closed), pos + |[kind] + CStr(closed)|)
  {
    hide At, ReadCStr, ReadRaw, NoZero;
    AtSplit(buf, pos, [kind], CStr(closed));
    ReadCStrAt(buf, pos + 1, closed);
    ReadByteAt(buf, pos, kind);
  }

  lemma {:induction false} EscapeNoZero(s: seq<byte>)
    requires NoZero(s)
    ensures NoZero(Escape(s))
  {
    if |s| > 0 {
      EscapeNoZero(s[1..]);
    }
  }

  lemma RestoreNoZero(session: seq<byte>)
    requires NoZero(session)
    ensures NoZero(RestoreQuery(session))
  {
    EscapeNoZero(session);
  }

  lemma ReadFrontBodyAt(buf: seq<byte>, pos: nat, e: CF.Event)
    requires FromC(e) && Meaning(e).Some? && At(buf, pos, BodyOf(e))
    ensures ReadFrontBody(Emit(e).frame.value.tag, buf, pos) == Got(Meaning(e).value, pos + |BodyOf(e)|)
  {
    hide At, ReadCStr, ReadBE, ReadRaw, ReadParseMsg, ReadBindMsg, ParseBody, BindBody, ValuesOf, Frame, RestoreQuery,
         NoZero, BE;
    match e
    case Connect(session) =>
      RestoreNoZero(session);
      ReadCStrAt(buf, pos, RestoreQuery(session));
    case SimpleQuery(text) => ReadCStrAt(buf, pos, text);
    case Parse(_, _, _) => ReadParseMsgAt(buf, pos, e);
    case Bind(_, _, _, _) => ReadBindMsgAt(buf, pos, e);
    case Execute(target, maxRows) => ReadExecuteMsgAt(buf, pos, target, Clamp(maxRows, 0, INT32_MAX));
    case Close(kind, closed) => ReadCloseMsgAt(buf, pos, kind, closed);
    case Sync =>
    case Disconnect =>
  }

  lemma ReadByteAt(buf: seq<byte>, pos: nat, b: byte)
    requires At(buf, pos, [b])
    ensures ReadRaw(buf, pos, 1) == Got([b], pos + 1)
  {
  }

  lemma FramedAsBuilt(e: CF.Event)
    requires Meaning(e).Some?
    ensures var f := Emit(e).frame;
            f.Some? && f.value.data == Frame(f.value.tag, BodyOf(e)) && (Emit(e).connect <==> e.Connect?)
  {
    hide Frame, ParseBody, BindBody, RestoreQuery, Clamp, CStr, BE, ValuesOf;
    match e
    case Connect(_) =>
    case _ =>
  }

  /** The frame sent for a recorded event, read by the protocol's own rules, asks the server
      for exactly what the recorded client asked (row limits clamped to 32 bits, parameter
      types left to the statement), or to restore the session it had. */
  lemma EmitMeansTheSame(e: CF.Event)
    requires FromC(e) && Meaning(e).Some?
    ensures Emit(e).frame.Some? && (Emit(e).connect <==> e.Connect?)
    ensures ReadFront(Emit(e).frame.value) == Meaning(e)
  {
    hide ReadFrontBody, ParseBody, BindBody, ValuesOf, FromC, RestoreQuery, Clamp, CStr, Emit, Meaning;
    FramedAsBuilt(e);
    var f := Emit(e).frame.value;
    assert f.data[5..5 + |BodyOf(e)|] == BodyOf(e);
    ReadFrontBodyAt(f.data, 5, e);
  }

  /* ----- the restore query ----- */

  /** How the server reads a quoted literal: up to the first quote that is not doubled. */
  function ReadLiteral(s: seq<byte>): Option<(seq<byte>, seq<byte>)> {
    if |s| == 0 then None
    else if s[0] != QUOTE then
      match ReadLiteral(s[1..]) {
        case None => None
        case Some(r) => Some(([s[0]] + r.0, r.1))
      }
    else if |s| > 1 && s[1] == QUOTE then
      match ReadLiteral(s[2..]) {
        case None => None
        case Some(r) => Some(([QUOTE] + r.0, r.1))
      }
    else Some(([], s[1..]))
  }

  /** Whatever the session is called, the literal holds its name and ends where it should. */
  lemma {:induction false} LiteralRoundTrip(session: seq<byte>, rest: seq<byte>)
    requires |rest| == 0 || rest[0] != QUOTE
    ensures ReadLiteral(Escape(session) + [QUOTE] + rest) == Some((session, rest))
    decreases |session|
  {
    var s := Escape(session) + [QUOTE] + rest;
    if |session| == 0 {
      assert s == [QUOTE] + rest;
    } else {
      LiteralRoundTrip(session[1..], rest);
      var t := Escape(session[1..]) + [QUOTE] + rest;
      if session[0] == QUOTE {
        assert s == [QUOTE, QUOTE] + t;
        assert s[2..] == t;
      } else {
        assert s == [session[0]] + t;
        assert s[1..] == t;
      }
      assert session == [session[0]] + session[1..];
    }
  }

  /** The query sent for a connect passes the name of its session as a literal. */
  lemma RestoreNamesSession(session: seq<byte>)
    returns (literal: seq<byte>)
    ensures RestoreQuery(session) == Ascii("SELECT pgr.srestore(") + ([QUOTE] + literal)
    ensures ReadLiteral(literal) == Some((session, Ascii(")")))
  {
    hide Escape;
    literal := Escape(session) + [QUOTE] + Ascii(")");
    assert [QUOTE] + Escape(session) + [QUOTE] + Ascii(")") == [QUOTE] + literal;
    LiteralRoundTrip(session, Ascii(")"));
  }
}
