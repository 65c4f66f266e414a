/** The recording side of extension/src/capture.c: the fixed buffer one message is built in,
    and the buffer that holds the messages of a transaction until the backend goes live. */
module CaptureBuffer {
  import opened Wrappers
  import opened Bytes
  import opened CaptureFormat

  const CAPTURE_BUFFER_SIZE := 1024 * 1024
  const TX_BUF_LIMIT := 64 * 1024 * 1024

  /** What the channel or the transaction buffer gets for a message: all of it or nothing. */
  function Emitted(limit: nat, m: Message): Option<seq<byte>> {
    if |Encode(m)| <= limit then Some(Encode(m)) else None
  }

  function Text(s: Option<seq<byte>>): seq<byte> {
    s.GetOr([])
  }

  function Header(tag: byte, id: nat, ts: nat): seq<byte> {
    [tag] + LE(4, id) + LE(8, ts)
  }

  class CaptureBuffer {
    const data: array<byte>
    var pos: nat
    var overflow: bool
    /** Everything passed to CapRaw since the message was begun, kept or not. */
    ghost var written: seq<byte>

    ghost predicate Valid()
      reads this, data
    {
      && pos <= data.Length
      && (overflow <==> |written| > data.Length)
      && (!overflow ==> data[..pos] == written)
    }

    constructor (size: nat)
      ensures Valid() && fresh(data) && data.Length == size && written == []
    {
      data := new byte[size](_ => 0);
      pos, overflow, written := 0, false, [];
    }

    method CapRaw(s: seq<byte>)
      requires Valid()
      modifies this, data
      ensures Valid() && written == old(written) + s
    {
      written := written + s;
      if overflow || pos + |s| > data.Length {
        overflow := true;
        return;
      }
      forall i | 0 <= i < |s| {
        data[pos + i] := s[i];
      }
      pos := pos + |s|;
    }

    method CapUInt(width: nat, x: nat)
      requires Valid()
      modifies this, data
      ensures Valid() && written == old(written) + LE(width, x)
    {
      CapRaw(LE(width, x));
    }

    /** The length goes out as a uint32; PostgreSQL keeps every string below 1 GiB. */
    method CapBytes(s: seq<byte>)
      requires Valid() && |s| <= NULL_LEN
      modifies this, data
      ensures Valid() && written == old(written) + EncStr(s)
    {
      CapUInt(4, |s|);
      CapRaw(s);
    }

    method CapBegin(tag: byte, id: nat, ts: nat)
      requires Valid()
      modifies this, data
      ensures Valid() && written == Header(tag, id, ts)
    {
      pos, overflow, written := 0, false, [];
      CapRaw([tag]);
      CapUInt(4, id);
      CapUInt(8, ts);
    }

    /** Hands the finished message on, or drops it when it did not fit. */
    method CapEnd() returns (out: Option<seq<byte>>)
      requires Valid()
      modifies this
      ensures Valid() && written == []
      ensures out == if 0 < |old(written)| <= data.Length then Some(old(written)) else None
    {
      if overflow {
        out := None;
      } else if pos > 0 {
        out := Some(data[..pos]);
      } else {
        out := None;
      }
      pos, overflow, written := 0, false, [];
    }

    method CaptureConnect(id: nat, ts: nat, session: seq<byte>) returns (out: Option<seq<byte>>)
      requires Valid() && |session| <= NULL_LEN
      modifies this, data
      ensures Valid()
      ensures out == Emitted(data.Length, Message(id, ts, Connect(session)))
    {
      CapBegin(MSG_CONNECT, id, ts);
      CapBytes(session);
      Prepared(Message(id, ts, Connect(session)), EncStr(session));
      out := CapEnd();
    }

    /** The synchronisation point carries no length check of its own: it always fits. */
    method CaptureLsn(id: nat, ts: nat, lsn: nat) returns (out: Option<seq<byte>>)
      requires Valid()
      modifies this, data
      ensures Valid()
      ensures out == Emitted(data.Length, Message(id, ts, Lsn(lsn)))
    {
      CapBegin(MSG_LSN, id, ts);
      CapUInt(8, lsn);
      Prepared(Message(id, ts, Lsn(lsn)), LE(8, lsn));
      out := CapEnd();
    }

    method CaptureDisconnect(id: nat, ts: nat) returns (out: Option<seq<byte>>)
      requires Valid()
      modifies this, data
      ensures Valid()
      ensures out == Emitted(data.Length, Message(id, ts, Disconnect))
    {
      CapBegin(MSG_DISCONNECT, id, ts);
      Prepared(Message(id, ts, Disconnect), []);
      assert written == written + [];
      out := CapEnd();
    }

    method CaptureSync(id: nat, ts: nat) returns (out: Option<seq<byte>>)
      requires Valid()
      modifies this, data
      ensures Valid()
      ensures out == Emitted(data.Length, Message(id, ts, Sync))
    {
      CapBegin(MSG_SYNC, id, ts);
      Prepared(Message(id, ts, Sync), []);
      assert written == written + [];
      out := CapEnd();
    }

    method CaptureSimpleQuery(id: nat, ts: nat, query: seq<byte>) returns (out: Option<seq<byte>>)
      requires Valid() && |query| <= NULL_LEN
      modifies this, data
      ensures Valid()
      ensures out == Emitted(data.Length, Message(id, ts, SimpleQuery(query)))
    {
      CapBegin(MSG_SIMPLE_QUERY, id, ts);
      CapBytes(query);
      Prepared(Message(id, ts, SimpleQuery(query)), EncStr(query));
      out := CapEnd();
    }

    method CaptureExecute(id: nat, ts: nat, portal: Option<seq<byte>>, maxRows: int)
      returns (out: Option<seq<byte>>)
      requires Valid() && |Text(portal)| <= NULL_LEN
      modifies this, data
      ensures Valid()
      ensures out == Emitted(data.Length, Message(id, ts, Execute(Text(portal), maxRows)))
    {
      CapBegin(MSG_EXECUTE, id, ts);
      CapBytes(Text(portal));
      CapUInt(8, ToU64(maxRows));
      Prepared(Message(id, ts, Execute(Text(portal), maxRows)), EncStr(Text(portal)) + LE(8, ToU64(maxRows)));
      Regroup(Header(MSG_EXECUTE, id, ts), EncStr(Text(portal)), LE(8, ToU64(maxRows)));
      out := CapEnd();
    }

    method CaptureClose(id: nat, ts: nat, kind: byte, target: Option<seq<byte>>)
      returns (out: Option<seq<byte>>)
      requires Valid() && |Text(target)| <= NULL_LEN
      modifies this, data
      ensures Valid()
      ensures out == Emitted(data.Length, Message(id, ts, Close(kind, Text(target))))
    {
      CapBegin(MSG_CLOSE, id, ts);
      CapRaw([kind]);
      CapBytes(Text(target));
      Prepared(Message(id, ts, Close(kind, Text(target))), [kind] + EncStr(Text(target)));
      Regroup(Header(MSG_CLOSE, id, ts), [kind], EncStr(Text(target)));
      out := CapEnd();
    }

    /** A missing array of parameter types stands for n zeros. */
    method CaptureParse(id: nat, ts: nat, name: Option<seq<byte>>, query: seq<byte>,
                        types: Option<seq<nat>>, n: nat)
      returns (out: Option<seq<byte>>)
      requires Valid() && |Text(name)| <= NULL_LEN && |query| <= NULL_LEN
      requires types.Some? ==> |types.value| == n
      modifies this, data
      ensures Valid()
      ensures out == Emitted(data.Length, Message(id, ts, Parse(Text(name), query, types.GetOr(seq(n, _ => 0)))))
    {
      var all := types.GetOr(seq(n, _ => 0));
      CapBegin(MSG_PARSE, id, ts);
      CapBytes(Text(name));
      CapBytes(query);
      CapUInt(2, n);
      CapInts(4, all);
      ghost var h := Header(MSG_PARSE, id, ts);
      ghost var d := LE(2, n) + EncInts(4, all, 0);
      Regroup(h + EncStr(Text(name)) + EncStr(query), LE(2, n), EncInts(4, all, 0));
      Regroup(h + EncStr(Text(name)), EncStr(query), d);
      Regroup(h, EncStr(Text(name)), EncStr(query) + d);
      Prepared(Message(id, ts, Parse(Text(name), query, all)), EncStr(Text(name)) + (EncStr(query) + d));
      out := CapEnd();
    }

    method CapInts(width: nat, xs: seq<nat>)
      requires Valid()
      modifies this, data
      ensures Valid() && written == old(written) + EncInts(width, xs, 0)
    {
      for i := 0 to |xs|
        invariant Valid() && written + EncInts(width, xs, i) == old(written) + EncInts(width, xs, 0)
      {
        Regroup(written, LE(width, xs[i]), EncInts(width, xs, i + 1));
        CapUInt(width, xs[i]);
      }
      assert written + [] == written;
    }

    method CaptureParam(p: Param)
      requires Valid() && (p.value.Some? ==> |p.value.value| < NULL_LEN)
      modifies this, data
      ensures Valid() && written == old(written) + EncParam(p)
    {
      CapUInt(4, p.oid);
      if p.value.None? {
        CapUInt(4, NULL_LEN);
      } else {
        CapBytes(p.value.value);
      }
      Regroup(old(written), LE(4, p.oid), if p.value.None? then LE(4, NULL_LEN) else EncStr(p.value.value));
    }

    method CapParams(ps: seq<Param>)
      requires Valid()
      requires forall p :: p in ps ==> p.value.Some? ==> |p.value.value| < NULL_LEN
      modifies this, data
      ensures Valid() && written == old(written) + EncParams(ps, 0)
    {
      for i := 0 to |ps|
        invariant Valid() && written + EncParams(ps, i) == old(written) + EncParams(ps, 0)
      {
        Regroup(written, EncParam(ps[i]), EncParams(ps, i + 1));
        CaptureParam(ps[i]);
      }
      assert written + [] == written;
    }

    /** A missing parameter list stands for an empty one. */
    method CaptureBind(id: nat, ts: nat, portal: Option<seq<byte>>, statement: Option<seq<byte>>,
                       formats: seq<nat>, params: Option<seq<Param>>)
      returns (out: Option<seq<byte>>)
      requires Valid() && |Text(portal)| <= NULL_LEN && |Text(statement)| <= NULL_LEN
      requires forall p :: p in params.GetOr([]) ==> p.value.Some? ==> |p.value.value| < NULL_LEN
      modifies this, data
      ensures Valid()
      ensures out == Emitted(data.Length, Message(id, ts, Bind(Text(portal), Text(statement), formats, params.GetOr([]))))
    {
      var ps := params.GetOr([]);
      CapBegin(MSG_BIND, id, ts);
      CapBytes(Text(portal));
      CapBytes(Text(statement));
      CapUInt(2, |formats|);
      CapInts(2, formats);
      CapUInt(2, |ps|);
      CapParams(ps);
      ghost var h := Header(MSG_BIND, id, ts) + EncStr(Text(portal)) + EncStr(Text(statement));
      RegroupValues(h, formats, ps);
      Regroup(Header(MSG_BIND, id, ts) + EncStr(Text(portal)), EncStr(Text(statement)), EncValues(formats, ps));
      Regroup(Header(MSG_BIND, id, ts), EncStr(Text(portal)), EncStr(Text(statement)) + EncValues(formats, ps));
      Prepared(Message(id, ts, Bind(Text(portal), Text(statement), formats, ps)),
               EncStr(Text(portal)) + (EncStr(Text(statement)) + EncValues(formats, ps)));
      out := CapEnd();
    }
  }

  lemma Regroup(a: seq<byte>, b: seq<byte>, c: seq<byte>)
    ensures a + b + c == a + (b + c)
  {
  }

  lemma RegroupValues(h: seq<byte>, formats: seq<nat>, ps: seq<Param>)
    ensures h + LE(2, |formats|) + EncInts(2, formats, 0) + LE(2, |ps|) + EncParams(ps, 0) == h + EncValues(formats, ps)
  {
    var d := LE(2, |ps|) + EncParams(ps, 0);
    Regroup(h + LE(2, |formats|) + EncInts(2, formats, 0), LE(2, |ps|), EncParams(ps, 0));
    Regroup(h + LE(2, |formats|), EncInts(2, formats, 0), d);
    Regroup(h, LE(2, |formats|), EncInts(2, formats, 0) + d);
  }

  lemma Prepared(m: Message, body: seq<byte>)
    requires EncBody(m.event) == body
    ensures Encode(m) == Header(Tag(m.event), m.id, m.ts) + body
  {
  }

  /* ----- what is emitted can be read back ----- */

  /** The ranges the C parameter types give: no bound on the strings. */
  predicate Typed(m: Message) {
    && m.id <= NULL_LEN && m.ts < TWO_TO_64
    && match m.event {
       case Lsn(lsn) => lsn < TWO_TO_64
       case Parse(_, _, types) => |types| < 0x1_0000 && forall i :: 0 <= i < |types| ==> types[i] <= NULL_LEN
       case Bind(_, _, formats, params) =>
         && |formats| < 0x1_0000 && |params| < 0x1_0000
         && (forall i :: 0 <= i < |formats| ==> formats[i] < 0x1_0000)
         && (forall i :: 0 <= i < |params| ==> params[i].oid <= NULL_LEN)
       case Execute(_, maxRows) => -TWO_TO_64 / 2 <= maxRows < TWO_TO_64 / 2
       case TxEnd(_, xid, endLsn) => xid <= NULL_LEN && endLsn < TWO_TO_64
       case _ => true
     }
  }

  lemma {:induction false} ParamFits(ps: seq<Param>, i: nat, k: nat)
    requires i <= k < |ps| && ps[k].value.Some?
    ensures |ps[k].value.value| <= |EncParams(ps, i)|
    decreases k - i
  {
    if i < k {
      ParamFits(ps, i + 1, k);
    }
  }

  /** Because an emitted message fits the buffer, its length fields are exact and no length
      is mistaken for the NULL marker: the reader gives the message back. */
  lemma EmittedIsReadable(m: Message)
    requires Typed(m) && Emitted(CAPTURE_BUFFER_SIZE, m).Some?
    ensures MessageOk(m)
    ensures ReadMessage(Emitted(CAPTURE_BUFFER_SIZE, m).value, 0) == Got(m, |Encode(m)|)
  {
    if m.event.Bind? {
      forall k | 0 <= k < |m.event.params| ensures ParamOk(m.event.params[k]) {
        if m.event.params[k].value.Some? {
          ParamFits(m.event.params, 0, k);
        }
      }
    }
    assert MessageOk(m);
    assert Encode(m)[0..|Encode(m)|] == Encode(m);
    ReadMessageAt(Encode(m), 0, m);
  }

  /* ----- the transaction buffer ----- */

  /** Each buffered message, from ms[i] on, preceded by its length. */
  function Framed(ms: seq<seq<byte>>, i: nat): seq<byte>
    requires i <= |ms|
    decreases |ms| - i
  {
    if i == |ms| then [] else LE(4, |ms[i]|) + ms[i] + Framed(ms, i + 1)
  }

  lemma {:induction false} FramedSnoc(ms: seq<seq<byte>>, m: seq<byte>, i: nat)
    requires i <= |ms|
    ensures Framed(ms + [m], i) == Framed(ms, i) + (LE(4, |m|) + m)
    decreases |ms| - i
  {
    if i < |ms| {
      FramedSnoc(ms, m, i + 1);
    } else {
      assert Framed(ms + [m], i + 1) == [];
    }
  }

  /** What a flush of the buffered messages hands to the channel: all in order, or none
      when together with their lengths they exceed the limit. */
  function Flushed(limit: nat, ms: seq<seq<byte>>): seq<seq<byte>> {
    if |Framed(ms, 0)| <= limit then ms else []
  }

  class TxBuffer {
    var buf: seq<byte>
    var overflow: bool
    /** The messages added since the last reset. */
    ghost var added: seq<seq<byte>>

    ghost predicate Valid()
      reads this
    {
      && (overflow <==> |Framed(added, 0)| > TX_BUF_LIMIT)
      && (!overflow ==> buf == Framed(added, 0))
      && |buf| <= TX_BUF_LIMIT
      && (forall i :: 0 <= i < |added| ==> |added[i]| <= NULL_LEN)
    }

    constructor ()
      ensures Valid() && added == []
    {
      buf, overflow, added := [], false, [];
    }

    method Add(m: seq<byte>)
      requires Valid() && |m| <= NULL_LEN
      modifies this
      ensures Valid() && added == old(added) + [m]
    {
      FramedSnoc(added, m, 0);
      added := added + [m];
      if overflow {
        return;
      }
      if |buf| + |m| + 4 > TX_BUF_LIMIT {
        overflow := true;
        return;
      }
      buf := buf + LE(4, |m|);
      buf := buf + m;
    }

    method Reset()
      requires Valid()
      modifies this
      ensures Valid() && added == []
    {
      overflow := false;
      buf := [];
      added := [];
    }

    /** Walks the length prefixes and hands the messages over one by one. */
    method Flush() returns (out: seq<seq<byte>>)
      requires Valid()
      modifies this
      ensures Valid() && added == []
      ensures out == Flushed(TX_BUF_LIMIT, old(added))
      ensures |Framed(old(added), 0)| <= TX_BUF_LIMIT ==> out == old(added)
      ensures |Framed(old(added), 0)| > TX_BUF_LIMIT ==> out == []
    {
      out := [];
      if !overflow {
        ghost var n := 0;
        var pos: nat := 0;
        while pos < |buf|
          invariant unchanged(this)
          invariant n <= |added| && pos <= |buf| && buf[pos..] == Framed(added, n)
          invariant out == added[..n]
          decreases |added| - n
        {
          NextFrame(buf, pos, added, n);
          var l := FromLE(buf[pos..pos + 4]);
          pos := pos + 4;
          out := out + [buf[pos..pos + l]];
          pos := pos + l;
          n := n + 1;
        }
        assert |Framed(added, n)| == 0;
        assert out == added;
      }
      Reset();
    }
  }

  /** At a position where a framed message begins, its length and bytes can be read off. */
  lemma NextFrame(buf: seq<byte>, pos: nat, ms: seq<seq<byte>>, n: nat)
    requires pos < |buf| && n <= |ms| && buf[pos..] == Framed(ms, n)
    requires forall i :: 0 <= i < |ms| ==> |ms[i]| <= NULL_LEN
    ensures n < |ms| && pos + 4 + |ms[n]| <= |buf|
    ensures FromLE(buf[pos..pos + 4]) == |ms[n]|
    ensures buf[pos + 4..pos + 4 + |ms[n]|] == ms[n]
    ensures buf[pos + 4 + |ms[n]|..] == Framed(ms, n + 1)
  {
    hide FromLE, LE;
    assert n < |ms|;
    var m := ms[n];
    var w := buf[pos..];
    assert w == LE(4, |m|) + (m + Framed(ms, n + 1));
    assert buf[pos..pos + 4] == w[..4] == LE(4, |m|);
    assert buf[pos + 4..pos + 4 + |m|] == w[4..4 + |m|] == m;
    assert buf[pos + 4 + |m|..] == w[4 + |m|..] == Framed(ms, n + 1);
    assert |m| < Pow256(4) by { Widths(); }
    LERoundTrip(4, |m|);
  }
}
