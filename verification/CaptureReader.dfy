/** The reader of src/capture.rs: a cursor over the file, moved by every read. */
module CaptureReader {
  import opened Wrappers
  import opened Bytes
  import opened CaptureFormat

  /** The whole list is the items read so far followed by the rest. */
  ghost predicate Prefixed<T>(done: seq<T>, rest: Parsed<seq<T>>, whole: Parsed<seq<T>>) {
    whole == if rest.Got? then Got(done + rest.value, rest.next) else rest
  }

  lemma StartPrefixed<T>(whole: Parsed<seq<T>>)
    ensures Prefixed([], whole, whole)
  {
    if whole.Got? {
      assert [] + whole.value == whole.value;
    }
  }

  class CaptureReader {
    const file: seq<byte>
    var at: nat
    var lsn: nat
    var startTs: nat

    ghost predicate Valid()
      reads this
    {
      at <= |file|
    }

    /** Where a read leaves the cursor: a short one uses up what is left of the file. */
    ghost predicate Moved<T>(r: Parsed<T>)
      reads this
    {
      Valid() && (r.Got? ==> at == r.next) && (r.Eof? ==> at == |file|)
    }

    constructor (file: seq<byte>)
      ensures this.file == file && Valid() && at == 0
    {
      this.file := file;
      at, lsn, startTs := 0, 0, 0;
    }

    /** A capture must begin with the synchronisation point. */
    method Open() returns (ok: bool)
      requires Valid() && at == 0
      modifies this
      ensures Valid()
      ensures ok <==> ReadMessage(file, 0).Got? && ReadMessage(file, 0).value.event.Lsn?
      ensures ok ==> var r := ReadMessage(file, 0);
                     at == r.next && lsn == r.value.event.lsn && startTs == r.value.ts
    {
      var r := ReadOne();
      ok := r.Got? && r.value.event.Lsn?;
      if ok {
        lsn := r.value.event.lsn;
        startTs := r.value.ts;
      }
    }

    method Raw(n: nat) returns (r: Parsed<seq<byte>>)
      requires Valid()
      modifies this`at
      ensures r == ReadRaw(file, old(at), n) && Moved(r)
    {
      if at + n <= |file| {
        r := Got(file[at..at + n], at + n);
        at := at + n;
      } else {
        r := Eof;
        at := |file|;
      }
    }

    method UInt(n: nat) returns (r: Parsed<nat>)
      requires Valid()
      modifies this`at
      ensures r == ReadLE(file, old(at), n) && Moved(r)
    {
      var s :- Raw(n);
      r := Got(FromLE(s.0), s.1);
    }

    method Str() returns (r: Parsed<seq<byte>>)
      requires Valid()
      modifies this`at
      ensures r == ReadStr(file, old(at)) && Moved(r)
    {
      var n :- UInt(4);
      r := Raw(n.0);
    }

    method Ints(width: nat, n: nat) returns (r: Parsed<seq<nat>>)
      requires Valid()
      modifies this`at
      ensures r == ReadInts(file, old(at), width, n) && Moved(r)
    {
      var xs: seq<nat> := [];
      StartPrefixed(ReadInts(file, at, width, n));
      for i := 0 to n
        invariant Valid()
        invariant Prefixed(xs, ReadInts(file, at, width, n - i), ReadInts(file, old(at), width, n))
      {
        ghost var here := at;
        var x :- UInt(width);
        ghost var rest := ReadInts(file, x.1, width, n - i - 1);
        if rest.Got? {
          assert xs + ([x.0] + rest.value) == xs + [x.0] + rest.value;
        }
        xs := xs + [x.0];
      }
      assert xs + [] == xs;
      r := Got(xs, at);
    }

    method OneParam() returns (r: Parsed<Param>)
      requires Valid()
      modifies this`at
      ensures r == ReadParam(file, old(at)) && Moved(r)
    {
      var oid :- UInt(4);
      var len :- UInt(4);
      if len.0 == NULL_LEN {
        return Got(Param(oid.0, None), len.1);
      }
      var v :- Raw(len.0);
      r := Got(Param(oid.0, Some(v.0)), v.1);
    }

    method Params(n: nat) returns (r: Parsed<seq<Param>>)
      requires Valid()
      modifies this`at
      ensures r == ReadParams(file, old(at), n) && Moved(r)
    {
      var xs: seq<Param> := [];
      StartPrefixed(ReadParams(file, at, n));
      for i := 0 to n
        invariant Valid()
        invariant Prefixed(xs, ReadParams(file, at, n - i), ReadParams(file, old(at), n))
      {
        var x :- OneParam();
        ghost var rest := ReadParams(file, x.1, n - i - 1);
        if rest.Got? {
          assert xs + ([x.0] + rest.value) == xs + [x.0] + rest.value;
        }
        xs := xs + [x.0];
      }
      assert xs + [] == xs;
      r := Got(xs, at);
    }

    method ParseEvent() returns (r: Parsed<Event>)
      requires Valid()
      modifies this`at
      ensures r == ReadParse(file, old(at)) && Moved(r)
    {
      var name :- Str();
      var query :- Str();
      var n :- UInt(2);
      var types :- Ints(4, n.0);
      r := Got(Parse(name.0, query.0, types.0), types.1);
    }

    method BindEvent() returns (r: Parsed<Event>)
      requires Valid()
      modifies this`at
      ensures r == ReadBind(file, old(at)) && Moved(r)
    {
      var portal :- Str();
      var statement :- Str();
      var nf :- UInt(2);
      var formats :- Ints(2, nf.0);
      var np :- UInt(2);
      var params :- Params(np.0);
      r := Got(Bind(portal.0, statement.0, formats.0, params.0), params.1);
    }

    method BodyEvent(tag: byte) returns (r: Parsed<Event>)
      requires Valid()
      modifies this`at
      ensures r == ReadEvent(tag, file, old(at)) && Moved(r)
    {
      if tag == MSG_PARSE {
        r := ParseEvent();
      } else if tag == MSG_BIND {
        r := BindEvent();
      } else if tag == MSG_EXECUTE {
        var target :- Str();
        var rows :- UInt(8);
        r := Got(Execute(target.0, FromU64(rows.0)), rows.1);
      } else if tag == MSG_TX_END {
        var c :- UInt(1);
        var xid :- UInt(4);
        var endLsn :- UInt(8);
        r := Got(TxEnd(c.0 != 0, xid.0, endLsn.0), endLsn.1);
      } else if tag == MSG_CLOSE {
        var kind :- Raw(1);
        var closed :- Str();
        r := Got(Close(kind.0[0], closed.0), closed.1);
      } else {
        r := PlainEvent(tag);
      }
    }

    method PlainEvent(tag: byte) returns (r: Parsed<Event>)
      requires Valid()
      modifies this`at
      ensures r == ReadOther(tag, file, old(at)) && Moved(r)
    {
      if tag == MSG_LSN {
        var l :- UInt(8);
        r := Got(Lsn(l.0), l.1);
      } else if tag == MSG_CONNECT {
        var session :- Str();
        r := Got(Connect(session.0), session.1);
      } else if tag == MSG_DISCONNECT {
        r := Got(Disconnect, at);
      } else if tag == MSG_SIMPLE_QUERY {
        var text :- Str();
        r := Got(SimpleQuery(text.0), text.1);
      } else if tag == MSG_SYNC {
        r := Got(Sync, at);
      } else {
        r := Bad;
      }
    }

    /** One call of read_event: Eof stands for the end of the stream, Bad for an unknown tag. */
    method ReadOne() returns (r: Parsed<Message>)
      requires Valid()
      modifies this`at
      ensures r == ReadMessage(file, old(at)) && Moved(r)
      ensures r.Got? ==> old(at) < at
    {
      MessageSettled(file, [], at);
      if at == |file| {
        return Eof;
      }
      var tag := file[at];
      at := at + 1;
      var id :- UInt(4);
      var ts :- UInt(8);
      var e :- BodyEvent(tag);
      r := Got(Message(id.0, ts.0, e.0), e.1);
    }

    /** Reading to the end yields exactly the messages ReadAll describes. */
    method Drain() returns (ms: seq<Message>, end: Ending)
      requires Valid()
      modifies this`at
      ensures Valid() && (ms, end) == ReadAll(file, old(at))
    {
      ms := [];
      assert [] + ReadAll(file, at).0 == ReadAll(file, at).0;
      while true
        invariant Valid()
        invariant var r := ReadAll(file, at); (ms + r.0, r.1) == ReadAll(file, old(at))
        decreases |file| - at
      {
        var r := ReadOne();
        if r.Eof? {
          end := EndOfStream;
          assert ms + [] == ms;
          return;
        }
        if r.Bad? {
          end := InvalidData;
          assert ms + [] == ms;
          return;
        }
        assert ms + ([r.value] + ReadAll(file, at).0) == ms + [r.value] + ReadAll(file, at).0;
        ms := ms + [r.value];
      }
    }
  }
}
