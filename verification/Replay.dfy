/** The replay end to end: from the captured messages, through the commands made of them
    (src/manager.rs) and the scheduler (src/loop.rs), to the frames a server receives. */
module Replay {
  import opened Wrappers
  import opened Bytes
  import opened Frames
  import opened Session
  import CF = CaptureFormat
  import Loop
  import C = Client
  import CaptureBuffer
  import Storage
  import Compare

  /* ----- the commands of a capture ----- */

  function CommandsOf(m: CF.Message, ts: nat): seq<Cmd> {
    var e := Emit(m.event);
    (if e.connect then [Cmd(m.id, ts, Connect)] else []) +
    (if e.frame.Some? then [Cmd(m.id, ts, Send(e.frame.value.tag, e.frame.value.data))] else [])
  }

  type Speed = r: real | r > 0.0 witness 1.0

  /** The time of a message in the replay, never before that of the message ahead of it. */
  function Relative(ts: nat, base: nat, speed: Speed, last: nat): nat {
    var scaled := ((if ts < base then 0 else ts - base) as real / speed).Floor;
    if scaled < last then last else scaled
  }

  /** The commands of the first n messages, and the time of the last of these. */
  function Commands(capture: seq<CF.Message>, n: nat, base: nat, speed: Speed): (seq<Cmd>, nat)
    requires n <= |capture|
  {
    if n == 0 then ([], 0)
    else
      var (cmds, last) := Commands(capture, n - 1, base, speed);
      var ts := Relative(capture[n - 1].ts, base, speed, last);
      (cmds + CommandsOf(capture[n - 1], ts), ts)
  }

  method Replay(capture: seq<CF.Message>, base: nat, speed: Speed) returns (sent: seq<Cmd>)
    ensures sent == Commands(capture, |capture|, base, speed).0
  {
    hide Emit, Relative;
    sent := [];
    var last := 0;
    for n := 0 to |capture|
      invariant (sent, last) == Commands(capture, n, base, speed)
    {
      var m := capture[n];
      last := Relative(m.ts, base, speed, last);
      var e := EmitEvent(m.event);
      ghost var before := sent;
      if e.connect {
        sent := sent + [Cmd(m.id, last, Connect)];
      }
      if e.frame.Some? {
        sent := sent + [Cmd(m.id, last, Send(e.frame.value.tag, e.frame.value.data))];
      }
      assert sent == before + CommandsOf(m, last);
    }
  }

  predicate MadeFrom(cmd: Cmd, m: CF.Message) {
    cmd.id == m.id &&
    match cmd.kind
    case Connect => m.event.Connect?
    case Send(tag, data) => Emit(m.event).frame == Some(Tagged(tag, data))
    case End => false
  }

  predicate MadeBy(cmd: Cmd, capture: seq<CF.Message>, n: nat, last: nat)
    requires n <= |capture|
  {
    cmd.ts <= last && exists k :: 0 <= k < n && MadeFrom(cmd, capture[k])
  }

  predicate TimesInOrder(cmds: seq<Cmd>) {
    forall i, j :: 0 <= i < j < |cmds| ==> cmds[i].ts <= cmds[j].ts
  }

  predicate AllMadeBy(cmds: seq<Cmd>, capture: seq<CF.Message>, n: nat, last: nat)
    requires n <= |capture|
  {
    forall i :: 0 <= i < |cmds| ==> MadeBy(cmds[i], capture, n, last)
  }

  lemma MoreCommands(before: seq<Cmd>, capture: seq<CF.Message>, n: nat, last: nat, ts: nat)
    requires n < |capture| && last <= ts && TimesInOrder(before) && AllMadeBy(before, capture, n, last)
    ensures var cmds := before + CommandsOf(capture[n], ts); TimesInOrder(cmds) && AllMadeBy(cmds, capture, n + 1, ts)
  {
    hide MadeFrom, CommandsOf;
    var added := CommandsOf(capture[n], ts);
    var cmds := before + added;
    forall i | 0 <= i < |added|
      ensures added[i].ts == ts && MadeFrom(added[i], capture[n])
    {
      OneCommand(capture[n], ts, i);
    }
    forall i | 0 <= i < |cmds|
      ensures MadeBy(cmds[i], capture, n + 1, ts)
    {
      if i < |before| {
        assert MadeBy(before[i], capture, n, last);
      } else {
        assert cmds[i] == added[i - |before|];
      }
    }
    forall i, j | 0 <= i < j < |cmds|
      ensures cmds[i].ts <= cmds[j].ts
    {
      assert MadeBy(cmds[i], capture, n + 1, ts);
    }
  }

  /** The scheduler is handed its commands in the order of their times, each made from a
      message of its client. */
  lemma {:induction false} CommandsInOrder(capture: seq<CF.Message>, n: nat, base: nat, speed: Speed)
    requires n <= |capture|
    ensures TimesInOrder(Commands(capture, n, base, speed).0)
    ensures AllMadeBy(Commands(capture, n, base, speed).0, capture, n, Commands(capture, n, base, speed).1)
  {
    hide Relative, CommandsOf, MadeBy;
    if n > 0 {
      CommandsInOrder(capture, n - 1, base, speed);
      var (before, last) := Commands(capture, n - 1, base, speed);
      LaterTime(capture[n - 1].ts, base, speed, last);
      MoreCommands(before, capture, n - 1, last, Relative(capture[n - 1].ts, base, speed, last));
    }
  }

  lemma LaterTime(ts: nat, base: nat, speed: Speed, last: nat)
    ensures last <= Relative(ts, base, speed, last)
  {
  }

  lemma OneCommand(m: CF.Message, ts: nat, i: nat)
    requires i < |CommandsOf(m, ts)|
    ensures MadeFrom(CommandsOf(m, ts)[i], m) && CommandsOf(m, ts)[i].ts == ts
  {
  }

  /* ----- what a client asks for, said of the capture alone ----- */

  /** A client dials, says something, which the protocol gives a meaning, or leaves. */
  datatype Ask = Dial(at: nat) | Say(at: nat, said: Option<Front>) | Leave(at: nat)

  function AskOf(cmd: Cmd): Ask {
    match cmd.kind
    case Connect => Dial(cmd.ts)
    case Send(tag, data) => Say(cmd.ts, ReadFront(Tagged(tag, data)))
    case End => Leave(cmd.ts)
  }

  function AsksOf(cmds: seq<Cmd>): seq<Ask> {
    seq(|cmds|, i requires 0 <= i < |cmds| => AskOf(cmds[i]))
  }

  /** The time since the start of the capture, divided by the speed. */
  function Scaled(m: CF.Message, base: nat, speed: Speed): nat {
    ((if m.ts < base then 0 else m.ts - base) as real / speed).Floor
  }

  /** The latest scaled time of the first n messages. */
  function Latest(capture: seq<CF.Message>, n: nat, base: nat, speed: Speed): nat
    requires n <= |capture|
  {
    if n == 0 then 0
    else
      var before, own := Latest(capture, n - 1, base, speed), Scaled(capture[n - 1], base, speed);
      if before < own then own else before
  }

  /** A connect dials, and right after that asks for the session it names; every other message
      that means something says just that; none does anything else. */
  function AsksBy(e: CF.Event, at: nat): seq<Ask> {
    (if e.Connect? then [Dial(at)] else []) + (if Meaning(e).Some? then [Say(at, Meaning(e))] else [])
  }

  function AsksIn(capture: seq<CF.Message>, n: nat, id: Id, base: nat, speed: Speed): seq<Ask>
    requires n <= |capture|
  {
    if n == 0 then []
    else
      AsksIn(capture, n - 1, id, base, speed) +
      (if capture[n - 1].id == id then AsksBy(capture[n - 1].event, Latest(capture, n, base, speed)) else [])
  }

  predicate AllFromC(capture: seq<CF.Message>, id: Id) {
    forall i :: 0 <= i < |capture| && capture[i].id == id ==> FromC(capture[i].event)
  }

  /** Dividing by the speed, up to a microsecond. */
  lemma ScaledIs(m: CF.Message, base: nat, speed: Speed)
    ensures var since := (if m.ts < base then 0 else m.ts - base) as real;
            Scaled(m, base, speed) as real <= since / speed < Scaled(m, base, speed) as real + 1.0
  {
  }

  lemma {:induction false} LatestIs(capture: seq<CF.Message>, n: nat, base: nat, speed: Speed)
    requires n <= |capture|
    ensures var latest := Latest(capture, n, base, speed);
            && (forall k :: 0 <= k < n ==> Scaled(capture[k], base, speed) <= latest)
            && (n > 0 ==> exists k :: 0 <= k < n && Scaled(capture[k], base, speed) == latest)
            && latest == Commands(capture, n, base, speed).1
  {
    hide Scaled, CommandsOf;
    if n > 0 {
      LatestIs(capture, n - 1, base, speed);
      RelativeIs(capture[n - 1], base, speed, Latest(capture, n - 1, base, speed));
    }
  }

  lemma RelativeIs(m: CF.Message, base: nat, speed: Speed, last: nat)
    ensures Relative(m.ts, base, speed, last) ==
            if Scaled(m, base, speed) < last then last else Scaled(m, base, speed)
  {
  }

  lemma MessageAsks(m: CF.Message, at: nat)
    requires FromC(m.event)
    ensures AsksOf(CommandsOf(m, at)) == AsksBy(m.event, at)
  {
    hide ReadFront, FromC, Built, RestoreQuery;
    if Meaning(m.event).Some? {
      EmitMeansTheSame(m.event);
    }
  }

  lemma ForClientMore(cmds: seq<Cmd>, m: CF.Message, at: nat, id: Id)
    ensures ForClient(cmds + CommandsOf(m, at), id) ==
            ForClient(cmds, id) + (if m.id == id then CommandsOf(m, at) else [])
  {
    hide ForClient, Emit;
    var more := CommandsOf(m, at);
    if |more| == 2 {
      assert cmds + more == cmds + [more[0]] + [more[1]];
      ForClientSnoc(cmds + [more[0]], more[1], id);
      ForClientSnoc(cmds, more[0], id);
    } else if |more| == 1 {
      assert more == [more[0]];
      ForClientSnoc(cmds, more[0], id);
    } else {
      assert cmds + more == cmds;
    }
  }

  lemma AsksBoth(a: seq<Cmd>, b: seq<Cmd>)
    ensures AsksOf(a + b) == AsksOf(a) + AsksOf(b)
  {
    hide AskOf;
  }

  /** The commands made for a client ask for exactly what its messages mean, in their order:
      nothing is left out, nothing added, and a session is asked for directly after dialling. */
  lemma {:induction false} ClientAsks(capture: seq<CF.Message>, n: nat, id: Id, base: nat, speed: Speed)
    requires n <= |capture| && AllFromC(capture, id)
    ensures AsksOf(ForClient(Commands(capture, n, base, speed).0, id)) == AsksIn(capture, n, id, base, speed)
  {
    hide CommandsOf, ForClient, AsksOf, AsksBy, FromC, Relative, Latest;
    if n == 0 {
      NobodyAsks(id);
    } else {
      ClientAsks(capture, n - 1, id, base, speed);
      var m, at := capture[n - 1], Latest(capture, n, base, speed);
      LatestIs(capture, n, base, speed);
      var before := Commands(capture, n - 1, base, speed).0;
      ForClientMore(before, m, at, id);
      if m.id == id {
        AsksBoth(ForClient(before, id), CommandsOf(m, at));
        MessageAsks(m, at);
      } else {
        assert ForClient(before, id) + [] == ForClient(before, id);
        assert AsksIn(capture, n - 1, id, base, speed) + [] == AsksIn(capture, n - 1, id, base, speed);
      }
    }
  }

  lemma NobodyAsks(id: Id)
    ensures AsksOf(ForClient([], id)) == []
  {
  }

  /** What the server records a command as, by the message it comes in. */
  function RecordedAs(kind: Kind): byte {
    match kind
    case Connect => CF.MSG_CONNECT
    case Send(tag, _) =>
      if tag == F_QUERY then CF.MSG_SIMPLE_QUERY
      else if tag == F_PARSE then CF.MSG_PARSE
      else if tag == F_BIND then CF.MSG_BIND
      else if tag == F_EXECUTE then CF.MSG_EXECUTE
      else if tag == F_SYNC then CF.MSG_SYNC
      else if tag == F_CLOSE then CF.MSG_CLOSE
      else CF.MSG_DISCONNECT
    case End => CF.MSG_DISCONNECT
  }

  /** The comparison expects of a captured message exactly what replaying it makes the server
      record, command by command, and knows the query that restores the session. */
  lemma ComparedAsReplayed(m: CF.Message, at: nat)
    ensures var caps, cmds := Compare.CapsOf(m), CommandsOf(m, at);
            && |caps| == |cmds|
            && forall i :: 0 <= i < |cmds| ==>
                 caps[i] == Compare.Cap(RecordedAs(cmds[i].kind), m.ts, m.event.Connect? && cmds[i].kind.Send?)
  {
    hide Frame, ParseBody, BindBody, RestoreQuery;
  }

  /** What is said since dialling last; leaving says goodbye unless that has been said. */
  function SaidSince(asks: seq<Ask>): seq<Option<Front>> {
    if |asks| == 0 then []
    else
      var before := SaidSince(asks[..|asks| - 1]);
      match asks[|asks| - 1]
      case Dial(_) => []
      case Say(_, said) => before + [said]
      case Leave(_) => before + (if Some(Terminate) in before then [] else [Some(Terminate)])
  }

  function ReadAll(fs: seq<Tagged>): seq<Option<Front>> {
    seq(|fs|, i requires 0 <= i < |fs| => ReadFront(fs[i]))
  }

  /* ----- the frames of executed commands ----- */

  const TERMINATE := Tagged(F_TERMINATE, Frame(F_TERMINATE, []))

  /** What a connection is sent after its last connect, frame by frame. */
  function FramesIn(cmds: seq<Cmd>): (seq<Tagged>, bool) {
    if |cmds| == 0 then ([], false)
    else
      var (fs, terminated) := FramesIn(cmds[..|cmds| - 1]);
      match cmds[|cmds| - 1].kind
      case Connect => ([], false)
      case Send(tag, data) => (fs + [Tagged(tag, data)], terminated || tag == F_TERMINATE)
      case End => (fs + (if terminated then [] else [TERMINATE]), true)
  }

  /** A frame tagged as a terminate is one, by the protocol's rules. */
  predicate Parting(cmd: Cmd) {
    cmd.kind.Send? && cmd.kind.tag == F_TERMINATE ==> ReadFront(Tagged(F_TERMINATE, cmd.kind.data)) == Some(Terminate)
  }

  lemma OnlyTerminates(f: Tagged)
    requires ReadFront(f) == Some(Terminate)
    ensures f.tag == F_TERMINATE
  {
    hide ReadBindTail, ReadBEInts, ReadCStr, ReadRaw, ReadBE;
  }

  lemma ReadsTerminate()
    ensures ReadFront(TERMINATE) == Some(Terminate)
  {
    hide BE;
    assert |Frame(F_TERMINATE, [])| == 5 by { TerminateFrame(); }
  }

  lemma ReadMore(fs: seq<Tagged>, f: Tagged)
    ensures ReadAll(fs + [f]) == ReadAll(fs) + [ReadFront(f)]
  {
    hide ReadFront;
  }

  lemma {:induction false} FramesAreSaid(cmds: seq<Cmd>)
    requires forall i :: 0 <= i < |cmds| ==> Parting(cmds[i])
    ensures ReadAll(FramesIn(cmds).0) == SaidSince(AsksOf(cmds))
    ensures FramesIn(cmds).1 <==> Some(Terminate) in SaidSince(AsksOf(cmds))
  {
    hide ReadFront;
    if |cmds| > 0 {
      hide ReadAll, AsksOf;
      var n := |cmds| - 1;
      var before, cmd := cmds[..n], cmds[n];
      FramesAreSaid(before);
      AsksBoth(before, [cmd]);
      assert before + [cmd] == cmds;
      AskAlone(cmd);
      assert AsksOf(cmds)[..|AsksOf(before)|] == AsksOf(before);
      var fs := FramesIn(before).0;
      match cmd.kind
      case Connect => NothingRead();
      case Send(tag, data) =>
        ReadMore(fs, Tagged(tag, data));
        if ReadFront(Tagged(tag, data)) == Some(Terminate) {
          OnlyTerminates(Tagged(tag, data));
        }
        assert Parting(cmds[n]);
      case End =>
        ReadsTerminate();
        ReadMore(fs, TERMINATE);
        assert fs + [] == fs;
        assert ReadAll(fs) + [] == ReadAll(fs);
    } else {
      assert AsksOf(cmds) == [];
      NothingRead();
    }
  }

  lemma NothingRead()
    ensures ReadAll([]) == []
  {
  }

  lemma AskAlone(cmd: Cmd)
    ensures AsksOf([cmd]) == [AskOf(cmd)]
  {
  }

  predicate Framed(cmds: seq<Cmd>) {
    forall i :: 0 <= i < |cmds| && cmds[i].kind.Send? ==> SelfDelimiting(Tagged(cmds[i].kind.tag, cmds[i].kind.data))
  }

  lemma {:induction false} WireSnoc(fs: seq<Tagged>, f: Tagged, i: nat)
    requires i <= |fs|
    ensures Wire(fs + [f], i) == Wire(fs, i) + f.data
    decreases |fs| - i
  {
    if i < |fs| {
      WireSnoc(fs, f, i + 1);
      assert fs[i].data + (Wire(fs, i + 1) + f.data) == fs[i].data + Wire(fs, i + 1) + f.data;
    } else {
      assert Wire(fs + [f], i) == f.data + [] == f.data;
      assert Wire(fs, i) + f.data == f.data;
    }
  }

  lemma TerminateFrame()
    ensures SelfDelimiting(TERMINATE)
  {
    assert TERMINATE.data[5..] == [];
  }

  lemma {:induction false} CarriedIsWire(cmds: seq<Cmd>)
    requires Framed(cmds)
    ensures var (fs, terminated) := FramesIn(cmds);
            && Carried(cmds) == (Wire(fs, 0), terminated)
            && forall k :: 0 <= k < |fs| ==> SelfDelimiting(fs[k])
  {
    hide SelfDelimiting, Frame;
    if |cmds| > 0 {
      hide Wire;
      var before, kind := cmds[..|cmds| - 1], cmds[|cmds| - 1].kind;
      CarriedIsWire(before);
      var (fs, terminated) := FramesIn(before);
      match kind
      case Connect => assert Wire([], 0) == [] by { NothingOnWire(); }
      case Send(tag, data) => WireSnoc(fs, Tagged(tag, data), 0);
      case End =>
        if terminated {
          assert fs + [] == fs && Wire(fs, 0) + [] == Wire(fs, 0);
        } else {
          TerminateFrame();
          WireSnoc(fs, TERMINATE, 0);
        }
    }
  }

  lemma NothingOnWire()
    ensures Wire([], 0) == []
  {
  }

  /* ----- which commands a client is given ----- */

  function ForClient(cmds: seq<Cmd>, id: Id): seq<Cmd> {
    if |cmds| == 0 then []
    else ForClient(cmds[..|cmds| - 1], id) + (if cmds[|cmds| - 1].id == id then [cmds[|cmds| - 1]] else [])
  }

  /** Without the end commands the scheduler adds. */
  function Captured(cmds: seq<Cmd>): seq<Cmd> {
    if |cmds| == 0 then []
    else Captured(cmds[..|cmds| - 1]) + (if cmds[|cmds| - 1].kind.End? then [] else [cmds[|cmds| - 1]])
  }

  lemma ForClientSnoc(cmds: seq<Cmd>, c: Cmd, id: Id)
    ensures ForClient(cmds + [c], id) == ForClient(cmds, id) + (if c.id == id then [c] else [])
  {
    assert (cmds + [c])[..|cmds|] == cmds;
  }

  lemma CapturedSnoc(cmds: seq<Cmd>, c: Cmd)
    ensures Captured(cmds + [c]) == Captured(cmds) + (if c.kind.End? then [] else [c])
  {
    assert (cmds + [c])[..|cmds|] == cmds;
  }

  lemma {:induction false} ForClientPrefix(cmds: seq<Cmd>, n: nat, id: Id)
    requires n <= |cmds|
    ensures ForClient(cmds[..n], id) <= ForClient(cmds, id)
    decreases |cmds|
  {
    if n < |cmds| {
      assert cmds[..|cmds| - 1][..n] == cmds[..n];
      ForClientPrefix(cmds[..|cmds| - 1], n, id);
    } else {
      assert cmds[..n] == cmds;
    }
  }

  lemma {:induction false} CapturedPrefix(cmds: seq<Cmd>, n: nat)
    requires n <= |cmds|
    ensures Captured(cmds[..n]) <= Captured(cmds)
    decreases |cmds|
  {
    if n < |cmds| {
      assert cmds[..|cmds| - 1][..n] == cmds[..n];
      CapturedPrefix(cmds[..|cmds| - 1], n);
    } else {
      assert cmds[..n] == cmds;
    }
  }

  lemma TailMore(held: seq<Cmd>, skipped: nat, x: Cmd)
    requires skipped <= |held|
    ensures (held + [x])[skipped..] == held[skipped..] + [x]
  {
  }

  lemma GivenNext(before: seq<Entry>, e: Entry, id: Id)
    ensures var given, now := Given(before, id), Given(before + [e], id);
            || now == []
            || (if e.Arrived? && e.cmd.id == id then now == given + [e.cmd] else now == given)
  {
    assert (before + [e])[..|before|] == before;
  }

  lemma HeldNext(before: seq<Entry>, e: Entry, id: Id)
    ensures ForClient(Loop.Received(before + [e]), id) ==
            if e.Arrived? && !e.cmd.kind.End? && e.cmd.id == id then ForClient(Loop.Received(before), id) + [e.cmd]
            else ForClient(Loop.Received(before), id)
  {
    hide ForClient, Loop.Received;
    Loop.ReceivedSnoc(before, e);
    var received := Loop.Received(before);
    if e.Arrived? && !e.cmd.kind.End? {
      ForClientSnoc(received, e.cmd, id);
      assert ForClient(received, id) + [] == ForClient(received, id);
    } else {
      assert received + [] == received;
    }
  }

  /** One more entry: what the client has been given stays a tail of what it has been sent. */
  lemma LatestNext(before: seq<Entry>, e: Entry, id: Id, skipped: nat) returns (now: nat)
    requires var held := ForClient(Loop.Received(before), id);
             skipped <= |held| && held[skipped..] == Captured(Given(before, id))
    ensures var held := ForClient(Loop.Received(before + [e]), id);
            now <= |held| && held[now..] == Captured(Given(before + [e], id))
  {
    hide ForClient, Captured, Loop.Received, Given;
    HeldNext(before, e, id);
    GivenNext(before, e, id);
    var held, given := ForClient(Loop.Received(before), id), Given(before, id);
    now := skipped;
    if Given(before + [e], id) == [] {
      NothingCaptured();
      now := |ForClient(Loop.Received(before + [e]), id)|;
    } else if e.Arrived? && e.cmd.id == id {
      CapturedSnoc(given, e.cmd);
      if e.cmd.kind.End? {
        assert Captured(given) + [] == Captured(given);
      } else {
        TailMore(held, skipped, e.cmd);
      }
    }
  }

  /** The commands accepted since the slot was created are the latest of the client's. */
  lemma {:induction false} GivenAreLatest(log: seq<Entry>, id: Id) returns (skipped: nat)
    ensures skipped <= |ForClient(Loop.Received(log), id)|
    ensures ForClient(Loop.Received(log), id)[skipped..] == Captured(Given(log, id))
    decreases |log|
  {
    if |log| == 0 {
      skipped := 0;
    } else {
      hide ForClient, Captured, Loop.Received, Given;
      var before := log[..|log| - 1];
      assert before + [log[|log| - 1]] == log;
      skipped := GivenAreLatest(before, id);
      skipped := LatestNext(before, log[|log| - 1], id, skipped);
    }
  }

  lemma NothingCaptured()
    ensures Captured([]) == []
  {
  }

  /** The frames fit a signed 32-bit length. */
  predicate Sendable(capture: seq<CF.Message>) {
    forall i :: 0 <= i < |capture| && Emit(capture[i].event).frame.Some? ==>
      |Emit(capture[i].event).frame.value.data| - 1 <= INT32_MAX
  }

  lemma {:induction false} BEIntsLength(width: nat, xs: seq<nat>, i: nat)
    requires i <= |xs|
    ensures |BEInts(width, xs, i)| == width * (|xs| - i)
    decreases |xs| - i
  {
    if i < |xs| {
      BEIntsLength(width, xs, i + 1);
    }
  }

  lemma {:induction false} ValuesFit(params: seq<CF.Param>, i: nat)
    requires i <= |params|
    ensures |Values(params, i)| <= |CF.EncParams(params, i)|
    decreases |params| - i
  {
    hide LE, BE;
    if i < |params| {
      ValuesFit(params, i + 1);
    }
  }

  lemma {:induction false} EscapeFits(s: seq<byte>)
    ensures |Escape(s)| <= 2 * |s|
  {
    if |s| > 0 {
      EscapeFits(s[1..]);
    }
  }

  /** What fits the recorder's buffer can be sent. */
  lemma RecordedIsSendable(m: CF.Message)
    requires CaptureBuffer.Emitted(CaptureBuffer.CAPTURE_BUFFER_SIZE, m).Some? && Emit(m.event).frame.Some?
    ensures |Emit(m.event).frame.value.data| - 1 <= INT32_MAX
  {
    match m.event
    case Connect(session) => EscapeFits(session);
    case Parse(_, _, types) =>
      BEIntsLength(4, types, 0);
      Storage.EncIntsLength(4, types, 0);
    case Bind(_, _, formats, params) =>
      BEIntsLength(2, formats, 0);
      Storage.EncIntsLength(2, formats, 0);
      ValuesFit(params, 0);
    case _ =>
  }

  lemma MadeFrames(cmd: Cmd, m: CF.Message)
    requires MadeFrom(cmd, m) && cmd.kind.Send? && |cmd.kind.data| - 1 <= INT32_MAX
    ensures SelfDelimiting(Tagged(cmd.kind.tag, cmd.kind.data))
  {
    hide Emit, SelfDelimiting;
    EmitSelfDelimiting(m.event);
  }

  lemma MadeParting(cmd: Cmd, m: CF.Message)
    requires MadeFrom(cmd, m)
    ensures Parting(cmd)
  {
    hide ReadFront, Frame, ParseBody, BindBody, RestoreQuery;
    ReadsTerminate();
  }

  lemma {:induction false} ForClientAmong(cmds: seq<Cmd>, id: Id)
    ensures forall c :: c in ForClient(cmds, id) ==> c in cmds && c.id == id
  {
    if |cmds| > 0 {
      ForClientAmong(cmds[..|cmds| - 1], id);
    }
  }

  lemma {:induction false} CapturedAmong(cmds: seq<Cmd>)
    ensures forall c :: c in cmds && !c.kind.End? ==> c in Captured(cmds)
  {
    if |cmds| > 0 {
      CapturedAmong(cmds[..|cmds| - 1]);
    }
  }

  /** What the scheduler has run for a client since its slot was created is, but for the end,
      a stretch of the commands made of that client's captured messages, none left out. */
  lemma DoneIsStretch(l: Loop.Loop, id: Id, cmds: seq<Cmd>) returns (a: nat)
    requires Loop.Inv(l, {}) && Loop.Received(l.log) <= cmds
    ensures var done, all := Captured(Done(l.log, id)), ForClient(cmds, id);
            a + |done| <= |all| && all[a..a + |done|] == done
  {
    hide Loop.Inv, Loop.Received, ForClient, Captured, Legal, Given, Done;
    assert Legal(l.log) by { Loop.InvAt(l, {}, id); }
    RunsInOrder(l.log, id);
    var given, done := Given(l.log, id), Done(l.log, id);
    a := GivenAreLatest(l.log, id);
    assert given[..|done|] == done;
    CapturedPrefix(given, |done|);
    var received := Loop.Received(l.log);
    assert cmds[..|received|] == received;
    ForClientPrefix(cmds, |received|, id);
    var mine, all := ForClient(received, id), ForClient(cmds, id);
    assert all[a..a + |Captured(done)|] == mine[a..][..|Captured(done)|];
  }

  /** The replay, end to end.  In every state the scheduler reaches with the commands of a
      capture, whatever the network does: a client's connection has been given its startup
      packet, one password frame for each request of the server for one, and then bytes that
      fall apart into exactly the frames of the commands run for it since its last connect; the
      socket has taken a prefix of that.  What the client has done is, but for leaving, a stretch
      of what its captured messages ask for, and the server reads from those frames just what
      was said in it since dialling last. */
  lemma ServerSeesTheCapture(l: Loop.Loop, id: Id, capture: seq<CF.Message>, base: nat, speed: Speed)
    returns (a: nat, wire: seq<byte>)
    requires Loop.Inv(l, {}) && id in l.slots && l.slots[id].conn.Some? && Sendable(capture)
    requires Loop.Received(l.log) <= Commands(capture, |capture|, base, speed).0
    ensures var conn := l.slots[id].conn.value;
            && conn.accepted <= conn.fed.c.sent
            && conn.fed.c.sent == C.Startup(l.hello(id)) + C.Answers(l.cfg, conn.fed.c.handled) + wire
    ensures Cut(wire) == FramesIn(Done(l.log, id)).0
    ensures var done, all := Captured(Done(l.log, id)), ForClient(Commands(capture, |capture|, base, speed).0, id);
            a + |done| <= |all| && all[a..a + |done|] == done
    ensures ReadAll(Cut(wire)) == SaidSince(AsksOf(Done(l.log, id)))
    ensures AllFromC(capture, id) ==>
      var done, asks := AsksOf(Captured(Done(l.log, id))), AsksIn(capture, |capture|, id, base, speed);
      a + |done| <= |asks| && asks[a..a + |done|] == done
  {
    hide Loop.Inv, Loop.Received, C.Startup, C.Answers, C.Announced, ForClient, Captured, Done, Given, Carried, FramesIn,
         SelfDelimiting, Sendable, Commands, MadeFrom, Cut, Wire, AsksOf, AsksIn, SaidSince, ReadAll, ReadFront, AllFromC;
    var cmds, done := Commands(capture, |capture|, base, speed).0, Done(l.log, id);
    a := DoneIsStretch(l, id, cmds);
    Loop.ConnectionGetsCommands(l, id);
    wire := Carried(done).0;
    forall i | 0 <= i < |done|
      ensures Parting(done[i])
      ensures done[i].kind.Send? ==> SelfDelimiting(Tagged(done[i].kind.tag, done[i].kind.data))
    {
      if done[i].kind.Send? {
        SentFrames(done, cmds, capture, base, speed, id, a, i);
      }
    }
    CarriedIsWire(done);
    var fs := FramesIn(done).0;
    CutWire(fs, 0);
    assert fs[0..] == fs;
    FramesAreSaid(done);
    if AllFromC(capture, id) {
      ClientAsks(capture, |capture|, id, base, speed);
      AsksStretch(ForClient(cmds, id), a, Captured(done));
    }
  }

  lemma AsksStretch(all: seq<Cmd>, a: nat, done: seq<Cmd>)
    requires a + |done| <= |all| && all[a..a + |done|] == done
    ensures a + |AsksOf(done)| <= |AsksOf(all)| && AsksOf(all)[a..a + |AsksOf(done)|] == AsksOf(done)
  {
    hide AskOf;
    forall i | 0 <= i < |done|
      ensures all[a + i] == done[i]
    {
      assert all[a..a + |done|][i] == all[a + i];
    }
  }

  lemma SentFrames(done: seq<Cmd>, cmds: seq<Cmd>, capture: seq<CF.Message>, base: nat, speed: Speed, id: Id, a: nat, i: nat)
    requires cmds == Commands(capture, |capture|, base, speed).0 && Sendable(capture)
    requires a + |Captured(done)| <= |ForClient(cmds, id)|
    requires ForClient(cmds, id)[a..a + |Captured(done)|] == Captured(done)
    requires i < |done| && done[i].kind.Send?
    ensures SelfDelimiting(Tagged(done[i].kind.tag, done[i].kind.data)) && Parting(done[i])
  {
    hide ForClient, Captured, Commands, SelfDelimiting, Emit, Parting;
    var c := done[i];
    CapturedAmong(done);
    ForClientAmong(cmds, id);
    assert c in Captured(done);
    assert c in ForClient(cmds, id);
    assert c in cmds;
    CommandsInOrder(capture, |capture|, base, speed);
    var j :| 0 <= j < |cmds| && cmds[j] == c;
    assert MadeBy(cmds[j], capture, |capture|, Commands(capture, |capture|, base, speed).1);
    var k :| 0 <= k < |capture| && MadeFrom(cmds[j], capture[k]);
    MadeFrames(c, capture[k]);
    MadeParting(c, capture[k]);
  }
}
