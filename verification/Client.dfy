/** A replaying connection (src/client.rs): cutting the server's bytes into frames, the
    connection states, and what is sent.  Server messages are read as in src/proto.rs. */
module Client {
  import opened Wrappers
  import opened Bytes
  import opened Frames
  import Stream

  const B_AUTH_REQUEST: byte := 82
  const B_BACKEND_KEY_DATA: byte := 75
  const B_ERROR: byte := 69
  const B_READY_FOR_QUERY: byte := 90

  /* ----- server messages ----- */

  datatype ServerMsg =
    | AuthOk
    | AuthCleartext
    | AuthMd5(salt: seq<byte>)
    | AuthUnsupported
    | ReadyForQuery
    | ErrorResponse
    | Other
    | Malformed

  function ParseMessage(tag: byte, data: seq<byte>): ServerMsg {
    if tag == B_AUTH_REQUEST then
      if |data| < 4 then Malformed
      else
        var code := FromBE(data[..4]);
        if code == 0 then AuthOk
        else if code == 3 then AuthCleartext
        else if code == 5 then (if |data| < 8 then Malformed else AuthMd5(data[4..8]))
        else AuthUnsupported
    else if tag == B_BACKEND_KEY_DATA then (if |data| < 8 then Malformed else Other)
    else if tag == B_READY_FOR_QUERY then ReadyForQuery
    else if tag == B_ERROR then ErrorResponse
    else Other
  }

  lemma FourBytes(s: seq<byte>, k: nat)
    requires |s| == 4 && k < 256
    ensures FromBE(s) == k <==> s == [0, 0, 0, k as byte]
  {
    assert s == [s[0], s[1], s[2], s[3]];
    assert s[..3][..2][..1] == [s[0]] && s[..3][..2] == [s[0], s[1]] && s[..3] == [s[0], s[1], s[2]];
    assert FromBE([s[0]]) == s[0] as nat;
    assert FromBE(s) == 256 * FromBE(s[..3]) + s[3] as nat;
    assert FromBE(s[..3]) == 256 * FromBE(s[..3][..2]) + s[2] as nat;
    assert FromBE(s[..3][..2]) == 256 * FromBE(s[..3][..2][..1]) + s[1] as nat;
  }

  /* ----- the connection ----- */

  /** The password, and the digest of the MD5 exchange, which is not modelled. */
  datatype Config = Config(password: Option<seq<byte>>, md5: (seq<byte>, seq<byte>) -> seq<byte>)

  datatype State = Connecting | Normal | Dead

  /** `sent` is every byte given to send_frame, `handled` every frame taken from the server. */
  datatype Client = Client(
    state: State, sentTerminate: bool, rfq: bool,
    reqIndex: nat, respIndex: nat,
    sent: seq<byte>, handled: seq<Tagged>)
  {
    predicate Alive() { state != Dead }

    function Send(data: seq<byte>): Client {
      this.(sent := sent + data, reqIndex := reqIndex + 1)
    }
  }

  /** The startup packet, which has no tag. */
  function Startup(params: seq<byte>): seq<byte> {
    BE(4, |params| + 9) + BE(4, 196608) + params + [0]
  }

  function Fresh(params: seq<byte>): Client {
    Client(Connecting, false, false, 0, 0, [], []).Send(Startup(params))
  }

  function PasswordFrame(pass: seq<byte>): seq<byte> {
    Frame(112, CStr(pass))
  }

  function HandleAuth(cfg: Config, c: Client, m: ServerMsg): Client {
    match m
    case AuthCleartext =>
      if cfg.password.Some? then c.Send(PasswordFrame(cfg.password.value)) else c.(state := Dead)
    case AuthMd5(salt) =>
      if cfg.password.Some? then c.Send(PasswordFrame(cfg.md5(cfg.password.value, salt))) else c.(state := Dead)
    case AuthUnsupported => c.(state := Dead)
    case _ => c
  }

  function HandleFrame(cfg: Config, c: Client, tag: byte, data: seq<byte>): Client {
    var c := c.(handled := c.handled + [Tagged(tag, data)]);
    var m := ParseMessage(tag, data);
    match c.state
    case Dead => c
    case Connecting =>
      (if m == ReadyForQuery then c.(state := Normal, rfq := true) else HandleAuth(cfg, c, m)).(respIndex := c.respIndex + 1)
    case Normal =>
      c.(rfq := c.rfq || m == ReadyForQuery, respIndex := c.respIndex + 1)
  }

  /** Only an established connection sends what is replayed. */
  function ReplayFrame(c: Client, tag: byte, data: seq<byte>): Client {
    if c.state != Normal then c
    else c.(sentTerminate := c.sentTerminate || tag == F_TERMINATE).Send(data)
  }

  function OnReplayEnd(c: Client): Client {
    if c.sentTerminate then c else ReplayFrame(c, F_TERMINATE, Frame(F_TERMINATE, []))
  }

  /* ----- what the server says ----- */

  predicate IsReady(f: Tagged) {
    f.tag == B_READY_FOR_QUERY
  }

  /** A ready-for-query is among the frames. */
  predicate Announced(fs: seq<Tagged>) {
    exists k :: 0 <= k < |fs| && IsReady(fs[k])
  }

  /** The frame ends a connection that is not yet established. */
  predicate Kills(cfg: Config, f: Tagged) {
    var m := ParseMessage(f.tag, f.data);
    m.AuthUnsupported? || ((m.AuthCleartext? || m.AuthMd5?) && cfg.password.None?)
  }

  function AnswerTo(cfg: Config, f: Tagged): seq<byte> {
    match ParseMessage(f.tag, f.data)
    case AuthCleartext => if cfg.password.Some? then PasswordFrame(cfg.password.value) else []
    case AuthMd5(salt) => if cfg.password.Some? then PasswordFrame(cfg.md5(cfg.password.value, salt)) else []
    case _ => []
  }

  /** The client's side of the handshake after its startup packet: one password frame for every
      request for one that comes before the first ready-for-query. */
  function Answers(cfg: Config, fs: seq<Tagged>): seq<byte> {
    if |fs| == 0 then []
    else
      var before := fs[..|fs| - 1];
      Answers(cfg, before) + (if Announced(before) then [] else AnswerTo(cfg, fs[|fs| - 1]))
  }

  /** Which bytes of the server get which answer: a request for a password gets it in the
      clear, one for a digest gets the digest made with the four bytes that follow, and any other
      request but the message that all is well, or one that is cut off, ends the connection, as
      does a request for a password if there is none. */
  lemma AuthBytes(cfg: Config, tag: byte, data: seq<byte>)
    ensures var request := tag == 'R' as byte && |data| >= 4;
            var clear := request && data[..4] == [0, 0, 0, 3];
            var digest := request && data[..4] == [0, 0, 0, 5];
            var asks := clear || (digest && |data| >= 8);
            && AnswerTo(cfg, Tagged(tag, data)) ==
               (if !asks || cfg.password.None? then []
                else PasswordFrame(if clear then cfg.password.value else cfg.md5(cfg.password.value, data[4..8])))
            && (Kills(cfg, Tagged(tag, data)) <==>
                (asks && cfg.password.None?) || (request && !clear && !digest && data[..4] != [0, 0, 0, 0]))
  {
    hide FromBE, PasswordFrame;
    if |data| >= 4 {
      FourBytes(data[..4], 0);
      FourBytes(data[..4], 3);
      FourBytes(data[..4], 5);
    }
  }

  /** A password is sent behind the letter p and a length, with a zero behind it. */
  lemma PasswordBytes(pass: seq<byte>)
    requires |pass| + 5 <= INT32_MAX
    ensures var f := PasswordFrame(pass);
            && |f| == |pass| + 6 && f[0] == 'p' as byte && FromBE(f[1..5]) == |f| - 1
            && f[5..5 + |pass|] == pass && f[|f| - 1] == 0
  {
    Widths();
    BERoundTrip(4, |pass| + 5);
    assert PasswordFrame(pass)[1..5] == BE(4, |pass| + 5);
  }

  /** The startup packet counts itself, names version 3.0 and ends with a zero. */
  lemma StartupBytes(params: seq<byte>)
    requires |params| + 9 <= INT32_MAX
    ensures var p := Startup(params);
            && |p| == |params| + 9 && FromBE(p[..4]) == |p| && p[4..8] == [0, 3, 0, 0]
            && p[8..8 + |params|] == params && p[|p| - 1] == 0
  {
    Widths();
    BERoundTrip(4, |params| + 9);
    assert Startup(params)[..4] == BE(4, |params| + 9);
    VersionBytes();
    assert Startup(params)[4..8] == BE(4, 196608);
  }

  lemma VersionBytes()
    ensures BE(4, 196608) == [0, 3, 0, 0]
  {
    BESplit(4, 196608);
    BESplit(3, 768);
    BESplit(2, 3);
    BESplit(1, 0);
    assert BE(0, 0) == [];
  }

  lemma AnnouncedSnoc(fs: seq<Tagged>, f: Tagged)
    ensures Announced(fs + [f]) <==> Announced(fs) || IsReady(f)
  {
    hide IsReady;
    assert (fs + [f])[|fs|] == f;
    if Announced(fs) {
      var k :| 0 <= k < |fs| && IsReady(fs[k]);
      assert (fs + [f])[k] == fs[k];
    }
  }

  lemma AnswersSnoc(cfg: Config, fs: seq<Tagged>, f: Tagged)
    ensures Answers(cfg, fs + [f]) == Answers(cfg, fs) + (if Announced(fs) then [] else AnswerTo(cfg, f))
  {
    hide Announced, AnswerTo;
    assert (fs + [f])[..|fs|] == fs;
  }

  lemma AnnouncedBoth(a: seq<Tagged>, b: seq<Tagged>)
    ensures Announced(a + b) <==> Announced(a) || Announced(b)
  {
    hide IsReady;
    if Announced(a) {
      var k :| 0 <= k < |a| && IsReady(a[k]);
      assert (a + b)[k] == a[k];
    }
    if Announced(b) {
      var k :| 0 <= k < |b| && IsReady(b[k]);
      assert (a + b)[|a| + k] == b[k];
    }
  }

  /** A client that lives has sent its startup packet, its answers to what it was asked, and
      then `payload`; it is established exactly if the server has said that it is ready. */
  predicate Honest(cfg: Config, params: seq<byte>, c: Client, payload: seq<byte>) {
    c.Alive() ==>
      && c.sent == Startup(params) + Answers(cfg, c.handled) + payload
      && (c.state == Normal <==> Announced(c.handled))
      && (c.state == Connecting ==> payload == [])
  }

  lemma FreshHonest(cfg: Config, params: seq<byte>)
    ensures Honest(cfg, params, Fresh(params), [])
  {
    assert [] + Startup(params) == Startup(params) + [] + [];
  }

  /** The server's ready-for-query, and nothing else, establishes a connection; only a frame
      that kills ends one not yet established; an established one answers nothing. */
  lemma HandleFrameIs(cfg: Config, c: Client, f: Tagged)
    requires c.Alive()
    ensures var c' := HandleFrame(cfg, c, f.tag, f.data);
            && c'.handled == c.handled + [f] && c'.sentTerminate == c.sentTerminate
            && (c'.rfq <==> c.rfq || IsReady(f))
            && (c'.state == Normal <==> c.state == Normal || IsReady(f))
            && (c'.state == Dead <==> c.state == Connecting && Kills(cfg, f))
            && c'.sent == c.sent + (if c.state == Normal then [] else AnswerTo(cfg, f))
  {
    hide PasswordFrame;
    assert c.sent + [] == c.sent;
  }

  lemma HandleFrameHonest(cfg: Config, params: seq<byte>, c: Client, payload: seq<byte>, f: Tagged)
    requires c.Alive() && Honest(cfg, params, c, payload)
    ensures Honest(cfg, params, HandleFrame(cfg, c, f.tag, f.data), payload)
  {
    hide HandleFrame, AnswerTo, Answers, Announced, Startup, IsReady;
    HandleFrameIs(cfg, c, f);
    AnswersSnoc(cfg, c.handled, f);
    AnnouncedSnoc(c.handled, f);
    var opening, answer := Startup(params) + Answers(cfg, c.handled), AnswerTo(cfg, f);
    if c.state == Connecting {
      assert opening + [] + answer == opening + answer == Startup(params) + (Answers(cfg, c.handled) + answer) + [];
    } else {
      assert c.sent + [] == c.sent && Answers(cfg, c.handled) + [] == Answers(cfg, c.handled);
    }
  }

  /* ----- reading ----- */

  /** The client, the bytes not yet used, and whether the process has panicked on a frame
      whose length field is less than four. */
  datatype Fed = Fed(c: Client, pending: seq<byte>, panicked: bool) {
    predicate GoesOn() { c.Alive() && !panicked }
  }

  function Feed(cfg: Config, c: Client, buf: seq<byte>): Fed
    decreases |buf|
  {
    match TryReadFrame(buf)
    case None => Fed(c, buf, false)
    case Some(f) =>
      if f.1 < 5 then Fed(c, buf, true)
      else
        var c' := HandleFrame(cfg, c, f.0, buf[5..f.1]);
        if !c'.Alive() then Fed(c', buf[f.1..], false)
        else Feed(cfg, c', buf[f.1..])
  }

  /** Reads of the socket one after the other, until the client is dead. */
  function FeedAll(cfg: Config, f: Fed, chunks: seq<seq<byte>>, i: nat): Fed
    requires i <= |chunks|
    decreases |chunks| - i
  {
    if i == |chunks| || !f.GoesOn() then f
    else FeedAll(cfg, Feed(cfg, f.c, f.pending + chunks[i]), chunks, i + 1)
  }

  function Joined(chunks: seq<seq<byte>>, i: nat): seq<byte>
    requires i <= |chunks|
    decreases |chunks| - i
  {
    if i == |chunks| then [] else chunks[i] + Joined(chunks, i + 1)
  }

  lemma {:induction false} FeedMore(cfg: Config, c: Client, a: seq<byte>, b: seq<byte>)
    ensures var f := Feed(cfg, c, a);
            Feed(cfg, c, a + b) ==
            if f.panicked || (TryReadFrame(a).Some? && !f.c.Alive()) then f.(pending := f.pending + b)
            else Feed(cfg, f.c, f.pending + b)
    decreases |a|
  {
    hide TryReadFrame, HandleFrame;
    var r := TryReadFrame(a);
    if r.Some? {
      FrameSettled(a, b);
      var n := r.value.1;
      if n >= 5 {
        assert (a + b)[5..n] == a[5..n];
        assert (a + b)[n..] == a[n..] + b;
        var c' := HandleFrame(cfg, c, r.value.0, a[5..n]);
        if c'.Alive() {
          FeedMore(cfg, c', a[n..], b);
        }
      }
    }
  }

  /** What is left over after reading is never a whole frame. */
  lemma {:induction false} FeedLeavesPart(cfg: Config, c: Client, buf: seq<byte>)
    ensures var f := Feed(cfg, c, buf); f.GoesOn() ==> TryReadFrame(f.pending) == None
    ensures !c.Alive() && TryReadFrame(buf) == None ==> !Feed(cfg, c, buf).c.Alive()
    decreases |buf|
  {
    hide HandleFrame;
    var r := TryReadFrame(buf);
    if r.Some? && r.value.1 >= 5 {
      var c' := HandleFrame(cfg, c, r.value.0, buf[5..r.value.1]);
      if c'.Alive() {
        FeedLeavesPart(cfg, c', buf[r.value.1..]);
      }
    }
  }

  lemma {:induction false} ChunksFrom(cfg: Config, f: Fed, chunks: seq<seq<byte>>, i: nat)
    requires i <= |chunks| && f.GoesOn() && TryReadFrame(f.pending) == None
    ensures var whole := Feed(cfg, f.c, f.pending + Joined(chunks, i));
            var split := FeedAll(cfg, f, chunks, i);
            && split.c == whole.c && split.panicked == whole.panicked
            && (whole.GoesOn() ==> split == whole)
    decreases |chunks| - i
  {
    hide TryReadFrame, HandleFrame;
    if i == |chunks| {
      assert f.pending + [] == f.pending;
    } else {
      var a, b := f.pending + chunks[i], Joined(chunks, i + 1);
      var g := Feed(cfg, f.c, a);
      assert f.pending + (chunks[i] + b) == a + b;
      FeedMore(cfg, f.c, a, b);
      FeedLeavesPart(cfg, f.c, a);
      if g.GoesOn() {
        ChunksFrom(cfg, g, chunks, i + 1);
      } else if !g.panicked {
        assert TryReadFrame(a).Some?;
      }
    }
  }

  /** However the network cuts up the server's bytes, the client handles the same frames,
      reaches the same state and sends the same answers as if they had come in one piece. */
  lemma ChunkingIsInvisible(cfg: Config, params: seq<byte>, chunks: seq<seq<byte>>)
    ensures var whole := Feed(cfg, Fresh(params), Joined(chunks, 0));
            var split := FeedAll(cfg, Fed(Fresh(params), [], false), chunks, 0);
            && split.c == whole.c && split.panicked == whole.panicked
            && (whole.GoesOn() ==> split.pending == whole.pending)
  {
    assert [] + Joined(chunks, 0) == Joined(chunks, 0);
    ChunksFrom(cfg, Fed(Fresh(params), [], false), chunks, 0);
  }

  /** What reading does to a client that lives: `told` is what it has been told. */
  predicate Follows(c: Client, c': Client, told: seq<Tagged>) {
    && c'.handled == c.handled + told && c'.sentTerminate == c.sentTerminate && c.sent <= c'.sent
    && (c'.rfq <==> c.rfq || Announced(told))
  }

  lemma FollowsOn(c: Client, c1: Client, c2: Client, told1: seq<Tagged>, told2: seq<Tagged>)
    requires Follows(c, c1, told1) && Follows(c1, c2, told2)
    ensures Follows(c, c2, told1 + told2)
  {
    hide Announced;
    AnnouncedBoth(told1, told2);
    assert c.handled + told1 + told2 == c.handled + (told1 + told2);
  }

  lemma FollowsFirst(cfg: Config, c: Client, f: Tagged)
    requires c.Alive()
    ensures Follows(c, HandleFrame(cfg, c, f.tag, f.data), [f])
  {
    hide HandleFrame, IsReady;
    HandleFrameIs(cfg, c, f);
    AnnouncedSnoc([], f);
    assert [] + [f] == [f];
  }

  lemma {:induction false} FeedKeeps(cfg: Config, params: seq<byte>, c: Client, payload: seq<byte>, buf: seq<byte>)
    returns (told: seq<Tagged>)
    requires c.Alive() && Honest(cfg, params, c, payload)
    ensures Honest(cfg, params, Feed(cfg, c, buf).c, payload)
    ensures Follows(c, Feed(cfg, c, buf).c, told)
    decreases |buf|
  {
    hide HandleFrame, TryReadFrame, Honest, Follows;
    var r := TryReadFrame(buf);
    told := [];
    assert Follows(c, c, []) by { FollowsNothing(c); }
    if r.Some? {
      FrameSettled(buf, []);
      var n := r.value.1;
      if 5 <= n {
        var f := Tagged(r.value.0, buf[5..n]);
        HandleFrameHonest(cfg, params, c, payload, f);
        FollowsFirst(cfg, c, f);
        var c' := HandleFrame(cfg, c, f.tag, f.data);
        told := [f];
        if c'.Alive() {
          var more := FeedKeeps(cfg, params, c', payload, buf[n..]);
          FollowsOn(c, c', Feed(cfg, c', buf[n..]).c, told, more);
          told := told + more;
        }
      }
    }
  }

  lemma FollowsNothing(c: Client)
    ensures Follows(c, c, [])
  {
  }

  /** Reading keeps a client honest, and it has seen a ready-for-query exactly if one is among
      the frames it was told. */
  lemma {:induction false} FeedAllKeeps(cfg: Config, params: seq<byte>, f: Fed, payload: seq<byte>,
                                        chunks: seq<seq<byte>>, i: nat)
    returns (told: seq<Tagged>)
    requires i <= |chunks| && f.c.Alive() && Honest(cfg, params, f.c, payload)
    ensures Honest(cfg, params, FeedAll(cfg, f, chunks, i).c, payload)
    ensures Follows(f.c, FeedAll(cfg, f, chunks, i).c, told)
    decreases |chunks| - i
  {
    hide Feed, Honest, Follows;
    told := [];
    FollowsNothing(f.c);
    if i < |chunks| && f.GoesOn() {
      var g := Feed(cfg, f.c, f.pending + chunks[i]);
      told := FeedKeeps(cfg, params, f.c, payload, f.pending + chunks[i]);
      if g.GoesOn() {
        var more := FeedAllKeeps(cfg, params, g, payload, chunks, i + 1);
        FollowsOn(f.c, g.c, FeedAll(cfg, g, chunks, i + 1).c, told, more);
        told := told + more;
      }
    }
  }

  /* ----- the frames in the bytes ----- */

  /** The frames in front, up to an incomplete one or one that is too short to be a frame. */
  function Parts(buf: seq<byte>): seq<Tagged>
    decreases |buf|
  {
    match TryReadFrame(buf)
    case None => []
    case Some(f) => if f.1 < 5 then [] else [Tagged(f.0, buf[5..f.1])] + Parts(buf[f.1..])
  }

  /** Behind whole frames stands one whose length field is less than four. */
  predicate Short(buf: seq<byte>)
    decreases |buf|
  {
    match TryReadFrame(buf)
    case None => false
    case Some(f) => f.1 < 5 || Short(buf[f.1..])
  }

  /** A frame that kills comes before the connection is established. */
  predicate Killed(cfg: Config, state: State, fs: seq<Tagged>) {
    state == Connecting && exists k :: 0 <= k < |fs| && Kills(cfg, fs[k]) && !Announced(fs[..k])
  }

  lemma KilledFirst(cfg: Config, f: Tagged, rest: seq<Tagged>)
    ensures Killed(cfg, Connecting, [f] + rest) <==> Kills(cfg, f) || (!IsReady(f) && Killed(cfg, Connecting, rest))
  {
    hide Kills, IsReady, Announced;
    var fs := [f] + rest;
    assert !Announced([]) by { NoneAnnounced(); }
    if Kills(cfg, f) {
      assert fs[0] == f && fs[..0] == [];
    }
    forall k | 0 <= k < |rest|
      ensures fs[k + 1] == rest[k] && (Announced(fs[..k + 1]) <==> IsReady(f) || Announced(rest[..k]))
    {
      assert fs[..k + 1] == [f] + rest[..k];
      AnnouncedBoth([f], rest[..k]);
      AnnouncedSnoc([], f);
      assert [] + [f] == [f];
    }
    if Killed(cfg, Connecting, rest) {
      var k :| 0 <= k < |rest| && Kills(cfg, rest[k]) && !Announced(rest[..k]);
      assert Kills(cfg, fs[k + 1]);
    }
    if Killed(cfg, Connecting, fs) {
      var k :| 0 <= k < |fs| && Kills(cfg, fs[k]) && !Announced(fs[..k]);
      if k > 0 {
        assert Kills(cfg, rest[k - 1]);
      }
    }
  }

  lemma NoneAnnounced()
    ensures !Announced([])
  {
  }

  /** What reading comes to, from the bytes alone: the process panics exactly on a frame too
      short to be one, unless the connection was killed before; otherwise the client lives and
      has handled the frames that stand in the bytes. */
  lemma {:induction false} FeedIs(cfg: Config, c: Client, buf: seq<byte>)
    requires c.Alive()
    ensures var f, fs := Feed(cfg, c, buf), Parts(buf);
            if Killed(cfg, c.state, fs) then !f.c.Alive() && !f.panicked
            else f.c.Alive() && f.c.handled == c.handled + fs && (f.panicked <==> Short(buf))
    decreases |buf|
  {
    hide HandleFrame, TryReadFrame, Kills, IsReady, Killed;
    var r := TryReadFrame(buf);
    NothingKills(cfg, c.state);
    assert c.handled + [] == c.handled;
    if r.Some? {
      FrameSettled(buf, []);
      var n := r.value.1;
      if 5 <= n {
        var g, rest := Tagged(r.value.0, buf[5..n]), Parts(buf[n..]);
        HandleFrameIs(cfg, c, g);
        KilledFirst(cfg, g, rest);
        NormalLives(cfg, rest);
        NormalLives(cfg, [g] + rest);
        var c' := HandleFrame(cfg, c, g.tag, g.data);
        if c'.Alive() {
          FeedIs(cfg, c', buf[n..]);
          assert c.handled + [g] + rest == c.handled + ([g] + rest);
        }
      }
    }
  }

  lemma NothingKills(cfg: Config, state: State)
    ensures !Killed(cfg, state, [])
  {
  }

  lemma NormalLives(cfg: Config, fs: seq<Tagged>)
    ensures !Killed(cfg, Normal, fs)
  {
  }

  /** The same for any sequence of reads. */
  lemma FeedAllIs(cfg: Config, f: Fed, chunks: seq<seq<byte>>)
    requires f.GoesOn() && TryReadFrame(f.pending) == None
    ensures var g, buf := FeedAll(cfg, f, chunks, 0), f.pending + Joined(chunks, 0);
            && (if Killed(cfg, f.c.state, Parts(buf)) then !g.c.Alive() && !g.panicked
                else g.c.Alive() && g.c.handled == f.c.handled + Parts(buf) && (g.panicked <==> Short(buf)))
            && (g.GoesOn() ==> TryReadFrame(g.pending) == None)
  {
    hide FeedAll, Feed, Parts, Short, Killed, TryReadFrame;
    var buf := f.pending + Joined(chunks, 0);
    ChunksFrom(cfg, f, chunks, 0);
    FeedIs(cfg, f.c, buf);
    FeedLeavesPart(cfg, f.c, buf);
  }

  /** Five bytes that panic: a ready-for-query with a length of three. */
  lemma ShortFramePanics(cfg: Config, c: Client)
    requires c.Alive()
    ensures Feed(cfg, c, [B_READY_FOR_QUERY, 0, 0, 0, 3]).panicked
  {
    var buf: seq<byte> := [B_READY_FOR_QUERY, 0, 0, 0, 3];
    assert BE(4, 3) == [0, 0, 0, 3];
    assert buf[1..5] == BE(4, 3);
    Widths();
    BERoundTrip(4, 3);
  }

  /* ----- the object ----- */

  class ReplayClient {
    const cfg: Config
    const parseStream: Stream.Stream
    const out: Stream.Outbound
    var state: State
    var sentTerminate: bool
    var rfq: bool
    var reqIndex: nat
    var respIndex: nat
    ghost var handled: seq<Tagged>

    ghost predicate Valid()
      reads this, parseStream, out, out.outbox, out.writeStream
    {
      && parseStream != out.outbox && parseStream != out.writeStream
      && parseStream.Valid() && out.Valid()
    }

    ghost function Abs(): Client
      reads this, out
    {
      Client(state, sentTerminate, rfq, reqIndex, respIndex, out.sent, handled)
    }

    constructor (cfg: Config, params: seq<byte>)
      ensures Valid() && this.cfg == cfg && Abs() == Fresh(params) && parseStream.View() == []
      ensures fresh(parseStream) && fresh(out) && fresh(out.outbox) && fresh(out.writeStream)
    {
      this.cfg := cfg;
      parseStream := new Stream.Stream(65536);
      out := new Stream.Outbound(65536);
      state, sentTerminate, rfq, reqIndex, respIndex, handled := Connecting, false, false, 0, 0, [];
      new;
      SendFrame(Startup(params));
    }

    method SendFrame(data: seq<byte>)
      requires Valid()
      modifies this`reqIndex, out`sent, out.outbox
      ensures Valid() && Abs() == old(Abs()).Send(data)
    {
      out.SendFrame(data);
      reqIndex := reqIndex + 1;
    }

    method Auth(m: ServerMsg)
      requires Valid()
      modifies this`state, this`reqIndex, out`sent, out.outbox
      ensures Valid() && Abs() == HandleAuth(cfg, old(Abs()), m)
    {
      match m {
        case AuthCleartext =>
          if cfg.password.Some? {
            SendFrame(PasswordFrame(cfg.password.value));
          } else {
            state := Dead;
          }
        case AuthMd5(salt) =>
          if cfg.password.Some? {
            SendFrame(PasswordFrame(cfg.md5(cfg.password.value, salt)));
          } else {
            state := Dead;
          }
        case AuthUnsupported => state := Dead;
        case _ =>
      }
    }

    method Handle(tag: byte, data: seq<byte>)
      requires Valid()
      modifies this, out`sent, out.outbox
      ensures Valid() && Abs() == HandleFrame(cfg, old(Abs()), tag, data)
    {
      hide ParseMessage, HandleAuth;
      handled := handled + [Tagged(tag, data)];
      var m := ParseMessage(tag, data);
      match state {
        case Dead => return;
        case Connecting =>
          if m == ReadyForQuery {
            state := Normal;
            rfq := true;
          } else {
            Auth(m);
          }
        case Normal =>
          if m == ReadyForQuery {
            rfq := true;
          }
      }
      respIndex := respIndex + 1;
    }

    method Replay(tag: byte, data: seq<byte>)
      requires Valid()
      modifies this, out`sent, out.outbox
      ensures Valid() && Abs() == ReplayFrame(old(Abs()), tag, data)
      ensures old(state) != Normal ==> Abs() == old(Abs())
      ensures old(state) == Normal ==>
        && out.sent == old(out.sent) + data && state == Normal && rfq == old(rfq) && handled == old(handled)
        && (sentTerminate <==> old(sentTerminate) || tag == 'X' as byte)
    {
      if state != Normal {
        return;
      }
      if tag == F_TERMINATE {
        sentTerminate := true;
      }
      SendFrame(data);
    }

    /** Appends what was read and handles every frame that is now whole. */
    method OnRead(data: seq<byte>) returns (panicked: bool)
      requires Valid()
      modifies this, parseStream, out`sent, out.outbox
      ensures Valid()
      ensures Feed(cfg, old(Abs()), old(parseStream.View()) + data) == Fed(Abs(), parseStream.View(), panicked)
    {
      panicked := false;
      parseStream.Write(data);
      ghost var start := Feed(cfg, old(Abs()), old(parseStream.View()) + data);
      var buf := parseStream.Data();
      while TryReadFrame(buf).Some?
        invariant Valid() && buf == parseStream.View()
        invariant Feed(cfg, Abs(), buf) == start
        decreases |buf|
      {
        hide HandleFrame, FromBE;
        var f := TryReadFrame(buf).value;
        FrameSettled(buf, []);
        assert buf + [] == buf;
        if f.1 < 5 {
          panicked := true;
          return;
        }
        Handle(f.0, buf[5..f.1]);
        parseStream.MarkRead(f.1);
        assert f.1 == |buf| ==> buf[f.1..] == [];
        if state == Dead {
          return;
        }
        buf := parseStream.Data();
      }
    }
  }

  /* ----- error fields ----- */

  datatype ErrorFields = ErrorFields(
    severity: Option<seq<byte>>, code: Option<seq<byte>>, message: Option<seq<byte>>,
    detail: Option<seq<byte>>, hint: Option<seq<byte>>)

  const NO_FIELDS := ErrorFields(None, None, None, None, None)

  function SetField(e: ErrorFields, kind: byte, value: seq<byte>): ErrorFields {
    if kind == 83 then e.(severity := Some(value))
    else if kind == 67 then e.(code := Some(value))
    else if kind == 77 then e.(message := Some(value))
    else if kind == 68 then e.(detail := Some(value))
    else if kind == 72 then e.(hint := Some(value))
    else e
  }

  /** The length of the string in front: up to a zero byte or the end. */
  function ZeroAt(s: seq<byte>): (n: nat)
    ensures n <= |s|
    ensures forall i :: 0 <= i < n ==> s[i] != 0
    ensures n < |s| ==> s[n] == 0
  {
    if |s| == 0 || s[0] == 0 then 0 else 1 + ZeroAt(s[1..])
  }

  function FieldsFrom(data: seq<byte>, e: ErrorFields): ErrorFields
    decreases |data|
  {
    if |data| == 0 || data[0] == 0 then e
    else
      var n := ZeroAt(data[1..]);
      var rest := if n < |data| - 1 then data[n + 2..] else [];
      FieldsFrom(rest, SetField(e, data[0], data[1..n + 1]))
  }

  method ParseErrorFields(bytes: seq<byte>) returns (fields: ErrorFields)
    ensures fields == FieldsFrom(bytes, NO_FIELDS)
  {
    fields := NO_FIELDS;
    var data := bytes;
    while |data| > 0 && data[0] != 0
      invariant FieldsFrom(data, fields) == FieldsFrom(bytes, NO_FIELDS)
      decreases |data|
    {
      var kind := data[0];
      var n := ZeroAt(data[1..]);
      var value := data[1..n + 1];
      data := if n < |data| - 1 then data[n + 2..] else [];
      fields := SetField(fields, kind, value);
    }
  }

  datatype Field = Field(kind: byte, value: seq<byte>)

  /** How a server writes the fields: each as a type byte and a string, then a zero. */
  function FieldBytes(fs: seq<Field>, i: nat): seq<byte>
    requires i <= |fs|
    decreases |fs| - i
  {
    if i == |fs| then [0] else [fs[i].kind] + CStr(fs[i].value) + FieldBytes(fs, i + 1)
  }

  function Assigned(e: ErrorFields, fs: seq<Field>, i: nat): ErrorFields
    requires i <= |fs|
    decreases |fs| - i
  {
    if i == |fs| then e else Assigned(SetField(e, fs[i].kind, fs[i].value), fs, i + 1)
  }

  lemma ZeroAtCStr(s: seq<byte>, rest: seq<byte>)
    requires NoZero(s)
    ensures ZeroAt(CStr(s) + rest) == |s|
  {
    var t := CStr(s) + rest;
    assert t[|s|] == 0;
    forall k | 0 <= k < |s|
      ensures t[k] != 0
    {
      assert t[k] == s[k];
    }
  }

  lemma NextField(f: Field, rest: seq<byte>, e: ErrorFields)
    requires f.kind != 0 && NoZero(f.value)
    ensures FieldsFrom([f.kind] + CStr(f.value) + rest, e) == FieldsFrom(rest, SetField(e, f.kind, f.value))
  {
    hide SetField, ZeroAt;
    var v := f.value;
    var data := [f.kind] + CStr(v) + rest;
    assert data[1..] == CStr(v) + rest;
    ZeroAtCStr(v, rest);
    assert data[1..|v| + 1] == v;
    assert data[|v| + 2..] == rest;
  }

  /** Every well-formed list of fields is read back, a repeated one by its last value. */
  lemma {:induction false} FieldsRoundTrip(fs: seq<Field>, i: nat, e: ErrorFields, junk: seq<byte>)
    requires i <= |fs| && forall k :: 0 <= k < |fs| ==> fs[k].kind != 0 && NoZero(fs[k].value)
    ensures FieldsFrom(FieldBytes(fs, i) + junk, e) == Assigned(e, fs, i)
    decreases |fs| - i
  {
    hide SetField, ZeroAt, CStr;
    if i < |fs| {
      hide FieldsFrom;
      var head, tail := [fs[i].kind] + CStr(fs[i].value), FieldBytes(fs, i + 1);
      assert head + tail + junk == head + (tail + junk);
      NextField(fs[i], tail + junk, e);
      FieldsRoundTrip(fs, i + 1, SetField(e, fs[i].kind, fs[i].value), junk);
    }
  }

  /** The value of a kind, if it has one, is that of the last such field. */
  predicate IsLast(fs: seq<Field>, kind: byte, v: Option<seq<byte>>) {
    match v
    case None => forall k :: 0 <= k < |fs| ==> fs[k].kind != kind
    case Some(value) =>
      exists k :: 0 <= k < |fs| && fs[k] == Field(kind, value) && forall j :: k < j < |fs| ==> fs[j].kind != kind
  }

  lemma IsLastNext(fs: seq<Field>, f: Field, kind: byte, v: Option<seq<byte>>)
    requires IsLast(fs, kind, v)
    ensures IsLast(fs + [f], kind, if f.kind == kind then Some(f.value) else v)
  {
    var more := fs + [f];
    assert more[|fs|] == f;
    if f.kind != kind && v.Some? {
      var k :| 0 <= k < |fs| && fs[k] == Field(kind, v.value) && forall j :: k < j < |fs| ==> fs[j].kind != kind;
      assert more[k] == fs[k];
    }
  }

  /** Severity, code, message, detail and hint are kept; a field of any other kind is not. */
  predicate LastOfEach(fs: seq<Field>, e: ErrorFields) {
    && IsLast(fs, 'S' as byte, e.severity) && IsLast(fs, 'C' as byte, e.code) && IsLast(fs, 'M' as byte, e.message)
    && IsLast(fs, 'D' as byte, e.detail) && IsLast(fs, 'H' as byte, e.hint)
  }

  lemma {:induction false} AssignedIsLast(fs: seq<Field>, i: nat, e: ErrorFields)
    requires i <= |fs| && LastOfEach(fs[..i], e)
    ensures LastOfEach(fs, Assigned(e, fs, i))
    decreases |fs| - i
  {
    hide IsLast;
    if i < |fs| {
      assert fs[..i + 1] == fs[..i] + [fs[i]];
      IsLastNext(fs[..i], fs[i], 'S' as byte, e.severity);
      IsLastNext(fs[..i], fs[i], 'C' as byte, e.code);
      IsLastNext(fs[..i], fs[i], 'M' as byte, e.message);
      IsLastNext(fs[..i], fs[i], 'D' as byte, e.detail);
      IsLastNext(fs[..i], fs[i], 'H' as byte, e.hint);
      AssignedIsLast(fs, i + 1, SetField(e, fs[i].kind, fs[i].value));
    } else {
      assert fs[..i] == fs;
    }
  }

  /** What is read of an error: of each kind the last field the server wrote. */
  lemma FieldsAreLast(fs: seq<Field>, junk: seq<byte>)
    requires forall k :: 0 <= k < |fs| ==> fs[k].kind != 0 && NoZero(fs[k].value)
    ensures LastOfEach(fs, FieldsFrom(FieldBytes(fs, 0) + junk, NO_FIELDS))
  {
    FieldsRoundTrip(fs, 0, NO_FIELDS, junk);
    assert LastOfEach([], NO_FIELDS) && fs[..0] == [];
    AssignedIsLast(fs, 0, NO_FIELDS);
  }
}
