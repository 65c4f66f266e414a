/** What one captured client may see of a replay: commands arrive, run, and wait for the
    server.  The session of a client is a queue with a barrier, which only a frame of the server
    lifts; a log of the whole replay is legal if every entry is one its client's session allows.
    Nothing here mentions timers or slots: src/loop.rs is shown in module Loop to produce only
    legal logs, whose frames are those its connections have handled. */
module Session {
  import opened Bytes
  import opened Frames
  import C = Client

  const HORIZON_US: nat := 1_000_000

  type Id = nat

  datatype Kind = Connect | Send(tag: byte, data: seq<byte>) | End

  datatype Cmd = Cmd(id: Id, ts: nat, kind: Kind) {
    /** After a query or a sync, and after connecting, the server says when it is ready. */
    predicate Blocking() {
      kind.Connect? || (kind.Send? && (kind.tag == F_QUERY || kind.tag == F_SYNC))
    }
  }

  /** `alive`: the connection could be opened, or is still there after what was read and
      written.  `before` and `after`: what times are shifted by before and after a rebase. */
  datatype Entry =
    | Arrived(cmd: Cmd)
    | Ran(cmd: Cmd, now: nat, shift: nat, burst: bool, alive: bool)
    | Heard(id: Id, now: nat, frames: seq<Tagged>, alive: bool)
    | Refused(id: Id)
    | Rebased(id: Id, ts: nat, readyAt: nat, before: nat, after: nat)
    | Dropped(id: Id)
  {
    function Of(): Id {
      match this
      case Arrived(cmd) => cmd.id
      case Ran(cmd, _, _, _, _) => cmd.id
      case Heard(id, _, _, _) => id
      case Refused(id) => id
      case Rebased(id, _, _, _, _) => id
      case Dropped(id) => id
    }

    /** What times are shifted by when the entry is made. */
    function Shift(): nat {
      match this
      case Ran(_, _, shift, _, _) => shift
      case Rebased(_, _, _, before, _) => before
      case _ => 0
    }
  }

  /** `unrebased` holds from a ready-for-query until the clock has been moved for it,
      `payload` is what the client's own commands have sent since it connected and `heard` what
      the server has said since; a session is `doomed` when its connection is lost. */
  datatype Session =
    | Closed
    | Open(pending: seq<Cmd>, waiting: bool, burst: bool, unrebased: bool, readyAt: nat,
           payload: seq<byte>, terminated: bool, heard: seq<Tagged>, doomed: bool)

  const OPENED := Open([], false, false, false, 0, [], false, [], false)

  /** What a command sends: the end of a replay sends a terminate if none has been sent. */
  function Load(kind: Kind, terminated: bool): seq<byte> {
    match kind
    case Connect => []
    case Send(_, data) => data
    case End => if terminated then [] else Frame(F_TERMINATE, [])
  }

  function AfterRun(s: Session, kind: Kind): Session
    requires s.Open?
  {
    var s := s.(payload := s.payload + Load(kind, s.terminated));
    match kind
    case Connect => s.(waiting := true, payload := [], terminated := false, heard := [])
    case Send(tag, _) =>
      var blocking := tag == F_QUERY || tag == F_SYNC;
      s.(waiting := blocking, burst := !blocking, terminated := s.terminated || tag == F_TERMINATE)
    case End => s.(terminated := true)
  }

  function AfterHeard(s: Session, now: nat, frames: seq<Tagged>): Session
    requires s.Open?
  {
    var s := s.(heard := s.heard + frames);
    if C.Announced(frames) then s.(waiting := false, unrebased := true, readyAt := now) else s
  }

  function Next(s: Session, e: Entry): Session {
    match e
    case Arrived(cmd) =>
      if s.Open? then s.(pending := s.pending + [cmd])
      else if cmd.kind.Connect? then OPENED.(pending := [cmd])
      else Closed
    case Ran(cmd, _, _, _, alive) =>
      if s.Open? && |s.pending| > 0 then AfterRun(s.(pending := s.pending[1..], doomed := !alive), cmd.kind) else s
    case Heard(_, now, frames, alive) =>
      if s.Open? then AfterHeard(s.(doomed := !alive), now, frames) else s
    case Refused(_) => if s.Open? then s.(doomed := true) else s
    case Rebased(_, _, _, _, _) => if s.Open? then s.(unrebased := false) else s
    case Dropped(_) => Closed
  }

  /** The next command in line runs, only when nothing is awaited, never more than the
      horizon early; unless it belongs to a batch it also runs no earlier than its shifted
      time, and only once the clock has been moved so that its time is not before the last
      ready-for-query; the clock is moved only if it must be, and then no further.  A client is
      dropped exactly when its connection is lost. */
  predicate Allowed(s: Session, e: Entry) {
    match e
    case Arrived(_) => true
    case Ran(cmd, now, shift, burst, _) =>
      && s.Open? && !s.doomed && |s.pending| > 0 && cmd == s.pending[0] && !s.waiting && burst == s.burst
      && cmd.ts <= now + HORIZON_US
      && (!burst ==> cmd.ts + shift <= now && !s.unrebased)
    case Heard(_, _, _, _) => s.Open? && !s.doomed
    case Refused(_) => s.Open? && !s.doomed
    case Rebased(_, ts, readyAt, before, after) =>
      && s.Open? && !s.doomed && s.unrebased && !s.burst && |s.pending| > 0 && ts == s.pending[0].ts
      && readyAt == s.readyAt && JustEnough(ts, readyAt, before, after)
    case Dropped(_) => s.Open? && s.doomed
  }

  /** The shifted time is not before `readyAt`; times are shifted further only if it would be,
      and then it is exactly `readyAt`. */
  predicate JustEnough(ts: nat, readyAt: nat, before: nat, after: nat) {
    readyAt <= ts + after && (after == before || (ts + before < readyAt == ts + after))
  }

  /** The furthest that any rebase so far has needed times to be shifted. */
  function Peak(log: seq<Entry>): nat {
    if |log| == 0 then 0
    else
      var peak, e := Peak(log[..|log| - 1]), log[|log| - 1];
      if e.Rebased? && e.readyAt - e.ts > peak then e.readyAt - e.ts else peak
  }

  function Watch(log: seq<Entry>, id: Id): Session {
    if |log| == 0 then Closed
    else
      var s := Watch(log[..|log| - 1], id);
      var e := log[|log| - 1];
      if e.Of() == id then Next(s, e) else s
  }

  predicate Legal(log: seq<Entry>) {
    |log| > 0 ==>
      var before, e := log[..|log| - 1], log[|log| - 1];
      Legal(before) && Allowed(Watch(before, e.Of()), e) && e.Shift() <= Peak(before)
  }

  lemma Snoc(log: seq<Entry>, e: Entry)
    ensures Legal(log + [e]) <==> Legal(log) && Allowed(Watch(log, e.Of()), e) && e.Shift() <= Peak(log)
    ensures Peak(log) <= Peak(log + [e])
    ensures forall id :: Watch(log + [e], id) == if e.Of() == id then Next(Watch(log, id), e) else Watch(log, id)
  {
    assert (log + [e])[..|log|] == log;
  }

  /** Legal means that every entry was allowed when it was made. */
  lemma {:induction false} LegalMeans(log: seq<Entry>, k: nat)
    requires Legal(log) && k <= |log|
    ensures Legal(log[..k])
    ensures k < |log| ==> Allowed(Watch(log[..k], log[k].Of()), log[k]) && log[k].Shift() <= Peak(log[..k])
    decreases |log|
  {
    if |log| > 0 {
      var before := log[..|log| - 1];
      if k == |log| {
        assert log[..k] == log;
      } else {
        LegalMeans(before, k);
        assert before[..k] == log[..k];
      }
    }
  }

  lemma WatchNext(log: seq<Entry>, k: nat, id: Id)
    requires k < |log|
    ensures Watch(log[..k + 1], id) ==
            if log[k].Of() == id then Next(Watch(log[..k], id), log[k]) else Watch(log[..k], id)
  {
    assert log[..k + 1][..k] == log[..k];
  }

  /* ----- what a legal log means for one client ----- */

  /** The commands accepted, and those run, since the client's slot was last created. */
  function Given(log: seq<Entry>, id: Id): seq<Cmd> {
    if |log| == 0 then []
    else
      var before, e := Given(log[..|log| - 1], id), log[|log| - 1];
      if e.Of() != id then before
      else match e
        case Arrived(cmd) => if before == [] && !cmd.kind.Connect? then [] else before + [cmd]
        case Dropped(_) => []
        case _ => before
  }

  function Done(log: seq<Entry>, id: Id): seq<Cmd> {
    if |log| == 0 then []
    else
      var before, e := Done(log[..|log| - 1], id), log[|log| - 1];
      if e.Of() != id then before
      else match e
        case Ran(cmd, _, _, _, _) => before + [cmd]
        case Dropped(_) => []
        case _ => before
  }

  /** Commands run in the order they arrived, none twice and none skipped. */
  lemma {:induction false} RunsInOrder(log: seq<Entry>, id: Id)
    requires Legal(log)
    ensures Done(log, id) <= Given(log, id)
    ensures Watch(log, id).Open? ==> Given(log, id) == Done(log, id) + Watch(log, id).pending && Given(log, id) != []
    ensures Watch(log, id).Closed? ==> Given(log, id) == Done(log, id) == []
    decreases |log|
  {
    if |log| > 0 {
      RunsInOrder(log[..|log| - 1], id);
    }
  }

  /** What a client's commands send after its last connect, and whether they terminate it: an
      end command sends a terminate only if none was sent before. */
  function Carried(cmds: seq<Cmd>): (seq<byte>, bool) {
    if |cmds| == 0 then ([], false)
    else
      var (payload, terminated) := Carried(cmds[..|cmds| - 1]);
      var kind := cmds[|cmds| - 1].kind;
      match kind
      case Connect => ([], false)
      case Send(tag, _) => (payload + Load(kind, terminated), terminated || tag == F_TERMINATE)
      case End => (payload + Load(kind, terminated), true)
  }

  lemma CarriedMore(cmds: seq<Cmd>, cmd: Cmd, s: Session)
    requires s.Open? && Carried(cmds) == (s.payload, s.terminated)
    ensures var s' := AfterRun(s, cmd.kind); Carried(cmds + [cmd]) == (s'.payload, s'.terminated)
  {
    hide Load;
    assert (cmds + [cmd])[..|cmds|] == cmds;
  }

  lemma {:induction false} PayloadIsCarried(log: seq<Entry>, id: Id)
    requires Legal(log)
    ensures var s := Watch(log, id); s.Open? ==> (s.payload, s.terminated) == Carried(Done(log, id))
    decreases |log|
  {
    hide AfterRun, Carried;
    if |log| > 0 {
      var before, e := log[..|log| - 1], log[|log| - 1];
      PayloadIsCarried(before, id);
      RunsInOrder(before, id);
      assert Carried([]) == ([], false) by { NothingCarried(); }
      if e.Ran? && e.cmd.id == id {
        var s := Watch(before, id);
        CarriedMore(Done(before, id), e.cmd, s.(pending := s.pending[1..], doomed := !e.alive));
      }
    }
  }

  lemma NothingCarried()
    ensures Carried([]) == ([], false)
  {
  }

  /** What the server has told a client since its last connect. */
  function Told(log: seq<Entry>, id: Id): seq<Tagged> {
    if |log| == 0 then []
    else
      var before, e := Told(log[..|log| - 1], id), log[|log| - 1];
      if e.Of() != id then before
      else match e
        case Heard(_, _, frames, _) => before + frames
        case Ran(cmd, _, _, _, _) => if cmd.kind.Connect? then [] else before
        case Dropped(_) => []
        case _ => before
  }

  lemma {:induction false} HeardIsTold(log: seq<Entry>, id: Id)
    requires Legal(log)
    ensures Told(log, id) == if Watch(log, id).Open? then Watch(log, id).heard else []
    decreases |log|
  {
    hide Load, C.Announced;
    if |log| > 0 {
      HeardIsTold(log[..|log| - 1], id);
    }
  }

  /** The server tells the client that it is ready. */
  predicate SaysReady(e: Entry, id: Id) {
    e.Heard? && e.id == id && C.Announced(e.frames)
  }

  predicate Quiet(log: seq<Entry>, i: nat, j: nat, id: Id)
    requires j <= |log|
  {
    forall k :: i < k < j ==> log[k] != Dropped(id) && !SaysReady(log[k], id)
  }

  lemma {:induction false} StaysWaiting(log: seq<Entry>, i: nat, j: nat, id: Id)
    requires Legal(log) && i < j <= |log| && Quiet(log, i, j, id)
    requires log[i].Ran? && log[i].cmd.id == id && log[i].cmd.Blocking()
    ensures Watch(log[..j], id).Open? && Watch(log[..j], id).waiting
    decreases j
  {
    LegalMeans(log, j - 1);
    WatchNext(log, j - 1, id);
    if i + 1 < j {
      StaysWaiting(log, i, j - 1, id);
    }
  }

  /** Between a connect, a query or a sync and the client's next command a ready-for-query of
      the server has been handled, or the client has been dropped. */
  lemma BarrierHolds(log: seq<Entry>, i: nat, j: nat)
    requires Legal(log) && i < j < |log| && log[i].Ran? && log[j].Ran?
    requires log[i].cmd.id == log[j].cmd.id && log[i].cmd.Blocking()
    ensures exists k :: i < k < j && (log[k] == Dropped(log[i].cmd.id) || SaysReady(log[k], log[i].cmd.id))
  {
    var id := log[i].cmd.id;
    if Quiet(log, i, j, id) {
      LegalMeans(log, j);
      StaysWaiting(log, i, j, id);
    }
  }

  /** No command of `id` runs strictly between i and j, and its session is not interrupted. */
  predicate Pausing(log: seq<Entry>, i: nat, j: nat, id: Id)
    requires j <= |log|
  {
    Quiet(log, i, j, id) && forall k :: i < k < j ==> !(log[k].Ran? && log[k].cmd.id == id)
  }

  predicate RebasedFor(e: Entry, id: Id, ts: nat, ready: nat) {
    e.Rebased? && e.id == id && e.ts == ts && e.readyAt == ready && JustEnough(ts, ready, e.before, e.after)
  }

  lemma {:induction false} StaysUnrebased(log: seq<Entry>, i: nat, j: nat, id: Id)
    requires Legal(log) && i < j <= |log| && Pausing(log, i, j, id)
    requires SaysReady(log[i], id)
    ensures var s := Watch(log[..j], id);
            && s.Open? && s.readyAt == log[i].now
            && (s.unrebased || (|s.pending| > 0 && exists k :: i < k < j && RebasedFor(log[k], id, s.pending[0].ts, log[i].now)))
    decreases j
  {
    LegalMeans(log, j - 1);
    WatchNext(log, j - 1, id);
    if i + 1 < j {
      StaysUnrebased(log, i, j - 1, id);
      if log[j - 1].Of() == id && log[j - 1].Rebased? {
        assert RebasedFor(log[j - 1], id, Watch(log[..j], id).pending[0].ts, log[i].now);
      }
    }
  }

  /** The first command after a ready-for-query, unless it goes on with a batch, has had the
      clock moved, by no more than is needed, so that its shifted time is not before that
      ready-for-query. */
  lemma PaceIsKept(log: seq<Entry>, i: nat, j: nat)
    requires Legal(log) && i < j < |log| && log[i].Heard? && log[j].Ran? && !log[j].burst
    requires SaysReady(log[i], log[j].cmd.id) && Pausing(log, i, j, log[i].id)
    ensures exists k :: i < k < j && RebasedFor(log[k], log[i].id, log[j].cmd.ts, log[i].now)
  {
    LegalMeans(log, j);
    StaysUnrebased(log, i, j, log[i].id);
  }

  /* ----- how far times are shifted ----- */

  /** The clock was moved for a command that had to wait at least that long for its server. */
  predicate Delayed(e: Entry, wait: nat) {
    e.Rebased? && e.ts + wait <= e.readyAt
  }

  lemma {:induction false} PeakIsReached(log: seq<Entry>, wait: nat)
    ensures 0 < wait <= Peak(log) <==> 0 < wait && exists k :: 0 <= k < |log| && Delayed(log[k], wait)
  {
    if |log| > 0 {
      var before := log[..|log| - 1];
      PeakIsReached(before, wait);
      if 0 < wait <= Peak(before) {
        var k :| 0 <= k < |before| && Delayed(before[k], wait);
        assert Delayed(log[k], wait);
      } else if 0 < wait <= Peak(log) {
        assert Delayed(log[|log| - 1], wait);
      }
      if 0 < wait && exists k :: 0 <= k < |log| && Delayed(log[k], wait) {
        var k :| 0 <= k < |log| && Delayed(log[k], wait);
        if k < |before| {
          assert Delayed(before[k], wait);
        }
      }
    }
  }

  /** No command is made later, and no rebase starts from further, than by what some earlier
      command of some client had to wait for its server. */
  lemma ShiftIsNeeded(log: seq<Entry>, j: nat)
    requires Legal(log) && j < |log| && log[j].Shift() > 0
    ensures exists k :: 0 <= k < j && Delayed(log[k], log[j].Shift())
  {
    hide Legal, Peak;
    LegalMeans(log, j);
    PeakIsReached(log[..j], log[j].Shift());
    var k :| 0 <= k < j && Delayed(log[..j][k], log[j].Shift());
    assert Delayed(log[k], log[j].Shift());
  }

  /* ----- what a client's state is, said of what has happened ----- */

  /** The last frame among the commands is one after which the server does not say when it is
      ready. */
  predicate MidBatch(cmds: seq<Cmd>) {
    exists k :: 0 <= k < |cmds| && cmds[k].kind.Send? && !cmds[k].Blocking() && NoSendAfter(cmds, k)
  }

  predicate NoSendAfter(cmds: seq<Cmd>, k: nat) {
    forall i :: k < i < |cmds| ==> !cmds[i].kind.Send?
  }

  lemma MidBatchNext(cmds: seq<Cmd>, cmd: Cmd)
    ensures MidBatch(cmds + [cmd]) <==> if cmd.kind.Send? then !cmd.Blocking() else MidBatch(cmds)
  {
    var more := cmds + [cmd];
    if cmd.kind.Send? && !cmd.Blocking() {
      assert more[|cmds|] == cmd && NoSendAfter(more, |cmds|);
    } else if !cmd.kind.Send? && MidBatch(cmds) {
      var k :| 0 <= k < |cmds| && cmds[k].kind.Send? && !cmds[k].Blocking() && NoSendAfter(cmds, k);
      assert more[k] == cmds[k] && NoSendAfter(more, k);
    }
    if MidBatch(more) {
      var k :| 0 <= k < |more| && more[k].kind.Send? && !more[k].Blocking() && NoSendAfter(more, k);
      assert more[|cmds|] == cmd;
      if k < |cmds| {
        assert forall i :: 0 <= i < |cmds| ==> cmds[i] == more[i];
        assert NoSendAfter(cmds, k);
      }
    }
  }

  /** A client goes on with a batch exactly when the last frame it has sent is neither a query
      nor a sync. */
  lemma {:induction false} BurstIsMidBatch(log: seq<Entry>, id: Id)
    requires Legal(log)
    ensures var s := Watch(log, id); s.Open? ==> (s.burst <==> MidBatch(Done(log, id)))
    decreases |log|
  {
    hide MidBatch, Load, C.Announced, Peak;
    assert !MidBatch([]) by { NoBatch(); }
    if |log| > 0 {
      var before, e := log[..|log| - 1], log[|log| - 1];
      BurstIsMidBatch(before, id);
      RunsInOrder(before, id);
      if e.Ran? && e.cmd.id == id {
        MidBatchNext(Done(before, id), e.cmd);
      }
    }
  }

  lemma NoBatch()
    ensures !MidBatch([])
  {
  }

  predicate Asks(e: Entry, id: Id) {
    e.Ran? && e.cmd.id == id && e.cmd.Blocking()
  }

  /** A client waits exactly when it has connected or sent a query or a sync, and since then the
      server has not said that it is ready. */
  lemma {:induction false} WaitingIsUnanswered(log: seq<Entry>, id: Id)
    requires Legal(log)
    ensures var s := Watch(log, id);
            s.Open? && s.waiting <==> exists i :: 0 <= i < |log| && Asks(log[i], id) && Quiet(log, i, |log|, id)
    decreases |log|
  {
    hide Load, C.Announced, Peak, Quiet, SaysReady;
    if |log| > 0 {
      var before, e := log[..|log| - 1], log[|log| - 1];
      WaitingIsUnanswered(before, id);
      if i :| 0 <= i < |log| && Asks(log[i], id) && Quiet(log, i, |log|, id) {
        StaysWaiting(log, i, |log|, id);
        assert log[..|log|] == log;
      }
      if Watch(log, id).Open? && Watch(log, id).waiting {
        if Asks(e, id) {
          QuietAtOnce(log, |log| - 1, id);
        } else {
          StillWaiting(before, e, id);
          var i :| 0 <= i < |before| && Asks(before[i], id) && Quiet(before, i, |before|, id);
          QuietNext(before, e, i, id);
          assert log == before + [e] && Asks(log[i], id);
        }
      }
    }
  }

  lemma StillWaiting(before: seq<Entry>, e: Entry, id: Id)
    requires Legal(before + [e]) && !Asks(e, id)
    requires Watch(before + [e], id).Open? && Watch(before + [e], id).waiting
    ensures Watch(before, id).Open? && Watch(before, id).waiting && e != Dropped(id) && !SaysReady(e, id)
  {
    Snoc(before, e);
  }

  lemma QuietAtOnce(log: seq<Entry>, i: nat, id: Id)
    requires i + 1 == |log|
    ensures Quiet(log, i, |log|, id)
  {
  }

  lemma QuietNext(before: seq<Entry>, e: Entry, i: nat, id: Id)
    requires Quiet(before, i, |before|, id) && e != Dropped(id) && !SaysReady(e, id)
    ensures var log := before + [e]; Quiet(log, i, |log|, id)
  {
  }
}
