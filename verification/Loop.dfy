/** The replay scheduler (src/loop.rs): slots, the timer heap, the rebased clock, and the
    event loop.  Every run of the loop writes only legal logs (module Session) and never loses
    the timer of a client that could go on. */
module Loop {
  import opened Wrappers
  import opened Bytes
  import opened Frames
  import opened Session
  import C = Client

  /* ----- the timer heap, smallest first, duplicates kept ----- */

  datatype Timer = Timer(key: nat, id: Id)

  predicate Le(a: Timer, b: Timer) {
    a.key < b.key || (a.key == b.key && a.id <= b.id)
  }

  predicate Sorted(ts: seq<Timer>) {
    forall i, j :: 0 <= i < j < |ts| ==> Le(ts[i], ts[j])
  }

  function Push(ts: seq<Timer>, t: Timer): seq<Timer> {
    if |ts| == 0 then [t]
    else if Le(t, ts[0]) then [t] + ts
    else [ts[0]] + Push(ts[1..], t)
  }

  lemma {:induction false} PushAdds(ts: seq<Timer>, t: Timer)
    ensures multiset(Push(ts, t)) == multiset(ts) + multiset{t}
  {
    if |ts| > 0 {
      assert ts == [ts[0]] + ts[1..];
      if !Le(t, ts[0]) {
        PushAdds(ts[1..], t);
      }
    }
  }

  lemma PushHas(ts: seq<Timer>, t: Timer)
    ensures forall u :: u in Push(ts, t) <==> u == t || u in ts
  {
    PushAdds(ts, t);
    forall u
      ensures u in Push(ts, t) <==> u == t || u in ts
    {
      assert u in Push(ts, t) <==> u in multiset(Push(ts, t));
      assert u in ts <==> u in multiset(ts);
    }
  }

  lemma {:induction false} PushSorted(ts: seq<Timer>, t: Timer)
    requires Sorted(ts)
    ensures Sorted(Push(ts, t))
  {
    if |ts| > 0 && !Le(t, ts[0]) {
      var rest := Push(ts[1..], t);
      PushSorted(ts[1..], t);
      PushHas(ts[1..], t);
      forall k | 0 <= k < |rest|
        ensures Le(ts[0], rest[k])
      {
        assert rest[k] in rest;
      }
    }
  }

  /** How many timers have a key of at most `limit`: with the limit now - shift, those due. */
  function Due(ts: seq<Timer>, limit: int): nat {
    if |ts| == 0 then 0 else (if ts[0].key <= limit then 1 else 0) + Due(ts[1..], limit)
  }

  lemma {:induction false} DueFalls(ts: seq<Timer>, low: int, high: int)
    requires low <= high
    ensures Due(ts, low) <= Due(ts, high)
  {
    if |ts| > 0 {
      DueFalls(ts[1..], low, high);
    }
  }

  lemma {:induction false} PushLater(ts: seq<Timer>, t: Timer, limit: int)
    requires t.key > limit
    ensures Due(Push(ts, t), limit) == Due(ts, limit)
  {
    if |ts| > 0 {
      if Le(t, ts[0]) {
        assert ([t] + ts)[1..] == ts;
      } else {
        PushLater(ts[1..], t, limit);
        assert ([ts[0]] + Push(ts[1..], t))[1..] == Push(ts[1..], t);
      }
    } else {
      assert [t][1..] == [];
    }
  }

  /* ----- slots ----- */

  /** `accepted` is what the socket has taken so far. */
  datatype Conn = Conn(fed: C.Fed, connected: bool, accepted: seq<byte>)

  datatype Slot = Slot(queue: seq<Cmd>, awaiting: bool, rebase: bool, burst: bool, readyAt: nat, conn: Option<Conn>) {
    predicate Blocked() { conn.Some? && awaiting }

    /** There is a command that nothing but the clock keeps from running. */
    predicate Wants() { |queue| > 0 && !Blocked() }

    function Key(): nat
      requires |queue| > 0
    {
      if burst then 0 else queue[0].ts
    }
  }

  const NEW_SLOT := Slot([], false, false, false, 0, None)

  datatype Loop = Loop(
    slots: map<Id, Slot>, timers: seq<Timer>, shift: nat, lastTick: nat,
    clock: nat, lastTs: nat, log: seq<Entry>,
    cfg: C.Config, hello: Id -> seq<byte>)
  {
    function Note(e: Entry): Loop { this.(log := log + [e]) }

    function Put(id: Id, slot: Slot): Loop { this.(slots := slots[id := slot]) }
  }

  /* ----- the invariant ----- */

  predicate QueueOk(queue: seq<Cmd>, id: Id, clock: nat) {
    forall k :: 0 <= k < |queue| ==> queue[k].id == id && queue[k].ts <= clock + HORIZON_US
  }

  predicate ConnOk(slot: Slot) {
    match slot.conn
    case None => !slot.awaiting && !slot.rebase && |slot.queue| > 0 && slot.queue[0].kind.Connect?
    case Some(conn) =>
      && conn.fed.GoesOn() && !conn.fed.c.rfq && TryReadFrame(conn.fed.pending) == None
      && conn.accepted <= conn.fed.c.sent
      && (slot.awaiting || conn.fed.c.state == C.Normal)
  }

  /** The slot is where the log says its session is; its connection has heard what the log says
      and has been given the handshake and then exactly what the session's commands carry. */
  predicate Matches(cfg: C.Config, params: seq<byte>, slot: Slot, s: Session) {
    && s.Open? && !s.doomed && s.pending == slot.queue && s.waiting == slot.awaiting && s.burst == slot.burst
    && s.unrebased == slot.rebase && s.readyAt == slot.readyAt
    && match slot.conn
       case None => s.payload == [] && !s.terminated && s.heard == []
       case Some(conn) =>
         && s.heard == conn.fed.c.handled && s.terminated == conn.fed.c.sentTerminate
         && C.Honest(cfg, params, conn.fed.c, s.payload)
  }

  predicate Tracks(l: Loop, id: Id) {
    var s := Watch(l.log, id);
    if id in l.slots then Matches(l.cfg, l.hello(id), l.slots[id], s) else s.Closed?
  }

  predicate HasTimer(ts: seq<Timer>, id: Id, key: nat) {
    exists t :: t in ts && t.id == id && t.key <= key
  }

  predicate SlotOk(l: Loop, id: Id)
    requires id in l.slots
  {
    QueueOk(l.slots[id].queue, id, l.clock) && l.slots[id].readyAt <= l.clock && ConnOk(l.slots[id])
  }

  /** A slot that could go on has a timer that will fire no later than it wants to. */
  predicate Woken(l: Loop, id: Id)
    requires id in l.slots
  {
    l.slots[id].Wants() ==> HasTimer(l.timers, id, l.slots[id].Key())
  }

  /** `hole`: the clients whose timer has just been taken off the heap. */
  ghost predicate Inv(l: Loop, hole: set<Id>) {
    && Sorted(l.timers) && l.shift <= l.clock && l.shift <= Peak(l.log) && l.lastTick <= l.clock && l.lastTs <= l.clock + HORIZON_US
    && Legal(l.log)
    && (forall id :: Tracks(l, id))
    && (forall id :: id in l.slots ==> SlotOk(l, id))
    && (forall id :: id in l.slots && id !in hole ==> Woken(l, id))
  }

  /* ----- the steps ----- */

  function Scheduled(l: Loop, id: Id): Loop {
    if id in l.slots && l.slots[id].Wants() then
      l.(timers := Push(l.timers, Timer(l.slots[id].Key(), id)))
    else l
  }

  function Enqueued(l: Loop, cmd: Cmd): Loop {
    var l := l.Note(Arrived(cmd));
    if cmd.id !in l.slots && !cmd.kind.Connect? then l
    else
      var slot := if cmd.id in l.slots then l.slots[cmd.id] else NEW_SLOT;
      var l := l.Put(cmd.id, slot.(queue := slot.queue + [cmd]));
      if |slot.queue| == 0 then Scheduled(l, cmd.id) else l
  }

  function Removed(l: Loop, id: Id): Loop {
    if id in l.slots then l.(slots := l.slots - {id}).Note(Dropped(id)) else l
  }

  /** How far the shift may fall in the time since `last`. */
  function Regained(now: nat, last: nat, catchup: real): int {
    ((if now < last then 0 else now - last) as real * catchup).Floor
  }

  function CaughtUp(l: Loop, now: nat, catchup: real): Loop
    requires catchup >= 0.0
  {
    if l.shift == 0 then l.(lastTick := now)
    else
      var d := Regained(now, l.lastTick, catchup);
      if d > 0 then l.(shift := if l.shift < d then 0 else l.shift - d, lastTick := now) else l
  }

  /** What the socket does when the pending output is offered to it: it takes some more bytes,
      and may then fail. */
  datatype Writing = Writing(took: nat, failed: bool)

  function Flushed(conn: Conn, w: Writing): Conn {
    if !conn.connected then conn
    else
      var c := conn.fed.c;
      var n := |conn.accepted| + w.took;
      conn.(accepted := c.sent[..if n < |c.sent| then n else |c.sent|],
            fed := conn.fed.(c := if w.failed then c.(state := C.Dead) else c))
  }

  /** Whatever a flush lets the socket take is such a writing (see Outbound.FlushConn in module
      Stream: what was accepted before stays, and it is never more than what was sent). */
  lemma FlushIsWriting(conn: Conn, accepted: seq<byte>, failed: bool)
    requires conn.connected && conn.accepted <= accepted <= conn.fed.c.sent
    ensures Flushed(conn, Writing(|accepted| - |conn.accepted|, failed)).accepted == accepted
  {
  }

  function RemovedIfDead(l: Loop, id: Id): Loop {
    if id in l.slots && l.slots[id].conn.Some? && !l.slots[id].conn.value.fed.c.Alive() then Removed(l, id) else l
  }

  /** What running a command does to the client. */
  function Replayed(c: C.Client, kind: Kind): C.Client {
    match kind
    case Connect => c
    case Send(tag, data) => C.ReplayFrame(c, tag, data)
    case End => C.OnReplayEnd(c)
  }

  function AfterSend(slot: Slot, kind: Kind): Slot {
    match kind
    case Send(tag, _) =>
      var blocking := tag == F_QUERY || tag == F_SYNC;
      slot.(awaiting := slot.awaiting || blocking, burst := !blocking)
    case _ => slot
  }

  /** `ok`: a connection can be opened. */
  function Executed(l: Loop, id: Id, kind: Kind, ok: bool, w: Writing): Loop
    requires id in l.slots
  {
    var slot := l.slots[id];
    if kind.Connect? then
      if !ok then Removed(l, id)
      else l.Put(id, slot.(conn := Some(Conn(C.Fed(C.Fresh(l.hello(id)), [], false), false, [])), awaiting := true))
    else match slot.conn
      case None => l
      case Some(conn) =>
        var conn := conn.(fed := conn.fed.(c := Replayed(conn.fed.c, kind)));
        RemovedIfDead(l.Put(id, AfterSend(slot, kind).(conn := Some(Flushed(conn, w)))), id)
  }

  /** Whether the connection is there after a command has run. */
  predicate Survives(slot: Slot, kind: Kind, ok: bool, w: Writing) {
    if kind.Connect? then ok else !(slot.conn.Some? && slot.conn.value.connected && w.failed)
  }

  /** The clock is moved so that the head's time is not before the last ready-for-query. */
  function ShiftMoved(l: Loop, id: Id): Loop
    requires id in l.slots && |l.slots[id].queue| > 0
  {
    var slot := l.slots[id];
    if slot.rebase && !slot.burst then
      var ts := slot.queue[0].ts;
      var need := if slot.readyAt < ts then 0 else slot.readyAt - ts;
      var shift := if need > l.shift then need else l.shift;
      l.Put(id, slot.(rebase := false)).(shift := shift).Note(Rebased(id, ts, slot.readyAt, l.shift, shift))
    else l
  }

  function HeadRun(l: Loop, id: Id, ok: bool, w: Writing): Loop
    requires id in l.slots && |l.slots[id].queue| > 0
  {
    var slot := l.slots[id];
    var cmd := slot.queue[0];
    var ran := Ran(cmd, l.clock, l.shift, slot.burst, Survives(slot, cmd.kind, ok, w));
    Executed(l.Put(id, slot.(queue := slot.queue[1..])).Note(ran), id, cmd.kind, ok, w)
  }

  datatype ReadEnd = WouldBlock | Eof | IoError

  /** Reading a connection until it would block, ends or fails. */
  function ConnRead(cfg: C.Config, f: C.Fed, chunks: seq<seq<byte>>, end: ReadEnd): C.Fed {
    var f := C.FeedAll(cfg, f, chunks, 0);
    if f.GoesOn() && end != WouldBlock then f.(c := f.c.(state := C.Dead)) else f
  }

  /** The frames handled since `was`. */
  function NewFrames(was: C.Client, c: C.Client): seq<Tagged> {
    if |was.handled| <= |c.handled| then c.handled[|was.handled|..] else []
  }

  /** A connection that has been read and flushed: a ready-for-query lifts the barrier. */
  function Served(l: Loop, id: Id, conn: Conn): Loop
    requires id in l.slots && l.slots[id].conn.Some?
  {
    var slot := l.slots[id];
    var calm := conn.(fed := conn.fed.(c := conn.fed.c.(rfq := false)));
    var frames := NewFrames(slot.conn.value.fed.c, conn.fed.c);
    RemovedIfDead(
      (if conn.fed.c.rfq then
         l.Put(id, slot.(conn := Some(calm), awaiting := false, rebase := true, readyAt := l.clock))
       else l.Put(id, slot.(conn := Some(conn)))).Note(Heard(id, l.clock, frames, conn.fed.c.Alive())), id)
  }

  /** How a connect that has not completed stands when an event comes. */
  datatype Probe = Pending | Refuses | Established

  /** An event of the poll for one connection: how a pending connect stands, what can be read
      and how that ends, and whether writing fails. */
  datatype Happening = Happening(probe: Probe, chunks: seq<seq<byte>>, end: ReadEnd, written: Writing)

  predicate Usable(l: Loop, id: Id, h: Happening) {
    id in l.slots && l.slots[id].conn.Some? && (l.slots[id].conn.value.connected || h.probe.Established?)
  }

  /** In what the connection has not used yet and what is read now stands a frame whose length
      field is less than four, and the connection is not killed before it. */
  predicate Crashes(l: Loop, id: Id, h: Happening) {
    Usable(l, id, h) &&
    var fed := l.slots[id].conn.value.fed;
    var buf := fed.pending + C.Joined(h.chunks, 0);
    C.Short(buf) && !C.Killed(l.cfg, fed.c.state, C.Parts(buf))
  }

  function Lost(l: Loop, id: Id): Loop {
    Removed(l.Note(Refused(id)), id)
  }

  /** What an event does before the client's queue is looked at. */
  function Evented(l: Loop, catchup: real, id: Id, h: Happening): Loop
    requires catchup >= 0.0
  {
    var l := CaughtUp(l, l.clock, catchup);
    if Usable(l, id, h) then
      var conn := l.slots[id].conn.value;
      var fed := ConnRead(l.cfg, conn.fed, h.chunks, h.end);
      Served(l, id, Flushed(Conn(fed, true, conn.accepted), h.written))
    else if id in l.slots && l.slots[id].conn.Some? && h.probe.Refuses? then Lost(l, id)
    else l
  }

  /* ----- every step keeps the invariant ----- */

  /** The invariant looks at the slots one by one: a step about one client, whose entries in
      the log are about that client and which only adds timers, leaves the others as they were. */
  lemma Local(l: Loop, l': Loop, id: Id, hole: set<Id>, hole': set<Id>)
    requires Inv(l, hole) && hole <= hole' + {id}
    requires l'.cfg == l.cfg && l'.hello == l.hello && l'.clock == l.clock && l'.lastTick == l.lastTick && l'.lastTs == l.lastTs && l'.shift <= l.clock
    requires l'.shift <= Peak(l'.log)
    requires Sorted(l'.timers) && forall t :: t in l.timers ==> t in l'.timers
    requires Legal(l'.log) && forall other :: other != id ==> Watch(l'.log, other) == Watch(l.log, other)
    requires l'.slots - {id} == l.slots - {id}
    requires Tracks(l', id) && (id in l'.slots ==> SlotOk(l', id) && (id in hole' || Woken(l', id)))
    ensures Inv(l', hole')
  {
    hide Matches, ConnOk, QueueOk, Legal, Watch, Sorted;
    assert forall other :: other != id ==>
      (other in l.slots <==> other in l'.slots) && (other in l.slots ==> l'.slots[other] == l.slots[other]) by {
      forall other | other != id
        ensures (other in l.slots <==> other in l'.slots) && (other in l.slots ==> l'.slots[other] == l.slots[other])
      {
        assert other in l.slots <==> other in l.slots - {id};
        assert other in l'.slots <==> other in l'.slots - {id};
        if other in l.slots {
          assert (l'.slots - {id})[other] == (l.slots - {id})[other];
        }
      }
    }
    forall other
      ensures Tracks(l', other)
    {
      assert Tracks(l, other);
    }
    forall other | other in l'.slots
      ensures SlotOk(l', other)
    {
      if other != id { assert SlotOk(l, other); }
    }
    forall other | other in l'.slots && other !in hole'
      ensures Woken(l', other)
    {
      if other != id { assert Woken(l, other); }
    }
  }

  lemma InvAt(l: Loop, hole: set<Id>, id: Id)
    requires Inv(l, hole)
    ensures Sorted(l.timers) && l.shift <= l.clock && l.shift <= Peak(l.log) && Legal(l.log) && Tracks(l, id)
    ensures id in l.slots ==> SlotOk(l, id) && (id !in hole ==> Woken(l, id))
  {
  }

  lemma LastTsOk(l: Loop)
    requires Inv(l, {})
    ensures l.lastTs <= l.clock + HORIZON_US
  {
  }

  lemma AllClosed(l: Loop)
    requires Inv(l, {}) && l.slots == map[]
    ensures forall id :: Watch(l.log, id).Closed?
  {
    forall id
      ensures Watch(l.log, id).Closed?
    {
      assert Tracks(l, id);
    }
  }

  lemma LogGrows(log: seq<Entry>, e: Entry)
    requires Legal(log) && Allowed(Watch(log, e.Of()), e) && e.Shift() <= Peak(log)
    ensures Legal(log + [e]) && Peak(log) <= Peak(log + [e])
    ensures Watch(log + [e], e.Of()) == Next(Watch(log, e.Of()), e)
    ensures forall other :: other != e.Of() ==> Watch(log + [e], other) == Watch(log, other)
  {
    Snoc(log, e);
  }

  /** The slot of the client a command arrives for. */
  lemma ArrivedSlot(l: Loop, cmd: Cmd)
    requires Inv(l, {}) && cmd.ts <= l.clock + HORIZON_US
    ensures var l' := Enqueued(l, cmd);
            Tracks(l', cmd.id) && (cmd.id in l'.slots ==> SlotOk(l', cmd.id))
  {
    hide Inv, Watch, Legal, Peak, Push, C.Honest, TryReadFrame;
    InvAt(l, {}, cmd.id);
    LogGrows(l.log, Arrived(cmd));
  }

  /** It has a timer if it could go on. */
  lemma ArrivedWoken(l: Loop, cmd: Cmd)
    requires Inv(l, {})
    ensures var l' := Enqueued(l, cmd);
            && Sorted(l'.timers) && (forall t :: t in l.timers ==> t in l'.timers)
            && (cmd.id in l'.slots ==> Woken(l', cmd.id))
  {
    hide Inv, Tracks, SlotOk, Legal, Peak, Push;
    var id := cmd.id;
    var l' := Enqueued(l, cmd);
    InvAt(l, {}, id);
    var t := Timer(if id in l'.slots && |l'.slots[id].queue| > 0 then l'.slots[id].Key() else 0, id);
    PushHas(l.timers, t);
    PushSorted(l.timers, t);
  }

  lemma EnqueuedKeeps(l: Loop, cmd: Cmd)
    requires Inv(l, {}) && cmd.ts <= l.clock + HORIZON_US
    ensures Inv(Enqueued(l, cmd), {})
  {
    hide Inv, Tracks, SlotOk, Woken, Legal, Peak, Watch, Sorted, Push;
    var id := cmd.id;
    var l' := Enqueued(l, cmd);
    InvAt(l, {}, id);
    LogGrows(l.log, Arrived(cmd));
    ArrivedSlot(l, cmd);
    ArrivedWoken(l, cmd);
    assert l'.slots - {id} == l.slots - {id};
    Local(l, l', id, {}, {});
  }

  lemma LostKeeps(l: Loop, id: Id)
    requires Inv(l, {}) && id in l.slots
    ensures Inv(Lost(l, id), {})
  {
    hide Inv, Watch, Legal;
    InvAt(l, {}, id);
    LogGrows(l.log, Refused(id));
    LogGrows(l.log + [Refused(id)], Dropped(id));
    Local(l, Lost(l, id), id, {}, {});
  }

  lemma CaughtUpKeeps(l: Loop, now: nat, catchup: real)
    requires Inv(l, {}) && now == l.clock && catchup >= 0.0
    ensures Inv(CaughtUp(l, now, catchup), {})
    ensures CaughtUp(l, now, catchup).shift <= l.shift
  {
    hide Regained, Watch, Legal, Matches, ConnOk, QueueOk, Sorted;
    var l' := CaughtUp(l, now, catchup);
    forall id
      ensures Tracks(l', id) && (id in l.slots ==> SlotOk(l', id) && Woken(l', id))
    {
      assert Tracks(l, id) && (id in l.slots ==> SlotOk(l, id) && Woken(l, id));
    }
  }

  lemma NotNegative(a: real, b: real)
    requires a >= 0.0 && b >= 0.0
    ensures a * b >= 0.0
  {
  }

  /** The shift falls by `catchup` microseconds in each one that passes, to zero at most; what
      is not yet a whole microsecond is kept for later. */
  lemma CatchUpRate(l: Loop, now: nat, catchup: real)
    requires catchup >= 0.0 && l.lastTick <= now
    ensures var l' := CaughtUp(l, now, catchup);
            var fall, due := l.shift - l'.shift, (now - l.lastTick) as real * catchup;
            && l' == l.(shift := l'.shift, lastTick := l'.lastTick)
            && (l.shift > 0 && due < 1.0 ==> l' == l)
            && (l.shift == 0 || due >= 1.0 ==> l'.lastTick == now)
            && 0 <= fall && fall as real <= due && (l'.shift > 0 ==> due - 1.0 < fall as real)
  {
    var due := (now - l.lastTick) as real * catchup;
    NotNegative((now - l.lastTick) as real, catchup);
    var d := Regained(now, l.lastTick, catchup);
    assert d == due.Floor && d as real <= due < d as real + 1.0;
    var fall := l.shift - CaughtUp(l, now, catchup).shift;
    assert fall <= d && fall as real <= d as real;
  }

  /** Nothing to run: the hole is closed. */
  lemma IdleKeeps(l: Loop, id: Id)
    requires Inv(l, {id}) && (id in l.slots ==> !l.slots[id].Wants())
    ensures Inv(l, {})
  {
    hide Watch, Legal, Matches, ConnOk, QueueOk, Sorted;
    forall other | other in l.slots
      ensures Woken(l, other)
    {
      if other != id { assert other !in {id}; }
    }
  }

  lemma ParkKeeps(l: Loop, id: Id)
    requires Inv(l, {id}) && id in l.slots && l.slots[id].Wants() && !l.slots[id].burst
    ensures Inv(l.(timers := Push(l.timers, Timer(l.slots[id].queue[0].ts, id))), {})
  {
    hide Inv, Watch, Legal, Push;
    var t := Timer(l.slots[id].queue[0].ts, id);
    var l' := l.(timers := Push(l.timers, t));
    InvAt(l, {id}, id);
    PushHas(l.timers, t);
    PushSorted(l.timers, t);
    assert HasTimer(l'.timers, id, l'.slots[id].Key()) by { assert t in l'.timers; }
    Local(l, l', id, {id}, {});
  }

  lemma ShiftMovedKeeps(l: Loop, id: Id)
    requires Inv(l, {id}) && id in l.slots && l.slots[id].Wants()
    ensures Inv(ShiftMoved(l, id), {id})
    ensures var l' := ShiftMoved(l, id); var slot := l.slots[id];
            && l.shift <= l'.shift && id in l'.slots
            && (l'.slots[id] == slot || l'.slots[id] == slot.(rebase := false))
            && (!slot.burst ==> !l'.slots[id].rebase)
            && JustEnough(slot.queue[0].ts, if !slot.burst && slot.rebase then slot.readyAt else 0, l.shift, l'.shift)
  {
    hide Inv, Watch, Legal;
    var slot := l.slots[id];
    InvAt(l, {id}, id);
    if slot.rebase && !slot.burst {
      var moved := Rebased(id, slot.queue[0].ts, slot.readyAt, l.shift, ShiftMoved(l, id).shift);
      LogGrows(l.log, moved);
      PeakNext(l.log, moved);
      Local(l, ShiftMoved(l, id), id, {id}, {id});
    }
  }

  lemma PeakNext(log: seq<Entry>, e: Entry)
    requires e.Rebased?
    ensures Peak(log) <= Peak(log + [e]) && e.readyAt - e.ts <= Peak(log + [e])
  {
    assert (log + [e])[..|log|] == log;
  }

  /** A client that is established is given exactly what the command carries. */
  lemma ReplayedSends(c: C.Client, kind: Kind)
    requires c.state == C.Normal && !kind.Connect?
    ensures var c' := Replayed(c, kind);
            && c'.sent == c.sent + Load(kind, c.sentTerminate)
            && c'.sentTerminate == (c.sentTerminate || kind.End? || kind.tag == F_TERMINATE)
            && c'.state == c.state && c'.rfq == c.rfq && c'.handled == c.handled
  {
    assert c.sent + [] == c.sent;
  }

  lemma ReplayedHonest(cfg: C.Config, params: seq<byte>, c: C.Client, payload: seq<byte>, kind: Kind)
    requires C.Honest(cfg, params, c, payload) && c.state == C.Normal && !kind.Connect?
    ensures C.Honest(cfg, params, Replayed(c, kind), payload + Load(kind, c.sentTerminate))
  {
    hide Replayed, Load, C.Startup, C.Answers, C.Announced;
    ReplayedSends(c, kind);
    var opening, load := C.Startup(params) + C.Answers(cfg, c.handled), Load(kind, c.sentTerminate);
    assert opening + payload + load == opening + (payload + load);
  }

  lemma RunConnectKeeps(l: Loop, id: Id, ok: bool, w: Writing)
    requires Inv(l, {id}) && id in l.slots && l.slots[id].Wants() && l.slots[id].queue[0].kind.Connect?
    requires l.slots[id].burst || (l.slots[id].queue[0].ts + l.shift <= l.clock && !l.slots[id].rebase)
    ensures Inv(HeadRun(l, id, ok, w), {id})
  {
    hide Inv, Watch, Legal, C.Startup, C.Honest, Load, HeadRun, TryReadFrame;
    var slot := l.slots[id];
    var ran := Ran(slot.queue[0], l.clock, l.shift, slot.burst, ok);
    InvAt(l, {id}, id);
    HeadConnectIs(l, id, ok, w);
    if ok {
      C.FreshHonest(l.cfg, l.hello(id));
      NothingToRead();
      PutKeeps(l, id, Opened(slot, l.hello(id)), ran, {id});
    } else {
      GoneKeeps(l, id, ran, {id});
    }
  }

  lemma NothingToRead()
    ensures TryReadFrame([]) == None
  {
  }

  /** The slot after its head, which is a connect, has run. */
  function Opened(slot: Slot, params: seq<byte>): Slot
    requires |slot.queue| > 0
  {
    slot.(queue := slot.queue[1..], conn := Some(Conn(C.Fed(C.Fresh(params), [], false), false, [])), awaiting := true)
  }

  lemma HeadConnectIs(l: Loop, id: Id, ok: bool, w: Writing)
    requires id in l.slots && |l.slots[id].queue| > 0 && l.slots[id].queue[0].kind.Connect?
    ensures var slot := l.slots[id];
            var ran := Ran(slot.queue[0], l.clock, l.shift, slot.burst, ok);
            HeadRun(l, id, ok, w) == if ok then l.Put(id, Opened(slot, l.hello(id))).Note(ran) else Gone(l, id, ran)
  {
    hide C.Fresh;
    var slot := l.slots[id];
    var was, now := slot.(queue := slot.queue[1..]), Opened(slot, l.hello(id));
    assert l.slots[id := was][id := now] == l.slots[id := now];
    assert l.slots[id := was] - {id} == l.slots - {id};
  }

  /** The slot after its head, which is no connect, has run and been flushed. */
  function RanSlot(slot: Slot, w: Writing): Slot
    requires |slot.queue| > 0 && slot.conn.Some?
  {
    var conn, kind := slot.conn.value, slot.queue[0].kind;
    AfterSend(slot.(queue := slot.queue[1..]), kind).(
      conn := Some(Flushed(conn.(fed := conn.fed.(c := Replayed(conn.fed.c, kind))), w)))
  }

  function Gone(l: Loop, id: Id, e: Entry): Loop {
    l.(slots := l.slots - {id}, log := l.log + [e] + [Dropped(id)])
  }

  lemma HeadRunIs(l: Loop, id: Id, ok: bool, w: Writing)
    requires id in l.slots && |l.slots[id].queue| > 0 && !l.slots[id].queue[0].kind.Connect? && l.slots[id].conn.Some?
    requires l.slots[id].conn.value.fed.c.Alive()
    ensures var slot := l.slots[id];
            var alive := Survives(slot, slot.queue[0].kind, ok, w);
            var ran := Ran(slot.queue[0], l.clock, l.shift, slot.burst, alive);
            && (RanSlot(slot, w).conn.value.fed.c.Alive() <==> alive)
            && HeadRun(l, id, ok, w) == if alive then l.Put(id, RanSlot(slot, w)).Note(ran) else Gone(l, id, ran)
  {
    var slot := l.slots[id];
    var was := slot.(queue := slot.queue[1..]);
    var now := RanSlot(slot, w);
    assert l.slots[id := was][id := now] == l.slots[id := now];
    assert l.slots[id := now] - {id} == l.slots - {id};
  }

  /** A client that is lost leaves no trace but in the log. */
  lemma GoneKeeps(l: Loop, id: Id, e: Entry, hole: set<Id>)
    requires Inv(l, hole) && hole <= {id} && id in l.slots && e.Of() == id
    requires Allowed(Watch(l.log, id), e) && Allowed(Next(Watch(l.log, id), e), Dropped(id)) && e.Shift() <= l.shift
    ensures Inv(Gone(l, id, e), {id})
  {
    hide Inv, Watch, Legal, Matches, Allowed;
    InvAt(l, hole, id);
    LogGrows(l.log, e);
    LogGrows(l.log + [e], Dropped(id));
    assert (l.slots - {id}) - {id} == l.slots - {id};
    Local(l, Gone(l, id, e), id, hole, {id});
  }

  /** A client that goes on in a new slot: the rest of the invariant is about others. */
  lemma PutKeeps(l: Loop, id: Id, slot: Slot, e: Entry, hole: set<Id>)
    requires Inv(l, hole) && hole <= {id} && id in l.slots && e.Of() == id
    requires Allowed(Watch(l.log, id), e) && e.Shift() <= l.shift
    requires Matches(l.cfg, l.hello(id), slot, Next(Watch(l.log, id), e))
    requires QueueOk(slot.queue, id, l.clock) && slot.readyAt <= l.clock && ConnOk(slot)
    ensures Inv(l.Put(id, slot).Note(e), {id})
  {
    hide Inv, Watch, Legal, Matches, Allowed, ConnOk, QueueOk;
    InvAt(l, hole, id);
    LogGrows(l.log, e);
    assert l.slots[id := slot] - {id} == l.slots - {id};
    Local(l, l.Put(id, slot).Note(e), id, hole, {id});
  }

  lemma RunFrameKeeps(l: Loop, id: Id, ok: bool, w: Writing)
    requires Inv(l, {id}) && id in l.slots && l.slots[id].Wants() && !l.slots[id].queue[0].kind.Connect?
    requires l.slots[id].burst || (l.slots[id].queue[0].ts + l.shift <= l.clock && !l.slots[id].rebase)
    ensures Inv(HeadRun(l, id, ok, w), {id})
  {
    hide Inv, Watch, Legal, C.Honest, Replayed, Load, TryReadFrame, HeadRun;
    var slot := l.slots[id];
    var kind := slot.queue[0].kind;
    InvAt(l, {id}, id);
    HeadRunIs(l, id, ok, w);
    var ran := Ran(slot.queue[0], l.clock, l.shift, slot.burst, Survives(slot, kind, ok, w));
    if ran.alive {
      var c := slot.conn.value.fed.c;
      ReplayedSends(c, kind);
      ReplayedHonest(l.cfg, l.hello(id), c, Watch(l.log, id).payload, kind);
      PutKeeps(l, id, RanSlot(slot, w), ran, {id});
    } else {
      GoneKeeps(l, id, ran, {id});
    }
  }

  /** Running the head of a queue, whatever the network does with it. */
  lemma RunKeeps(l: Loop, id: Id, ok: bool, w: Writing)
    requires Inv(l, {id}) && id in l.slots && l.slots[id].Wants()
    requires l.slots[id].burst || (l.slots[id].queue[0].ts + l.shift <= l.clock && !l.slots[id].rebase)
    ensures Inv(HeadRun(l, id, ok, w), {id})
  {
    hide Inv, HeadRun;
    if l.slots[id].queue[0].kind.Connect? {
      RunConnectKeeps(l, id, ok, w);
    } else {
      RunFrameKeeps(l, id, ok, w);
    }
  }

  /** What a read and flushed connection has to do with what it was. */
  ghost predicate Continued(l: Loop, id: Id, conn: Conn, told: seq<Tagged>)
    requires id in l.slots && l.slots[id].conn.Some?
  {
    var c, s := l.slots[id].conn.value.fed.c, Watch(l.log, id);
    && C.Follows(c, conn.fed.c, told) && conn.accepted <= conn.fed.c.sent
    && (conn.fed.GoesOn() ==> TryReadFrame(conn.fed.pending) == None)
    && s.Open? && C.Honest(l.cfg, l.hello(id), conn.fed.c, s.payload)
  }

  /** The slot of a connection that has been read and flushed and lives. */
  function HeardSlot(slot: Slot, conn: Conn, now: nat): Slot {
    if conn.fed.c.rfq then
      var calm := conn.(fed := conn.fed.(c := conn.fed.c.(rfq := false)));
      slot.(conn := Some(calm), awaiting := false, rebase := true, readyAt := now)
    else slot.(conn := Some(conn))
  }

  lemma ServedIs(l: Loop, id: Id, conn: Conn)
    requires id in l.slots && l.slots[id].conn.Some?
    ensures var slot := l.slots[id];
            var heard := Heard(id, l.clock, NewFrames(slot.conn.value.fed.c, conn.fed.c), conn.fed.c.Alive());
            Served(l, id, conn) ==
            if heard.alive then l.Put(id, HeardSlot(slot, conn, l.clock)).Note(heard) else Gone(l, id, heard)
  {
    hide NewFrames;
    assert l.slots[id := HeardSlot(l.slots[id], conn, l.clock)] - {id} == l.slots - {id};
  }

  /** Being established and having the flag reset are no matter of what was sent. */
  lemma Honestly(cfg: C.Config, params: seq<byte>, c: C.Client, c': C.Client, payload: seq<byte>, told: seq<Tagged>)
    requires c.Alive() && c'.Alive() && C.Follows(c, c', told)
    requires C.Honest(cfg, params, c, payload) && C.Honest(cfg, params, c', payload)
    ensures C.Honest(cfg, params, c'.(rfq := false), payload)
    ensures c.state == C.Normal || C.Announced(told) ==> c'.state == C.Normal
  {
    hide C.Announced, C.Startup, C.Answers;
    C.AnnouncedBoth(c.handled, told);
  }

  /** Reading and flushing a connection, whatever the server sent. */
  lemma ServedKeeps(l: Loop, id: Id, conn: Conn, told: seq<Tagged>)
    requires Inv(l, {}) && id in l.slots && l.slots[id].conn.Some? && !conn.fed.panicked
    requires Continued(l, id, conn, told)
    ensures Inv(Served(l, id, conn), {id})
  {
    hide Inv, Watch, Legal, QueueOk, C.Honest, C.Announced, TryReadFrame, Served;
    InvAt(l, {}, id);
    ServedIs(l, id, conn);
    var slot := l.slots[id];
    var c := slot.conn.value.fed.c;
    assert NewFrames(c, conn.fed.c) == told;
    var heard := Heard(id, l.clock, told, conn.fed.c.Alive());
    if heard.alive {
      Honestly(l.cfg, l.hello(id), c, conn.fed.c, Watch(l.log, id).payload, told);
      PutKeeps(l, id, HeardSlot(slot, conn, l.clock), heard, {});
    } else {
      GoneKeeps(l, id, heard, {});
    }
  }

  lemma ReadContinues(l: Loop, id: Id, h: Happening) returns (told: seq<Tagged>)
    requires Inv(l, {}) && Usable(l, id, h)
    ensures var conn := l.slots[id].conn.value;
            var fed := ConnRead(l.cfg, conn.fed, h.chunks, h.end);
            var conn' := Flushed(Conn(fed, true, conn.accepted), h.written);
            && (fed.panicked <==> Crashes(l, id, h)) && conn'.fed.panicked == fed.panicked
            && Continued(l, id, conn', told)
  {
    hide Inv, Watch, Legal, QueueOk, C.Honest, C.Announced, TryReadFrame, C.FeedAll, C.Killed, C.Short, C.Parts, C.Joined;
    InvAt(l, {}, id);
    var conn, payload := l.slots[id].conn.value, Watch(l.log, id).payload;
    told := C.FeedAllKeeps(l.cfg, l.hello(id), conn.fed, payload, h.chunks, 0);
    C.FeedAllIs(l.cfg, conn.fed, h.chunks);
    var fed := ConnRead(l.cfg, conn.fed, h.chunks, h.end);
    DeadIsHonest(l.cfg, l.hello(id), fed.c, payload);
  }

  lemma DeadIsHonest(cfg: C.Config, params: seq<byte>, c: C.Client, payload: seq<byte>)
    ensures C.Honest(cfg, params, c.(state := C.Dead), payload)
    ensures !c.Alive() ==> C.Honest(cfg, params, c, payload)
  {
  }

  /** An event loses a connection exactly if a frame of the server kills it, it ends or fails,
      or writing fails. */
  lemma LosesExactly(l: Loop, id: Id, h: Happening)
    requires Inv(l, {}) && Usable(l, id, h) && !Crashes(l, id, h)
    ensures var conn := l.slots[id].conn.value;
            var fed := ConnRead(l.cfg, conn.fed, h.chunks, h.end);
            Flushed(Conn(fed, true, conn.accepted), h.written).fed.c.Alive() <==>
              && !C.Killed(l.cfg, conn.fed.c.state, C.Parts(conn.fed.pending + C.Joined(h.chunks, 0)))
              && h.end == WouldBlock && !h.written.failed
  {
    hide Inv, Tracks, Legal, QueueOk, TryReadFrame, C.FeedAll, C.Killed, C.Short, C.Parts, C.Joined;
    InvAt(l, {}, id);
    C.FeedAllIs(l.cfg, l.slots[id].conn.value.fed, h.chunks);
  }

  /** What an event of a usable connection does, said of the bytes read.  The log has that the
      client heard the frames that stand in them, and when; a ready-for-query among them lifts
      the barrier; the connection is kept exactly if nothing kills, ends or fails it, and the
      socket is then offered everything that has been sent. */
  lemma EventIsHeard(l: Loop, catchup: real, id: Id, h: Happening)
    requires Inv(l, {}) && catchup >= 0.0 && Usable(l, id, h) && !Crashes(l, id, h)
    ensures var l', slot := Evented(l, catchup, id, h), l.slots[id];
            var fed := slot.conn.value.fed;
            var parts := C.Parts(fed.pending + C.Joined(h.chunks, 0));
            var killed := C.Killed(l.cfg, fed.c.state, parts);
            var alive := !killed && h.end == WouldBlock && !h.written.failed;
            && |l.log| < |l'.log|
            && var e := l'.log[|l.log|];
            && e.Heard? && e.id == id && e.now == l.clock && e.alive == alive && (killed || e.frames == parts)
            && l'.log == l.log + [e] + (if alive then [] else [Dropped(id)])
            && if alive then id in l'.slots && Reheard(slot, l'.slots[id], C.Announced(parts), l.clock, h.written)
               else l'.slots == l.slots - {id}
  {
    hide Inv, Legal, Watch, QueueOk, TryReadFrame, C.Killed, C.Short, C.Parts, C.Joined, C.Announced, C.Honest, Regained,
         Served, NewFrames, ConnRead, Flushed, Crashes;
    InvAt(l, {}, id);
    var conn := l.slots[id].conn.value;
    ReadIs(l, id, h);
    var read := Flushed(Conn(ConnRead(l.cfg, conn.fed, h.chunks, h.end), true, conn.accepted), h.written);
    ServedIs(CaughtUp(l, l.clock, catchup), id, read);
  }

  lemma ReadIs(l: Loop, id: Id, h: Happening)
    requires Inv(l, {}) && Usable(l, id, h) && !Crashes(l, id, h)
    ensures var conn := l.slots[id].conn.value;
            var parts := C.Parts(conn.fed.pending + C.Joined(h.chunks, 0));
            var killed := C.Killed(l.cfg, conn.fed.c.state, parts);
            var read := Flushed(Conn(ConnRead(l.cfg, conn.fed, h.chunks, h.end), true, conn.accepted), h.written);
            && (read.fed.c.Alive() <==> !killed && h.end == WouldBlock && !h.written.failed)
            && (killed || (NewFrames(conn.fed.c, read.fed.c) == parts && (read.fed.c.rfq <==> C.Announced(parts))))
            && Offered(read, h.written)
  {
    hide Inv, Legal, Watch, QueueOk, TryReadFrame, C.FeedAll, C.Killed, C.Short, C.Parts, C.Joined, C.Announced, C.Honest;
    InvAt(l, {}, id);
    C.FeedAllIs(l.cfg, l.slots[id].conn.value.fed, h.chunks);
    LosesExactly(l, id, h);
    var told := ReadContinues(l, id, h);
  }

  /** The slot goes on, having heard a ready-for-query or not, and having offered the socket what
      there is to send. */
  predicate Reheard(slot: Slot, slot': Slot, ready: bool, now: nat, w: Writing) {
    && slot'.queue == slot.queue && slot'.burst == slot.burst
    && slot'.awaiting == (slot.awaiting && !ready) && slot'.rebase == (slot.rebase || ready)
    && slot'.readyAt == (if ready then now else slot.readyAt)
    && slot'.conn.Some? && Offered(slot'.conn.value, w)
  }

  predicate Offered(conn: Conn, w: Writing) {
    conn.connected && (|conn.fed.c.sent| <= w.took ==> conn.accepted == conn.fed.c.sent)
  }

  /** An event of a connection that cannot be used only ends one that is refused. */
  lemma EventIsUnheard(l: Loop, catchup: real, id: Id, h: Happening)
    requires catchup >= 0.0 && !Usable(l, id, h)
    ensures var l' := Evented(l, catchup, id, h);
            if id in l.slots && l.slots[id].conn.Some? && h.probe.Refuses? then
              l'.log == l.log + [Refused(id), Dropped(id)] && l'.slots == l.slots - {id}
            else l'.log == l.log && l'.slots == l.slots
  {
    hide Regained;
  }

  /** A command that runs over an open connection is offered to the socket at once. */
  lemma RunIsOffered(l: Loop, id: Id, ok: bool, w: Writing)
    requires id in l.slots && l.slots[id].Wants() && !l.slots[id].queue[0].kind.Connect?
    requires l.slots[id].conn.Some? && l.slots[id].conn.value.connected && l.slots[id].conn.value.fed.c.Alive()
    ensures var l' := HeadRun(l, id, ok, w);
            if w.failed then l'.slots == l.slots - {id}
            else id in l'.slots && l'.slots[id].conn.Some? && Offered(l'.slots[id].conn.value, w)
  {
    hide HeadRun;
    HeadRunIs(l, id, ok, w);
  }

  lemma TickKeeps(l: Loop, clock: nat)
    requires Inv(l, {}) && l.clock <= clock
    ensures Inv(l.(clock := clock), {})
  {
    hide Watch, Legal, Matches, ConnOk, Sorted;
    var l' := l.(clock := clock);
    forall id
      ensures Tracks(l', id) && (id in l.slots ==> SlotOk(l', id) && Woken(l', id))
    {
      assert Tracks(l, id) && (id in l.slots ==> SlotOk(l, id) && Woken(l, id));
    }
  }

  lemma LastTsKeeps(l: Loop, ts: nat)
    requires Inv(l, {}) && ts <= l.clock + HORIZON_US
    ensures Inv(l.(lastTs := ts), {})
  {
    hide Watch, Legal, Matches, ConnOk, Sorted;
    var l' := l.(lastTs := ts);
    forall id
      ensures Tracks(l', id) && (id in l.slots ==> SlotOk(l', id) && Woken(l', id))
    {
      assert Tracks(l, id) && (id in l.slots ==> SlotOk(l, id) && Woken(l, id));
    }
  }

  lemma PopKeeps(l: Loop)
    requires Inv(l, {}) && |l.timers| > 0
    ensures Inv(l.(timers := l.timers[1..]), {l.timers[0].id})
  {
    hide Watch, Legal, Matches, ConnOk, QueueOk;
    var l' := l.(timers := l.timers[1..]);
    var first := l.timers[0];
    assert forall t :: t in l.timers ==> t == first || t in l'.timers;
    forall id
      ensures Tracks(l', id) && (id in l.slots ==> SlotOk(l', id) && (id != first.id ==> Woken(l', id)))
    {
      assert Tracks(l, id) && (id in l.slots ==> SlotOk(l, id) && Woken(l, id));
    }
  }

  /** No lost wake-up: when no timer is due, no client has a command that could run now, and
      none is held up in the middle of a batch. */
  lemma NothingLeftBehind(l: Loop, id: Id)
    requires Inv(l, {}) && id in l.slots && l.slots[id].Wants()
    requires |l.timers| == 0 || l.timers[0].key + l.shift > l.clock
    ensures !l.slots[id].burst && l.slots[id].queue[0].ts + l.shift > l.clock
  {
    hide Tracks, Legal;
    InvAt(l, {}, id);
    assert Woken(l, id);
    var t :| t in l.timers && t.id == id && t.key <= l.slots[id].Key();
    assert Le(l.timers[0], t);
  }

  lemma NoneDue(l: Loop)
    requires Inv(l, {}) && (|l.timers| == 0 || l.timers[0].key + l.shift > l.clock)
    ensures forall t :: t in l.timers ==> t.key + l.shift > l.clock
  {
    hide Tracks, Legal, SlotOk, Woken;
    forall t | t in l.timers
      ensures t.key + l.shift > l.clock
    {
      assert Le(l.timers[0], t);
    }
  }

  /** An idle established client is ready for its next frame: replaying one never drops it. */
  lemma ReadyClientSends(l: Loop, id: Id, tag: byte, data: seq<byte>)
    requires Inv(l, {}) && id in l.slots && l.slots[id].conn.Some? && !l.slots[id].awaiting
    ensures var c := l.slots[id].conn.value.fed.c; C.ReplayFrame(c, tag, data).sent == c.sent + data
  {
    hide Tracks, Legal, Woken;
    InvAt(l, {}, id);
  }

  /** What a client's connection has been given is the startup packet, its answers to what the
      server asked, and then what its commands carry, in the order they arrived; the socket has
      a prefix of it; the commands not yet run are its queue. */
  lemma ConnectionGetsCommands(l: Loop, id: Id)
    requires Inv(l, {}) && id in l.slots
    ensures Given(l.log, id) == Done(l.log, id) + l.slots[id].queue
    ensures l.slots[id].conn.Some? ==>
      var conn := l.slots[id].conn.value;
      && conn.fed.c.sent == C.Startup(l.hello(id)) + C.Answers(l.cfg, Told(l.log, id)) + Carried(Done(l.log, id)).0
      && conn.accepted <= conn.fed.c.sent && conn.fed.c.handled == Told(l.log, id)
      && (conn.fed.c.state == C.Normal <==> C.Announced(Told(l.log, id)))
  {
    hide Legal, Watch, Given, Done, Carried, C.Startup, C.Answers, C.Announced, Told;
    InvAt(l, {}, id);
    RunsInOrder(l.log, id);
    PayloadIsCarried(l.log, id);
    HeardIsTold(l.log, id);
  }

  /** Every slot but those of `ids` has had an end command queued since `was`. */
  ghost predicate Notified(was: map<Id, Slot>, slots: map<Id, Slot>, ids: set<Id>, ts: nat) {
    && slots.Keys == was.Keys && ids <= slots.Keys
    && forall id :: id in slots ==>
      slots[id] == if id in ids then was[id] else was[id].(queue := was[id].queue + [Cmd(id, ts, End)])
  }

  lemma NotifiedNone(slots: map<Id, Slot>, ts: nat)
    ensures Notified(slots, slots, slots.Keys, ts)
  {
  }

  lemma NotifiedOne(was: map<Id, Slot>, slots: map<Id, Slot>, ids: set<Id>, ts: nat, id: Id)
    requires Notified(was, slots, ids, ts) && id in ids
    ensures id in slots
    ensures Notified(was, slots[id := slots[id].(queue := slots[id].queue + [Cmd(id, ts, End)])], ids - {id}, ts)
  {
  }

  /* ----- what has been taken from the reader of the capture ----- */

  function Received(log: seq<Entry>): seq<Cmd> {
    if |log| == 0 then []
    else
      var e := log[|log| - 1];
      Received(log[..|log| - 1]) + (if e.Arrived? && !e.cmd.kind.End? then [e.cmd] else [])
  }

  function LastTs(cmds: seq<Cmd>): nat {
    if |cmds| == 0 then 0 else cmds[|cmds| - 1].ts
  }

  lemma ReceivedSnoc(log: seq<Entry>, e: Entry)
    ensures Received(log + [e]) == Received(log) + (if e.Arrived? && !e.cmd.kind.End? then [e.cmd] else [])
  {
    assert (log + [e])[..|log|] == log;
  }

  /** Only the client is touched, and the log goes on. */
  predicate Continues(l: Loop, l': Loop, id: Id) {
    l.log <= l'.log && l'.slots - {id} == l.slots - {id}
  }

  lemma HeadRunFrame(l: Loop, id: Id, ok: bool, w: Writing)
    requires id in l.slots && |l.slots[id].queue| > 0
    ensures var l' := HeadRun(l, id, ok, w);
            && l' == l.(slots := l'.slots, log := l'.log) && Received(l'.log) == Received(l.log)
            && (id in l'.slots ==> l'.slots[id].queue == l.slots[id].queue[1..])
            && Continues(l, l', id)
  {
    hide Received, Replayed, Flushed;
    var slot := l.slots[id];
    var cmd := slot.queue[0];
    var ran := Ran(cmd, l.clock, l.shift, slot.burst, Survives(slot, cmd.kind, ok, w));
    ReceivedSnoc(l.log, ran);
    ReceivedSnoc(l.log + [ran], Dropped(id));
  }

  lemma ShiftMovedFrame(l: Loop, id: Id)
    requires id in l.slots && |l.slots[id].queue| > 0
    ensures var l' := ShiftMoved(l, id);
            && l' == l.(slots := l'.slots, shift := l'.shift, log := l'.log) && Received(l'.log) == Received(l.log)
            && Continues(l, l', id)
  {
    var slot := l.slots[id];
    ReceivedSnoc(l.log, Rebased(id, slot.queue[0].ts, slot.readyAt, l.shift, ShiftMoved(l, id).shift));
  }

  lemma ServedFrame(l: Loop, id: Id, conn: Conn)
    requires id in l.slots && l.slots[id].conn.Some?
    ensures var l' := Served(l, id, conn);
            && l' == l.(slots := l'.slots, log := l'.log) && Received(l'.log) == Received(l.log)
  {
    hide Received, NewFrames;
    var heard := Heard(id, l.clock, NewFrames(l.slots[id].conn.value.fed.c, conn.fed.c), conn.fed.c.Alive());
    ReceivedSnoc(l.log, heard);
    ReceivedSnoc(l.log + [heard], Dropped(id));
  }

  /* ----- the object ----- */

  class ReplayLoop {
    const cfg: C.Config
    const catchup: real
    /** The startup parameters sent for a client. */
    const hello: Id -> seq<byte>
    /** What the reader of the capture will still hand over. */
    var rx: seq<Cmd>
    var started: bool
    var clock: nat
    var lookahead: Option<Cmd>
    var rxClosed: bool
    var ended: bool
    var lastTs: nat
    var slots: map<Id, Slot>
    var timers: seq<Timer>
    var shift: nat
    var lastTick: nat
    ghost var log: seq<Entry>
    ghost const input: seq<Cmd>

    ghost function Abs(): Loop
      reads this
    {
      Loop(slots, timers, shift, lastTick, clock, lastTs, log, cfg, hello)
    }

    /** Every command is received once, in order. */
    ghost predicate Fed()
      reads this
    {
      && Received(log) + (if lookahead.Some? then [lookahead.value] else []) + rx == input
      && (forall k :: 0 <= k < |input| ==> !input[k].kind.End?)
      && (rxClosed ==> rx == []) && (ended ==> rxClosed && lookahead.None?)
    }

    /** The time of the command received last. */
    ghost predicate LastKnown()
      reads this
    {
      lastTs == LastTs(Received(log))
    }

    ghost predicate Valid()
      reads this
    {
      catchup >= 0.0 && Inv(Abs(), {}) && Fed() && LastKnown()
    }

    constructor (cfg: C.Config, catchup: real, hello: Id -> seq<byte>, input: seq<Cmd>)
      requires forall k :: 0 <= k < |input| ==> !input[k].kind.End?
      ensures Valid() && this.input == input && log == []
    {
      this.cfg, this.hello, this.input := cfg, hello, input;
      this.catchup := if catchup < 0.0 then 0.0 else catchup;
      rx, started, clock, lookahead, rxClosed, ended, lastTs := input, false, 0, None, false, false, 0;
      slots, timers, shift, lastTick, log := map[], [], 0, 0, [];
      new;
      assert [] + [] + input == input;
    }

    /** Time passes only between two readings of the clock. */
    method NowUs() returns (now: nat)
      requires Inv(Abs(), {})
      modifies this`clock
      ensures Inv(Abs(), {}) && now == clock && old(clock) <= clock
    {
      hide Inv;
      if started {
        var passed: nat :| true;
        TickKeeps(Abs(), clock + passed);
        clock := clock + passed;
      }
      now := clock;
    }

    method CatchUp(now: nat)
      requires Valid() && now == clock
      modifies this`shift, this`lastTick
      ensures Valid() && Abs() == CaughtUp(old(Abs()), now, catchup) && shift <= old(shift)
    {
      hide Inv, Regained;
      CaughtUpKeeps(Abs(), now, catchup);
      if shift == 0 {
        lastTick := now;
        return;
      }
      var d := Regained(now, lastTick, catchup);
      if d > 0 {
        shift := if shift < d then 0 else shift - d;
        lastTick := now;
      }
    }

    method Schedule(id: Id)
      modifies this`timers
      ensures Abs() == Scheduled(old(Abs()), id)
    {
      if id in slots && !slots[id].Blocked() && |slots[id].queue| > 0 {
        timers := Push(timers, Timer(slots[id].Key(), id));
      }
    }

    method Enqueue(cmd: Cmd)
      modifies this`slots, this`timers, this`log
      ensures Abs() == Enqueued(old(Abs()), cmd) && log == old(log) + [Arrived(cmd)]
    {
      log := log + [Arrived(cmd)];
      var id := cmd.id;
      var slot := NEW_SLOT;
      if id in slots {
        slot := slots[id];
      } else if !cmd.kind.Connect? {
        return;
      }
      slots := slots[id := slot.(queue := slot.queue + [cmd])];
      if |slots[id].queue| == 1 {
        Schedule(id);
      }
    }

    /** The command held back, or else the next one received. */
    method Take() returns (cmd: Option<Cmd>)
      requires Valid()
      modifies this`rx, this`lookahead, this`rxClosed
      ensures cmd.None? ==> Valid() && rx == old(rx) && lookahead == old(lookahead)
      ensures lookahead.None? && Abs() == old(Abs()) && LastKnown()
      ensures cmd.Some? ==>
        && Received(log) + ([cmd.value] + rx) == input && !cmd.value.kind.End? && !ended
        && |rx| + 1 == |old(rx)| + (if old(lookahead).Some? then 1 else 0) && (rxClosed ==> rx == [])
    {
      hide Inv, Received;
      if lookahead.Some? {
        cmd := lookahead;
        lookahead := None;
      } else {
        var empty: bool := *;
        if empty {
          return None;
        }
        if |rx| == 0 {
          rxClosed := true;
          return None;
        }
        cmd := Some(rx[0]);
        rx := rx[1..];
      }
      assert Received(log) + [cmd.value] + rx == Received(log) + ([cmd.value] + rx) == input;
      assert input[|Received(log)|] == cmd.value;
    }

    /** A command too far ahead of the clock is held back. */
    method Admit(cmd: Cmd) returns (held: bool)
      requires catchup >= 0.0 && Inv(Abs(), {}) && !cmd.kind.End? && lookahead.None? && !ended && LastKnown()
      requires Received(log) + ([cmd] + rx) == input && forall k :: 0 <= k < |input| ==> !input[k].kind.End?
      requires rxClosed ==> rx == []
      modifies this`started, this`clock, this`lookahead, this`lastTs, this`slots, this`timers, this`log
      ensures Valid() && old(clock) <= clock && lookahead == (if held then Some(cmd) else None)
      ensures held <==> cmd.ts > clock + HORIZON_US
      ensures var l := old(Abs()).(clock := clock); Abs() == if held then l else Enqueued(l.(lastTs := cmd.ts), cmd)
    {
      hide Inv, Received, Enqueued;
      started := true;
      var now := NowUs();
      held := cmd.ts > now + HORIZON_US;
      ghost var before := Received(log);
      if held {
        lookahead := Some(cmd);
        assert before + [cmd] + rx == before + ([cmd] + rx);
        return;
      }
      lastTs := cmd.ts;
      LastTsKeeps(Abs().(lastTs := old(lastTs)), cmd.ts);
      EnqueuedKeeps(Abs(), cmd);
      ReceivedSnoc(log, Arrived(cmd));
      Enqueue(cmd);
      assert before + [cmd] + [] + rx == before + ([cmd] + rx);
    }

    /** Takes what is there and not too far ahead of the clock. */
    method Pull()
      requires Valid()
      modifies this`rx, this`started, this`clock, this`lookahead, this`rxClosed, this`lastTs,
               this`slots, this`timers, this`log
      ensures Valid() && old(clock) <= clock
      ensures lookahead.Some? ==> lookahead.value.ts > clock + HORIZON_US
    {
      while true
        invariant Valid() && old(clock) <= clock
        decreases |rx| + (if lookahead.Some? then 1 else 0)
      {
        hide Inv, Received;
        var cmd := Take();
        if cmd.None? {
          return;
        }
        var held := Admit(cmd.value);
        if held {
          return;
        }
      }
    }

    method DropSlot(id: Id)
      modifies this`slots, this`log
      ensures Abs() == Removed(old(Abs()), id)
    {
      if id in slots {
        slots := slots - {id};
        log := log + [Dropped(id)];
      }
    }

    method RemoveIfDead(id: Id) returns (dead: bool)
      modifies this`slots, this`log
      ensures Abs() == RemovedIfDead(old(Abs()), id)
      ensures dead <==> id in old(slots) && old(slots)[id].conn.Some? && !old(slots)[id].conn.value.fed.c.Alive()
    {
      dead := id in slots && slots[id].conn.Some? && !slots[id].conn.value.fed.c.Alive();
      if dead {
        DropSlot(id);
      }
    }

    /** `ok`: a connection can be opened. */
    method Execute(id: Id, cmd: Cmd, ok: bool, w: Writing)
      requires id in slots
      modifies this`slots, this`log
      ensures Abs() == Executed(old(Abs()), id, cmd.kind, ok, w)
    {
      hide Flushed;
      var slot := slots[id];
      match cmd.kind {
        case Connect =>
          if ok {
            slots := slots[id := slot.(conn := Some(Conn(C.Fed(C.Fresh(hello(id)), [], false), false, [])), awaiting := true)];
          } else {
            DropSlot(id);
          }
        case Send(tag, data) =>
          if slot.conn.Some? {
            var conn := slot.conn.value;
            conn := Flushed(conn.(fed := conn.fed.(c := C.ReplayFrame(conn.fed.c, tag, data))), w);
            var blocking := tag == F_QUERY || tag == F_SYNC;
            slots := slots[id := slot.(conn := Some(conn), awaiting := slot.awaiting || blocking, burst := !blocking)];
            var _ := RemoveIfDead(id);
          }
        case End =>
          if slot.conn.Some? {
            var conn := slot.conn.value;
            conn := Flushed(conn.(fed := conn.fed.(c := C.OnReplayEnd(conn.fed.c))), w);
            slots := slots[id := slot.(conn := Some(conn))];
            var _ := RemoveIfDead(id);
          }
      }
    }

    /** How much work is left for a client. */
    function Left(id: Id): nat
      reads this
    {
      if id in slots then |slots[id].queue| + 1 else 0
    }

    /** The client has nothing left that could run now. */
    predicate Settled(id: Id, now: nat)
      reads this
    {
      id in slots && slots[id].Wants() ==> !slots[id].burst && slots[id].queue[0].ts + shift > now
    }

    /** One turn of the dispatch of a client: a command runs, or the turn is the last. */
    method Turn(id: Id, now: nat) returns (again: bool)
      requires Inv(Abs(), {id}) && now == clock
      modifies this`slots, this`timers, this`shift, this`log
      ensures Received(log) == old(Received(log)) && old(shift) <= shift
      ensures Continues(old(Abs()), Abs(), id)
      ensures again ==> Inv(Abs(), {id}) && timers == old(timers) && Left(id) < old(Left(id))
      ensures !again ==> Inv(Abs(), {}) && Settled(id, now) && Due(timers, now - shift) == Due(old(timers), now - shift)
    {
      hide Inv, Received, HeadRun, ShiftMoved, Due;
      if id !in slots || slots[id].Blocked() || |slots[id].queue| == 0 {
        IdleKeeps(Abs(), id);
        return false;
      }
      Rebase(id);
      var slot := slots[id];
      var at := if slot.burst then now else slot.queue[0].ts + shift;
      if at > now {
        Park(id, now);
        return false;
      }
      RunHead(id);
      again := true;
    }

    /** Runs what may run now for a client whose timer has fired or whose barrier was lifted. */
    method TryDispatch(id: Id, now: nat)
      requires Inv(Abs(), {id}) && now == clock
      modifies this`slots, this`timers, this`shift, this`log
      ensures Inv(Abs(), {}) && Received(log) == old(Received(log))
      ensures Continues(old(Abs()), Abs(), id) && Settled(id, now)
      ensures old(shift) <= shift && Due(timers, now - shift) <= Due(old(timers), now - old(shift))
    {
      hide Inv, Received, Due;
      var again := true;
      while again
        invariant Inv(Abs(), if again then {id} else {}) && Received(log) == old(Received(log)) && old(shift) <= shift
        invariant Continues(old(Abs()), Abs(), id)
        invariant if again then timers == old(timers)
                  else Settled(id, now) && Due(timers, now - shift) == Due(old(timers), now - shift)
        decreases again, Left(id)
      {
        again := Turn(id, now);
      }
      DueFalls(old(timers), now - shift, now - old(shift));
    }

    method Rebase(id: Id)
      requires Inv(Abs(), {id}) && id in slots && slots[id].Wants()
      modifies this`slots, this`shift, this`log
      ensures Inv(Abs(), {id}) && Abs() == ShiftMoved(old(Abs()), id) && Received(log) == old(Received(log))
      ensures old(shift) <= shift && id in slots && slots[id] == old(slots)[id].(rebase := slots[id].rebase)
      ensures slots[id].burst || !slots[id].rebase
      ensures var slot := old(slots)[id];
              JustEnough(slot.queue[0].ts, if slot.rebase && !slot.burst then slot.readyAt else 0, old(shift), shift)
      ensures Continues(old(Abs()), Abs(), id)
    {
      hide Inv, Received;
      ShiftMovedKeeps(Abs(), id);
      ShiftMovedFrame(Abs(), id);
      var slot := slots[id];
      if slot.rebase && !slot.burst {
        var ts := slot.queue[0].ts;
        var need := if slot.readyAt < ts then 0 else slot.readyAt - ts;
        ghost var before := shift;
        if need > shift {
          shift := need;
        }
        slots := slots[id := slot.(rebase := false)];
        log := log + [Rebased(id, ts, slot.readyAt, before, shift)];
      }
    }

    method Park(id: Id, now: nat)
      requires Inv(Abs(), {id}) && id in slots && slots[id].Wants() && !slots[id].burst
      requires slots[id].queue[0].ts + shift > now
      modifies this`timers
      ensures Inv(Abs(), {}) && Due(timers, now - shift) == Due(old(timers), now - shift)
    {
      hide Inv, Push;
      ParkKeeps(Abs(), id);
      PushLater(timers, Timer(slots[id].queue[0].ts, id), now - shift);
      timers := Push(timers, Timer(slots[id].queue[0].ts, id));
    }

    method RunHead(id: Id)
      requires Inv(Abs(), {id}) && id in slots && slots[id].Wants()
      requires slots[id].burst || (slots[id].queue[0].ts + shift <= clock && !slots[id].rebase)
      modifies this`slots, this`log
      ensures Inv(Abs(), {id}) && Received(log) == old(Received(log))
      ensures id in slots ==> slots[id].queue == old(slots)[id].queue[1..]
      ensures Continues(old(Abs()), Abs(), id)
    {
      hide Inv, Received, Executed, Survives;
      var ok: bool, w: Writing := *, *;
      var slot := slots[id];
      var cmd := slot.queue[0];
      RunKeeps(Abs(), id, ok, w);
      HeadRunFrame(Abs(), id, ok, w);
      slots := slots[id := slot.(queue := slot.queue[1..])];
      log := log + [Ran(cmd, clock, shift, slot.burst, Survives(slot, cmd.kind, ok, w))];
      Execute(id, cmd, ok, w);
    }

    method DispatchReady()
      requires Valid()
      modifies this`clock, this`slots, this`timers, this`shift, this`lastTick, this`log
      ensures Valid() && old(clock) <= clock
      ensures forall t :: t in timers ==> t.key + shift > clock
      ensures forall id :: id in slots && slots[id].Wants() ==> !slots[id].burst && slots[id].queue[0].ts + shift > clock
    {
      hide Inv, Received;
      var now := NowUs();
      CatchUp(now);
      while |timers| > 0 && timers[0].key + shift <= now
        invariant Inv(Abs(), {}) && Received(log) == old(Received(log)) && now == clock
        decreases Due(timers, now - shift)
      {
        PopKeeps(Abs());
        var id := timers[0].id;
        timers := timers[1..];
        TryDispatch(id, now);
      }
      NoneDue(Abs());
      forall id | id in slots && slots[id].Wants()
        ensures !slots[id].burst && slots[id].queue[0].ts + shift > clock
      {
        NothingLeftBehind(Abs(), id);
      }
    }

    method ReadConn(f: C.Fed, chunks: seq<seq<byte>>, end: ReadEnd) returns (r: C.Fed)
      ensures r == ConnRead(cfg, f, chunks, end)
    {
      hide C.Feed;
      r := f;
      for i := 0 to |chunks|
        invariant C.FeedAll(cfg, r, chunks, i) == C.FeedAll(cfg, f, chunks, 0)
      {
        if !r.GoesOn() {
          return;
        }
        r := C.Feed(cfg, r.c, r.pending + chunks[i]);
      }
      if r.GoesOn() && end != WouldBlock {
        r := r.(c := r.c.(state := C.Dead));
      }
    }

    method Serve(id: Id, conn: Conn, now: nat, ghost told: seq<Tagged>) returns (dead: bool)
      requires now == clock && Inv(Abs(), {}) && id in slots && slots[id].conn.Some? && !conn.fed.panicked
      requires Continued(Abs(), id, conn, told)
      modifies this`slots, this`log
      ensures Abs() == Served(old(Abs()), id, conn) && Inv(Abs(), {id}) && Received(log) == old(Received(log))
      ensures dead ==> id !in slots
    {
      hide Inv, Received, NewFrames;
      ServedKeeps(Abs(), id, conn, told);
      ServedFrame(Abs(), id, conn);
      var slot := slots[id];
      if conn.fed.c.rfq {
        var calm := conn.(fed := conn.fed.(c := conn.fed.c.(rfq := false)));
        slots := slots[id := slot.(conn := Some(calm), awaiting := false, rebase := true, readyAt := now)];
      } else {
        slots := slots[id := slot.(conn := Some(conn))];
      }
      log := log + [Heard(id, now, NewFrames(slot.conn.value.fed.c, conn.fed.c), conn.fed.c.Alive())];
      dead := RemoveIfDead(id);
    }

    /** After the event itself the client runs what it may run now. */
    method HandleEvent(id: Id, h: Happening) returns (panicked: bool)
      requires Valid()
      modifies this`clock, this`slots, this`timers, this`shift, this`lastTick, this`log
      ensures panicked <==> Crashes(old(Abs()), id, h)
      ensures !panicked ==> Valid() && old(clock) <= clock
      ensures !panicked ==>
        var event := Evented(old(Abs()).(clock := clock), catchup, id, h);
        Abs() == event || (Continues(event, Abs(), id) && Settled(id, clock) && Usable(old(Abs()), id, h))
    {
      hide Inv, Received, Served, ConnRead, Flushed, Tracks, SlotOk, Woken, Regained, Lost, Continues, Continued,
           C.Short, C.Parts, C.Killed, C.Joined;
      panicked := false;
      var now := NowUs();
      CatchUp(now);
      if id !in slots || slots[id].conn.None? {
        return;
      }
      var conn := slots[id].conn.value;
      if !conn.connected {
        match h.probe {
          case Pending => return;
          case Refuses =>
            Lose(id);
            return;
          case Established => conn := conn.(connected := true);
        }
      }
      ghost var told := ReadContinues(Abs(), id, h);
      var fed := ReadConn(conn.fed, h.chunks, h.end);
      if fed.panicked {
        return true;
      }
      ServeAndDispatch(id, Flushed(conn.(fed := fed), h.written), now, told);
    }

    method ServeAndDispatch(id: Id, conn: Conn, now: nat, ghost told: seq<Tagged>)
      requires now == clock && Inv(Abs(), {}) && id in slots && slots[id].conn.Some? && !conn.fed.panicked
      requires Continued(Abs(), id, conn, told)
      modifies this`slots, this`timers, this`shift, this`log
      ensures Inv(Abs(), {}) && Received(log) == old(Received(log))
      ensures Continues(Served(old(Abs()), id, conn), Abs(), id) && Settled(id, now)
    {
      hide Inv, Received, Served, Continued;
      var dead := Serve(id, conn, now, told);
      if dead {
        IdleKeeps(Abs(), id);
      } else {
        TryDispatch(id, now);
      }
    }

    method Lose(id: Id)
      requires Inv(Abs(), {}) && id in slots
      modifies this`slots, this`log
      ensures Inv(Abs(), {}) && Abs() == Lost(old(Abs()), id) && Received(log) == old(Received(log))
    {
      hide Inv, Received;
      LostKeeps(Abs(), id);
      ReceivedSnoc(log, Refused(id));
      ReceivedSnoc(log + [Refused(id)], Dropped(id));
      log := log + [Refused(id)];
      DropSlot(id);
    }

    method End(id: Id)
      requires Inv(Abs(), {}) && id in slots
      modifies this`slots, this`timers, this`log
      ensures Inv(Abs(), {}) && Received(log) == old(Received(log))
      ensures slots == old(slots)[id := old(slots)[id].(queue := old(slots)[id].queue + [Cmd(id, lastTs, Kind.End)])]
    {
      hide Inv, Received, Push;
      LastTsOk(Abs());
      EnqueuedKeeps(Abs(), Cmd(id, lastTs, Kind.End));
      ReceivedSnoc(log, Arrived(Cmd(id, lastTs, Kind.End)));
      Enqueue(Cmd(id, lastTs, Kind.End));
    }

    /** Once the capture has been read, every client still there is told to end, once. */
    method FinishClients()
      requires Valid() && rxClosed && lookahead.None? && !ended
      modifies this`ended, this`slots, this`timers, this`log
      ensures Valid() && ended && Notified(old(slots), slots, {}, lastTs)
    {
      hide Inv, Received, Notified;
      ended := true;
      var ids := slots.Keys;
      assert Notified(slots, slots, ids, lastTs) by { NotifiedNone(slots, lastTs); }
      while ids != {}
        invariant Inv(Abs(), {}) && Received(log) == old(Received(log)) && ended
        invariant Notified(old(slots), slots, ids, lastTs)
        decreases |ids|
      {
        var id :| id in ids;
        NotifiedOne(old(slots), slots, ids, lastTs, id);
        ids := ids - {id};
        End(id);
      }
    }

    /** Any number of rounds, with whatever the poll reports in each. */
    method Run(rounds: nat) returns (done: bool, panicked: bool)
      requires Valid()
      modifies this
      ensures !panicked ==> Valid()
      ensures done ==> !panicked && Received(log) == input && forall id :: Watch(log, id).Closed?
    {
      hide Inv, Received, Watch;
      done, panicked := false, false;
      for round := 0 to rounds
        invariant Valid()
      {
        Pull();
        var events: nat :| true;
        for event := 0 to events
          invariant Valid()
        {
          var id: Id, h: Happening := *, *;
          panicked := HandleEvent(id, h);
          if panicked {
            return;
          }
        }
        Pull();
        DispatchReady();
        if rxClosed && lookahead.None? && !ended {
          FinishClients();
        }
        if ended && slots == map[] {
          done := true;
          AllClosed(Abs());
          return;
        }
      }
    }
  }
}
