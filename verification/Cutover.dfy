/** The capture cut-over (extension/src/hooks.c with extension/src/capture.c and shmem.c).

    Every backend runs its messages through capture_gate and its transaction ends through
    tx_finish.  Until the synchronisation point has been written, the messages of the current
    transaction are only buffered and die with it; afterwards the backend goes live.

    One message with its gate, one transaction end with its commit, and the writing of the
    synchronisation point with the leave or start that grants it are each a single step. */
module Cutover {
  import opened Wrappers
  import opened Bytes
  import Capture

  type Body = seq<byte>

  /** What a backend pushes: its connect record, naming a session snapshot or not, and the
      messages it recorded. */
  datatype Item = Connect(snapshot: bool) | Recorded(body: Body)

  /** The channel of the running generation. */
  datatype Entry = Lsn | From(client: nat, item: Item)

  /** The file-level state of one backend. */
  datatype Backend = Backend(
    txOpen: bool, txGen: nat, txCaptured: bool,
    myGen: nat, clientId: nat, live: bool,
    skipSnap: bool, snapshot: bool, buf: seq<Body>)

  const IDLE := Backend(false, 0, false, 0, 0, false, false, false, [])

  function Records(bodies: seq<Body>): (items: seq<Item>)
    ensures |items| == |bodies|
    ensures forall i :: 0 <= i < |bodies| ==> items[i] == Recorded(bodies[i])
  {
    seq(|bodies|, i requires 0 <= i < |bodies| => Recorded(bodies[i]))
  }

  /** go_live: the connect record, then everything buffered. */
  function GoLive(b: Backend): (Backend, seq<Item>) {
    (b.(live := true, snapshot := false, buf := []), [Connect(b.snapshot)] + Records(b.buf))
  }

  /** The first message of a transaction enters it in shared memory. */
  function EnterTx(c: Capture.Shared, b: Backend, inTx: bool): (Capture.Shared, Backend) {
    if !b.txOpen && inTx then
      var (c', gen) := Capture.Enter(c);
      (c', b.(txOpen := true, txGen := gen, txCaptured := false, buf := if b.live then b.buf else []))
    else (c, b)
  }

  /** The first accepted message of a generation gives the backend its client id. */
  function JoinGeneration(c: Capture.Shared, b: Backend, early: bool): (Capture.Shared, Backend) {
    if b.myGen != c.gen then
      (c.(nextClient := c.nextClient + 1),
       b.(myGen := c.gen, clientId := c.nextClient, live := false, buf := [], snapshot := false,
          skipSnap := early && c.walReady))
    else (c, b)
  }

  function TakeSnapshot(b: Backend, snapOk: bool): Backend {
    if b.live || b.txCaptured then b
    else if b.skipSnap then b.(skipSnap := false, snapshot := false)
    else b.(snapshot := snapOk)
  }

  /** The rest of the gate for a message that is to be recorded. */
  function Accept(c: Capture.Shared, b: Backend, snapOk: bool): (Backend, seq<Item>) {
    var b1 := TakeSnapshot(b, snapOk);
    var (b2, items) := if !b1.live && c.walReady then GoLive(b1) else (b1, []);
    (if b2.txOpen then b2.(txCaptured := true) else b2, items)
  }

  /** capture_gate: the new states, whether the message is to be recorded, and what going
      live pushed.  `early` is StatementIndex <= 1; `snapOk` is the snapshot's success. */
  function Gate(c: Capture.Shared, b: Backend, inTx: bool, early: bool, snapOk: bool)
    : (Capture.Shared, Backend, bool, seq<Item>)
  {
    var (c1, b1) := EnterTx(c, b, inTx);
    if !c1.running then (c1, b1, false, [])
    else if b1.txOpen && Capture.IsPre(c1, b1.txGen) then (c1, b1, false, [])
    else
      var (c2, b2) := JoinGeneration(c1, b1, early);
      if !b2.live && !b2.txOpen then (c2, b2, false, [])
      else
        var (b3, items) := Accept(c2, b2, snapOk);
        (c2, b3, true, items)
  }

  /** cap_end: a live backend pushes, another one buffers. */
  function Record(b: Backend, m: Body): (Backend, seq<Item>) {
    if b.live then (b, [Recorded(m)]) else (b.(buf := b.buf + [m]), [])
  }

  function OnMessage(c: Capture.Shared, b: Backend, m: Body, inTx: bool, early: bool, snapOk: bool)
    : (Capture.Shared, Backend, seq<Item>)
  {
    var (c1, b1, accepted, items) := Gate(c, b, inTx, early, snapOk);
    if !accepted then (c1, b1, items)
    else
      var (b2, more) := Record(b1, m);
      (c1, b2, items + more)
  }

  /** tx_finish up to the grant: true when this leave grants the synchronisation point. */
  function TxFinish(c: Capture.Shared, b: Backend): (Capture.Shared, Backend, seq<Item>, bool) {
    if !b.txOpen then (c, b, [], false)
    else
      var (c1, last) := Capture.Leave(c, b.txGen);
      var b1 := b.(txOpen := false);
      var (b2, items) :=
        if b1.txCaptured && c1.running && b1.myGen == c1.gen && !b1.live && c1.walReady then GoLive(b1) else (b1, []);
      (c1, if b2.live then b2.(txCaptured := false) else b2.(txCaptured := false, buf := []), items, last)
  }

  /* ----- the system ----- */

  /** A transaction that ended while the capture ran: its messages are sent[lo..hi] of its
      backend, and it ended after the synchronisation point or before it. */
  datatype TxRec = TxRec(lo: nat, hi: nat, after: bool)

  /** What one backend did in the running generation: every message shown to the gate, what
      was pushed, where transactions began and ended, and where recording took over; for every
      message whether a session snapshot taken then succeeds, and whether the backend joined
      the generation late: within its first statement, after the synchronisation point. */
  datatype History = History(
    sent: seq<Body>, out: seq<Item>,
    starts: set<nat>, cur: nat, ended: seq<TxRec>, from: Option<nat>,
    snaps: seq<bool>, late: bool)

  const NOTHING := History([], [], {}, 0, [], None, [], false)

  datatype System = System(
    c: Capture.Shared,
    backends: map<nat, Backend>,
    chan: seq<Entry>,
    hist: map<nat, History>)

  datatype Action =
    | Fork(id: nat)
    | Message(id: nat, m: Body, inTx: bool, early: bool, snapOk: bool)
    | Finish(id: nat)
    | StartCapture
    | StopCapture

  const INIT := System(Capture.INIT, map[], [], map[])

  predicate Enabled(s: System, a: Action) {
    match a
    case Fork(id) => id !in s.backends
    case Message(id, _, _, _, _) => id in s.backends && id in s.hist
    case Finish(id) => id in s.backends && id in s.hist && s.backends[id].txOpen
    case _ => true
  }

  function Tagged(client: nat, items: seq<Item>): (es: seq<Entry>)
    ensures |es| == |items|
    ensures forall i :: 0 <= i < |items| ==> es[i] == From(client, items[i])
  {
    seq(|items|, i requires 0 <= i < |items| => From(client, items[i]))
  }

  /** The history after a message, given the backend before and after it. */
  function AfterMessage(h: History, b: Backend, b': Backend, gen: nat, m: Body, items: seq<Item>): History {
    var begins := !b.txOpen && b'.txOpen;
    var cur := if begins then |h.sent| else h.cur;
    h.(sent := h.sent + [m], out := h.out + items,
       starts := if begins then h.starts + {|h.sent|} else h.starts, cur := cur,
       from := if h.from.None? && b'.live && b'.myGen == gen then Some(cur) else h.from)
  }

  /** The circumstances of the message. */
  function Noted(h: History, c: Capture.Shared, b: Backend, b': Backend, early: bool, snapOk: bool): History {
    h.(snaps := h.snaps + [snapOk],
       late := if b.myGen != c.gen && b'.myGen == c.gen then early && c.walReady else h.late)
  }

  function AfterFinish(h: History, b': Backend, gen: nat, after: bool, items: seq<Item>): History {
    h.(out := h.out + items,
       ended := h.ended + [TxRec(h.cur, if h.cur <= |h.sent| then |h.sent| else h.cur, after)],
       from := if h.from.None? && b'.live && b'.myGen == gen then Some(h.cur) else h.from)
  }

  function Apply(s: System, a: Action): System
    requires Enabled(s, a)
  {
    match a
    case Fork(id) => s.(backends := s.backends[id := IDLE], hist := s.hist[id := NOTHING])
    case Message(id, m, inTx, early, snapOk) =>
      var (c, b, items) := OnMessage(s.c, s.backends[id], m, inTx, early, snapOk);
      var h := if s.c.running then
                 Noted(AfterMessage(s.hist[id], s.backends[id], b, c.gen, m, items), s.c, s.backends[id], b, early, snapOk)
               else s.hist[id];
      System(c, s.backends[id := b], s.chan + Tagged(b.clientId, items), s.hist[id := h])
    case Finish(id) =>
      var (c, b, items, last) := TxFinish(s.c, s.backends[id]);
      var h := if s.c.running then AfterFinish(s.hist[id], b, c.gen, s.c.walReady, items) else s.hist[id];
      System(if last then c.(walReady := true) else c, s.backends[id := b],
             s.chan + Tagged(b.clientId, items) + (if last then [Lsn] else []), s.hist[id := h])
    case StartCapture =>
      var (c, none) := Capture.Start(s.c);
      System(c.(walReady := none), s.backends, if none then [Lsn] else [], map id | id in s.hist :: NOTHING)
    case StopCapture => s.(c := s.c.(running := false))
  }

  /* ----- the invariant ----- */

  /** The backend has joined the current generation. */
  predicate Mine(c: Capture.Shared, b: Backend) {
    b.myGen == c.gen && c.gen > 0
  }

  predicate InCurrentTx(c: Capture.Shared, b: Backend) {
    c.running && b.txOpen && b.txGen == c.gen
  }

  /** What was pushed is the connect record and the unbroken run of messages from `from` on. */
  predicate RunFrom(h: History, from: nat) {
    && from <= |h.sent| && from in h.starts
    && |h.out| > 0 && h.out[0].Connect?
    && h.out[1..] == Records(h.sent[from..])
  }

  ghost predicate Pushed(c: Capture.Shared, b: Backend, h: History) {
    && (h.from.None? ==> h.out == [] && !(Mine(c, b) && b.live))
    && (h.from.Some? ==> Mine(c, b) && b.live && c.walReady && RunFrom(h, h.from.value))
  }

  ghost predicate Buffered(c: Capture.Shared, b: Backend, h: History) {
    InCurrentTx(c, b) ==>
      && Mine(c, b) && b.txCaptured
      && h.cur <= |h.sent| && h.cur in h.starts
      && (if h.from.None? then b.buf == h.sent[h.cur..] else h.from.value <= h.cur)
      && forall i :: 0 <= i < |h.ended| ==> h.ended[i].hi <= h.cur
  }

  /** A transaction that ended before the synchronisation point left no message behind; one
      that ended after it was recorded whole. */
  ghost predicate Split(h: History) {
    forall i :: 0 <= i < |h.ended| ==>
      var t := h.ended[i];
      && t.lo <= t.hi <= |h.sent|
      && (if t.after then h.from.Some? && h.from.value <= t.lo && t.lo in h.starts
          else h.from.None? || t.hi <= h.from.value)
  }

  ghost predicate Local(c: Capture.Shared, b: Backend, h: History) {
    && b.myGen <= c.gen
    && (c.running && b.txOpen && Mine(c, b) ==> b.txGen == c.gen)
    && h.cur <= |h.sent|
    && Pushed(c, b, h) && Buffered(c, b, h) && Split(h)
  }

  function OpenTxs(backends: map<nat, Backend>): map<nat, nat> {
    map id | id in backends && backends[id].txOpen :: backends[id].txGen
  }

  /** The synchronisation point is written exactly when no earlier transaction is left. */
  ghost predicate Shared(s: System) {
    && Capture.Counted(s.c, OpenTxs(s.backends))
    && (s.c.running ==> (s.c.walReady <==> s.c.pending == 0))
    && (s.c.walReady ==> |s.chan| > 0 && s.chan[0] == Lsn && forall i :: 1 <= i < |s.chan| ==> s.chan[i].From?)
    && (!s.c.walReady ==> s.chan == [])
  }

  /** The part of the channel one client wrote. */
  function Only(chan: seq<Entry>, client: nat): seq<Item> {
    if |chan| == 0 then [] else Only(chan[..|chan| - 1], client) + OnlyOne(chan[|chan| - 1], client)
  }

  function OnlyOne(e: Entry, client: nat): seq<Item> {
    if e == Lsn || e.client != client then [] else [e.item]
  }

  predicate Joined(s: System, id: nat) {
    id in s.backends && Mine(s.c, s.backends[id])
  }

  ghost predicate Clients(s: System) {
    && (forall i :: 0 <= i < |s.chan| && s.chan[i].From? ==> s.chan[i].client < s.c.nextClient)
    && (forall id :: Joined(s, id) ==>
          && id in s.hist && s.backends[id].clientId < s.c.nextClient
          && Only(s.chan, s.backends[id].clientId) == s.hist[id].out)
    && (forall i, j :: Joined(s, i) && Joined(s, j) && i != j ==> s.backends[i].clientId != s.backends[j].clientId)
  }

  ghost predicate Inv(s: System) {
    && s.backends.Keys == s.hist.Keys
    && Shared(s)
    && (forall id :: id in s.backends ==> Local(s.c, s.backends[id], s.hist[id]))
    && Clients(s)
  }

  /* ----- one backend's step ----- */

  lemma RecordsAppend(a: seq<Body>, b: seq<Body>)
    ensures Records(a + b) == Records(a) + Records(b)
  {
  }

  /** While the backend is live, or just going live, a message extends the run by itself. */
  lemma RunExtends(h: History, from: nat, m: Body)
    requires RunFrom(h, from)
    ensures RunFrom(h.(sent := h.sent + [m], out := h.out + [Recorded(m)]), from)
  {
    assert (h.sent + [m])[from..] == h.sent[from..] + [m];
    RecordsAppend(h.sent[from..], [m]);
    assert (h.out + [Recorded(m)])[1..] == h.out[1..] + Records([m]);
  }

  /** Going live with the buffered messages of the current transaction begins the run at
      the transaction's first message. */
  lemma RunBegins(h: History, cur: nat, snap: bool, buf: seq<Body>)
    requires h.out == [] && cur <= |h.sent| && cur in h.starts && buf == h.sent[cur..]
    ensures RunFrom(h.(out := [Connect(snap)] + Records(buf)), cur)
  {
    assert ([Connect(snap)] + Records(buf))[1..] == Records(buf);
  }

  /** A message the gate turns away: the backend has recorded nothing in this generation. */
  lemma RejectedLocal(c: Capture.Shared, b: Backend, h: History, m: Body, inTx: bool, early: bool, snapOk: bool)
    requires Local(c, b, h) && c.running && c.gen > 0
    requires !Gate(c, b, inTx, early, snapOk).2
    ensures var (c', b', items) := OnMessage(c, b, m, inTx, early, snapOk);
            Local(c', b', AfterMessage(h, b, b', c'.gen, m, items))
  {
    var (c1, b1) := EnterTx(c, b, inTx);
    var (c', b', items) := OnMessage(c, b, m, inTx, early, snapOk);
    var h' := AfterMessage(h, b, b', c'.gen, m, items);
    assert items == [] && h'.out == h.out;
    assert h.from.None?;
    assert !(Mine(c', b') && b'.live);
    assert !InCurrentTx(c', b');
  }

  /** A message of a live backend goes straight to the channel. */
  lemma LiveLocal(c: Capture.Shared, b: Backend, h: History, m: Body, inTx: bool, early: bool, snapOk: bool)
    requires Local(c, b, h) && c.running && c.gen > 0
    requires Gate(c, b, inTx, early, snapOk).2 && Mine(c, b) && b.live
    ensures var (c', b', items) := OnMessage(c, b, m, inTx, early, snapOk);
            Local(c', b', AfterMessage(h, b, b', c'.gen, m, items))
  {
    var (c', b', items) := OnMessage(c, b, m, inTx, early, snapOk);
    var h' := AfterMessage(h, b, b', c'.gen, m, items);
    assert items == [] + [Recorded(m)] == [Recorded(m)];
    RunExtends(h, h.from.value, m);
    assert RunFrom(h', h'.from.value);
    assert Buffered(c', b', h');
  }

  /** A message of a transaction that is being buffered: it is buffered too, or the whole
      transaction goes to the channel.  Here b has joined and its transaction is current. */
  lemma AcceptLocal(c: Capture.Shared, b: Backend, h: History, m: Body, snapOk: bool)
    requires c.running && Mine(c, b) && !b.live && b.txOpen && b.txGen == c.gen
    requires h.from.None? && h.out == [] && h.cur <= |h.sent| && b.buf == h.sent[h.cur..]
    requires Split(h) && forall i :: 0 <= i < |h.ended| ==> h.ended[i].hi <= h.cur
    requires h.cur in h.starts
    ensures var (b1, items) := Accept(c, b, snapOk);
            var (b2, more) := Record(b1, m);
            Local(c, b2, h.(sent := h.sent + [m], out := items + more,
                            from := if b2.live then Some(h.cur) else None))
  {
    var (b1, items) := Accept(c, b, snapOk);
    var (b2, more) := Record(b1, m);
    if c.walReady {
      var live := [Connect(TakeSnapshot(b, snapOk).snapshot)] + Records(b.buf);
      RunBegins(h, h.cur, TakeSnapshot(b, snapOk).snapshot, b.buf);
      RunExtends(h.(out := live), h.cur, m);
      assert items + more == live + [Recorded(m)];
    } else {
      assert items + more == [];
      assert (h.sent + [m])[h.cur..] == h.sent[h.cur..] + [m];
    }
  }

  lemma BufferingLocal(c: Capture.Shared, b: Backend, h: History, m: Body, inTx: bool, early: bool, snapOk: bool)
    requires Local(c, b, h) && c.running && c.gen > 0
    requires Gate(c, b, inTx, early, snapOk).2 && !(Mine(c, b) && b.live)
    ensures var (c', b', items) := OnMessage(c, b, m, inTx, early, snapOk);
            Local(c', b', AfterMessage(h, b, b', c'.gen, m, items))
  {
    var (c1, b1) := EnterTx(c, b, inTx);
    var (c2, b2) := JoinGeneration(c1, b1, early);
    var (c', b', items) := OnMessage(c, b, m, inTx, early, snapOk);
    var h' := AfterMessage(h, b, b', c'.gen, m, items);
    assert h.from.None? && h.out == [];
    assert b2.txOpen && b2.txGen == c.gen && b2.buf == h.sent[h'.cur..];
    var h1 := h.(starts := h'.starts, cur := h'.cur);
    AcceptLocal(c2, b2, h1, m, snapOk);
    assert [] + items == items;
    assert h' == h1.(sent := h.sent + [m], out := items, from := if b'.live then Some(h1.cur) else None);
  }

  lemma MessageLocal(c: Capture.Shared, b: Backend, h: History, m: Body, inTx: bool, early: bool, snapOk: bool)
    requires Local(c, b, h) && (c.running ==> c.gen > 0)
    ensures var (c', b', items) := OnMessage(c, b, m, inTx, early, snapOk);
            Local(c', b', if c.running then AfterMessage(h, b, b', c'.gen, m, items) else h)
  {
    if c.running {
      if !Gate(c, b, inTx, early, snapOk).2 {
        RejectedLocal(c, b, h, m, inTx, early, snapOk);
      } else if Mine(c, b) && b.live {
        LiveLocal(c, b, h, m, inTx, early, snapOk);
      } else {
        BufferingLocal(c, b, h, m, inTx, early, snapOk);
      }
    }
  }

  /** The end of a transaction: the buffered messages are recorded if the synchronisation
      point has been written and forgotten otherwise. */
  lemma FinishLocal(c: Capture.Shared, b: Backend, h: History)
    requires Local(c, b, h) && b.txOpen && (c.running ==> c.gen > 0)
    requires c.running && c.walReady ==> InCurrentTx(c, b)
    ensures var (c', b', items, last) := TxFinish(c, b);
            Local(c', b', if c.running then AfterFinish(h, b', c'.gen, c.walReady, items) else h)
  {
    var (c', b', items, last) := TxFinish(c, b);
    if c.running {
      var h' := AfterFinish(h, b', c'.gen, c.walReady, items);
      if c.walReady && h.from.None? {
        assert items == [Connect(b.snapshot)] + Records(b.buf);
        RunBegins(h, h.cur, b.snapshot, b.buf);
        assert h'.out == items;
      } else {
        assert items == [] && h'.out == h.out;
      }
      assert Split(h');
    }
  }

  /** Another backend's step does not disturb this one. */
  lemma OthersLocal(c: Capture.Shared, c': Capture.Shared, b: Backend, h: History)
    requires Local(c, b, h)
    requires c'.running == c.running && c'.gen == c.gen && (c.walReady ==> c'.walReady)
    ensures Local(c', b, h)
  {
  }

  /* ----- the channel, client by client ----- */

  lemma {:induction false} OnlyAppend(chan: seq<Entry>, es: seq<Entry>, client: nat)
    ensures Only(chan + es, client) == Only(chan, client) + Only(es, client)
    decreases |es|
  {
    if |es| == 0 {
      assert chan + es == chan;
    } else {
      var n := |es| - 1;
      assert (chan + es)[..|chan + es| - 1] == chan + es[..n];
      OnlyAppend(chan, es[..n], client);
    }
  }

  lemma {:induction false} OnlyTagged(client: nat, items: seq<Item>, other: nat)
    ensures Only(Tagged(client, items), other) == if other == client then items else []
    decreases |items|
  {
    if |items| > 0 {
      var n := |items| - 1;
      assert Tagged(client, items)[..n] == Tagged(client, items[..n]);
      OnlyTagged(client, items[..n], other);
      assert items == items[..n] + [items[n]];
    }
  }

  lemma {:induction false} OnlyUnknown(chan: seq<Entry>, client: nat)
    requires forall i :: 0 <= i < |chan| && chan[i].From? ==> chan[i].client != client
    ensures Only(chan, client) == []
    decreases |chan|
  {
    if |chan| > 0 {
      OnlyUnknown(chan[..|chan| - 1], client);
    }
  }

  /** What one step of one backend does to the system. */
  function Stepped(s: System, id: nat, c': Capture.Shared, b': Backend, items: seq<Item>, h': History, tail: seq<Entry>): System {
    System(c', s.backends[id := b'], s.chan + Tagged(b'.clientId, items) + tail, s.hist[id := h'])
  }

  /** The step concerns the running generation only, keeps or newly takes the client id, and
      pushes only for a backend that has joined. */
  ghost predicate FairStep(s: System, id: nat, c': Capture.Shared, b': Backend, items: seq<Item>, h': History, tail: seq<Entry>) {
    && id in s.backends && id in s.hist
    && c'.gen == s.c.gen && c'.running == s.c.running && s.c.nextClient <= c'.nextClient
    && h'.out == s.hist[id].out + items
    && (tail == [] || tail == [Lsn])
    && (items != [] ==> Mine(c', b') && s.c.walReady)
    && (if Joined(s, id) then Mine(c', b') && b'.clientId == s.backends[id].clientId
        else s.hist[id].out == [] && (Mine(c', b') ==> b'.clientId == s.c.nextClient < c'.nextClient))
  }

  lemma OnlyStepped(s: System, id: nat, c': Capture.Shared, b': Backend, items: seq<Item>, h': History, tail: seq<Entry>, j: nat)
    requires Clients(s) && FairStep(s, id, c', b', items, h', tail)
    requires Joined(Stepped(s, id, c', b', items, h', tail), j) && (j != id ==> j in s.hist)
    ensures var s' := Stepped(s, id, c', b', items, h', tail);
            Only(s'.chan, s'.backends[j].clientId) == s'.hist[j].out
  {
    var es := Tagged(b'.clientId, items);
    var s' := Stepped(s, id, c', b', items, h', tail);
    var k := s'.backends[j].clientId;
    OnlyAppend(s.chan + es, tail, k);
    OnlyAppend(s.chan, es, k);
    OnlyTagged(b'.clientId, items, k);
    OnlyUnknown(tail, k);
    if j == id {
      if !Joined(s, id) {
        OnlyUnknown(s.chan, k);
      }
    } else {
      assert Joined(s, j);
      if items != [] && Joined(s, id) {
        assert k != b'.clientId;
      }
      assert s.hist[j].out + [] == s.hist[j].out;
    }
  }

  lemma ClientsStepped(s: System, id: nat, c': Capture.Shared, b': Backend, items: seq<Item>, h': History, tail: seq<Entry>)
    requires Clients(s) && s.backends.Keys == s.hist.Keys && FairStep(s, id, c', b', items, h', tail)
    ensures Clients(Stepped(s, id, c', b', items, h', tail))
  {
    var s' := Stepped(s, id, c', b', items, h', tail);
    forall j | Joined(s', j) ensures Only(s'.chan, s'.backends[j].clientId) == s'.hist[j].out {
      OnlyStepped(s, id, c', b', items, h', tail, j);
    }
    ClientIdsStepped(s, id, c', b', items, h', tail);
  }

  lemma ClientIdsStepped(s: System, id: nat, c': Capture.Shared, b': Backend, items: seq<Item>, h': History, tail: seq<Entry>)
    requires Clients(s) && FairStep(s, id, c', b', items, h', tail)
    ensures var s' := Stepped(s, id, c', b', items, h', tail);
            && (forall i :: 0 <= i < |s'.chan| && s'.chan[i].From? ==> s'.chan[i].client < c'.nextClient)
            && (forall j :: Joined(s', j) ==> s'.backends[j].clientId < c'.nextClient)
            && (forall i, j :: Joined(s', i) && Joined(s', j) && i != j ==> s'.backends[i].clientId != s'.backends[j].clientId)
  {
    var s' := Stepped(s, id, c', b', items, h', tail);
    assert forall j :: j != id ==> Joined(s', j) == Joined(s, j);
    assert Joined(s', id) ==> b'.clientId < c'.nextClient;
  }

  /* ----- every step keeps the invariant ----- */

  lemma SharedStepped(s: System, id: nat, c': Capture.Shared, b': Backend, items: seq<Item>, h': History, tail: seq<Entry>)
    requires Shared(s) && FairStep(s, id, c', b', items, h', tail)
    requires Capture.Counted(c', OpenTxs(s.backends[id := b']))
    requires c'.running ==> (c'.walReady <==> c'.pending == 0)
    requires if tail == [Lsn] then !s.c.walReady && c'.walReady else c'.walReady == s.c.walReady
    ensures Shared(Stepped(s, id, c', b', items, h', tail))
  {
    var s' := Stepped(s, id, c', b', items, h', tail);
    if tail == [Lsn] {
      assert s'.chan == [Lsn];
    } else {
      assert s'.chan == s.chan + Tagged(b'.clientId, items);
    }
  }

  lemma Reassembled(s: System, id: nat, c': Capture.Shared, b': Backend, items: seq<Item>, h': History, tail: seq<Entry>)
    requires Inv(s) && FairStep(s, id, c', b', items, h', tail)
    requires Local(c', b', h')
    requires Capture.Counted(c', OpenTxs(s.backends[id := b']))
    requires c'.running ==> (c'.walReady <==> c'.pending == 0)
    requires if tail == [Lsn] then !s.c.walReady && c'.walReady else c'.walReady == s.c.walReady
    ensures Inv(Stepped(s, id, c', b', items, h', tail))
  {
    SharedStepped(s, id, c', b', items, h', tail);
    ClientsStepped(s, id, c', b', items, h', tail);
    forall j | j in s.backends && j != id ensures Local(c', s.backends[j], s.hist[j]) {
      OthersLocal(s.c, c', s.backends[j], s.hist[j]);
    }
  }

  lemma OpenTxsUpdate(backends: map<nat, Backend>, id: nat, b': Backend)
    requires id in backends
    ensures OpenTxs(backends[id := b']) ==
            if b'.txOpen then OpenTxs(backends)[id := b'.txGen] else OpenTxs(backends) - {id}
  {
  }

  /** What a message does to the shared state and to its backend's standing. */
  ghost predicate Effect(c: Capture.Shared, b: Backend, inTx: bool, c': Capture.Shared, b': Backend) {
    && c'.gen == c.gen && c'.running == c.running && c'.walReady == c.walReady && c'.pending == c.pending
    && c.nextClient <= c'.nextClient
    && (if b.myGen == c.gen then b'.myGen == b.myGen && b'.clientId == b.clientId
        else b'.myGen == c.gen ==> b'.clientId == c.nextClient < c'.nextClient)
    && (if !b.txOpen && inTx
        then c'.open == c.open + 1 && b'.txOpen && b'.txGen == Capture.Enter(c).1
        else c'.open == c.open && b'.txOpen == b.txOpen && b'.txGen == b.txGen)
  }

  lemma AcceptEffect(c: Capture.Shared, b: Backend, snapOk: bool)
    ensures var (b', items) := Accept(c, b, snapOk);
            && b'.myGen == b.myGen && b'.clientId == b.clientId && b'.txOpen == b.txOpen && b'.txGen == b.txGen
            && (items != [] ==> c.walReady && b'.live) && (b'.live ==> b.live || c.walReady)
  {
    hide Records;
  }

  lemma GateEffect(c: Capture.Shared, b: Backend, inTx: bool, early: bool, snapOk: bool)
    ensures var (c', b', accepted, items) := Gate(c, b, inTx, early, snapOk);
            && Effect(c, b, inTx, c', b')
            && (items != [] ==> accepted && c.walReady && b'.live)
            && (accepted ==> c.running && b'.myGen == c.gen)
            && (accepted && b'.live ==> c.walReady || (b.live && b.myGen == c.gen))
  {
    hide Accept, Capture.IsPre;
    var (c1, b1) := EnterTx(c, b, inTx);
    var (c2, b2) := JoinGeneration(c1, b1, early);
    AcceptEffect(c2, b2, snapOk);
  }

  lemma MessageEffect(c: Capture.Shared, b: Backend, m: Body, inTx: bool, early: bool, snapOk: bool)
    ensures var (c', b', items) := OnMessage(c, b, m, inTx, early, snapOk);
            && Effect(c, b, inTx, c', b')
            && (items != [] ==> b'.myGen == c.gen && c.running && (c.walReady || (b.live && b.myGen == c.gen)))
  {
    GateEffect(c, b, inTx, early, snapOk);
  }

  lemma MessageCounted(c: Capture.Shared, backends: map<nat, Backend>, id: nat, m: Body, inTx: bool, early: bool, snapOk: bool)
    requires id in backends && Capture.Counted(c, OpenTxs(backends))
    ensures var (c', b', items) := OnMessage(c, backends[id], m, inTx, early, snapOk);
            Capture.Counted(c', OpenTxs(backends[id := b']))
  {
    var b := backends[id];
    var (c', b', items) := OnMessage(c, b, m, inTx, early, snapOk);
    MessageEffect(c, b, m, inTx, early, snapOk);
    OpenTxsUpdate(backends, id, b');
    if !b.txOpen && inTx {
      Capture.EnterCounted(c, OpenTxs(backends), id);
    } else {
      assert OpenTxs(backends[id := b']) == OpenTxs(backends);
    }
  }

  lemma MessageFair(s: System, a: Action)
    requires a.Message? && Enabled(s, a) && Local(s.c, s.backends[a.id], s.hist[a.id])
    requires s.c.running ==> s.c.gen > 0
    ensures var (c', b', items) := OnMessage(s.c, s.backends[a.id], a.m, a.inTx, a.early, a.snapOk);
            var h := s.hist[a.id];
            FairStep(s, a.id, c', b', items,
                     if s.c.running then AfterMessage(h, s.backends[a.id], b', c'.gen, a.m, items) else h, [])
  {
    var b, h := s.backends[a.id], s.hist[a.id];
    MessageEffect(s.c, b, a.m, a.inTx, a.early, a.snapOk);
    assert h.out + [] == h.out;
  }

  lemma NotedLocal(c': Capture.Shared, b': Backend, h: History, c: Capture.Shared, b: Backend, early: bool, snapOk: bool)
    requires Local(c', b', h)
    ensures Local(c', b', Noted(h, c, b, b', early, snapOk))
  {
  }

  lemma MessageKeeps(s: System, a: Action)
    requires Inv(s) && a.Message? && Enabled(s, a)
    ensures Inv(Apply(s, a))
  {
    var id, b, h := a.id, s.backends[a.id], s.hist[a.id];
    var (c', b', items) := OnMessage(s.c, b, a.m, a.inTx, a.early, a.snapOk);
    var h' := if s.c.running then Noted(AfterMessage(h, b, b', c'.gen, a.m, items), s.c, b, b', a.early, a.snapOk) else h;
    MessageEffect(s.c, b, a.m, a.inTx, a.early, a.snapOk);
    MessageLocal(s.c, b, h, a.m, a.inTx, a.early, a.snapOk);
    MessageFair(s, a);
    MessageCounted(s.c, s.backends, id, a.m, a.inTx, a.early, a.snapOk);
    if s.c.running {
      NotedLocal(c', b', AfterMessage(h, b, b', c'.gen, a.m, items), s.c, b, a.early, a.snapOk);
    }
    MessageAssembled(s, a, c', b', items, h');
  }

  /** The same, once the outcome of the message has a name. */
  lemma MessageAssembled(s: System, a: Action, c': Capture.Shared, b': Backend, items: seq<Item>, h': History)
    requires Inv(s) && a.Message? && Enabled(s, a)
    requires FairStep(s, a.id, c', b', items, h', []) && Local(c', b', h')
    requires Capture.Counted(c', OpenTxs(s.backends[a.id := b']))
    requires c'.walReady == s.c.walReady && c'.pending == s.c.pending
    ensures Inv(System(c', s.backends[a.id := b'], s.chan + Tagged(b'.clientId, items), s.hist[a.id := h']))
  {
    Reassembled(s, a.id, c', b', items, h', []);
    assert s.chan + Tagged(b'.clientId, items) + [] == s.chan + Tagged(b'.clientId, items);
  }

  /** What the end of a transaction does to the shared state and to its backend's standing. */
  lemma FinishEffect(c: Capture.Shared, b: Backend)
    requires b.txOpen
    ensures var (c', b', items, last) := TxFinish(c, b);
            && (c', last) == Capture.Leave(c, b.txGen)
            && b'.myGen == b.myGen && b'.clientId == b.clientId && !b'.txOpen
            && (items != [] ==> c.running && c.walReady && b.myGen == c.gen)
  {
  }

  lemma FinishFair(s: System, id: nat)
    requires Enabled(s, Finish(id)) && Local(s.c, s.backends[id], s.hist[id])
    requires s.c.running ==> s.c.gen > 0
    ensures var (c1, b', items, last) := TxFinish(s.c, s.backends[id]);
            var h := s.hist[id];
            FairStep(s, id, if last then c1.(walReady := true) else c1, b', items,
                     if s.c.running then AfterFinish(h, b', c1.gen, s.c.walReady, items) else h,
                     if last then [Lsn] else [])
  {
    FinishEffect(s.c, s.backends[id]);
    assert s.hist[id].out + [] == s.hist[id].out;
  }

  lemma FinishCounted(s: System, id: nat)
    requires Shared(s) && Enabled(s, Finish(id))
    ensures var (c1, b', items, last) := TxFinish(s.c, s.backends[id]);
            && Capture.Counted(c1, OpenTxs(s.backends[id := b']))
            && (s.c.running ==> (c1.pending == 0 <==> s.c.walReady || last))
            && (last ==> s.c.running && !s.c.walReady)
            && (s.c.running && s.c.walReady ==> InCurrentTx(s.c, s.backends[id]))
  {
    var (c1, b', items, last) := TxFinish(s.c, s.backends[id]);
    var txs := OpenTxs(s.backends);
    FinishEffect(s.c, s.backends[id]);
    OpenTxsUpdate(s.backends, id, b');
    Capture.LeaveCounted(s.c, txs, id);
    if s.c.running && s.c.walReady {
      assert id !in Capture.Earlier(txs, s.c.gen);
    }
  }

  lemma FinishKeeps(s: System, id: nat)
    requires Inv(s) && Enabled(s, Finish(id))
    ensures Inv(Apply(s, Finish(id)))
  {
    var b, h := s.backends[id], s.hist[id];
    var (c1, b', items, last) := TxFinish(s.c, b);
    var c' := if last then c1.(walReady := true) else c1;
    var h' := if s.c.running then AfterFinish(h, b', c1.gen, s.c.walReady, items) else h;
    FinishEffect(s.c, b);
    FinishFair(s, id);
    FinishCounted(s, id);
    FinishLocal(s.c, b, h);
    OthersLocal(c1, c', b', h');
    Reassembled(s, id, c', b', items, h', if last then [Lsn] else []);
  }

  lemma StartLocal(c: Capture.Shared, b: Backend, h: History)
    requires Local(c, b, h) && (b.txOpen ==> b.txGen <= c.gen)
    ensures var (c', none) := Capture.Start(c);
            Local(c'.(walReady := none), b, NOTHING) && !Mine(c', b)
  {
  }

  lemma StartKeeps(s: System)
    requires Inv(s)
    ensures Inv(Apply(s, StartCapture))
  {
    var s' := Apply(s, StartCapture);
    var txs := OpenTxs(s.backends);
    Capture.StartCounted(s.c, txs);
    assert |txs| == 0 <==> txs == map[];
    forall id | id in s'.backends ensures Local(s'.c, s'.backends[id], s'.hist[id]) && !Joined(s', id) {
      if s.backends[id].txOpen {
        assert id in txs && txs[id] <= s.c.gen;
      }
      StartLocal(s.c, s.backends[id], s.hist[id]);
    }
  }

  lemma ForkClients(s: System, id: nat)
    requires Clients(s) && Enabled(s, Fork(id))
    ensures Clients(Apply(s, Fork(id)))
  {
    var s' := Apply(s, Fork(id));
    assert !Joined(s', id) && forall j :: j != id ==> Joined(s', j) == Joined(s, j);
  }

  lemma ForkKeeps(s: System, id: nat)
    requires Inv(s) && Enabled(s, Fork(id))
    ensures Inv(Apply(s, Fork(id)))
  {
    hide Local, Clients, Capture.Counted, OnMessage, TxFinish;
    var s' := Apply(s, Fork(id));
    ForkClients(s, id);
    assert OpenTxs(s'.backends) == OpenTxs(s.backends);
    ForkLocals(s, id);
  }

  lemma ForkLocals(s: System, id: nat)
    requires Enabled(s, Fork(id)) && s.backends.Keys == s.hist.Keys
    requires forall j :: j in s.backends ==> Local(s.c, s.backends[j], s.hist[j])
    ensures var s' := Apply(s, Fork(id)); forall j :: j in s'.backends ==> Local(s'.c, s'.backends[j], s'.hist[j])
  {
    var s' := Apply(s, Fork(id));
    assert Local(s.c, IDLE, NOTHING);
    forall j | j in s'.backends ensures Local(s'.c, s'.backends[j], s'.hist[j]) {
      if j != id {
        assert Local(s.c, s.backends[j], s.hist[j]);
      }
    }
  }

  lemma StopKeeps(s: System)
    requires Inv(s)
    ensures Inv(Apply(s, StopCapture))
  {
    var s' := Apply(s, StopCapture);
    assert forall j :: Joined(s', j) == Joined(s, j);
  }

  lemma StepKeeps(s: System, a: Action)
    requires Inv(s) && Enabled(s, a)
    ensures Inv(Apply(s, a))
  {
    match a
    case Fork(id) => ForkKeeps(s, id);
    case Message(_, _, _, _, _) => MessageKeeps(s, a);
    case Finish(id) => FinishKeeps(s, id);
    case StartCapture => StartKeeps(s);
    case StopCapture => StopKeeps(s);
  }

  ghost predicate Runs(s: System, actions: seq<Action>, s': System)
    decreases |actions|
  {
    if |actions| == 0 then s == s'
    else Enabled(s, actions[0]) && Runs(Apply(s, actions[0]), actions[1..], s')
  }

  lemma {:induction false} RunKeeps(s: System, actions: seq<Action>, s': System)
    requires Inv(s) && Runs(s, actions, s')
    ensures Inv(s')
    decreases |actions|
  {
    if |actions| > 0 {
      StepKeeps(s, actions[0]);
      RunKeeps(Apply(s, actions[0]), actions[1..], s');
    }
  }

  /* ----- which snapshot a connect record names ----- */

  /** The connect record names a snapshot exactly if the one taken at the first message of the
      transaction it opens with succeeded and the backend did not join late. */
  predicate NamesSnapshot(h: History) {
    h.from.Some? ==>
      && h.from.value < |h.snaps| && |h.out| > 0
      && h.out[0] == Connect(h.snaps[h.from.value] && !h.late)
  }

  /** What leads to it: until a backend goes live it remembers whether it joined late, and from
      the first message of its transaction on the snapshot taken then. */
  predicate Named(c: Capture.Shared, b: Backend, h: History) {
    && |h.snaps| == |h.sent| && NamesSnapshot(h)
    && (c.running && h.from.None? ==>
          if Mine(c, b) then b.skipSnap == h.late && (h.late ==> c.walReady) else !h.late)
    && (InCurrentTx(c, b) && h.from.None? ==>
          h.cur < |h.snaps| && !h.late && b.snapshot == h.snaps[h.cur])
  }

  lemma AcceptNames(c: Capture.Shared, b: Backend, snapOk: bool)
    requires !b.live && b.txOpen
    ensures var (b', items) := Accept(c, b, snapOk);
            && b'.live == c.walReady && b'.myGen == b.myGen && b'.txOpen == b.txOpen && b'.txGen == b.txGen
            && (c.walReady ==> |items| > 0 && items[0] == Connect(TakeSnapshot(b, snapOk).snapshot))
            && (!c.walReady ==> items == [] && b'.snapshot == TakeSnapshot(b, snapOk).snapshot
                                && b'.skipSnap == TakeSnapshot(b, snapOk).skipSnap)
  {
    hide Records;
  }

  /** A message the gate turns away, or one of a backend that is live already. */
  lemma OtherNames(c: Capture.Shared, b: Backend, h: History, m: Body, inTx: bool, early: bool, snapOk: bool)
    requires Local(c, b, h) && Named(c, b, h) && c.running && c.gen > 0
    requires !Gate(c, b, inTx, early, snapOk).2 || (Mine(c, b) && b.live)
    ensures var (c', b', items) := OnMessage(c, b, m, inTx, early, snapOk);
            Named(c', b', Noted(AfterMessage(h, b, b', c'.gen, m, items), c, b, b', early, snapOk))
  {
    hide Split, RunFrom, Records;
  }

  /** A message of a transaction that is being recorded. */
  lemma RecordedNames(c: Capture.Shared, b: Backend, h: History, m: Body, inTx: bool, early: bool, snapOk: bool)
    requires Local(c, b, h) && Named(c, b, h) && c.running && c.gen > 0
    requires Gate(c, b, inTx, early, snapOk).2 && !(Mine(c, b) && b.live)
    ensures var (c', b', items) := OnMessage(c, b, m, inTx, early, snapOk);
            Named(c', b', Noted(AfterMessage(h, b, b', c'.gen, m, items), c, b, b', early, snapOk))
  {
    hide Accept, Split, RunFrom, Records;
    var (c1, b1) := EnterTx(c, b, inTx);
    var (c2, b2) := JoinGeneration(c1, b1, early);
    AcceptNames(c2, b2, snapOk);
  }

  lemma MessageNames(c: Capture.Shared, b: Backend, h: History, m: Body, inTx: bool, early: bool, snapOk: bool)
    requires Local(c, b, h) && Named(c, b, h) && c.running && c.gen > 0
    ensures var (c', b', items) := OnMessage(c, b, m, inTx, early, snapOk);
            Named(c', b', Noted(AfterMessage(h, b, b', c'.gen, m, items), c, b, b', early, snapOk))
  {
    hide Local, Named, OnMessage, Gate;
    if Gate(c, b, inTx, early, snapOk).2 && !(Mine(c, b) && b.live) {
      RecordedNames(c, b, h, m, inTx, early, snapOk);
    } else {
      OtherNames(c, b, h, m, inTx, early, snapOk);
    }
  }

  lemma FinishNames(c: Capture.Shared, b: Backend, h: History)
    requires Local(c, b, h) && Named(c, b, h) && b.txOpen && c.running && c.gen > 0
    requires c.walReady ==> InCurrentTx(c, b)
    ensures var (c', b', items, last) := TxFinish(c, b);
            Named(c', b', AfterFinish(h, b', c'.gen, c.walReady, items))
  {
    hide Records, Split, RunFrom;
  }

  /** Without a running capture nothing is noted. */
  lemma IdleNames(c: Capture.Shared, c': Capture.Shared, b: Backend, b': Backend, h: History)
    requires Named(c, b, h) && !c'.running
    ensures Named(c', b', h)
  {
  }

  lemma OthersNames(c: Capture.Shared, c': Capture.Shared, b: Backend, h: History)
    requires Named(c, b, h)
    requires c'.running == c.running && c'.gen == c.gen && (c.walReady ==> c'.walReady)
    ensures Named(c', b, h)
  {
  }

  ghost predicate AllNamed(s: System) {
    forall id :: id in s.backends && id in s.hist ==> Named(s.c, s.backends[id], s.hist[id])
  }

  lemma SteppedNames(s: System, id: nat, c': Capture.Shared, b': Backend, h': History, chan: seq<Entry>)
    requires AllNamed(s) && Named(c', b', h')
    requires c'.running == s.c.running && c'.gen == s.c.gen && (s.c.walReady ==> c'.walReady)
    ensures AllNamed(System(c', s.backends[id := b'], chan, s.hist[id := h']))
  {
    hide Named;
    forall j | j in s.backends && j in s.hist
      ensures Named(c', s.backends[j], s.hist[j])
    {
      OthersNames(s.c, c', s.backends[j], s.hist[j]);
    }
  }

  lemma StepNames(s: System, a: Action)
    requires Inv(s) && AllNamed(s) && Enabled(s, a)
    ensures AllNamed(Apply(s, a))
  {
    hide Named, Local, Clients, Gate;
    match a
    case Fork(_) => assert Named(s.c, IDLE, NOTHING) by { NothingNamed(s.c); }
    case Message(id, m, inTx, early, snapOk) =>
      var b, h := s.backends[id], s.hist[id];
      MessageEffect(s.c, b, m, inTx, early, snapOk);
      hide OnMessage;
      var (c', b', items) := OnMessage(s.c, b, m, inTx, early, snapOk);
      assert Local(s.c, b, h) && Named(s.c, b, h);
      if s.c.running {
        MessageNames(s.c, b, h, m, inTx, early, snapOk);
        SteppedNames(s, id, c', b', Noted(AfterMessage(h, b, b', c'.gen, m, items), s.c, b, b', early, snapOk),
                     s.chan + Tagged(b'.clientId, items));
      } else {
        IdleNames(s.c, c', b, b', h);
        SteppedNames(s, id, c', b', h, s.chan + Tagged(b'.clientId, items));
      }
    case Finish(id) =>
      var b, h := s.backends[id], s.hist[id];
      FinishEffect(s.c, b);
      FinishCounted(s, id);
      assert Local(s.c, b, h) && Named(s.c, b, h);
      hide TxFinish, Capture.Counted;
      var (c1, b', items, last) := TxFinish(s.c, b);
      var c', chan := if last then c1.(walReady := true) else c1, s.chan + Tagged(b'.clientId, items) + (if last then [Lsn] else []);
      if s.c.running {
        FinishNames(s.c, b, h);
        var h' := AfterFinish(h, b', c1.gen, s.c.walReady, items);
        OthersNames(c1, c', b', h');
        SteppedNames(s, id, c', b', h', chan);
      } else {
        IdleNames(s.c, c', b, b', h);
        SteppedNames(s, id, c', b', h, chan);
      }
    case StartCapture => StartNames(s);
    case StopCapture => StopNames(s);
  }

  lemma NothingNamed(c: Capture.Shared)
    ensures Named(c, IDLE, NOTHING)
  {
  }

  lemma StartNames(s: System)
    requires Inv(s)
    ensures AllNamed(Apply(s, StartCapture))
  {
    hide Clients, Split, RunFrom, Capture.Counted;
    var s' := Apply(s, StartCapture);
    forall id | id in s'.backends && id in s'.hist
      ensures Named(s'.c, s'.backends[id], s'.hist[id])
    {
      assert Local(s.c, s.backends[id], s.hist[id]);
      if s.backends[id].txOpen {
        TxNotAhead(s, id);
      }
    }
  }

  lemma TxNotAhead(s: System, id: nat)
    requires Inv(s) && id in s.backends && s.backends[id].txOpen
    ensures id in OpenTxs(s.backends) && OpenTxs(s.backends)[id] <= s.c.gen
  {
    hide Local, Clients;
  }

  lemma StopNames(s: System)
    requires AllNamed(s)
    ensures AllNamed(Apply(s, StopCapture))
  {
    hide Named;
    var s' := Apply(s, StopCapture);
    forall id | id in s'.backends && id in s'.hist
      ensures Named(s'.c, s'.backends[id], s'.hist[id])
    {
      IdleNames(s.c, s'.c, s.backends[id], s.backends[id], s.hist[id]);
    }
  }

  lemma {:induction false} RunNames(s: System, actions: seq<Action>, s': System)
    requires Inv(s) && AllNamed(s) && Runs(s, actions, s')
    ensures AllNamed(s')
    decreases |actions|
  {
    hide Inv, AllNamed, Enabled, Apply;
    if |actions| > 0 {
      StepKeeps(s, actions[0]);
      StepNames(s, actions[0]);
      RunNames(Apply(s, actions[0]), actions[1..], s');
    }
  }

  lemma SnapshotIsNamed(actions: seq<Action>, s: System, id: nat)
    requires Runs(INIT, actions, s) && id in s.backends && id in s.hist
    ensures NamesSnapshot(s.hist[id])
  {
    hide Inv, Runs;
    assert Inv(INIT) by { RunKeeps(INIT, [], INIT); }
    RunNames(INIT, actions, s);
    assert Named(s.c, s.backends[id], s.hist[id]);
  }

  /** The purpose of the cut-over, over every run of any number of backends with captures
      starting and stopping.  In the running generation, what a client has in the channel is
      nothing, or its connect record and then every message of its backend from the first
      message of some transaction on, with no gap.  Every transaction that ended is on one
      side of the synchronisation point: ended before it and left nothing, or ended after it
      and was recorded whole.  The point is written once, ahead of everything else.  The
      connect record names the session snapshot taken at the start of the transaction it opens
      with, if that succeeded and was not too late to be needed. */
  lemma NoTransactionIsHalfCaptured(actions: seq<Action>, s: System, id: nat)
    requires Runs(INIT, actions, s) && id in s.backends
    ensures id in s.hist && Split(s.hist[id])
    ensures var h := s.hist[id];
            if h.from.None? then h.out == [] else RunFrom(h, h.from.value) && Mine(s.c, s.backends[id])
    ensures Mine(s.c, s.backends[id]) ==> Only(s.chan, s.backends[id].clientId) == s.hist[id].out
    ensures s.chan == [] || (s.chan[0] == Lsn && forall i :: 1 <= i < |s.chan| ==> s.chan[i].From?)
    ensures s.c.running ==> (s.chan != [] <==> Capture.Earlier(OpenTxs(s.backends), s.c.gen) == {})
    ensures NamesSnapshot(s.hist[id])
  {
    RunKeeps(INIT, actions, s);
    SnapshotIsNamed(actions, s, id);
  }
}
