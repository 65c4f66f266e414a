/** The shared-memory ring of extension/src/ring.c: any number of producers, one consumer.

    RingState is the C structure.  Machine is the ring together with everyone who is in the
    middle of a call: at most one lock holder, any number of producers copying a reserved
    message in, and the consumer.  An Action is one atomic step of one of them; memory is
    sequentially consistent and the counters do not wrap.  The copies are split into single
    bytes, which may be copied in any order. */
module Ring {
  import opened Bytes

  /** The place of k in a ring of n places: the remainder k % n (see WrapIsMod), written as
      repeated subtraction so that proofs stay linear. */
  function Wrap(n: nat, k: nat): (p: nat)
    requires n > 0
    ensures p < n
    decreases k
  {
    if k < n then k else Wrap(n, k - n)
  }

  datatype Header = Header(ready: bool, len: nat, off: nat)

  datatype RingState = RingState(hhead: nat, dhead: nat, htail: nat, dtail: nat, hdrs: seq<Header>, data: seq<byte>)
  {
    predicate Sized() { |hdrs| > 0 && |data| > 0 }

    /** The header slot of message number k. */
    function Hdr(k: nat): Header
      requires Sized()
    {
      hdrs[Wrap(|hdrs|, k)]
    }

    function SetHdr(k: nat, h: Header): RingState
      requires Sized()
    {
      this.(hdrs := hdrs[Wrap(|hdrs|, k) := h])
    }
  }

  /** Where the two-part memcpy puts byte i of a message of length len at offset off. */
  function CopyPos(size: nat, off: nat, len: nat, i: nat): (p: nat)
    requires i < len <= size
    ensures p < size
  {
    var pos := Wrap(size, off);
    var first := if len < size - pos then len else size - pos;
    if i < first then pos + i else i - first
  }

  /** A producer that holds the lock has read htail but not yet dtail. */
  datatype Lock = Free | Held(msg: seq<byte>, htailSeen: nat)

  /** A producer between the lock and the ready flag, by the number of its message. */
  datatype Push = Push(off: nat, msg: seq<byte>, copied: set<nat>)

  /** The consumer: waiting; copying out; after clearing ready; after moving dtail. */
  datatype Pop = Waiting | Copying(len: nat, off: nat, got: map<nat, byte>) | Cleared(msg: seq<byte>, end: nat) | Freed(msg: seq<byte>)

  datatype Machine = Machine(
    r: RingState,
    lock: Lock,
    pushes: map<nat, Push>,
    pop: Pop,
    /** Every reserved message, in lock order, and every message handed to the consumer. */
    log: seq<seq<byte>>,
    popped: seq<seq<byte>>)

  datatype Action =
    | Acquire(msg: seq<byte>)
    | Refuse
    | Reserve
    | CopyIn(k: nat, i: nat)
    | Publish(k: nat)
    | PopBegin(bufSize: nat)
    | CopyOut(i: nat)
    | PopClear
    | PopFree
    | PopAdvance

  /** The test a producer makes under the lock; the subtraction is on unsigned counters, so
      dhead - dtail <= |data| has to hold for it to mean what it says. */
  predicate Full(r: RingState, htailSeen: nat, len: nat) {
    r.hhead - htailSeen >= |r.hdrs| || len > |r.data| - (r.dhead - r.dtail)
  }

  predicate Enabled(m: Machine, a: Action)
    requires m.r.Sized()
  {
    match a
    case Acquire(_) => m.lock.Free?
    case Refuse => m.lock.Held? && Full(m.r, m.lock.htailSeen, |m.lock.msg|)
    case Reserve => m.lock.Held? && !Full(m.r, m.lock.htailSeen, |m.lock.msg|)
    case CopyIn(k, i) => k in m.pushes && i < |m.pushes[k].msg| <= |m.r.data|
    case Publish(k) => k in m.pushes && forall i :: 0 <= i < |m.pushes[k].msg| ==> i in m.pushes[k].copied
    case PopBegin(bufSize) => m.pop.Waiting? && m.r.Hdr(m.r.htail).ready && m.r.Hdr(m.r.htail).len <= bufSize
    case CopyOut(i) => m.pop.Copying? && i < m.pop.len <= |m.r.data|
    case PopClear => m.pop.Copying? && forall i :: 0 <= i < m.pop.len ==> i in m.pop.got
    case PopFree => m.pop.Cleared?
    case PopAdvance => m.pop.Freed?
  }

  function Apply(m: Machine, a: Action): (m': Machine)
    requires m.r.Sized() && Enabled(m, a)
    ensures m'.r.Sized() && |m'.r.hdrs| == |m.r.hdrs| && |m'.r.data| == |m.r.data|
  {
    var r := m.r;
    match a
    case Acquire(msg) => m.(lock := Held(msg, r.htail))
    case Refuse => m.(lock := Free)
    case Reserve =>
      var msg := m.lock.msg;
      var r' := r.SetHdr(r.hhead, r.Hdr(r.hhead).(len := |msg|, off := r.dhead));
      m.(lock := Free,
         r := r'.(hhead := r.hhead + 1, dhead := r.dhead + |msg|),
         pushes := m.pushes[r.hhead := Push(r.dhead, msg, {})],
         log := m.log + [msg])
    case CopyIn(k, i) =>
      var p := m.pushes[k];
      m.(r := r.(data := r.data[CopyPos(|r.data|, p.off, |p.msg|, i) := p.msg[i]]),
         pushes := m.pushes[k := p.(copied := p.copied + {i})])
    case Publish(k) =>
      m.(r := r.SetHdr(k, r.Hdr(k).(ready := true)), pushes := m.pushes - {k})
    case PopBegin(_) =>
      m.(pop := Copying(r.Hdr(r.htail).len, r.Hdr(r.htail).off, map[]))
    case CopyOut(i) =>
      m.(pop := m.pop.(got := m.pop.got[i := r.data[CopyPos(|r.data|, m.pop.off, m.pop.len, i)]]))
    case PopClear =>
      m.(r := r.SetHdr(r.htail, r.Hdr(r.htail).(ready := false)),
         pop := Cleared(Gathered(m.pop.len, m.pop.got), m.pop.off + m.pop.len))
    case PopFree => m.(r := r.(dtail := m.pop.end), pop := Freed(m.pop.msg))
    case PopAdvance =>
      m.(r := r.(htail := r.htail + 1), pop := Waiting, popped := m.popped + [m.pop.msg])
  }

  function Gathered(len: nat, got: map<nat, byte>): seq<byte>
    requires forall i :: 0 <= i < len ==> i in got
  {
    seq(len, i requires 0 <= i < len => got[i])
  }

  function Init(hdrs: nat, size: nat): Machine {
    Machine(RingState(0, 0, 0, 0, seq(hdrs, _ => Header(false, 0, 0)), seq(size, _ => 0)), Free, map[], Waiting, [], [])
  }

  /* ----- the invariant ----- */

  /** The stream offset at which message number k begins. */
  function Offset(log: seq<seq<byte>>, k: nat): nat
    requires k <= |log|
  {
    if k == 0 then 0 else Offset(log, k - 1) + |log[k - 1]|
  }

  /** The place in the buffer where byte i of message k belongs, and what is there. */
  function Place(m: Machine, k: nat, i: nat): nat
    requires m.r.Sized() && k <= |m.log|
  {
    Wrap(|m.r.data|, Offset(m.log, k) + i)
  }

  function MsgByte(m: Machine, k: nat, i: nat): byte
    requires m.r.Sized() && k <= |m.log|
  {
    m.r.data[Place(m, k, i)]
  }

  /** The first message whose bytes are still protected: dtail moves before htail. */
  function FirstKept(m: Machine): nat {
    m.r.htail + if m.pop.Freed? then 1 else 0
  }

  /** A message that has been written in full and not yet taken. */
  predicate Written(m: Machine, k: nat) {
    FirstKept(m) <= k < m.r.hhead && k !in m.pushes
  }

  ghost predicate Counters(m: Machine) {
    && m.r.Sized()
    && |m.log| == m.r.hhead
    && m.r.dhead == Offset(m.log, m.r.hhead)
    && m.r.htail <= m.r.hhead <= m.r.htail + |m.r.hdrs|
    && (m.pop.Waiting? || m.r.htail < m.r.hhead)
    && m.r.dtail == Offset(m.log, FirstKept(m))
    && m.r.dhead <= m.r.dtail + |m.r.data|
    && (m.lock.Held? ==> m.lock.htailSeen <= m.r.htail)
    && m.popped == m.log[..m.r.htail]
  }

  ghost predicate Headers(m: Machine)
    requires Counters(m)
  {
    && (forall k {:trigger m.r.Hdr(k)} :: m.r.htail <= k < m.r.hhead ==>
          var h := m.r.Hdr(k);
          && h.len == |m.log[k]| && h.off == Offset(m.log, k)
          && (h.ready <==> k !in m.pushes && !(k == m.r.htail && (m.pop.Cleared? || m.pop.Freed?))))
    && (forall k :: m.r.hhead <= k < m.r.htail + |m.r.hdrs| ==> !m.r.Hdr(k).ready)
  }

  ghost predicate Pushes(m: Machine)
    requires Counters(m)
  {
    forall k {:trigger m.pushes[k]} {:trigger k in m.pushes} :: k in m.pushes ==>
      var p := m.pushes[k];
      && m.r.htail <= k < m.r.hhead && (m.pop.Waiting? || k != m.r.htail)
      && p.msg == m.log[k] && p.off == Offset(m.log, k)
      && forall i {:trigger i in p.copied} :: i in p.copied ==> i < |p.msg| && MsgByte(m, k, i) == p.msg[i]
  }

  ghost predicate Stored(m: Machine)
    requires Counters(m)
  {
    forall k: nat, i: nat {:trigger MsgByte(m, k, i)} :: Written(m, k) && i < |m.log[k]| ==> MsgByte(m, k, i) == m.log[k][i]
  }

  ghost predicate Popping(m: Machine)
    requires Counters(m)
  {
    match m.pop
    case Waiting => true
    case Copying(len, off, got) =>
      var msg := m.log[m.r.htail];
      && m.r.htail !in m.pushes
      && len == |msg| && off == Offset(m.log, m.r.htail)
      && forall i :: i in got ==> i < len && got[i] == msg[i]
    case Cleared(msg, end) => msg == m.log[m.r.htail] && end == Offset(m.log, m.r.htail + 1)
    case Freed(msg) => msg == m.log[m.r.htail]
  }

  ghost predicate Inv(m: Machine) {
    Counters(m) && Headers(m) && Pushes(m) && Stored(m) && Popping(m)
  }

  /* ----- arithmetic of the window ----- */

  lemma MulAtLeast(d: int, n: nat)
    requires d > 0
    ensures d * n >= n
  {
  }

  lemma RemainderUnique(n: nat, q: int, r: nat, q': int, r': nat)
    requires r < n && r' < n && q * n + r == q' * n + r'
    ensures r == r'
  {
    if q < q' {
      assert (q' - q) * n == q' * n - q * n;
      MulAtLeast(q' - q, n);
    }
    if q' < q {
      assert (q - q') * n == q * n - q' * n;
      MulAtLeast(q - q', n);
    }
  }

  lemma {:induction false} WrapIsMod(n: nat, k: nat)
    requires n > 0
    ensures Wrap(n, k) == k % n
    decreases k
  {
    assert k == (k / n) * n + k % n;
    if k >= n {
      WrapIsMod(n, k - n);
      var q := (k - n) / n;
      assert k - n == q * n + (k - n) % n;
      assert (q + 1) * n == q * n + n;
      RemainderUnique(n, q + 1, (k - n) % n, k / n, k % n);
    } else {
      RemainderUnique(n, 0, k, k / n, k % n);
    }
  }

  /** Two different numbers less than n apart fall on different places. */
  lemma {:induction false} WindowApart(a: nat, b: nat, n: nat)
    requires a < b < a + n
    ensures Wrap(n, a) != Wrap(n, b)
    decreases a
  {
    if a >= n {
      WindowApart(a - n, b - n, n);
    }
  }

  lemma SlotsApart(a: nat, b: nat, n: nat, lo: nat)
    requires lo <= a < lo + n && lo <= b < lo + n && a != b
    ensures Wrap(n, a) != Wrap(n, b)
  {
    if a < b { WindowApart(a, b, n); } else { WindowApart(b, a, n); }
  }

  /** The two-part copy is plain addition around the ring. */
  lemma {:induction false} CopyPosWraps(size: nat, off: nat, len: nat, i: nat)
    requires i < len <= size
    ensures CopyPos(size, off, len, i) == Wrap(size, off + i)
    decreases off
  {
    if off >= size {
      CopyPosWraps(size, off - size, len, i);
    }
  }

  lemma {:induction false} OffsetMonotone(log: seq<seq<byte>>, j: nat, k: nat)
    requires j <= k <= |log|
    ensures Offset(log, j) <= Offset(log, k)
    decreases k
  {
    if j < k {
      OffsetMonotone(log, j, k - 1);
    }
  }

  lemma {:induction false} OffsetSnoc(log: seq<seq<byte>>, msg: seq<byte>, k: nat)
    requires k <= |log|
    ensures Offset(log + [msg], k) == Offset(log, k)
  {
    if k > 0 {
      OffsetSnoc(log, msg, k - 1);
    }
  }

  lemma OffsetsSnoc(log: seq<seq<byte>>, msg: seq<byte>)
    ensures forall k :: 0 <= k <= |log| ==> Offset(log + [msg], k) == Offset(log, k)
  {
    forall k | 0 <= k <= |log| ensures Offset(log + [msg], k) == Offset(log, k) {
      OffsetSnoc(log, msg, k);
    }
  }

  /** The bytes of a kept message lie in the window between dtail and dhead. */
  lemma InWindow(m: Machine, k: nat, i: nat)
    requires Counters(m) && FirstKept(m) <= k < m.r.hhead && i < |m.log[k]|
    ensures m.r.dtail <= Offset(m.log, k) + i < m.r.dtail + |m.r.data|
    ensures |m.log[k]| <= |m.r.data|
  {
    OffsetMonotone(m.log, FirstKept(m), k);
    OffsetMonotone(m.log, k + 1, m.r.hhead);
  }

  /** Bytes of kept messages never share a place in the buffer. */
  lemma BytesApart(m: Machine, j: nat, x: nat, k: nat, y: nat)
    requires Counters(m)
    requires FirstKept(m) <= j < m.r.hhead && x < |m.log[j]|
    requires FirstKept(m) <= k < m.r.hhead && y < |m.log[k]|
    requires j != k || x != y
    ensures Place(m, j, x) != Place(m, k, y)
  {
    InWindow(m, j, x);
    InWindow(m, k, y);
    if j < k { OffsetMonotone(m.log, j + 1, k); }
    if k < j { OffsetMonotone(m.log, k + 1, j); }
    SlotsApart(Offset(m.log, j) + x, Offset(m.log, k) + y, |m.r.data|, m.r.dtail);
  }

  /** Header slots of messages in one window of the ring are distinct. */
  lemma HdrUpdate(r: RingState, k: nat, h: Header, lo: nat)
    requires r.Sized() && lo <= k < lo + |r.hdrs|
    ensures r.SetHdr(k, h).Hdr(k) == h
    ensures forall j :: lo <= j < lo + |r.hdrs| && j != k ==> r.SetHdr(k, h).Hdr(j) == r.Hdr(j)
  {
    forall j | lo <= j < lo + |r.hdrs| && j != k ensures r.SetHdr(k, h).Hdr(j) == r.Hdr(j) {
      SlotsApart(j, k, |r.hdrs|, lo);
    }
  }

  /* ----- every action keeps the invariant ----- */

  lemma InitInv(hdrs: nat, size: nat)
    requires hdrs > 0 && size > 0
    ensures Inv(Init(hdrs, size))
  {
    var m := Init(hdrs, size);
    assert forall k: nat :: !m.r.Hdr(k).ready;
  }

  lemma ReserveHeaders(m: Machine)
    requires Inv(m) && Enabled(m, Reserve)
    ensures Counters(Apply(m, Reserve)) && Headers(Apply(m, Reserve))
    ensures m.r.hhead !in m.pushes
  {
    var r, k, msg := m.r, m.r.hhead, m.lock.msg;
    var m' := Apply(m, Reserve);
    OffsetsSnoc(m.log, msg);
    HdrUpdate(r, k, r.Hdr(k).(len := |msg|, off := r.dhead), r.htail);
    assert forall j :: r.htail <= j < r.htail + |r.hdrs| && j != k ==> m'.r.Hdr(j) == r.Hdr(j);
    assert !r.Hdr(k).ready;
    assert m'.popped == m'.log[..r.htail];
  }

  lemma ReserveStored(m: Machine)
    requires Inv(m) && Enabled(m, Reserve)
    ensures Counters(Apply(m, Reserve)) && Stored(Apply(m, Reserve))
  {
    var m' := Apply(m, Reserve);
    ReserveHeaders(m);
    OffsetsSnoc(m.log, m.lock.msg);
    assert forall j: nat, i: nat :: j <= |m.log| ==> MsgByte(m', j, i) == MsgByte(m, j, i);
    forall k: nat, i: nat | Written(m', k) && i < |m'.log[k]| ensures MsgByte(m', k, i) == m'.log[k][i] {
      assert Written(m, k);
    }
  }

  lemma ReserveKeeps(m: Machine)
    requires Inv(m) && Enabled(m, Reserve)
    ensures Inv(Apply(m, Reserve))
  {
    hide Stored, Headers;
    ReserveHeaders(m);
    OffsetsSnoc(m.log, m.lock.msg);
    ReserveStored(m);
  }

  /** A producer's copy changes no byte of any kept message but the one it copies. */
  lemma CopyInTouchesOwn(m: Machine, k: nat, i: nat)
    requires Inv(m) && Enabled(m, CopyIn(k, i))
    ensures i < |m.log[k]| && MsgByte(Apply(m, CopyIn(k, i)), k, i) == m.log[k][i]
    ensures forall j: nat, x: nat :: FirstKept(m) <= j < m.r.hhead && x < |m.log[j]| && (j != k || x != i) ==>
              MsgByte(Apply(m, CopyIn(k, i)), j, x) == MsgByte(m, j, x)
  {
    var m' := Apply(m, CopyIn(k, i));
    var p := m.pushes[k];
    CopyPosWraps(|m.r.data|, p.off, |p.msg|, i);
    forall j: nat, x: nat | FirstKept(m) <= j < m.r.hhead && x < |m.log[j]| && (j != k || x != i)
      ensures MsgByte(m', j, x) == MsgByte(m, j, x)
    {
      BytesApart(m, j, x, k, i);
    }
  }

  lemma CopyInKeeps(m: Machine, k: nat, i: nat)
    requires Inv(m) && Enabled(m, CopyIn(k, i))
    ensures Inv(Apply(m, CopyIn(k, i)))
  {
    var m' := Apply(m, CopyIn(k, i));
    CopyInTouchesOwn(m, k, i);
    assert forall j: nat :: m'.r.Hdr(j) == m.r.Hdr(j);
    assert Counters(m') && Headers(m');
    assert Stored(m') by {
      forall j: nat, x: nat | Written(m', j) && x < |m'.log[j]| ensures MsgByte(m', j, x) == m'.log[j][x] {
        assert Written(m, j);
      }
    }
  }

  lemma PublishKeeps(m: Machine, k: nat)
    requires Inv(m) && Enabled(m, Publish(k))
    ensures Inv(Apply(m, Publish(k)))
  {
    var m' := Apply(m, Publish(k));
    HdrUpdate(m.r, k, m.r.Hdr(k).(ready := true), m.r.htail);
    forall i: nat | i < |m.log[k]| ensures MsgByte(m, k, i) == m.log[k][i] {
      assert i in m.pushes[k].copied;
    }
    assert forall j: nat, i: nat :: j <= |m.log| ==> MsgByte(m', j, i) == MsgByte(m, j, i);
  }

  lemma CopyOutKeeps(m: Machine, i: nat)
    requires Inv(m) && Enabled(m, CopyOut(i))
    ensures Inv(Apply(m, CopyOut(i)))
  {
    hide Offset, Wrap;
    var m' := Apply(m, CopyOut(i));
    CopyPosWraps(|m.r.data|, m.pop.off, m.pop.len, i);
    assert Written(m, m.r.htail);
    assert MsgByte(m, m.r.htail, i) == m.log[m.r.htail][i];
    assert forall j: nat :: m'.r.Hdr(j) == m.r.Hdr(j);
    assert forall j: nat, x: nat :: j <= |m.log| ==> MsgByte(m', j, x) == MsgByte(m, j, x);
  }

  lemma PopClearKeeps(m: Machine)
    requires Inv(m) && Enabled(m, PopClear)
    ensures Inv(Apply(m, PopClear))
  {
    var m' := Apply(m, PopClear);
    HdrUpdate(m.r, m.r.htail, m.r.Hdr(m.r.htail).(ready := false), m.r.htail);
    assert forall j: nat, i: nat :: j <= |m.log| ==> MsgByte(m', j, i) == MsgByte(m, j, i);
    assert Gathered(m.pop.len, m.pop.got) == m.log[m.r.htail];
  }

  lemma PopFreeKeeps(m: Machine)
    requires Inv(m) && Enabled(m, PopFree)
    ensures Inv(Apply(m, PopFree))
  {
    var m' := Apply(m, PopFree);
    OffsetMonotone(m.log, m.r.htail, m.r.htail + 1);
    assert forall k: nat :: m'.r.Hdr(k) == m.r.Hdr(k);
    assert forall j: nat, i: nat :: j <= |m.log| ==> MsgByte(m', j, i) == MsgByte(m, j, i);
  }

  lemma PopAdvanceKeeps(m: Machine)
    requires Inv(m) && Enabled(m, PopAdvance)
    ensures Inv(Apply(m, PopAdvance))
  {
    var m' := Apply(m, PopAdvance);
    var t, n := m.r.htail, |m.r.hdrs|;
    assert forall k: nat :: m'.r.Hdr(k) == m.r.Hdr(k);
    assert forall j: nat, i: nat :: j <= |m.log| ==> MsgByte(m', j, i) == MsgByte(m, j, i);
    assert m'.r.Hdr(t + n) == m.r.Hdr(t);
    assert !m.r.Hdr(t).ready;
    assert m.log[..t] + [m.log[t]] == m.log[..t + 1];
  }

  lemma StepKeeps(m: Machine, a: Action)
    requires Inv(m) && Enabled(m, a)
    ensures Inv(Apply(m, a))
  {
    match a
    case Acquire(_) => LocalKeeps(m, a);
    case Refuse => LocalKeeps(m, a);
    case Reserve => ReserveKeeps(m);
    case CopyIn(k, i) => CopyInKeeps(m, k, i);
    case Publish(k) => PublishKeeps(m, k);
    case PopBegin(_) => LocalKeeps(m, a);
    case CopyOut(i) => CopyOutKeeps(m, i);
    case PopClear => PopClearKeeps(m);
    case PopFree => PopFreeKeeps(m);
    case PopAdvance => PopAdvanceKeeps(m);
  }

  /** The actions that leave the shared memory as it is. */
  lemma LocalKeeps(m: Machine, a: Action)
    requires Inv(m) && Enabled(m, a) && (a.Acquire? || a.Refuse? || a.PopBegin?)
    ensures Inv(Apply(m, a))
  {
    var m' := Apply(m, a);
    assert m'.r == m.r && m'.log == m.log;
    assert forall j: nat, i: nat :: j <= |m.log| ==> MsgByte(m', j, i) == MsgByte(m, j, i);
    if a.PopBegin? {
      assert m.r.htail < m.r.hhead;
    }
  }

  /* ----- whole runs ----- */

  /** The actions take the machine from m to m', each enabled when its turn comes. */
  ghost predicate Runs(m: Machine, actions: seq<Action>, m': Machine)
    requires m.r.Sized()
    decreases |actions|
  {
    if |actions| == 0 then m == m'
    else Enabled(m, actions[0]) && Runs(Apply(m, actions[0]), actions[1..], m')
  }

  lemma {:induction false} RunKeeps(m: Machine, actions: seq<Action>, m': Machine)
    requires Inv(m) && Runs(m, actions, m')
    ensures Inv(m')
    decreases |actions|
  {
    if |actions| > 0 {
      StepKeeps(m, actions[0]);
      RunKeeps(Apply(m, actions[0]), actions[1..], m');
    }
  }

  /** First in, first out, byte for byte: in every interleaving of any number of producers
      with the consumer, what has been taken is a prefix of what was reserved, in lock order. */
  lemma PoppedIsPrefix(hdrs: nat, size: nat, actions: seq<Action>, m: Machine)
    requires hdrs > 0 && size > 0
    requires Runs(Init(hdrs, size), actions, m)
    ensures m.popped <= m.log && |m.popped| == m.r.htail
    ensures Inv(m)
  {
    InitInv(hdrs, size);
    RunKeeps(Init(hdrs, size), actions, m);
  }

  /** The reserved, unconsumed messages lie end to end in a window no longer than the buffer,
      no two of their bytes share a place, the unsigned free-space test cannot wrap, and the
      header about to be reserved is not ready. */
  lemma RegionsApart(m: Machine)
    requires Inv(m)
    ensures m.r.dtail <= m.r.dhead <= m.r.dtail + |m.r.data|
    ensures m.r.dtail == Offset(m.log, FirstKept(m)) && m.r.dhead == Offset(m.log, m.r.hhead)
    ensures forall j: nat, x: nat, k: nat, y: nat ::
              FirstKept(m) <= j < m.r.hhead && x < |m.log[j]| &&
              FirstKept(m) <= k < m.r.hhead && y < |m.log[k]| && (j != k || x != y) ==>
                Place(m, j, x) != Place(m, k, y)
    ensures m.r.hhead < m.r.htail + |m.r.hdrs| ==> !m.r.Hdr(m.r.hhead).ready
  {
    OffsetMonotone(m.log, FirstKept(m), m.r.hhead);
    forall j: nat, x: nat, k: nat, y: nat |
      FirstKept(m) <= j < m.r.hhead && x < |m.log[j]| &&
      FirstKept(m) <= k < m.r.hhead && y < |m.log[k]| && (j != k || x != y)
      ensures Place(m, j, x) != Place(m, k, y)
    {
      BytesApart(m, j, x, k, y);
    }
  }

  /** The consumer finds a message exactly when the oldest reserved one has been published,
      and a buffer as large as every message never makes it stall. */
  lemma ReadyMeansPublished(m: Machine, bufSize: nat)
    requires Inv(m) && m.pop.Waiting?
    requires forall msg :: msg in m.log ==> |msg| <= bufSize
    ensures m.r.Hdr(m.r.htail).ready <==> m.r.htail < m.r.hhead && m.r.htail !in m.pushes
    ensures Enabled(m, PopBegin(bufSize)) <==> m.r.htail < m.r.hhead && m.r.htail !in m.pushes
  {
    if m.r.htail < m.r.hhead {
      assert m.r.Hdr(m.r.htail).len == |m.log[m.r.htail]|;
      assert m.log[m.r.htail] in m.log;
    }
  }

  /** There is a free header, counting from the tail as it was seen, and the messages not yet
      given back fit the buffer together with one of this length. */
  predicate HasRoom(m: Machine, htailSeen: nat, len: nat)
    requires FirstKept(m) <= |m.log|
  {
    && |m.log| - htailSeen < |m.r.hdrs|
    && Offset(m.log, |m.log|) - Offset(m.log, FirstKept(m)) + len <= |m.r.data|
  }

  /** A push is refused exactly when there is no room. */
  lemma RefusedIffNoRoom(m: Machine)
    requires Inv(m) && m.lock.Held?
    ensures FirstKept(m) <= |m.log|
    ensures Enabled(m, Refuse) <==> !HasRoom(m, m.lock.htailSeen, |m.lock.msg|)
    ensures Enabled(m, Reserve) <==> HasRoom(m, m.lock.htailSeen, |m.lock.msg|)
  {
    hide Headers, Pushes, Stored, Popping, Offset;
    RegionsApart(m);
  }

  /* ----- the structure itself, updated in place ----- */

  lemma TakeFits(m: Machine)
    requires Inv(m) && m.pop.Waiting? && m.r.Hdr(m.r.htail).ready
    ensures m.r.htail < m.r.hhead
    ensures |m.log[m.r.htail]| <= |m.r.data|
    ensures Offset(m.log, m.r.htail) + |m.log[m.r.htail]| == Offset(m.log, m.r.htail + 1)
  {
    if |m.log[m.r.htail]| > 0 {
      InWindow(m, m.r.htail, 0);
    }
  }

  datatype PopResult = NotReady | Overflow | Popped(msg: seq<byte>)

  /** The C structure.  Each of the small methods is one atomic step and may be interleaved
      with the steps of other callers; RingPush and RingPop put them in program order. */
  class MpscRing {
    var hhead: nat
    var dhead: nat
    var htail: nat
    var dtail: nat
    const hdrs: array<Header>
    const data: array<byte>
    /** The ring with everyone who is in the middle of a call. */
    ghost var m: Machine

    ghost function State(): RingState
      reads this, hdrs, data
    {
      RingState(hhead, dhead, htail, dtail, hdrs[..], data[..])
    }

    ghost predicate Valid()
      reads this, hdrs, data
    {
      m.r == State() && Inv(m)
    }

    constructor RingInit(headers: nat, size: nat)
      requires headers > 0 && size > 0
      ensures Valid() && m == Init(headers, size) && fresh(hdrs) && fresh(data)
    {
      hhead, dhead, htail, dtail := 0, 0, 0, 0;
      hdrs := new Header[headers](_ => Header(false, 0, 0));
      data := new byte[size](_ => 0);
      m := Init(headers, size);
      new;
      InitInv(headers, size);
      assert hdrs[..] == m.r.hdrs && data[..] == m.r.data;
    }

    method Acquire(msg: seq<byte>) returns (htailSeen: nat)
      requires Valid() && Enabled(m, Action.Acquire(msg))
      modifies this`m
      ensures Valid() && m == Apply(old(m), Action.Acquire(msg)) && htailSeen == m.lock.htailSeen
    {
      htailSeen := htail;
      StepKeeps(m, Action.Acquire(msg));
      m := Apply(m, Action.Acquire(msg));
    }

    /** The rest of the locked section: the free-space test and the reservation. */
    method Reserve(msg: seq<byte>, htailSeen: nat) returns (ok: bool, k: nat, off: nat)
      requires Valid() && m.lock == Held(msg, htailSeen)
      modifies this`hhead, this`dhead, this`m, hdrs
      ensures Valid() && FirstKept(old(m)) <= |old(m).log| && (ok <==> HasRoom(old(m), htailSeen, |msg|))
      ensures m == Apply(old(m), if ok then Action.Reserve else Refuse)
      ensures ok ==> k == old(hhead) && off == old(dhead) && |msg| <= data.Length
    {
      RegionsApart(m);
      RefusedIffNoRoom(m);
      k, off := 0, 0;
      if hhead - htailSeen >= hdrs.Length || |msg| > data.Length - (dhead - dtail) {
        ok := false;
        StepKeeps(m, Refuse);
        m := Apply(m, Refuse);
      } else {
        ok := true;
        StepKeeps(m, Action.Reserve);
        WrapIsMod(hdrs.Length, hhead);
        var h := hhead % hdrs.Length;
        hdrs[h] := hdrs[h].(len := |msg|, off := dhead);
        k, off := hhead, dhead;
        hhead := hhead + 1;
        dhead := dhead + |msg|;
        m := Apply(m, Action.Reserve);
        assert hdrs[..] == m.r.hdrs;
      }
    }

    method CopyInByte(k: nat, off: nat, msg: seq<byte>, i: nat)
      requires Valid() && Enabled(m, CopyIn(k, i)) && m.pushes[k].off == off && m.pushes[k].msg == msg
      modifies this`m, data
      ensures Valid() && m == Apply(old(m), CopyIn(k, i))
    {
      StepKeeps(m, CopyIn(k, i));
      WrapIsMod(data.Length, off);
      var pos := off % data.Length;
      var first := if |msg| < data.Length - pos then |msg| else data.Length - pos;
      if i < first {
        data[pos + i] := msg[i];
      } else {
        data[i - first] := msg[i];
      }
      m := Apply(m, CopyIn(k, i));
      assert data[..] == m.r.data;
    }

    method SetReady(k: nat)
      requires Valid() && Enabled(m, Publish(k))
      modifies this`m, hdrs
      ensures Valid() && m == Apply(old(m), Publish(k))
    {
      StepKeeps(m, Publish(k));
      WrapIsMod(hdrs.Length, k);
      var h := k % hdrs.Length;
      hdrs[h] := hdrs[h].(ready := true);
      m := Apply(m, Publish(k));
      assert hdrs[..] == m.r.hdrs;
    }

    method CopyInNext(k: nat, off: nat, msg: seq<byte>, i: nat, ghost done: set<nat>)
      requires Valid() && k in m.pushes && m.pushes[k] == Push(off, msg, done) && i < |msg| <= data.Length
      modifies this`m, data
      ensures Valid() && m == old(m).(r := m.r, pushes := old(m.pushes)[k := Push(off, msg, done + {i})])
    {
      CopyInByte(k, off, msg, i);
    }

    /** The memcpy of a reserved message, byte by byte. */
    method CopyInAll(k: nat, off: nat, msg: seq<byte>)
      requires Valid() && k in m.pushes && m.pushes[k] == Push(off, msg, {}) && |msg| <= data.Length
      modifies this`m, data
      ensures Valid() && Enabled(m, Publish(k))
      ensures m == old(m).(r := m.r, pushes := old(m.pushes)[k := m.pushes[k]])
    {
      hide Inv;
      ghost var m0 := m;
      ghost var done: set<nat> := {};
      for i := 0 to |msg|
        invariant Valid()
        invariant m == m0.(r := m.r, pushes := m0.pushes[k := Push(off, msg, done)])
        invariant forall x :: 0 <= x < i ==> x in done
      {
        CopyInNext(k, off, msg, i, done);
        done := done + {i};
      }
    }

    /** Everything a producer does outside the lock. */
    method Deliver(k: nat, off: nat, msg: seq<byte>)
      requires Valid() && k in m.pushes && m.pushes[k] == Push(off, msg, {}) && |msg| <= data.Length
      modifies this`m, hdrs, data
      ensures Valid() && m == old(m).(r := m.r, pushes := old(m.pushes) - {k})
    {
      CopyInAll(k, off, msg);
      SetReady(k);
      assert m.pushes == old(m.pushes) - {k};
    }

    /** One push from end to end; other producers may be anywhere in theirs. */
    method RingPush(msg: seq<byte>) returns (ok: bool)
      requires Valid() && m.lock.Free?
      modifies this`hhead, this`dhead, this`m, hdrs, data
      ensures Valid() && FirstKept(old(m)) <= |old(m).log| && (ok <==> HasRoom(old(m), old(htail), |msg|))
      ensures m == old(m).(r := m.r, log := if ok then old(m.log) + [msg] else old(m.log))
    {
      hide Headers, Stored, Popping, Offset;
      ghost var m0 := m;
      assert hhead !in m0.pushes;
      var seen := Acquire(msg);
      var k, off;
      ok, k, off := Reserve(msg, seen);
      if ok {
        assert m.pushes == m0.pushes[k := Push(off, msg, {})];
        assert m.pushes - {k} == m0.pushes;
        Deliver(k, off, msg);
      }
    }

    method PopStart(bufSize: nat) returns (len: nat, off: nat)
      requires Valid() && Enabled(m, PopBegin(bufSize))
      modifies this`m
      ensures Valid() && m == Apply(old(m), PopBegin(bufSize))
      ensures m.pop == Copying(len, off, map[])
    {
      StepKeeps(m, PopBegin(bufSize));
      WrapIsMod(hdrs.Length, htail);
      var h := hdrs[htail % hdrs.Length];
      len, off := h.len, h.off;
      m := Apply(m, PopBegin(bufSize));
    }

    method CopyOutByte(len: nat, off: nat, i: nat) returns (b: byte)
      requires Valid() && Enabled(m, CopyOut(i)) && m.pop.len == len && m.pop.off == off
      modifies this`m
      ensures Valid() && m == Apply(old(m), CopyOut(i)) && b == m.pop.got[i]
    {
      StepKeeps(m, CopyOut(i));
      WrapIsMod(data.Length, off);
      var pos := off % data.Length;
      var first := if len < data.Length - pos then len else data.Length - pos;
      b := if i < first then data[pos + i] else data[i - first];
      m := Apply(m, CopyOut(i));
    }

    method ClearReady()
      requires Valid() && Enabled(m, PopClear)
      modifies this`m, hdrs
      ensures Valid() && m == Apply(old(m), PopClear)
    {
      StepKeeps(m, PopClear);
      WrapIsMod(hdrs.Length, htail);
      var h := htail % hdrs.Length;
      hdrs[h] := hdrs[h].(ready := false);
      m := Apply(m, PopClear);
      assert hdrs[..] == m.r.hdrs;
    }

    method MoveDtail(end: nat)
      requires Valid() && Enabled(m, PopFree) && m.pop.end == end
      modifies this`dtail, this`m
      ensures Valid() && m == Apply(old(m), PopFree)
    {
      StepKeeps(m, PopFree);
      dtail := end;
      m := Apply(m, PopFree);
    }

    method MoveHtail()
      requires Valid() && Enabled(m, PopAdvance)
      modifies this`htail, this`m
      ensures Valid() && m == Apply(old(m), PopAdvance)
    {
      StepKeeps(m, PopAdvance);
      htail := htail + 1;
      m := Apply(m, PopAdvance);
    }

    /** The memcpy out of the ring, byte by byte. */
    method CopyOutAll(len: nat, off: nat) returns (buf: seq<byte>)
      requires Valid() && m.pop == Copying(len, off, map[]) && len <= data.Length
      modifies this`m
      ensures Valid() && m == old(m).(pop := m.pop)
      ensures m.pop.Copying? && m.pop.len == len && m.pop.off == off && Enabled(m, PopClear)
      ensures buf == Gathered(len, m.pop.got)
    {
      ghost var m0 := m;
      buf := [];
      for i := 0 to len
        invariant Valid() && m == m0.(pop := m.pop)
        invariant m.pop.Copying? && m.pop.len == len && m.pop.off == off
        invariant |buf| == i && forall x :: 0 <= x < i ==> x in m.pop.got && m.pop.got[x] == buf[x]
      {
        var b := CopyOutByte(len, off, i);
        buf := buf + [b];
      }
    }

    /** Copies the oldest message out and gives its place back. */
    method Take(bufSize: nat) returns (buf: seq<byte>)
      requires Valid() && Enabled(m, PopBegin(bufSize))
      modifies this`htail, this`dtail, this`m, hdrs
      ensures Valid() && m.pop.Waiting? && m.log == old(m.log) && m.pushes == old(m.pushes) && m.lock == old(m.lock)
      ensures htail == old(htail) + 1 && m.popped == old(m.popped) + [buf]
      ensures |m.log| >= htail && buf == m.log[old(htail)] && |buf| <= bufSize
    {
      hide Headers, Pushes, Stored;
      ghost var m0 := m;
      TakeFits(m0);
      var len, off := PopStart(bufSize);
      buf := CopyOutAll(len, off);
      ClearReady();
      MoveDtail(off + len);
      assert m.pop == Freed(buf) && buf == m0.log[m0.r.htail];
      MoveHtail();
    }

    /** One pop from end to end; producers may be anywhere in their pushes. */
    method RingPop(bufSize: nat) returns (r: PopResult)
      requires Valid() && m.pop.Waiting?
      modifies this`htail, this`dtail, this`m, hdrs
      ensures Valid() && m.pop.Waiting? && m.log == old(m.log) && m.pushes == old(m.pushes) && m.lock == old(m.lock)
      ensures r.NotReady? <==> old(htail) == old(hhead) || old(htail) in old(m.pushes)
      ensures r.Overflow? ==> htail < |m.log| && |m.log[htail]| > bufSize
      ensures r.Popped? ==> htail == old(htail) + 1 && r.msg == m.log[old(htail)] && |r.msg| <= bufSize
      ensures m.popped == if r.Popped? then old(m.popped) + [r.msg] else old(m.popped)
      ensures !r.Popped? ==> m == old(m)
    {
      WrapIsMod(hdrs.Length, htail);
      var h := hdrs[htail % hdrs.Length];
      assert h == m.r.Hdr(htail);
      if !h.ready {
        return NotReady;
      }
      assert htail < hhead && htail !in m.pushes;
      if h.len > bufSize {
        return Overflow;
      }
      var buf := Take(bufSize);
      r := Popped(buf);
    }
  }
}
