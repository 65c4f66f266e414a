/** The worker slot of a channel (extension/src/channel.c): who may consume the ring.

    worker_pid is 0 when no worker exists, -1 while one is being registered, and the
    worker's pid otherwise.  Starts, stops and exits interleave freely; registration
    succeeds, and a worker ends only through worker_try_exit. */
module Channel {
  import opened Wrappers
  import opened Bytes
  import Ring

  /** A process inside channel_start: running is set, then the slot is checked, then a
      worker is registered if the slot was empty. */
  datatype Starter = Published | Spawning

  /** A worker process: registered; consuming; inside worker_try_exit with the lock held and
      the running flag read; returned from its main function but not yet cleaned up. */
  datatype Worker = Starting | Serving | Deciding(stop: bool) | Leaving

  datatype Slot = Slot(
    running: bool,
    workerPid: int,
    locked: bool,
    starters: map<nat, Starter>,
    workers: map<nat, Worker>)

  datatype Action =
    | Publish(s: nat)
    | Ensure(s: nat)
    | Register(s: nat, pid: nat)
    | TakeSlot(pid: nat)
    | Stop
    | ExitCheck(pid: nat)
    | ExitDecide(pid: nat)
    | Cleanup(pid: nat)

  predicate Enabled(c: Slot, a: Action) {
    match a
    case Publish(s) => s !in c.starters
    case Ensure(s) => s in c.starters && c.starters[s].Published? && !c.locked
    case Register(s, pid) => s in c.starters && c.starters[s].Spawning? && pid > 0 && pid !in c.workers
    case TakeSlot(pid) => pid in c.workers && c.workers[pid].Starting? && !c.locked
    case Stop => true
    case ExitCheck(pid) => pid in c.workers && c.workers[pid].Serving? && !c.locked
    case ExitDecide(pid) => pid in c.workers && c.workers[pid].Deciding?
    case Cleanup(pid) => pid in c.workers && c.workers[pid].Leaving? && !c.locked
  }

  function Apply(c: Slot, a: Action): Slot
    requires Enabled(c, a)
  {
    match a
    case Publish(s) => c.(running := true, starters := c.starters[s := Published])
    case Ensure(s) =>
      if c.workerPid == 0 then c.(workerPid := -1, starters := c.starters[s := Spawning])
      else c.(starters := c.starters - {s})
    case Register(s, pid) => c.(starters := c.starters - {s}, workers := c.workers[pid := Starting])
    case TakeSlot(pid) => c.(workerPid := pid, workers := c.workers[pid := Serving])
    case Stop => c.(running := false)
    case ExitCheck(pid) => c.(locked := true, workers := c.workers[pid := Deciding(!c.running)])
    case ExitDecide(pid) =>
      if c.workers[pid].stop then c.(locked := false, workerPid := 0, workers := c.workers[pid := Leaving])
      else c.(locked := false, workers := c.workers[pid := Serving])
    case Cleanup(pid) =>
      c.(workerPid := if c.workerPid == pid then 0 else c.workerPid, workers := c.workers - {pid})
  }

  const INIT := Slot(false, 0, false, map[], map[])

  /** Only these workers pop the ring. */
  predicate Consumes(c: Slot, pid: nat) {
    pid in c.workers && (c.workers[pid].Serving? || c.workers[pid].Deciding?)
  }

  predicate Spawns(c: Slot, s: nat) { s in c.starters && c.starters[s].Spawning? }

  predicate Begins(c: Slot, pid: nat) { pid in c.workers && c.workers[pid].Starting? }

  predicate StartPending(c: Slot, s: nat) { s in c.starters && c.starters[s].Published? }

  /** The slot's value says exactly who is on the way to consuming or consumes. */
  ghost predicate SlotTellsTruth(c: Slot) {
    && c.workerPid >= -1
    && (forall p :: p in c.workers ==> p > 0)
    && (forall p :: Consumes(c, p) ==> c.workerPid == p)
    && (forall s :: Spawns(c, s) ==> c.workerPid == -1)
    && (forall p :: Begins(c, p) ==> c.workerPid == -1)
    && (c.workerPid > 0 ==> Consumes(c, c.workerPid))
    && (c.workerPid == -1 ==> (exists s :: Spawns(c, s)) || (exists p :: Begins(c, p)))
    && (forall s, t :: Spawns(c, s) && Spawns(c, t) ==> s == t)
    && (forall p, q :: Begins(c, p) && Begins(c, q) ==> p == q)
    && (forall s, p :: Spawns(c, s) ==> !Begins(c, p))
  }

  ghost predicate LockHeld(c: Slot) {
    && (forall p :: p in c.workers && c.workers[p].Deciding? ==> c.locked && c.workerPid == p)
    && (c.locked ==> c.workerPid > 0 && c.workerPid in c.workers && c.workers[c.workerPid].Deciding?)
  }

  /** A running channel without a worker, or about to lose it, has a start that has not
      looked at the slot yet. */
  ghost predicate NotAbandoned(c: Slot) {
    c.running
    && (c.workerPid == 0 || exists p :: p in c.workers && c.workers[p] == Deciding(true))
    ==> exists s :: StartPending(c, s)
  }

  ghost predicate Inv(c: Slot) {
    SlotTellsTruth(c) && LockHeld(c) && NotAbandoned(c)
  }

  lemma EnsureKeeps(c: Slot, s: nat)
    requires Inv(c) && Enabled(c, Ensure(s))
    ensures Inv(Apply(c, Ensure(s)))
  {
    var c' := Apply(c, Ensure(s));
    assert forall p :: Consumes(c', p) == Consumes(c, p) && Begins(c', p) == Begins(c, p);
    if c.workerPid == 0 {
      assert Spawns(c', s);
      assert forall t :: t != s ==> Spawns(c', t) == Spawns(c, t);
    } else {
      assert forall t :: Spawns(c', t) == Spawns(c, t);
      assert forall p :: p in c.workers ==> c.workers[p] != Deciding(true);
    }
  }

  lemma RegisterKeeps(c: Slot, s: nat, pid: nat)
    requires Inv(c) && Enabled(c, Register(s, pid))
    ensures Inv(Apply(c, Register(s, pid)))
  {
    var c' := Apply(c, Register(s, pid));
    assert Spawns(c, s);
    assert Begins(c', pid);
    assert forall t :: !Spawns(c', t) by {
      assert forall t :: Spawns(c', t) ==> Spawns(c, t) && t != s;
    }
    assert forall p :: Consumes(c', p) == Consumes(c, p);
    assert forall p :: p != pid ==> Begins(c', p) == Begins(c, p);
    assert forall t :: StartPending(c, t) ==> StartPending(c', t);
  }

  lemma TakeSlotKeeps(c: Slot, pid: nat)
    requires Inv(c) && Enabled(c, TakeSlot(pid))
    ensures Inv(Apply(c, TakeSlot(pid)))
  {
    var c' := Apply(c, TakeSlot(pid));
    assert Begins(c, pid) && Consumes(c', pid);
    assert forall p :: p != pid ==> Consumes(c', p) == Consumes(c, p) && Begins(c', p) == Begins(c, p);
    assert forall s :: Spawns(c', s) == Spawns(c, s) && StartPending(c', s) == StartPending(c, s);
    assert !Begins(c', pid);
  }

  lemma ExitKeeps(c: Slot, a: Action)
    requires Inv(c) && Enabled(c, a) && (a.ExitCheck? || a.ExitDecide? || a.Cleanup?)
    ensures Inv(Apply(c, a))
  {
    var c' := Apply(c, a);
    var pid := a.pid;
    assert forall s :: Spawns(c', s) == Spawns(c, s) && StartPending(c', s) == StartPending(c, s);
    assert forall p :: Begins(c', p) == Begins(c, p);
    assert forall p :: p != pid ==> Consumes(c', p) == Consumes(c, p);
    if !a.Cleanup? {
      assert Consumes(c, pid);
    }
  }

  lemma StepKeeps(c: Slot, a: Action)
    requires Inv(c) && Enabled(c, a)
    ensures Inv(Apply(c, a))
  {
    var c' := Apply(c, a);
    match a
    case Publish(s) =>
      assert StartPending(c', s);
      assert forall p :: Consumes(c', p) == Consumes(c, p) && Begins(c', p) == Begins(c, p);
      assert forall t :: Spawns(c', t) == Spawns(c, t);
    case Stop =>
      assert forall p :: Consumes(c', p) == Consumes(c, p) && Begins(c', p) == Begins(c, p);
      assert forall t :: Spawns(c', t) == Spawns(c, t);
    case Ensure(s) => EnsureKeeps(c, s);
    case Register(s, pid) => RegisterKeeps(c, s, pid);
    case TakeSlot(pid) => TakeSlotKeeps(c, pid);
    case ExitCheck(_) => ExitKeeps(c, a);
    case ExitDecide(_) => ExitKeeps(c, a);
    case Cleanup(_) => ExitKeeps(c, a);
  }

  ghost predicate Runs(c: Slot, actions: seq<Action>, c': Slot)
    decreases |actions|
  {
    if |actions| == 0 then c == c'
    else Enabled(c, actions[0]) && Runs(Apply(c, actions[0]), actions[1..], c')
  }

  lemma {:induction false} RunKeeps(c: Slot, actions: seq<Action>, c': Slot)
    requires Inv(c) && Runs(c, actions, c')
    ensures Inv(c')
    decreases |actions|
  {
    if |actions| > 0 {
      StepKeeps(c, actions[0]);
      RunKeeps(Apply(c, actions[0]), actions[1..], c');
    }
  }

  /** However starts, stops and exits race: the ring has at most one consumer, and a channel
      left running with no start under way has a worker, present or being registered, that
      has not decided to leave. */
  lemma OneConsumerNeverNone(actions: seq<Action>, c: Slot)
    requires Runs(INIT, actions, c)
    ensures forall p, q :: Consumes(c, p) && Consumes(c, q) ==> p == q
    ensures c.running && (forall s :: !StartPending(c, s)) ==>
              c.workerPid != 0 && forall p :: Consumes(c, p) ==> c.workers[p] != Deciding(true)
  {
    RunKeeps(INIT, actions, c);
  }

  /** A worker that looks while its channel runs goes on as before, and one that looks once it
      has been stopped is gone after cleaning up, and the slot is free. */
  lemma LeavesIfStopped(c: Slot, pid: nat)
    requires Inv(c) && Enabled(c, ExitCheck(pid))
    ensures var looked := Apply(c, ExitCheck(pid));
            && Enabled(looked, ExitDecide(pid))
            && var decided := Apply(looked, ExitDecide(pid));
            && (c.running ==> decided == c)
            && (!c.running ==>
                  && Enabled(decided, Cleanup(pid))
                  && var gone := Apply(decided, Cleanup(pid));
                  gone.workerPid == 0 && pid !in gone.workers && forall p :: !Consumes(gone, p))
  {
    assert Consumes(c, pid);
    var decided := Apply(Apply(c, ExitCheck(pid)), ExitDecide(pid));
    if c.running {
      assert decided.workers == c.workers;
    } else {
      var gone := Apply(decided, Cleanup(pid));
      assert forall p :: Consumes(gone, p) ==> p != pid && Consumes(c, p);
    }
  }

  /** A start on a channel without a worker ends with one that consumes. */
  lemma StartBringsWorker(c: Slot, s: nat, pid: nat)
    requires Inv(c) && c.workerPid == 0 && !c.locked && s !in c.starters && pid > 0 && pid !in c.workers
    ensures Runs(c, [Publish(s), Ensure(s), Register(s, pid), TakeSlot(pid)],
                 c.(running := true, workerPid := pid, workers := c.workers[pid := Serving]))
  {
    hide Inv;
    var c1 := Apply(c, Publish(s));
    var c2 := Apply(c1, Ensure(s));
    var c3 := Apply(c2, Register(s, pid));
    var c4 := Apply(c3, TakeSlot(pid));
    assert c4.starters == c.starters && c4.workers == c.workers[pid := Serving];
    var last := [TakeSlot(pid)];
    assert last[0] == TakeSlot(pid) && last[1..] == [];
    assert Runs(c3, last, c4);
    var two := [Register(s, pid)] + last;
    assert two[1..] == last && Runs(c2, two, c4);
    var three := [Ensure(s)] + two;
    assert three[1..] == two && Runs(c1, three, c4);
    var four := [Publish(s)] + three;
    assert four[1..] == three && Runs(c, four, c4);
    assert four == [Publish(s), Ensure(s), Register(s, pid), TakeSlot(pid)];
  }

  /* ----- what the worker writes ----- */

  /** The file after the popped messages: nothing is kept until the message that opens it,
      popped while the channel runs.  flags[i]: the channel was running at message i. */
  function Recorded(file: Option<seq<byte>>, openOn: byte, flags: seq<bool>, msgs: seq<seq<byte>>): Option<seq<byte>>
    requires |flags| == |msgs|
    decreases |msgs|
  {
    if |msgs| == 0 then file
    else Recorded(Kept(file, openOn, flags[0], msgs[0]), openOn, flags[1..], msgs[1..])
  }

  function Kept(file: Option<seq<byte>>, openOn: byte, running: bool, m: seq<byte>): Option<seq<byte>> {
    if file.Some? || (openOn != 0 && |m| > 0 && m[0] == openOn && running) then Some(file.GetOr([]) + m) else None
  }

  lemma {:induction false} RecordedSnoc(file: Option<seq<byte>>, openOn: byte, flags: seq<bool>, msgs: seq<seq<byte>>,
                                        running: bool, m: seq<byte>)
    requires |flags| == |msgs|
    ensures Recorded(file, openOn, flags + [running], msgs + [m])
         == Kept(Recorded(file, openOn, flags, msgs), openOn, running, m)
    decreases |msgs|
  {
    hide Kept;
    if |msgs| == 0 {
      assert msgs + [m] == [m] && flags + [running] == [running];
      assert Recorded(Kept(file, openOn, running, m), openOn, [], []) == Kept(file, openOn, running, m);
      assert [running][1..] == [] && [m][1..] == [];
    } else {
      assert (msgs + [m])[1..] == msgs[1..] + [m] && (flags + [running])[1..] == flags[1..] + [running];
      RecordedSnoc(Kept(file, openOn, flags[0], msgs[0]), openOn, flags[1..], msgs[1..], running, m);
    }
  }

  class WorkerFile {
    var file: Option<seq<byte>>
    const openOn: byte

    constructor (openOn: byte)
      ensures this.openOn == openOn && file == None
    {
      this.openOn := openOn;
      file := None;
    }

    /** Writes one popped message, if the file is open or opens with it. */
    method Keep(msg: seq<byte>, running: bool)
      modifies this
      ensures file == Kept(old(file), openOn, running, msg)
    {
      if file.None? {
        if openOn == 0 || |msg| == 0 || msg[0] != openOn || !running {
          return;
        }
        file := Some([]);
      }
      file := Some(file.value + msg);
    }

    /** Drains what is ready: afterwards the ring has nothing for the consumer.  The channel may
        be stopped at any moment in between. */
    method WriteEvents(ring: Ring.MpscRing, bufSize: nat) returns (count: nat, ghost flags: seq<bool>)
      requires ring.Valid() && ring.m.pop.Waiting?
      modifies this, ring, ring.hdrs
      ensures ring.Valid() && ring.m.pop.Waiting? && ring.m.log == old(ring.m.log) && ring.m.pushes == old(ring.m.pushes)
      ensures old(ring.m.popped) <= ring.m.popped && count == |ring.m.popped| - |old(ring.m.popped)| == |flags|
      ensures file == Recorded(old(file), openOn, flags, ring.m.popped[|old(ring.m.popped)|..])
      ensures (forall msg :: msg in ring.m.log ==> |msg| <= bufSize) ==>
                ring.htail == ring.hhead || ring.htail in ring.m.pushes
    {
      hide Recorded, Kept;
      ghost var before := ring.m.popped;
      count, flags := 0, [];
      assert ring.m.popped[|before|..] == [];
      assert file == Recorded(file, openOn, [], []) by { RecordedNothing(file, openOn); }
      while true
        invariant ring.Valid() && ring.m.pop.Waiting? && ring.m.log == old(ring.m.log) && ring.m.pushes == old(ring.m.pushes)
        invariant before <= ring.m.popped && count == |ring.m.popped| - |before| == |flags|
        invariant file == Recorded(old(file), openOn, flags, ring.m.popped[|before|..])
        decreases |ring.m.log| - ring.htail
      {
        ghost var taken := ring.m.popped;
        var r := ring.RingPop(bufSize);
        if !r.Popped? {
          return;
        }
        count := count + 1;
        var running: bool := *;
        RecordedSnoc(old(file), openOn, flags, taken[|before|..], running, r.msg);
        assert ring.m.popped[|before|..] == taken[|before|..] + [r.msg];
        flags := flags + [running];
        Keep(r.msg, running);
      }
    }
  }

  lemma RecordedNothing(file: Option<seq<byte>>, openOn: byte)
    ensures Recorded(file, openOn, [], []) == file
  {
  }
}
