/** The state the hooks change in place: CaptureState in shared memory (extension/src/shmem.c)
    and the file-level variables of one backend (extension/src/hooks.c). */
module Hooks {
  import opened Wrappers
  import opened Bytes
  import Capture
  import opened Cutover

  class SharedMemory {
    var running: bool
    var generation: nat
    var openXacts: int
    var pendingXacts: int
    var walReady: bool
    var nextClientId: nat
    var channel: seq<Entry>

    ghost function State(): Capture.Shared
      reads this
    {
      Capture.Shared(running, generation, openXacts, pendingXacts, walReady, nextClientId)
    }

    constructor ()
      ensures State() == Capture.INIT && channel == []
    {
      running, generation, openXacts, pendingXacts, walReady, nextClientId := false, 0, 0, 0, false, 0;
      channel := [];
    }

    method XactEnterShared() returns (gen: nat)
      modifies this`openXacts
      ensures (State(), gen) == Capture.Enter(old(State()))
    {
      openXacts := openXacts + 1;
      gen := if running then generation else 0;
    }

    method XactLeaveShared(gen: nat) returns (last: bool)
      modifies this`openXacts, this`pendingXacts
      ensures (State(), last) == Capture.Leave(old(State()), gen)
    {
      last := false;
      openXacts := openXacts - 1;
      if running && gen != generation && pendingXacts > 0 {
        pendingXacts := pendingXacts - 1;
        last := pendingXacts == 0;
      }
    }

    method AcquireClientId() returns (id: nat)
      modifies this`nextClientId
      ensures State() == old(State()).(nextClient := id + 1) && id == old(nextClientId)
    {
      id := nextClientId;
      nextClientId := nextClientId + 1;
    }

    method Push(client: nat, item: Item)
      modifies this`channel
      ensures channel == old(channel) + Tagged(client, [item])
    {
      channel := channel + [From(client, item)];
    }

    method CaptureSyncLsn()
      modifies this`channel, this`walReady
      ensures State() == old(State()).(walReady := true) && channel == old(channel) + [Lsn]
    {
      channel := channel + [Lsn];
      walReady := true;
    }

    /** The channel of the new generation starts out empty. */
    method CaptureStart()
      modifies this
      ensures var (c, none) := Capture.Start(old(State()));
              State() == c.(walReady := none) && channel == if none then [Lsn] else []
    {
      walReady := false;
      nextClientId := 0;
      pendingXacts := openXacts;
      var nothingPending := pendingXacts == 0;
      generation := generation + 1;
      running := true;
      channel := [];
      if nothingPending {
        CaptureSyncLsn();
      }
    }

    method CaptureStop()
      modifies this`running
      ensures State() == old(State()).(running := false)
    {
      running := false;
    }
  }

  class BackendProcess {
    const shm: SharedMemory
    var txOpen: bool
    var txGen: nat
    var txCaptured: bool
    var myGen: nat
    var clientId: nat
    var live: bool
    var skipSnap: bool
    var snapshot: bool
    var buf: seq<Body>

    ghost function State(): Backend
      reads this
    {
      Backend(txOpen, txGen, txCaptured, myGen, clientId, live, skipSnap, snapshot, buf)
    }

    constructor (shm: SharedMemory)
      ensures this.shm == shm && State() == IDLE
    {
      this.shm := shm;
      txOpen, txGen, txCaptured, myGen, clientId := false, 0, false, 0, 0;
      live, skipSnap, snapshot, buf := false, false, false, [];
    }

    /** session_stop, the connect record, and the loop that writes the pending transaction. */
    method GoLiveNow()
      modifies this, shm`channel
      ensures var (b, items) := GoLive(old(State()));
              State() == b && shm.channel == old(shm.channel) + Tagged(clientId, items)
    {
      var ok := snapshot;
      snapshot := false;
      live := true;
      shm.Push(clientId, Connect(ok));
      for i := 0 to |buf|
        invariant State() == old(State()).(live := true, snapshot := false)
        invariant shm.channel == old(shm.channel) + Tagged(clientId, [Connect(ok)] + Records(buf[..i]))
      {
        shm.Push(clientId, Recorded(buf[i]));
      }
      assert buf[..|buf|] == buf;
      buf := [];
    }

    /** The step taken on the first message of a transaction. */
    method EnterIfNew(inTx: bool)
      modifies this, shm`openXacts
      ensures (shm.State(), State()) == EnterTx(old(shm.State()), old(State()), inTx)
    {
      if !txOpen && inTx {
        txGen := shm.XactEnterShared();
        txOpen := true;
        txCaptured := false;
        if !live {
          buf := [];
        }
      }
    }

    method JoinIfNew(early: bool)
      modifies this, shm`nextClientId
      ensures (shm.State(), State()) == JoinGeneration(old(shm.State()), old(State()), early)
    {
      if myGen != shm.generation {
        snapshot := false;
        buf := [];
        live := false;
        myGen := shm.generation;
        clientId := shm.AcquireClientId();
        skipSnap := early && shm.walReady;
      }
    }

    /** The session snapshot, going live when possible, and the mark on the transaction. */
    method AcceptNow(snapOk: bool)
      modifies this, shm`channel
      ensures var (b, items) := Accept(shm.State(), old(State()), snapOk);
              State() == b && shm.channel == old(shm.channel) + Tagged(clientId, items)
    {
      if !live && !txCaptured {
        if skipSnap {
          skipSnap := false;
          snapshot := false;
        } else {
          snapshot := snapOk;
        }
      }
      assert shm.channel == shm.channel + Tagged(clientId, []);
      if !live && shm.walReady {
        GoLiveNow();
      }
      if txOpen {
        txCaptured := true;
      }
    }

    method CaptureGate(inTx: bool, early: bool, snapOk: bool) returns (accepted: bool)
      modifies this, shm`openXacts, shm`nextClientId, shm`channel
      ensures var (c, b, ok, items) := Gate(old(shm.State()), old(State()), inTx, early, snapOk);
              && shm.State() == c && State() == b && accepted == ok
              && shm.channel == old(shm.channel) + Tagged(clientId, items)
    {
      EnterIfNew(inTx);
      assert shm.channel == shm.channel + Tagged(clientId, []);
      if !shm.running {
        return false;
      }
      if txOpen && txGen != shm.generation {
        return false;
      }
      JoinIfNew(early);
      assert shm.channel == shm.channel + Tagged(clientId, []);
      if !live && !txOpen {
        return false;
      }
      AcceptNow(snapOk);
      accepted := true;
    }

    /** A hook: the gate, then the message itself. */
    method HookMessage(m: Body, inTx: bool, early: bool, snapOk: bool)
      modifies this, shm`openXacts, shm`nextClientId, shm`channel
      ensures var (c, b, items) := OnMessage(old(shm.State()), old(State()), m, inTx, early, snapOk);
              && shm.State() == c && State() == b
              && shm.channel == old(shm.channel) + Tagged(clientId, items)
    {
      ghost var before := shm.channel;
      var accepted := CaptureGate(inTx, early, snapOk);
      if accepted {
        ghost var items := Gate(old(shm.State()), old(State()), inTx, early, snapOk).3;
        if live {
          shm.Push(clientId, Recorded(m));
          assert Tagged(clientId, items) + Tagged(clientId, [Recorded(m)]) == Tagged(clientId, items + [Recorded(m)]);
        } else {
          buf := buf + [m];
          assert items + [] == items;
        }
      }
    }

    method TxFinishNow()
      requires txOpen
      modifies this, shm
      ensures var (c, b, items, last) := TxFinish(old(shm.State()), old(State()));
              && shm.State() == (if last then c.(walReady := true) else c) && State() == b
              && shm.channel == old(shm.channel) + Tagged(clientId, items) + (if last then [Lsn] else [])
    {
      txOpen := false;
      var last := shm.XactLeaveShared(txGen);
      assert shm.channel == shm.channel + Tagged(clientId, []);
      if txCaptured && shm.running && myGen == shm.generation {
        if !live && shm.walReady {
          GoLiveNow();
        }
      }
      if !live {
        buf := [];
      }
      txCaptured := false;
      if last {
        shm.CaptureSyncLsn();
      }
    }
  }
}
