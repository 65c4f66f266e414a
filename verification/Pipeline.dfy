/** From the backends' messages to the reader: the ring, the worker's file and the capture
    format put together. */
module Pipeline {
  import opened Wrappers
  import opened Bytes
  import opened CaptureFormat
  import opened CaptureBuffer
  import Ring
  import Channel
  import Cutover

  /** The byte strings the backends push for these messages. */
  function Pushed(ms: seq<Message>): seq<seq<byte>> {
    seq(|ms|, i requires 0 <= i < |ms| => Encode(ms[i]))
  }

  /** The place of the first Lsn record popped while the channel runs, or the length if there
      is none: flags[i] says whether it runs at message i. */
  function FirstLsn(ms: seq<Message>, flags: seq<bool>): (n: nat)
    requires |flags| == |ms|
    ensures n <= |ms|
    ensures forall i :: 0 <= i < n ==> !(ms[i].event.Lsn? && flags[i])
    ensures n < |ms| ==> ms[n].event.Lsn? && flags[n]
  {
    if |ms| == 0 || (ms[0].event.Lsn? && flags[0]) then 0 else 1 + FirstLsn(ms[1..], flags[1..])
  }

  lemma {:induction false} EncodeTail(ms: seq<Message>, i: nat)
    requires |ms| > 0 && i < |ms|
    ensures EncodeFrom(ms[1..], i) == EncodeFrom(ms, i + 1)
    decreases |ms| - i
  {
    hide Encode;
    if i + 1 < |ms| {
      EncodeTail(ms, i + 1);
    }
  }

  /** Once the file is open every message is appended. */
  lemma {:induction false} RecordedOpen(file: seq<byte>, ms: seq<Message>, flags: seq<bool>)
    requires |flags| == |ms|
    ensures Channel.Recorded(Some(file), MSG_LSN, flags, Pushed(ms)) == Some(file + EncodeFrom(ms, 0))
    decreases |ms|
  {
    hide Encode;
    if |ms| == 0 {
      assert file + [] == file;
    } else {
      assert Pushed(ms)[1..] == Pushed(ms[1..]);
      RecordedOpen(file + Encode(ms[0]), ms[1..], flags[1..]);
      EncodeTail(ms, 0);
      assert file + Encode(ms[0]) + EncodeFrom(ms, 1) == file + (Encode(ms[0]) + EncodeFrom(ms, 1));
    }
  }

  lemma TagFirst(m: Message)
    ensures |Encode(m)| > 0 && (Encode(m)[0] == MSG_LSN <==> m.event.Lsn?)
  {
  }

  /** The worker's file holds the messages from the first Lsn record seen while the channel
      runs, and nothing else. */
  lemma {:induction false} RecordedFrom(ms: seq<Message>, flags: seq<bool>)
    requires |flags| == |ms|
    ensures Channel.Recorded(None, MSG_LSN, flags, Pushed(ms)) ==
            if FirstLsn(ms, flags) == |ms| then None else Some(EncodeFrom(ms[FirstLsn(ms, flags)..], 0))
    decreases |ms|
  {
    hide Encode;
    if |ms| > 0 {
      TagFirst(ms[0]);
      assert Pushed(ms)[1..] == Pushed(ms[1..]);
      if ms[0].event.Lsn? && flags[0] {
        RecordedOpen([] + Encode(ms[0]), ms[1..], flags[1..]);
        EncodeTail(ms, 0);
        assert [] + Encode(ms[0]) + EncodeFrom(ms, 1) == Encode(ms[0]) + EncodeFrom(ms, 1);
        assert ms[0..] == ms;
      } else {
        RecordedFrom(ms[1..], flags[1..]);
        assert ms[1..][FirstLsn(ms[1..], flags[1..])..] == ms[FirstLsn(ms, flags)..];
      }
    }
  }

  /** The whole way.  Backends emit messages that fit the capture buffer; any number of them
      push concurrently while the worker pops and writes its file, and the capture may be
      stopped at any message.
      Wherever the run has got to, and even if only the first k bytes of the file survive, the
      reader gets a contiguous run of the messages, in the order the ring was locked, starting
      with the first Lsn record popped while the capture ran, each exactly as its backend
      captured it. */
  lemma CaptureIsFaithful(hdrs: nat, size: nat, actions: seq<Ring.Action>, m: Ring.Machine, ms: seq<Message>,
                          flags: seq<bool>, k: nat)
    requires hdrs > 0 && size > 0 && Ring.Runs(Ring.Init(hdrs, size), actions, m)
    requires |m.log| == |ms| && |flags| == |m.popped|
    requires forall i :: 0 <= i < |ms| ==> Typed(ms[i]) && Emitted(CAPTURE_BUFFER_SIZE, ms[i]) == Some(m.log[i])
    ensures |m.popped| <= |ms|
    ensures var seen := ms[..|m.popped|];
            var file := Channel.Recorded(None, MSG_LSN, flags, m.popped);
            if FirstLsn(seen, flags) == |seen| then file == None
            else
              var kept := seen[FirstLsn(seen, flags)..];
              && file.Some? && kept[0].event.Lsn?
              && ReadAll(file.value, 0) == (kept, EndOfStream)
              && (k <= |file.value| ==> ReadAll(file.value[..k], 0) == (kept[..Whole(kept, 0, k)], EndOfStream))
  {
    hide Encode, Typed, MessageOk, ReadAll, EncodeFrom, Ring.Runs, Channel.Recorded, Ring.Inv;
    Ring.PoppedIsPrefix(hdrs, size, actions, m);
    var seen := ms[..|m.popped|];
    assert m.popped == Pushed(seen);
    RecordedFrom(seen, flags);
    var kept := seen[FirstLsn(seen, flags)..];
    forall i | 0 <= i < |kept|
      ensures MessageOk(kept[i])
    {
      EmittedIsReadable(ms[FirstLsn(seen, flags) + i]);
    }
    if kept != [] {
      ReadPrefix(kept, if k <= |EncodeFrom(kept, 0)| then k else 0);
    }
  }

  /* ----- with the cut-over ----- */

  /** The message is what the entry of the cut-over's channel stands for. */
  predicate StandsFor(m: Message, e: Cutover.Entry) {
    match e
    case Lsn => m.event.Lsn?
    case From(client, item) =>
      && m.id == client && !m.event.Lsn?
      && match item
         case Connect(snapshot) => m.event.Connect? && (snapshot <==> m.event.session != [])
         case Recorded(body) => !m.event.Connect? && Encode(m) == body
  }

  predicate Carries(ms: seq<Message>, chan: seq<Cutover.Entry>) {
    |ms| == |chan| && forall i :: 0 <= i < |ms| ==> StandsFor(ms[i], chan[i])
  }

  /** The messages of one client. */
  function Of(ms: seq<Message>, client: nat): seq<Message> {
    if |ms| == 0 then []
    else
      var m := ms[|ms| - 1];
      Of(ms[..|ms| - 1], client) + (if !m.event.Lsn? && m.id == client then [m] else [])
  }

  predicate StandsForItem(m: Message, item: Cutover.Item) {
    match item
    case Connect(snapshot) => m.event.Connect? && (snapshot <==> m.event.session != [])
    case Recorded(body) => !m.event.Connect? && Encode(m) == body
  }

  lemma {:induction false} OfStandsForOnly(ms: seq<Message>, chan: seq<Cutover.Entry>, client: nat)
    requires Carries(ms, chan)
    ensures var mine, only := Of(ms, client), Cutover.Only(chan, client);
            |mine| == |only| && forall j :: 0 <= j < |mine| ==> StandsForItem(mine[j], only[j])
    decreases |ms|
  {
    hide Encode;
    if |ms| > 0 {
      var n := |ms| - 1;
      assert StandsFor(ms[n], chan[n]);
      forall i | 0 <= i < n
        ensures StandsFor(ms[..n][i], chan[..n][i])
      {
        assert StandsFor(ms[i], chan[i]);
      }
      OfStandsForOnly(ms[..n], chan[..n], client);
    }
  }

  lemma {:induction false} OnlyPrefix(chan: seq<Cutover.Entry>, n: nat, client: nat)
    requires n <= |chan|
    ensures Cutover.Only(chan[..n], client) <= Cutover.Only(chan, client)
    decreases |chan|
  {
    if n < |chan| {
      assert chan[..|chan| - 1][..n] == chan[..n];
      OnlyPrefix(chan[..|chan| - 1], n, client);
    } else {
      assert chan[..n] == chan;
    }
  }

  /** What a client's backend recorded: nothing, or a connect and the run of its messages from
      the start of a transaction on; the connect names a session exactly if the snapshot taken
      then succeeded and the backend did not join late. */
  predicate CleanRun(mine: seq<Message>, h: Cutover.History) {
    mine == [] ||
    (mine[0].event.Connect? && h.from.Some? &&
     var from := h.from.value;
     && from in h.starts && from + |mine| - 1 <= |h.sent|
     && from < |h.snaps| && (mine[0].event.session != [] <==> h.snaps[from] && !h.late)
     && forall j :: 1 <= j < |mine| ==> Encode(mine[j]) == h.sent[from + j - 1])
  }

  lemma RunIsClean(mine: seq<Message>, h: Cutover.History)
    requires |mine| <= |h.out| && forall j :: 0 <= j < |mine| ==> StandsForItem(mine[j], h.out[j])
    requires if h.from.None? then h.out == [] else Cutover.RunFrom(h, h.from.value)
    requires Cutover.NamesSnapshot(h)
    ensures CleanRun(mine, h)
  {
    hide Encode;
    if mine != [] {
      var from := h.from.value;
      assert |h.out[1..]| == |h.sent[from..]|;
      forall j | 1 <= j < |mine|
        ensures from + j - 1 < |h.sent| && Encode(mine[j]) == h.sent[from + j - 1]
      {
        assert h.out[j] == h.out[1..][j - 1] == Cutover.Recorded(h.sent[from..][j - 1]);
        assert StandsForItem(mine[j], h.out[j]);
      }
    }
  }

  /** The purpose of the recording side, end to end.  Take any run of backends, starts and
      stops, with the ring carrying the running generation's channel in any interleaving of its
      producers with the worker, and the capture not stopped before the first message is
      popped.  Whatever has been popped, the reader of the file gets it all, and finds for every
      client nothing, or a connect and then its messages without a gap from the first message
      of a transaction on. */
  lemma FileSplitsCleanly(steps: seq<Cutover.Action>, s: Cutover.System, id: nat,
                          hdrs: nat, size: nat, actions: seq<Ring.Action>, m: Ring.Machine, ms: seq<Message>,
                          flags: seq<bool>)
    requires Cutover.Runs(Cutover.INIT, steps, s) && id in s.backends && Cutover.Mine(s.c, s.backends[id])
    requires hdrs > 0 && size > 0 && Ring.Runs(Ring.Init(hdrs, size), actions, m)
    requires |m.log| == |ms| && Carries(ms, s.chan)
    requires |flags| == |m.popped| && (flags != [] ==> flags[0])
    requires forall i :: 0 <= i < |ms| ==> Typed(ms[i]) && Emitted(CAPTURE_BUFFER_SIZE, ms[i]) == Some(m.log[i])
    ensures id in s.hist && |m.popped| <= |ms|
    ensures var file, read := Channel.Recorded(None, MSG_LSN, flags, m.popped), ms[..|m.popped|];
            if read == [] then file == None
            else
              && file.Some? && ReadAll(file.value, 0) == (read, EndOfStream)
              && CleanRun(Of(read, s.backends[id].clientId), s.hist[id])
  {
    hide Encode, Typed, MessageOk, ReadAll, EncodeFrom, Emitted, Whole, FirstLsn, Of,
         Ring.Runs, Channel.Recorded, Cutover.Runs, Cutover.Split, Cutover.RunFrom, Cutover.NamesSnapshot,
         CleanRun, StandsForItem;
    Cutover.NoTransactionIsHalfCaptured(steps, s, id);
    CaptureIsFaithful(hdrs, size, actions, m, ms, flags, 0);
    var n, client := |m.popped|, s.backends[id].clientId;
    var read := ms[..n];
    if read != [] {
      assert FirstLsn(read, flags) == 0 by {
        assert StandsFor(ms[0], s.chan[0]);
        FirstAtOnce(read, flags);
      }
      assert read[0..] == read;
      assert Carries(read, s.chan[..n]);
      OfStandsForOnly(read, s.chan[..n], client);
      OnlyPrefix(s.chan, n, client);
      RunIsClean(Of(read, client), s.hist[id]);
    }
  }

  lemma FirstAtOnce(ms: seq<Message>, flags: seq<bool>)
    requires |flags| == |ms| > 0 && ms[0].event.Lsn? && flags[0]
    ensures FirstLsn(ms, flags) == 0
  {
  }
}
