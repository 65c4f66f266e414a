/** The capture state in shared memory (extension/src/shmem.c): generations, the counts of
    open and earlier transactions, and the grant of the synchronisation point. */
module Capture {
  import opened Wrappers

  /** `running` and `gen` are the channel's flag and generation. */
  datatype Shared = Shared(running: bool, gen: nat, open: int, pending: int, walReady: bool, nextClient: nat)

  const INIT := Shared(false, 0, 0, 0, false, 0)

  /** xact_enter_shared: the recorded generation is 0 when nothing is being captured. */
  function Enter(c: Shared): (Shared, nat) {
    (c.(open := c.open + 1), if c.running then c.gen else 0)
  }

  /** xact_leave_shared: true when the last earlier transaction of a capture leaves. */
  function Leave(c: Shared, gen: nat): (Shared, bool) {
    var c1 := c.(open := c.open - 1);
    if c.running && gen != c.gen && c.pending > 0 then
      (c1.(pending := c.pending - 1), c.pending - 1 == 0)
    else (c1, false)
  }

  /** The locked part of capture_start: true when no transaction is open. */
  function Start(c: Shared): (Shared, bool) {
    (c.(running := true, gen := c.gen + 1, walReady := false, nextClient := 0, pending := c.open), c.open == 0)
  }

  predicate IsPre(c: Shared, gen: nat) {
    c.running && gen != c.gen
  }

  /* ----- the counters under any interleaving ----- */

  /** The counters, the recorded generation of every open transaction by backend, and the
      generations for which the synchronisation point was granted.  Writing the point to the
      channel may happen any time after the grant; nothing here depends on it. */
  datatype Counters = Counters(c: Shared, txs: map<nat, nat>, grants: seq<nat>)

  datatype Action = EnterTx(b: nat) | LeaveTx(b: nat) | StartCapture | StopCapture

  predicate Enabled(s: Counters, a: Action) {
    match a
    case EnterTx(b) => b !in s.txs
    case LeaveTx(b) => b in s.txs
    case _ => true
  }

  function Apply(s: Counters, a: Action): Counters
    requires Enabled(s, a)
  {
    match a
    case EnterTx(b) =>
      var (c, gen) := Enter(s.c);
      s.(c := c, txs := s.txs[b := gen])
    case LeaveTx(b) =>
      var (c, last) := Leave(s.c, s.txs[b]);
      Counters(c, s.txs - {b}, if last then s.grants + [s.c.gen] else s.grants)
    case StartCapture =>
      var (c, none) := Start(s.c);
      Counters(c, s.txs, if none then s.grants + [c.gen] else s.grants)
    case StopCapture => s.(c := s.c.(running := false))
  }

  /** The backends whose open transaction was entered before generation gen began. */
  function Earlier(txs: map<nat, nat>, gen: nat): set<nat> {
    set b | b in txs && txs[b] != gen
  }

  ghost predicate Counted(c: Shared, txs: map<nat, nat>) {
    && c.open == |txs|
    && (forall b :: b in txs ==> txs[b] <= c.gen)
    && (c.running ==> c.gen > 0 && c.pending == |Earlier(txs, c.gen)|)
  }

  ghost predicate Granted(s: Counters) {
    && (forall i :: 0 <= i < |s.grants| ==> s.grants[i] <= s.c.gen)
    && (forall i, j :: 0 <= i < j < |s.grants| ==> s.grants[i] != s.grants[j])
    && (s.c.running ==> (s.c.gen in s.grants <==> s.c.pending == 0))
  }

  ghost predicate Inv(s: Counters) {
    Counted(s.c, s.txs) && Granted(s)
  }

  lemma EnterCounted(c: Shared, txs: map<nat, nat>, b: nat)
    requires Counted(c, txs) && b !in txs
    ensures var (c', gen) := Enter(c); Counted(c', txs[b := gen])
  {
    var (c', gen) := Enter(c);
    if c.running {
      assert Earlier(txs[b := gen], c.gen) == Earlier(txs, c.gen);
    }
  }

  lemma LeaveCounted(c: Shared, txs: map<nat, nat>, b: nat)
    requires Counted(c, txs) && b in txs
    ensures var (c', last) := Leave(c, txs[b]);
            && Counted(c', txs - {b})
            && (last <==> c.running && Earlier(txs, c.gen) == {b})
            && (c.running ==> (last <==> c.pending > 0 && c'.pending == 0))
  {
    var (c', last) := Leave(c, txs[b]);
    assert |txs - {b}| == |txs| - 1 by {
      assert (txs - {b}).Keys == txs.Keys - {b};
      assert |txs.Keys - {b}| == |txs.Keys| - 1;
    }
    if c.running {
      var e := Earlier(txs, c.gen);
      assert Earlier(txs - {b}, c.gen) == e - {b};
      if txs[b] != c.gen {
        assert b in e;
        if |e| == 1 {
          assert |e - {b}| == 0;
          assert e == {b};
        }
      }
    }
  }

  lemma StartCounted(c: Shared, txs: map<nat, nat>)
    requires Counted(c, txs)
    ensures Counted(Start(c).0, txs)
    ensures Start(c).1 <==> txs == map[]
  {
    assert Earlier(txs, c.gen + 1) == txs.Keys;
    assert |txs| == |txs.Keys|;
  }

  lemma StepKeeps(s: Counters, a: Action)
    requires Inv(s) && Enabled(s, a)
    ensures Inv(Apply(s, a))
  {
    match a
    case EnterTx(b) => EnterCounted(s.c, s.txs, b);
    case LeaveTx(b) => LeaveCounted(s.c, s.txs, b);
    case StartCapture => StartCounted(s.c, s.txs);
    case StopCapture =>
  }

  ghost predicate Runs(s: Counters, actions: seq<Action>, s': Counters)
    decreases |actions|
  {
    if |actions| == 0 then s == s'
    else Enabled(s, actions[0]) && Runs(Apply(s, actions[0]), actions[1..], s')
  }

  lemma {:induction false} RunKeeps(s: Counters, actions: seq<Action>, s': Counters)
    requires Inv(s) && Runs(s, actions, s')
    ensures Inv(s')
    decreases |actions|
  {
    if |actions| > 0 {
      StepKeeps(s, actions[0]);
      RunKeeps(Apply(s, actions[0]), actions[1..], s');
    }
  }

  /** Whatever backends and captures do: open_xacts counts the open transactions; while a
      capture runs, pending_xacts counts those entered before it; no generation is granted
      its synchronisation point twice; and the running one has been granted it exactly when
      every earlier transaction has left. */
  lemma CountersExact(actions: seq<Action>, s: Counters)
    requires Runs(Counters(INIT, map[], []), actions, s)
    ensures s.c.open == |s.txs|
    ensures s.c.running ==> s.c.pending == |Earlier(s.txs, s.c.gen)|
    ensures forall i, j :: 0 <= i < j < |s.grants| ==> s.grants[i] != s.grants[j]
    ensures s.c.running ==> (s.c.gen in s.grants <==> Earlier(s.txs, s.c.gen) == {})
  {
    RunKeeps(Counters(INIT, map[], []), actions, s);
  }
}
