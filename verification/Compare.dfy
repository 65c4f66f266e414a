/** The alignment of a capture with the timings of a replay (src/compare.rs).  Per client the
    timings are matched greedily against the captured events, which are read only as far as
    needed; the result is the best there is, and depends only on the client's own events. */
module Compare {
  import opened Wrappers
  import opened Bytes
  import opened CaptureFormat

  type Id = nat

  datatype Cap = Cap(code: byte, ts: nat, restore: bool)

  datatype Tim = Tim(code: byte, ts: nat)

  datatype Timing = Timing(id: Id, tim: Tim)

  /* ----- the greedy alignment ----- */

  /** The pairs found in the first n captured events: each event takes the next timing if it
      has its code. */
  function Pairs(tims: seq<Tim>, caps: seq<Cap>, n: nat): (ps: seq<(Cap, Tim)>)
    requires n <= |caps|
    ensures |ps| <= |tims| && |ps| <= n
  {
    if n == 0 then []
    else
      var ps := Pairs(tims, caps, n - 1);
      if |ps| < |tims| && caps[n - 1].code == tims[|ps|].code then ps + [(caps[n - 1], tims[|ps|])] else ps
  }

  /** The places give each of the first |places| timings a captured event of its own with the
      same code, in order, among the first n. */
  predicate Embedding(places: seq<nat>, tims: seq<Tim>, caps: seq<Cap>, n: nat)
    requires n <= |caps| && |places| <= |tims|
  {
    && (forall i :: 0 <= i < |places| ==> places[i] < n && caps[places[i]].code == tims[i].code)
    && (forall i, j :: 0 <= i < j < |places| ==> places[i] < places[j])
  }

  lemma EmbedNext(places: seq<nat>, tims: seq<Tim>, caps: seq<Cap>, n: nat)
    requires n < |caps| && |places| < |tims| && Embedding(places, tims, caps, n) && caps[n].code == tims[|places|].code
    ensures Embedding(places + [n], tims, caps, n + 1)
  {
  }

  lemma {:induction false} PlacesOf(tims: seq<Tim>, caps: seq<Cap>, n: nat) returns (places: seq<nat>)
    requires n <= |caps|
    ensures |places| == |Pairs(tims, caps, n)| && Embedding(places, tims, caps, n)
  {
    places := [];
    if n > 0 {
      places := PlacesOf(tims, caps, n - 1);
      if |places| < |tims| && caps[n - 1].code == tims[|places|].code {
        EmbedNext(places, tims, caps, n - 1);
        places := places + [n - 1];
      }
    }
  }

  lemma {:induction false} NoneLonger(places: seq<nat>, tims: seq<Tim>, caps: seq<Cap>, n: nat)
    requires n <= |caps| && |places| <= |tims| && Embedding(places, tims, caps, n)
    ensures |places| <= |Pairs(tims, caps, n)|
    decreases n
  {
    if |places| > 0 {
      var m := |places| - 1;
      assert forall i :: 0 <= i < m ==> places[i] < places[m];
      assert places[m] < n && caps[places[m]].code == tims[m].code;
      if places[m] == n - 1 {
        NoneLonger(places[..m], tims, caps, n - 1);
      } else {
        NoneLonger(places, tims, caps, n - 1);
      }
    }
  }

  /** The greedy alignment matches the longest prefix of the timings that can be embedded in
      the captured events at all. */
  lemma GreedyIsBest(tims: seq<Tim>, caps: seq<Cap>, m: nat)
    requires m <= |tims|
    ensures m <= |Pairs(tims, caps, |caps|)| <==>
            exists places: seq<nat> :: |places| == m && Embedding(places, tims, caps, |caps|)
  {
    if m <= |Pairs(tims, caps, |caps|)| {
      var places := PlacesOf(tims, caps, |caps|);
      assert |places[..m]| == m && Embedding(places[..m], tims, caps, |caps|);
    }
    forall places: seq<nat> | |places| == m && Embedding(places, tims, caps, |caps|)
      ensures m <= |Pairs(tims, caps, |caps|)|
    {
      NoneLonger(places, tims, caps, |caps|);
    }
  }

  lemma {:induction false} PairsGrow(tims: seq<Tim>, caps: seq<Cap>, n: nat, k: nat)
    requires n <= k <= |caps|
    ensures Pairs(tims, caps, n) <= Pairs(tims, caps, k)
    decreases k
  {
    if n < k {
      PairsGrow(tims, caps, n, k - 1);
    }
  }

  lemma {:induction false} PairsOfPrefix(tims: seq<Tim>, caps: seq<Cap>, more: seq<Cap>, n: nat)
    requires n <= |caps|
    ensures Pairs(tims, caps + more, n) == Pairs(tims, caps, n)
  {
    if n > 0 {
      PairsOfPrefix(tims, caps, more, n - 1);
    }
  }

  /** A timing that comes later changes nothing as long as the last event looked at had still
      a timing to be compared with. */
  lemma {:induction false} PairsLater(tims: seq<Tim>, t: Tim, caps: seq<Cap>, n: nat)
    requires n <= |caps| && (n == 0 || |Pairs(tims, caps, n - 1)| < |tims|)
    ensures Pairs(tims + [t], caps, n) == Pairs(tims, caps, n)
  {
    if n > 0 {
      if n > 1 {
        PairsGrow(tims, caps, n - 2, n - 1);
      }
      PairsLater(tims, t, caps, n - 1);
    }
  }

  /* ----- the deviations ----- */

  datatype Dev = Dev(count: nat, sum: nat, max: nat) {
    function Add(v: nat): Dev { Dev(count + 1, sum + v, if max < v then v else max) }
  }

  datatype Stats = Stats(anchor: Option<(nat, nat)>, disconnect: Option<(nat, nat)>, early: Dev, late: Dev)

  const NO_STATS := Stats(None, None, Dev(0, 0, 0), Dev(0, 0, 0))

  function Deviation(p: (nat, nat), a: (nat, nat)): int {
    (p.1 - a.1) - (p.0 - a.0)
  }

  function Account(s: Stats, cap: Cap, tim: Tim): Stats {
    var p := (cap.ts, tim.ts);
    if cap.code == MSG_CONNECT then s.(anchor := Some(p))
    else if cap.code == MSG_DISCONNECT then s.(disconnect := Some(p))
    else if cap.restore then s.(anchor := Some(p))
    else
      var a := s.anchor.GetOr(p);
      var d := Deviation(p, a);
      if d >= 0 then s.(anchor := Some(a), late := s.late.Add(d)) else s.(anchor := Some(a), early := s.early.Add(-d))
  }

  function Tally(ps: seq<(Cap, Tim)>): Stats {
    if |ps| == 0 then NO_STATS else Account(Tally(ps[..|ps| - 1]), ps[|ps| - 1].0, ps[|ps| - 1].1)
  }

  /* ----- the deviations, said of the pairs ----- */

  type Pair = (Cap, Tim)

  /** From here on the client's messages are measured. */
  predicate Anchors(p: Pair) {
    p.0.code == MSG_CONNECT || (p.0.restore && p.0.code != MSG_DISCONNECT)
  }

  /** The pair is measured. */
  predicate Plain(p: Pair) {
    p.0.code != MSG_CONNECT && p.0.code != MSG_DISCONNECT && !p.0.restore
  }

  /** Pair j is what measuring starts from after n pairs: the last that anchors, or, if there is
      none, the first that is measured. */
  predicate IsAnchor(ps: seq<Pair>, n: nat, j: nat)
    requires j < n <= |ps|
  {
    if Anchors(ps[j]) then forall i :: j < i < n ==> !Anchors(ps[i])
    else Plain(ps[j]) && (forall i :: 0 <= i < n ==> !Anchors(ps[i])) && (forall i :: 0 <= i < j ==> !Plain(ps[i]))
  }

  /** None of the first n pairs starts a measurement. */
  predicate Unanchored(ps: seq<Pair>, n: nat)
    requires n <= |ps|
  {
    forall i :: 0 <= i < n ==> !Anchors(ps[i]) && !Plain(ps[i])
  }

  /** Pair k came `gap` microseconds later after its anchor than it did in the capture. */
  ghost predicate Deviates(ps: seq<Pair>, k: nat, gap: int)
    requires k < |ps|
  {
    Plain(ps[k]) &&
    exists j :: 0 <= j <= k && IsAnchor(ps, k + 1, j) && ps[k].1.ts - ps[j].1.ts == ps[k].0.ts - ps[j].0.ts + gap
  }

  lemma OneAnchor(ps: seq<Pair>, n: nat, i: nat, j: nat)
    requires i < n && j < n <= |ps| && IsAnchor(ps, n, i) && IsAnchor(ps, n, j)
    ensures i == j
  {
  }

  lemma OneGap(ps: seq<Pair>, k: nat, a: int, b: int)
    requires k < |ps| && Deviates(ps, k, a) && Deviates(ps, k, b)
    ensures a == b
  {
    hide IsAnchor;
    var i :| 0 <= i <= k && IsAnchor(ps, k + 1, i) && ps[k].1.ts - ps[i].1.ts == ps[k].0.ts - ps[i].0.ts + a;
    var j :| 0 <= j <= k && IsAnchor(ps, k + 1, j) && ps[k].1.ts - ps[j].1.ts == ps[k].0.ts - ps[j].0.ts + b;
    OneAnchor(ps, k + 1, i, j);
  }

  predicate IsGoodbye(ps: seq<Pair>, n: nat, j: nat)
    requires j < n <= |ps|
  {
    ps[j].0.code == MSG_DISCONNECT && forall i :: j < i < n ==> ps[i].0.code != MSG_DISCONNECT
  }

  ghost predicate AnchorStands(ps: seq<Pair>, n: nat, anchor: Option<(nat, nat)>)
    requires n <= |ps|
  {
    match anchor
    case None => Unanchored(ps, n)
    case Some(a) => exists j :: 0 <= j < n && IsAnchor(ps, n, j) && a == (ps[j].0.ts, ps[j].1.ts)
  }

  ghost predicate GoodbyeStands(ps: seq<Pair>, n: nat, disconnect: Option<(nat, nat)>)
    requires n <= |ps|
  {
    match disconnect
    case None => forall i :: 0 <= i < n ==> ps[i].0.code != MSG_DISCONNECT
    case Some(d) => exists j :: 0 <= j < n && IsGoodbye(ps, n, j) && d == (ps[j].0.ts, ps[j].1.ts)
  }

  /** The anchor and the last disconnect among the first n pairs. */
  ghost predicate Stands(ps: seq<Pair>, n: nat, s: Stats)
    requires n <= |ps|
  {
    AnchorStands(ps, n, s.anchor) && GoodbyeStands(ps, n, s.disconnect)
  }

  lemma StandsBoth(ps: seq<Pair>, n: nat, s: Stats)
    requires n <= |ps| && AnchorStands(ps, n, s.anchor) && GoodbyeStands(ps, n, s.disconnect)
    ensures Stands(ps, n, s)
  {
  }

  /** How late, or how early, the measured ones of the first n pairs are, given their gaps. */
  function Amounts(ps: seq<Pair>, gaps: seq<int>, n: nat, late: bool): seq<nat>
    requires n <= |gaps| && n <= |ps|
  {
    if n == 0 then []
    else
      var before, gap := Amounts(ps, gaps, n - 1, late), gaps[n - 1];
      if !Plain(ps[n - 1]) then before
      else if late && gap >= 0 then before + [gap]
      else if !late && gap < 0 then before + [-gap]
      else before
  }

  function Sum(amounts: seq<nat>): nat {
    if |amounts| == 0 then 0 else Sum(amounts[..|amounts| - 1]) + amounts[|amounts| - 1]
  }

  /** Number, sum and maximum. */
  predicate Sums(d: Dev, amounts: seq<nat>) {
    && d.count == |amounts| && d.sum == Sum(amounts)
    && (forall i :: 0 <= i < |amounts| ==> amounts[i] <= d.max) && (d.max == 0 || d.max in amounts)
  }

  lemma SumsMore(d: Dev, amounts: seq<nat>, v: nat)
    requires Sums(d, amounts)
    ensures Sums(d.Add(v), amounts + [v])
  {
    assert (amounts + [v])[..|amounts|] == amounts;
    assert (amounts + [v])[|amounts|] == v;
    forall i | 0 <= i < |amounts| + 1
      ensures (amounts + [v])[i] <= d.Add(v).max
    {
      if i < |amounts| { assert amounts[i] <= d.max; }
    }
  }

  lemma {:induction false} AmountsOfPrefix(ps: seq<Pair>, gaps: seq<int>, more: seq<int>, n: nat, late: bool)
    requires n <= |gaps| && n <= |ps|
    ensures Amounts(ps, gaps + more, n, late) == Amounts(ps, gaps, n, late)
  {
    if n > 0 {
      AmountsOfPrefix(ps, gaps, more, n - 1, late);
    }
  }

  /** The gap of pair n, given what stands after the n pairs before it. */
  function GapAfter(s: Stats, p: Pair): int {
    var now := (p.0.ts, p.1.ts);
    Deviation(now, s.anchor.GetOr(now))
  }

  lemma AnchorNext(ps: seq<Pair>, n: nat, s: Stats)
    requires n < |ps| && Stands(ps, n, s)
    ensures AnchorStands(ps, n + 1, Account(s, ps[n].0, ps[n].1).anchor)
    ensures Plain(ps[n]) ==> Deviates(ps, n, GapAfter(s, ps[n]))
  {
    var p, m := ps[n], n + 1;
    if Anchors(p) {
      assert IsAnchor(ps, m, n);
    } else if s.anchor.Some? {
      var j :| 0 <= j < n && IsAnchor(ps, n, j) && s.anchor.value == (ps[j].0.ts, ps[j].1.ts);
      StillAnchor(ps, n, j);
    } else if Plain(p) {
      assert IsAnchor(ps, m, n);
    } else {
      assert Unanchored(ps, m);
    }
  }

  lemma StillAnchor(ps: seq<Pair>, n: nat, j: nat)
    requires j < n < |ps| && IsAnchor(ps, n, j) && !Anchors(ps[n])
    ensures IsAnchor(ps, n + 1, j)
  {
  }

  lemma GoodbyeNext(ps: seq<Pair>, n: nat, s: Stats)
    requires n < |ps| && Stands(ps, n, s)
    ensures GoodbyeStands(ps, n + 1, Account(s, ps[n].0, ps[n].1).disconnect)
  {
    hide AnchorStands, Deviation;
    var p, m := ps[n], n + 1;
    if p.0.code == MSG_DISCONNECT {
      assert IsGoodbye(ps, m, n);
    } else if s.disconnect.Some? {
      var j :| 0 <= j < n && IsGoodbye(ps, n, j) && s.disconnect.value == (ps[j].0.ts, ps[j].1.ts);
      assert IsGoodbye(ps, m, j);
    }
  }

  /** Early and late count, sum up and bound the measured pairs that came sooner, or not sooner,
      after their anchor than they did in the capture, each by how much. */
  ghost predicate Measured(ps: seq<Pair>, n: nat, gaps: seq<int>, s: Stats)
    requires n <= |ps|
  {
    && |gaps| == n && (forall k :: 0 <= k < n && Plain(ps[k]) ==> Deviates(ps, k, gaps[k]))
    && Sums(s.late, Amounts(ps, gaps, n, true)) && Sums(s.early, Amounts(ps, gaps, n, false))
  }

  lemma MeasuredNext(ps: seq<Pair>, n: nat, gaps: seq<int>, s: Stats)
    requires n < |ps| && Measured(ps, n, gaps, s)
    requires Plain(ps[n]) ==> Deviates(ps, n, GapAfter(s, ps[n]))
    ensures Measured(ps, n + 1, gaps + [GapAfter(s, ps[n])], Account(s, ps[n].0, ps[n].1))
  {
    hide Deviates, Sums;
    var gap := GapAfter(s, ps[n]);
    AmountsOfPrefix(ps, gaps, [gap], n, true);
    AmountsOfPrefix(ps, gaps, [gap], n, false);
    if gap >= 0 {
      SumsMore(s.late, Amounts(ps, gaps, n, true), gap);
    } else {
      SumsMore(s.early, Amounts(ps, gaps, n, false), -gap);
    }
  }

  lemma {:induction false} TallyMeans(ps: seq<Pair>, n: nat) returns (gaps: seq<int>)
    requires n <= |ps|
    ensures Stands(ps, n, Tally(ps[..n])) && Measured(ps, n, gaps, Tally(ps[..n]))
  {
    hide Stands, AnchorStands, GoodbyeStands, Measured, Account, Tally, GapAfter, Deviates, Plain;
    if n == 0 {
      gaps := [];
      NothingTallied(ps);
    } else {
      gaps := TallyMeans(ps, n - 1);
      var s, p := Tally(ps[..n - 1]), ps[n - 1];
      var now := Account(s, p.0, p.1);
      assert ps[..n] == ps[..n - 1] + [p];
      TallyNext(ps[..n - 1], p.0, p.1);
      AnchorNext(ps, n - 1, s);
      GoodbyeNext(ps, n - 1, s);
      StandsBoth(ps, n, now);
      MeasuredNext(ps, n - 1, gaps, s);
      gaps := gaps + [GapAfter(s, p)];
    }
  }

  lemma NothingTallied(ps: seq<Pair>)
    ensures Stands(ps, 0, Tally(ps[..0])) && Measured(ps, 0, [], Tally(ps[..0]))
  {
  }

  /* ----- one client ----- */

  datatype ClientStats = ClientStats(
    cap: seq<Cap>, tim: seq<Tim>, stats: Stats, connectUs: Option<int>, matched: nat, skipped: nat)

  const NEW_STATS := ClientStats([], [], NO_STATS, None, 0, 0)

  /** What has been looked at is aligned greedily, and no event was looked at without a timing. */
  predicate Held(c: ClientStats, tims: seq<Tim>, caps: seq<Cap>) {
    && |c.cap| <= |caps|
    && var n := |caps| - |c.cap|;
       var ps := Pairs(tims, caps, n);
       && c.cap == caps[n..] && c.tim == tims[|ps|..]
       && c.matched == |ps| && c.matched + c.skipped == n && c.stats == Tally(ps)
       && (n == 0 || |Pairs(tims, caps, n - 1)| < |tims|)
  }

  /** The pairs found so far. */
  function Found(c: ClientStats, tims: seq<Tim>, caps: seq<Cap>): seq<(Cap, Tim)> {
    if |c.cap| <= |caps| then Pairs(tims, caps, |caps| - |c.cap|) else []
  }

  /** When the client connected, in the capture and in the replay. */
  function Connects(ps: seq<(Cap, Tim)>): seq<(nat, nat)> {
    if |ps| == 0 then []
    else
      var (cap, tim) := ps[|ps| - 1];
      Connects(ps[..|ps| - 1]) + (if cap.code == MSG_CONNECT then [(cap.ts, tim.ts)] else [])
  }

  /** The deviation of the last connect from the origin. */
  predicate Dated(connectUs: Option<int>, connects: seq<(nat, nat)>, origin: Option<(nat, nat)>) {
    if connects == [] then connectUs == None
    else origin.Some? && connectUs == Some(Deviation(connects[|connects| - 1], origin.value))
  }

  lemma ConnectsNext(ps: seq<(Cap, Tim)>, cap: Cap, tim: Tim)
    ensures Connects(ps + [(cap, tim)]) == Connects(ps) + (if cap.code == MSG_CONNECT then [(cap.ts, tim.ts)] else [])
  {
    assert (ps + [(cap, tim)])[..|ps|] == ps;
  }

  lemma {:induction false} ConnectsGrow(ps: seq<(Cap, Tim)>, more: seq<(Cap, Tim)>)
    requires ps <= more
    ensures Connects(ps) <= Connects(more)
    decreases |more|
  {
    if |ps| < |more| {
      ConnectsGrow(ps, more[..|more| - 1]);
    } else {
      assert ps == more;
    }
  }

  predicate Drained(c: ClientStats) {
    c.cap == [] || c.tim == []
  }

  /** The origin is the first connect of any client that is matched. */
  function NextOrigin(c: ClientStats, origin: Option<(nat, nat)>): Option<(nat, nat)>
    requires !Drained(c)
  {
    var cap, tim := c.cap[0], c.tim[0];
    if cap.code == tim.code == MSG_CONNECT && origin.None? then Some((cap.ts, tim.ts)) else origin
  }

  function Step(c: ClientStats, origin: Option<(nat, nat)>): ClientStats
    requires !Drained(c)
  {
    var cap, tim := c.cap[0], c.tim[0];
    var rest := c.(cap := c.cap[1..]);
    if cap.code != tim.code then rest.(skipped := c.skipped + 1)
    else
      var p := (cap.ts, tim.ts);
      rest.(tim := c.tim[1..], stats := Account(c.stats, cap, tim), matched := c.matched + 1,
            connectUs := if cap.code == MSG_CONNECT then Some(Deviation(p, origin.GetOr(p))) else c.connectUs)
  }

  lemma PairsNext(tims: seq<Tim>, caps: seq<Cap>, n: nat)
    requires n < |caps|
    ensures var ps := Pairs(tims, caps, n);
            Pairs(tims, caps, n + 1) ==
            if |ps| < |tims| && caps[n].code == tims[|ps|].code then ps + [(caps[n], tims[|ps|])] else ps
  {
  }

  lemma TallyNext(ps: seq<(Cap, Tim)>, cap: Cap, tim: Tim)
    ensures Tally(ps + [(cap, tim)]) == Account(Tally(ps), cap, tim)
  {
    assert (ps + [(cap, tim)])[..|ps|] == ps;
  }

  /** What a step adds to the pairs. */
  lemma StepFound(c: ClientStats, tims: seq<Tim>, caps: seq<Cap>, origin: Option<(nat, nat)>)
    requires Held(c, tims, caps) && !Drained(c)
    ensures var ps, pair := Found(c, tims, caps), (c.cap[0], c.tim[0]);
            && Found(Step(c, origin), tims, caps) == (if pair.0.code == pair.1.code then ps + [pair] else ps)
            && |caps| - |c.cap| < |caps| && |ps| < |tims|
            && c.cap[1..] == caps[|caps| - |c.cap| + 1..] && c.tim[1..] == tims[|ps| + 1..]
  {
    hide Account, Pairs, Tally;
    PairsNext(tims, caps, |caps| - |c.cap|);
  }

  lemma StepHeld(c: ClientStats, tims: seq<Tim>, caps: seq<Cap>, origin: Option<(nat, nat)>)
    requires Held(c, tims, caps) && !Drained(c)
    ensures Held(Step(c, origin), tims, caps)
  {
    hide Account, Pairs, Tally;
    StepFound(c, tims, caps, origin);
    TallyNext(Found(c, tims, caps), c.cap[0], c.tim[0]);
  }

  lemma StepDated(c: ClientStats, tims: seq<Tim>, caps: seq<Cap>, origin: Option<(nat, nat)>)
    requires Held(c, tims, caps) && !Drained(c) && Dated(c.connectUs, Connects(Found(c, tims, caps)), origin)
    ensures var d, origin' := Step(c, origin), NextOrigin(c, origin);
            && Found(c, tims, caps) <= Found(d, tims, caps)
            && Dated(d.connectUs, Connects(Found(d, tims, caps)), origin')
            && (origin'.Some? && origin.None? ==> Connects(Found(d, tims, caps)) == [origin'.value])
  {
    hide Account, Held, Connects, Deviation, Found;
    StepFound(c, tims, caps, origin);
    ConnectsNext(Found(c, tims, caps), c.cap[0], c.tim[0]);
  }

  lemma TimingHeld(c: ClientStats, tims: seq<Tim>, caps: seq<Cap>, t: Tim)
    requires Held(c, tims, caps)
    ensures Held(c.(tim := c.tim + [t]), tims + [t], caps)
    ensures Found(c.(tim := c.tim + [t]), tims + [t], caps) == Found(c, tims, caps)
  {
    hide Tally, Pairs;
    var n := |caps| - |c.cap|;
    PairsLater(tims, t, caps, n);
    if n > 0 {
      if n > 1 {
        PairsGrow(tims, caps, n - 2, n - 1);
      }
      PairsLater(tims, t, caps, n - 1);
    }
    assert (tims + [t])[c.matched..] == tims[c.matched..] + [t];
  }

  lemma EventHeld(c: ClientStats, tims: seq<Tim>, caps: seq<Cap>, more: seq<Cap>)
    requires Held(c, tims, caps)
    ensures Held(c.(cap := c.cap + more), tims, caps + more)
    ensures Found(c.(cap := c.cap + more), tims, caps + more) == Found(c, tims, caps)
  {
    hide Tally, Pairs;
    var n := |caps| - |c.cap|;
    PairsOfPrefix(tims, caps, more, n);
    assert (caps + more)[n..] == caps[n..] + more;
    if n > 0 {
      PairsOfPrefix(tims, caps, more, n - 1);
    }
  }

  /** The result for a client: the best alignment of all its timings with all its events, the
      deviations of exactly those pairs, and that of its last connect from the origin. */
  ghost predicate Best(c: ClientStats, tims: seq<Tim>, caps: seq<Cap>, origin: Option<(nat, nat)>) {
    var ps := Pairs(tims, caps, |caps|);
    && c.matched == |ps| && |c.tim| == |tims| - |ps| && c.stats == Tally(ps)
    && Dated(c.connectUs, Connects(ps), origin)
  }

  /** A client whose timings are all matched, or for whom the capture has been read, has what
      the whole capture would give. */
  lemma SettledHeld(c: ClientStats, tims: seq<Tim>, caps: seq<Cap>, more: seq<Cap>, origin: Option<(nat, nat)>)
    requires Held(c, tims, caps) && Drained(c) && (c.tim == [] || more == [])
    requires Dated(c.connectUs, Connects(Found(c, tims, caps)), origin)
    ensures Best(c, tims, caps + more, origin)
    ensures Found(c, tims, caps) == Pairs(tims, caps + more, |caps + more|)
  {
    hide Tally, Connects, Dated;
    var n := |caps| - |c.cap|;
    var all := caps + more;
    PairsOfPrefix(tims, caps, more, n);
    PairsGrow(tims, all, n, |all|);
    var ps := Pairs(tims, all, |all|);
    if c.tim == [] {
      assert ps[..c.matched] == Pairs(tims, caps, n);
      assert ps == ps[..c.matched];
    } else {
      assert all == caps;
    }
  }

  method Drain(c: ClientStats, origin: Option<(nat, nat)>, ghost tims: seq<Tim>, ghost caps: seq<Cap>)
    returns (d: ClientStats, origin': Option<(nat, nat)>)
    requires Held(c, tims, caps) && Dated(c.connectUs, Connects(Found(c, tims, caps)), origin)
    ensures Held(d, tims, caps) && Drained(d) && (Drained(c) ==> d == c && origin' == origin)
    ensures Found(c, tims, caps) <= Found(d, tims, caps)
    ensures Dated(d.connectUs, Connects(Found(d, tims, caps)), origin')
    ensures origin.Some? ==> origin' == origin
    ensures origin'.Some? && origin.None? ==> [origin'.value] <= Connects(Found(d, tims, caps))
  {
    hide Held, Account, Found, Connects, Deviation, Dated;
    d, origin' := c, origin;
    while |d.cap| > 0 && |d.tim| > 0
      invariant Held(d, tims, caps) && (Drained(c) ==> d == c && origin' == origin)
      invariant Found(c, tims, caps) <= Found(d, tims, caps)
      invariant Dated(d.connectUs, Connects(Found(d, tims, caps)), origin')
      invariant origin.Some? ==> origin' == origin
      invariant origin'.Some? && origin.None? ==> [origin'.value] <= Connects(Found(d, tims, caps))
      decreases |d.cap|
    {
      StepHeld(d, tims, caps, origin');
      StepDated(d, tims, caps, origin');
      ConnectsGrow(Found(d, tims, caps), Found(Step(d, origin'), tims, caps));
      var cap, tim := d.cap[0], d.tim[0];
      if cap.code != tim.code {
        d := d.(cap := d.cap[1..], skipped := d.skipped + 1);
      } else {
        var p := (cap.ts, tim.ts);
        if cap.code == MSG_CONNECT {
          origin' := Some(origin'.GetOr(p));
          d := d.(connectUs := Some(Deviation(p, origin'.value)));
        }
        d := d.(cap := d.cap[1..], tim := d.tim[1..], stats := Account(d.stats, cap, tim), matched := d.matched + 1);
      }
    }
  }

  /* ----- all clients ----- */

  function EventCode(e: Event): Option<byte> {
    match e
    case Lsn(_) => None
    case TxEnd(_, _, _) => None
    case _ => Some(Tag(e))
  }

  /** A connection that restores a session is followed by the query that restores it. */
  function CapsOf(m: Message): seq<Cap> {
    match EventCode(m.event)
    case None => []
    case Some(code) =>
      [Cap(code, m.ts, false)] +
      (if m.event.Connect? && m.event.session != [] then [Cap(MSG_SIMPLE_QUERY, m.ts, true)] else [])
  }

  function Caps(capture: seq<Message>, n: nat, id: Id): seq<Cap>
    requires n <= |capture|
  {
    if n == 0 then []
    else Caps(capture, n - 1, id) + (if capture[n - 1].id == id then CapsOf(capture[n - 1]) else [])
  }

  function Tims(timings: seq<Timing>, n: nat, id: Id): seq<Tim>
    requires n <= |timings|
  {
    if n == 0 then []
    else Tims(timings, n - 1, id) + (if timings[n - 1].id == id then [timings[n - 1].tim] else [])
  }

  /** The alignment of everything there is of a client. */
  function AllPairs(capture: seq<Message>, timings: seq<Timing>, id: Id): seq<(Cap, Tim)> {
    var caps := Caps(capture, |capture|, id);
    Pairs(Tims(timings, |timings|, id), caps, |caps|)
  }

  function StatsOf(clients: map<Id, ClientStats>, id: Id): ClientStats {
    if id in clients then clients[id] else NEW_STATS
  }

  /** The client is aligned with what has been read, drained, and dated from the origin. */
  ghost predicate HeldAt(clients: map<Id, ClientStats>, capture: seq<Message>, read: nat, timings: seq<Timing>, n: nat,
                         origin: Option<(nat, nat)>, id: Id)
    requires read <= |capture| && n <= |timings|
  {
    var c, tims, caps := StatsOf(clients, id), Tims(timings, n, id), Caps(capture, read, id);
    Held(c, tims, caps) && Drained(c) && Dated(c.connectUs, Connects(Found(c, tims, caps)), origin)
  }

  ghost predicate AllHeld(clients: map<Id, ClientStats>, capture: seq<Message>, read: nat, timings: seq<Timing>, n: nat,
                          origin: Option<(nat, nat)>)
    requires read <= |capture| && n <= |timings|
  {
    forall id :: HeldAt(clients, capture, read, timings, n, origin, id)
  }

  /** The origin is the first matched connect of the client `first`. */
  ghost predicate Anchored(clients: map<Id, ClientStats>, capture: seq<Message>, read: nat, timings: seq<Timing>, n: nat,
                           origin: Option<(nat, nat)>, first: Id)
    requires read <= |capture| && n <= |timings|
  {
    origin.Some? ==>
      [origin.value] <= Connects(Found(StatsOf(clients, first), Tims(timings, n, first), Caps(capture, read, first)))
  }

  ghost predicate NoneWaits(clients: map<Id, ClientStats>, but: set<Id>) {
    forall id :: id !in but ==> StatsOf(clients, id).tim == []
  }

  lemma {:induction false} CapsGrow(capture: seq<Message>, n: nat, id: Id)
    requires n <= |capture|
    ensures Caps(capture, n, id) <= Caps(capture, |capture|, id)
    decreases |capture| - n
  {
    if n < |capture| {
      assert Caps(capture, n, id) <= Caps(capture, n + 1, id);
      CapsGrow(capture, n + 1, id);
    }
  }

  /** One client has moved on; the others have neither new events nor new timings. */
  lemma AllHeldMoved(clients: map<Id, ClientStats>, capture: seq<Message>, read: nat, read': nat,
                     timings: seq<Timing>, n: nat, n': nat, origin: Option<(nat, nat)>, origin': Option<(nat, nat)>,
                     id: Id, d: ClientStats, first: Id)
    requires read <= |capture| && read' <= |capture| && n <= |timings| && n' <= |timings|
    requires AllHeld(clients, capture, read, timings, n, origin) && Anchored(clients, capture, read, timings, n, origin, first)
    requires forall other :: other != id ==>
      Tims(timings, n', other) == Tims(timings, n, other) && Caps(capture, read', other) == Caps(capture, read, other)
    requires HeldAt(clients[id := d], capture, read', timings, n', origin', id)
    requires origin.Some? ==> origin' == origin
    requires var now := Found(d, Tims(timings, n', id), Caps(capture, read', id));
             && Found(StatsOf(clients, id), Tims(timings, n, id), Caps(capture, read, id)) <= now
             && (origin'.Some? && origin.None? ==> [origin'.value] <= Connects(now))
    ensures AllHeld(clients[id := d], capture, read', timings, n', origin')
    ensures Anchored(clients[id := d], capture, read', timings, n', origin', if origin.None? then id else first)
  {
    hide Held, Drained, Tims, Caps, Found, Connects;
    var clients' := clients[id := d];
    forall other
      ensures HeldAt(clients', capture, read', timings, n', origin', other)
    {
      assert HeldAt(clients, capture, read, timings, n, origin, other);
    }
    if origin.Some? && first == id {
      ConnectsGrow(Found(StatsOf(clients, id), Tims(timings, n, id), Caps(capture, read, id)),
                   Found(d, Tims(timings, n', id), Caps(capture, read', id)));
    }
  }

  /** An event without a code changes nothing. */
  lemma CapsSkip(capture: seq<Message>, read: nat)
    requires read < |capture| && CapsOf(capture[read]) == []
    ensures forall id :: Caps(capture, read + 1, id) == Caps(capture, read, id)
  {
    hide CapsOf;
    forall id
      ensures Caps(capture, read + 1, id) == Caps(capture, read, id)
    {
      assert Caps(capture, read, id) + [] == Caps(capture, read, id);
    }
  }

  lemma CapsNext(capture: seq<Message>, read: nat)
    requires read < |capture|
    ensures Caps(capture, read + 1, capture[read].id) == Caps(capture, read, capture[read].id) + CapsOf(capture[read])
    ensures forall other :: other != capture[read].id ==> Caps(capture, read + 1, other) == Caps(capture, read, other)
  {
    hide CapsOf;
    forall other | other != capture[read].id
      ensures Caps(capture, read + 1, other) == Caps(capture, read, other)
    {
      assert Caps(capture, read, other) + [] == Caps(capture, read, other);
    }
  }

  lemma TimsNext(timings: seq<Timing>, n: nat)
    requires n < |timings|
    ensures Tims(timings, n + 1, timings[n].id) == Tims(timings, n, timings[n].id) + [timings[n].tim]
    ensures forall other :: other != timings[n].id ==> Tims(timings, n + 1, other) == Tims(timings, n, other)
  {
    forall other | other != timings[n].id
      ensures Tims(timings, n + 1, other) == Tims(timings, n, other)
    {
      assert Tims(timings, n, other) + [] == Tims(timings, n, other);
    }
  }

  lemma AllHeldFresh(capture: seq<Message>, timings: seq<Timing>)
    ensures AllHeld(map[], capture, 0, timings, 0, None)
  {
  }

  lemma ReadEnough(clients: map<Id, ClientStats>, capture: seq<Message>, read: nat, timings: seq<Timing>, n: nat,
                   origin: Option<(nat, nat)>, id: Id)
    requires read <= |capture| && n <= |timings| && AllHeld(clients, capture, read, timings, n, origin)
    requires read == |capture| || StatsOf(clients, id).tim == []
    ensures var c, tims, caps := StatsOf(clients, id), Tims(timings, n, id), Caps(capture, |capture|, id);
            && Best(c, tims, caps, origin) && Drained(c)
            && Found(c, tims, Caps(capture, read, id)) == Pairs(tims, caps, |caps|)
  {
    hide Held, Best, Tims, Caps, Dated, Connects, Found, Pairs;
    var c, tims, caps, all := StatsOf(clients, id), Tims(timings, n, id), Caps(capture, read, id), Caps(capture, |capture|, id);
    assert HeldAt(clients, capture, read, timings, n, origin, id);
    CapsGrow(capture, read, id);
    var more := all[|caps|..];
    assert caps + more == all;
    assert c.tim == [] || more == [];
    SettledHeld(c, tims, caps, more, origin);
  }

  datatype Outcome = Done | CaptureError

  class Comparer {
    const capture: seq<Message>
    /** The capture does not end cleanly: reading past its last message is an error. */
    const broken: bool
    var read: nat
    var captureEof: bool
    var clients: map<Id, ClientStats>
    var origin: Option<(nat, nat)>
    /** The client whose connect is the origin. */
    ghost var first: Id

    ghost predicate Upto(timings: seq<Timing>, n: nat)
      requires n <= |timings|
      reads this
    {
      && read <= |capture| && (captureEof ==> read == |capture|)
      && AllHeld(clients, capture, read, timings, n, origin)
      && Anchored(clients, capture, read, timings, n, origin, first)
    }

    constructor (capture: seq<Message>, broken: bool)
      ensures this.capture == capture && this.broken == broken
      ensures read == 0 && !captureEof && clients == map[] && origin == None
    {
      this.capture, this.broken, read, captureEof, clients := capture, broken, 0, false, map[];
      origin, first := None, 0;
    }

    method TakeTiming(timings: seq<Timing>, n: nat)
      requires n < |timings| && Upto(timings, n) && (captureEof || NoneWaits(clients, {}))
      modifies this`clients, this`origin, this`first
      ensures Upto(timings, n + 1) && timings[n].id in clients && (captureEof || NoneWaits(clients, {timings[n].id}))
    {
      hide Held, Tims, Caps, Found, Connects, Dated;
      var t := timings[n];
      var c := StatsOf(clients, t.id);
      ghost var tims, caps := Tims(timings, n, t.id), Caps(capture, read, t.id);
      assert HeldAt(clients, capture, read, timings, n, origin, t.id);
      TimingHeld(c, tims, caps, t.tim);
      TimsNext(timings, n);
      var d, o := Drain(c.(tim := c.tim + [t.tim]), origin, tims + [t.tim], caps);
      AllHeldMoved(clients, capture, read, read, timings, n, n + 1, origin, o, t.id, d, first);
      first := if origin.None? then t.id else first;
      clients, origin := clients[t.id := d], o;
    }

    method TakeEvent(ghost timings: seq<Timing>, ghost n: nat, ghost who: Id)
      requires n <= |timings| && Upto(timings, n) && read < |capture| && !captureEof && NoneWaits(clients, {who})
      requires who in clients
      modifies this`clients, this`read, this`origin, this`first
      ensures Upto(timings, n) && read == old(read) + 1 && NoneWaits(clients, {who}) && who in clients
    {
      hide Held, Tims, Caps, Tag, Found, Connects, Dated;
      var m := capture[read];
      var code := EventCode(m.event);
      if code.None? {
        CapsSkip(capture, read);
        Skipped(clients, capture, read, timings, n, origin, first);
      } else {
        var restore := m.event.Connect? && m.event.session != [];
        var c := StatsOf(clients, m.id);
        ghost var tims, caps := Tims(timings, n, m.id), Caps(capture, read, m.id);
        assert HeldAt(clients, capture, read, timings, n, origin, m.id);
        EventHeld(c, tims, caps, CapsOf(m));
        CapsNext(capture, read);
        var queued := c.cap + [Cap(code.value, m.ts, false)];
        if restore {
          queued := queued + [Cap(MSG_SIMPLE_QUERY, m.ts, true)];
        }
        assert queued == c.cap + CapsOf(m);
        var d, o := Drain(c.(cap := queued), origin, tims, caps + CapsOf(m));
        AllHeldMoved(clients, capture, read, read + 1, timings, n, n, origin, o, m.id, d, first);
        first := if origin.None? then m.id else first;
        clients, origin := clients[m.id := d], o;
      }
      read := read + 1;
    }

    /** Every client ends with its best alignment, however its events and timings are
        interleaved with those of others, and however little of the capture was read; all are
        dated from one origin, the first matched connect of one of them. */
    method Compare(timings: seq<Timing>) returns (r: Outcome)
      requires read == 0 && !captureEof && clients == map[] && origin == None
      modifies this
      ensures !broken ==> r == Done
      ensures r == Done ==> forall id ::
        && Best(StatsOf(clients, id), Tims(timings, |timings|, id), Caps(capture, |capture|, id), origin)
        && Drained(StatsOf(clients, id)) && (StatsOf(clients, id).tim != [] ==> captureEof)
      ensures r == Done && origin.Some? ==>
        exists id :: [origin.value] <= Connects(AllPairs(capture, timings, id))
    {
      hide AllHeld, Best, Anchored, Caps, Tims, Connects, Pairs;
      AllHeldFresh(capture, timings);
      assert Anchored(map[], capture, 0, timings, 0, None, first) by { NoOrigin(capture, timings, first); }
      for n := 0 to |timings|
        invariant Upto(timings, n) && (captureEof || NoneWaits(clients, {}))
      {
        TakeTiming(timings, n);
        var id := timings[n].id;
        while !captureEof && clients[id].tim != []
          invariant Upto(timings, n + 1) && id in clients && (captureEof || NoneWaits(clients, {id}))
          decreases !captureEof, |capture| - read
        {
          hide NoneWaits;
          if read < |capture| {
            TakeEvent(timings, n + 1, id);
          } else if broken {
            return CaptureError;
          } else {
            captureEof := true;
          }
        }
      }
      forall id
        ensures Best(StatsOf(clients, id), Tims(timings, |timings|, id), Caps(capture, |capture|, id), origin)
        ensures Drained(StatsOf(clients, id))
      {
        ReadEnough(clients, capture, read, timings, |timings|, origin, id);
      }
      ReadEnough(clients, capture, read, timings, |timings|, origin, first);
      OriginStands(clients, capture, read, timings, origin, first);
      r := Done;
    }
  }

  lemma NoOrigin(capture: seq<Message>, timings: seq<Timing>, first: Id)
    ensures Anchored(map[], capture, 0, timings, 0, None, first)
  {
  }

  lemma Skipped(clients: map<Id, ClientStats>, capture: seq<Message>, read: nat, timings: seq<Timing>, n: nat,
                origin: Option<(nat, nat)>, first: Id)
    requires read < |capture| && n <= |timings|
    requires forall id :: Caps(capture, read + 1, id) == Caps(capture, read, id)
    requires AllHeld(clients, capture, read, timings, n, origin) && Anchored(clients, capture, read, timings, n, origin, first)
    ensures AllHeld(clients, capture, read + 1, timings, n, origin)
    ensures Anchored(clients, capture, read + 1, timings, n, origin, first)
  {
    hide Held, Caps, Tims, Found, Connects, Dated;
    var next := read + 1;
    forall id
      ensures HeldAt(clients, capture, next, timings, n, origin, id)
    {
      assert HeldAt(clients, capture, read, timings, n, origin, id);
    }
  }

  lemma OriginStands(clients: map<Id, ClientStats>, capture: seq<Message>, read: nat, timings: seq<Timing>,
                     origin: Option<(nat, nat)>, first: Id)
    requires read <= |capture| && Anchored(clients, capture, read, timings, |timings|, origin, first)
    requires var caps := Caps(capture, |capture|, first);
             var tims := Tims(timings, |timings|, first);
             Found(StatsOf(clients, first), tims, Caps(capture, read, first)) == Pairs(tims, caps, |caps|)
    ensures origin.Some? ==>
      exists id :: [origin.value] <= Connects(AllPairs(capture, timings, id))
  {
    hide Caps, Tims, Connects, Pairs, Found;
    if origin.Some? {
      assert [origin.value] <= Connects(AllPairs(capture, timings, first));
    }
  }
}
