/** The join of a capture with a trace (src/analyzer.rs).  `View` says, without queues or
    offsets, which statement each numbered frame of a client stands for in the whole capture;
    the analyzer, which reads the capture only as far as the traces need, writes the rows that
    the eager join over the views would. */
module Analyzer {
  import opened Wrappers
  import opened Bytes
  import opened CaptureFormat
  import opened Storage

  type Id = nat

  const NO_PARAMS: nat := 0xFFFF_FFFF_FFFF_FFFF

  datatype Trace = Trace(id: Id, frameIndex: nat, duration: nat, eventType: byte)

  /* ----- the eager reading of a capture ----- */

  /** A frame that names a statement: its number, the text in force, the bind message that
      gave the parameters, and the time. */
  datatype Info = Info(index: nat, text: Text, bind: Option<nat>, ts: nat)

  datatype View = View(frames: nat, infos: seq<Info>, statements: map<Text, Text>, portals: map<Text, (Text, nat)>)

  const NOTHING := View(0, [], map[], map[])

  /** The message at position `at` of the capture. */
  function Apply(v: View, m: Message, at: nat, startTs: nat): View {
    var ts := if m.ts < startTs then 0 else m.ts - startTs;
    match m.event
    case SimpleQuery(text) =>
      v.(frames := v.frames + 1, infos := v.infos + [Info(v.frames + 1, text, None, ts)])
    case Parse(name, query, _) =>
      v.(frames := v.frames + 1, infos := v.infos + [Info(v.frames + 1, query, None, ts)],
         statements := v.statements[name := query])
    case Bind(portal, statement, _, _) =>
      if statement in v.statements then
        var text := v.statements[statement];
        v.(frames := v.frames + 1, infos := v.infos + [Info(v.frames + 1, text, Some(at), ts)],
           portals := v.portals[portal := (text, at)])
      else v.(frames := v.frames + 1)
    case Execute(target, _) =>
      if target in v.portals then
        var (text, bind) := v.portals[target];
        v.(frames := v.frames + 1, infos := v.infos + [Info(v.frames + 1, text, Some(bind), ts)])
      else v.(frames := v.frames + 1)
    case _ => v
  }

  /** What the first k messages say about a client. */
  function ViewAt(capture: seq<Message>, k: nat, id: Id, startTs: nat): View
    requires k <= |capture|
  {
    if k == 0 then NOTHING
    else
      var v := ViewAt(capture, k - 1, id, startTs);
      if capture[k - 1].id == id then Apply(v, capture[k - 1], k - 1, startTs) else v
  }

  /** The infos stand in the order of their numbers, none beyond the number of frames. */
  predicate Ordered(v: View) {
    && (forall i :: 0 <= i < |v.infos| ==> 0 < v.infos[i].index <= v.frames)
    && (forall i, j :: 0 <= i < j < |v.infos| ==> v.infos[i].index < v.infos[j].index)
  }

  lemma OneMore(v: View, w: View, i: Info)
    requires Ordered(v) && w.frames == v.frames + 1 == i.index && w.infos == v.infos + [i]
    ensures Ordered(w) && v.infos <= w.infos
    ensures forall k :: |v.infos| <= k < |w.infos| ==> v.frames < w.infos[k].index
  {
  }

  lemma NoMore(v: View, w: View)
    requires Ordered(v) && v.frames <= w.frames && w.infos == v.infos
    ensures Ordered(w)
  {
  }

  /** A message adds at most one info, under the next number. */
  lemma ApplyAdds(v: View, m: Message, at: nat, startTs: nat)
    requires Ordered(v)
    ensures var w := Apply(v, m, at, startTs);
            && Ordered(w) && v.frames <= w.frames && v.infos <= w.infos
            && forall k :: |v.infos| <= k < |w.infos| ==> v.frames < w.infos[k].index
  {
    hide Ordered;
    var w, next := Apply(v, m, at, startTs), v.frames + 1;
    var ts := if m.ts < startTs then 0 else m.ts - startTs;
    match m.event
    case SimpleQuery(text) => OneMore(v, w, Info(next, text, None, ts));
    case Parse(_, query, _) => OneMore(v, w, Info(next, query, None, ts));
    case Bind(_, statement, _, _) =>
      if statement in v.statements {
        OneMore(v, w, Info(next, v.statements[statement], Some(at), ts));
      } else {
        NoMore(v, w);
      }
    case Execute(target, _) =>
      if target in v.portals {
        OneMore(v, w, Info(next, v.portals[target].0, Some(v.portals[target].1), ts));
      } else {
        NoMore(v, w);
      }
    case _ => NoMore(v, w);
  }

  lemma {:induction false} ViewOrdered(capture: seq<Message>, k: nat, id: Id, startTs: nat)
    requires k <= |capture|
    ensures Ordered(ViewAt(capture, k, id, startTs))
  {
    hide Apply, Ordered;
    if k > 0 {
      ViewOrdered(capture, k - 1, id, startTs);
      ApplyAdds(ViewAt(capture, k - 1, id, startTs), capture[k - 1], k - 1, startTs);
    } else {
      assert Ordered(NOTHING) by { NothingOrdered(); }
    }
  }

  lemma NothingOrdered()
    ensures Ordered(NOTHING)
  {
  }

  /** Reading on only adds infos, all of later frames. */
  lemma {:induction false} ViewGrows(capture: seq<Message>, k: nat, n: nat, id: Id, startTs: nat)
    requires k <= n <= |capture|
    ensures var v, w := ViewAt(capture, k, id, startTs), ViewAt(capture, n, id, startTs);
            && v.frames <= w.frames && v.infos <= w.infos
            && forall i :: |v.infos| <= i < |w.infos| ==> v.frames < w.infos[i].index
    decreases n
  {
    hide Apply, Ordered;
    if k < n {
      ViewGrows(capture, k, n - 1, id, startTs);
      ViewOrdered(capture, n - 1, id, startTs);
      ApplyAdds(ViewAt(capture, n - 1, id, startTs), capture[n - 1], n - 1, startTs);
    }
  }

  /* ----- what the capture says, without a view ----- */

  /** The messages that are given a frame number. */
  predicate Numbered(e: Event) {
    e.SimpleQuery? || e.Parse? || e.Bind? || e.Execute?
  }

  function NumberedOf(capture: seq<Message>, k: nat, id: Id): set<nat>
    requires k <= |capture|
  {
    set j: nat | j < k && capture[j].id == id && Numbered(capture[j].event)
  }

  predicate ParseOf(m: Message, id: Id, name: Text) {
    m.id == id && m.event.Parse? && m.event.name == name
  }

  /** p is the client's last parse of the statement before k. */
  predicate IsLastParse(capture: seq<Message>, k: nat, id: Id, name: Text, p: nat)
    requires k <= |capture|
  {
    p < k && ParseOf(capture[p], id, name) && forall q :: p < q < k ==> !ParseOf(capture[q], id, name)
  }

  /** A bind to a portal of a statement that has been parsed before. */
  predicate BindOf(capture: seq<Message>, b: nat, id: Id, portal: Text)
    requires b < |capture|
  {
    var m := capture[b];
    && m.id == id && m.event.Bind? && m.event.portal == portal
    && exists p :: 0 <= p < b && ParseOf(capture[p], id, m.event.statement)
  }

  predicate IsLastBind(capture: seq<Message>, k: nat, id: Id, portal: Text, b: nat)
    requires k <= |capture|
  {
    b < k && BindOf(capture, b, id, portal) && forall q :: b < q < k ==> !BindOf(capture, q, id, portal)
  }

  /** The text is that of the last parse of the statement bound at b. */
  predicate TextAt(capture: seq<Message>, b: nat, text: Text)
    requires b < |capture| && capture[b].event.Bind?
  {
    exists p :: 0 <= p < b && IsLastParse(capture, b, capture[b].id, capture[b].event.statement, p) && text == capture[p].event.query
  }

  /** What message j, with those before it, says of its frame. */
  predicate Tells(capture: seq<Message>, startTs: nat, j: nat, i: Info) {
    j < |capture| &&
    var m := capture[j];
    && Numbered(m.event) && i.index == |NumberedOf(capture, j + 1, m.id)|
    && i.ts == (if m.ts < startTs then 0 else m.ts - startTs)
    && match m.event
       case SimpleQuery(text) => i.text == text && i.bind == None
       case Parse(_, query, _) => i.text == query && i.bind == None
       case Bind(_, _, _, _) => i.bind == Some(j) && TextAt(capture, j, i.text)
       case Execute(target, _) =>
         i.bind.Some? && IsLastBind(capture, j, m.id, target, i.bind.value) && TextAt(capture, i.bind.value, i.text)
       case _ => false
  }

  lemma NumberedNext(capture: seq<Message>, k: nat, id: Id)
    requires k < |capture|
    ensures |NumberedOf(capture, k + 1, id)| ==
            |NumberedOf(capture, k, id)| + if capture[k].id == id && Numbered(capture[k].event) then 1 else 0
  {
    hide Numbered;
    var before, now := NumberedOf(capture, k, id), NumberedOf(capture, k + 1, id);
    if capture[k].id == id && Numbered(capture[k].event) {
      assert now == before + {k};
    } else {
      assert now == before;
    }
  }

  lemma FrameNext(v: View, m: Message, at: nat, startTs: nat)
    ensures Apply(v, m, at, startTs).frames == v.frames + if Numbered(m.event) then 1 else 0
  {
  }

  /** The frames are the client's numbered messages. */
  lemma {:induction false} FramesAre(capture: seq<Message>, k: nat, id: Id, startTs: nat)
    requires k <= |capture|
    ensures ViewAt(capture, k, id, startTs).frames == |NumberedOf(capture, k, id)|
  {
    hide Apply, Numbered;
    if k > 0 {
      hide NumberedOf;
      FramesAre(capture, k - 1, id, startTs);
      NumberedNext(capture, k - 1, id);
      FrameNext(ViewAt(capture, k - 1, id, startTs), capture[k - 1], k - 1, startTs);
    } else {
      assert NumberedOf(capture, 0, id) == {};
    }
  }

  /** A statement name stands for the query of its last parse. */
  lemma {:induction false} StatementIs(capture: seq<Message>, k: nat, id: Id, startTs: nat, name: Text) returns (p: nat)
    requires k <= |capture|
    ensures var names := ViewAt(capture, k, id, startTs).statements;
            if name in names then IsLastParse(capture, k, id, name, p) && names[name] == capture[p].event.query
            else forall q :: 0 <= q < k ==> !ParseOf(capture[q], id, name)
  {
    p := 0;
    if k > 0 {
      p := StatementIs(capture, k - 1, id, startTs, name);
      if ParseOf(capture[k - 1], id, name) {
        p := k - 1;
      }
    }
  }

  /** A portal stands for its last bind to a known statement. */
  lemma {:induction false} PortalIs(capture: seq<Message>, k: nat, id: Id, startTs: nat, portal: Text) returns (b: nat)
    requires k <= |capture|
    ensures var names := ViewAt(capture, k, id, startTs).portals;
            if portal in names then
              IsLastBind(capture, k, id, portal, b) && names[portal].1 == b && TextAt(capture, b, names[portal].0)
            else forall q :: 0 <= q < k ==> !BindOf(capture, q, id, portal)
  {
    b := 0;
    if k > 0 {
      hide TextAt;
      b := PortalIs(capture, k - 1, id, startTs, portal);
      var m := capture[k - 1];
      if m.id == id && m.event.Bind? && m.event.portal == portal {
        BindIs(capture, k - 1, startTs);
        if BindOf(capture, k - 1, id, portal) {
          b := k - 1;
        }
      }
    }
  }

  lemma BindIs(capture: seq<Message>, k: nat, startTs: nat)
    requires k < |capture| && capture[k].event.Bind?
    ensures var m := capture[k]; var names := ViewAt(capture, k, m.id, startTs).statements;
            && (BindOf(capture, k, m.id, m.event.portal) <==> m.event.statement in names)
            && (forall text :: TextAt(capture, k, text) <==> m.event.statement in names && text == names[m.event.statement])
  {
    hide ViewAt;
    var m := capture[k];
    var p := StatementIs(capture, k, m.id, startTs, m.event.statement);
  }

  lemma OnlyAdded(v: View, w: View, x: Option<Info>, i: Info)
    requires w.infos == v.infos + (if x.Some? then [x.value] else [])
    ensures w.infos == v.infos + [i] <==> x == Some(i)
  {
    if w.infos == v.infos + [i] {
      assert w.infos[|v.infos|] == i;
    }
  }

  /** The next message adds exactly the info that it tells. */
  lemma NextTells(capture: seq<Message>, k: nat, startTs: nat, i: Info)
    requires k < |capture|
    ensures var v := ViewAt(capture, k, capture[k].id, startTs);
            Tells(capture, startTs, k, i) <==> Apply(v, capture[k], k, startTs).infos == v.infos + [i]
  {
    hide ViewAt, IsLastBind, TextAt, BindOf, NumberedOf;
    var m := capture[k];
    var v := ViewAt(capture, k, m.id, startTs);
    var w := Apply(v, m, k, startTs);
    var next, ts := v.frames + 1, if m.ts < startTs then 0 else m.ts - startTs;
    FramesAre(capture, k, m.id, startTs);
    NumberedNext(capture, k, m.id);
    match m.event
    case SimpleQuery(text) => OnlyAdded(v, w, Some(Info(next, text, None, ts)), i);
    case Parse(_, query, _) => OnlyAdded(v, w, Some(Info(next, query, None, ts)), i);
    case Bind(_, statement, _, _) =>
      BindIs(capture, k, startTs);
      OnlyAdded(v, w, if statement in v.statements then Some(Info(next, v.statements[statement], Some(k), ts)) else None, i);
    case Execute(target, _) =>
      ExecuteIs(capture, k, m.id, target, startTs);
      OnlyAdded(v, w, if target in v.portals then Some(Info(next, v.portals[target].0, Some(v.portals[target].1), ts)) else None, i);
    case _ => OnlyAdded(v, w, None, i);
  }

  lemma ExecuteIs(capture: seq<Message>, k: nat, id: Id, portal: Text, startTs: nat)
    requires k <= |capture|
    ensures var names := ViewAt(capture, k, id, startTs).portals;
            forall b: nat, text :: IsLastBind(capture, k, id, portal, b) && TextAt(capture, b, text) <==>
                              portal in names && names[portal] == (text, b)
  {
    hide ViewAt, TextAt;
    var names := ViewAt(capture, k, id, startTs).portals;
    var b := PortalIs(capture, k, id, startTs, portal);
    forall c: nat, text
      ensures IsLastBind(capture, k, id, portal, c) && TextAt(capture, c, text) <==> portal in names && names[portal] == (text, c)
    {
      if IsLastBind(capture, k, id, portal, c) && TextAt(capture, c, text) {
        assert c == b;
        TextOnce(capture, b, text, names[portal].0);
      }
    }
  }

  lemma TextOnce(capture: seq<Message>, b: nat, s: Text, t: Text)
    requires b < |capture| && capture[b].event.Bind? && TextAt(capture, b, s) && TextAt(capture, b, t)
    ensures s == t
  {
  }

  /** A client's infos are what its messages tell, and nothing else. */
  lemma {:induction false} InfosAre(capture: seq<Message>, k: nat, id: Id, startTs: nat, i: Info)
    requires k <= |capture|
    ensures i in ViewAt(capture, k, id, startTs).infos <==>
            exists j :: 0 <= j < k && capture[j].id == id && Tells(capture, startTs, j, i)
  {
    hide Apply, Tells;
    if k > 0 {
      InfosAre(capture, k - 1, id, startTs, i);
      if capture[k - 1].id == id {
        NextTells(capture, k - 1, startTs, i);
        OneNext(ViewAt(capture, k - 1, id, startTs), capture[k - 1], k - 1, startTs);
      }
    }
  }

  lemma OneNext(v: View, m: Message, at: nat, startTs: nat)
    ensures var w := Apply(v, m, at, startTs);
            w.infos == v.infos || exists x :: w.infos == v.infos + [x]
  {
    var w := Apply(v, m, at, startTs);
    if |w.infos| > |v.infos| {
      assert w.infos == v.infos + [w.infos[|v.infos|]];
    }
  }

  function Find(infos: seq<Info>, index: nat, i: nat): Option<Info>
    requires i <= |infos|
    decreases |infos| - i
  {
    if i == |infos| then None
    else if infos[i].index == index then Some(infos[i])
    else Find(infos, index, i + 1)
  }

  lemma {:induction false} FindIs(infos: seq<Info>, index: nat, i: nat, k: nat)
    requires i <= k < |infos| && infos[k].index == index
    requires forall p, q :: 0 <= p < q < |infos| ==> infos[p].index < infos[q].index
    ensures Find(infos, index, i) == Some(infos[k])
    decreases |infos| - i
  {
    if i < k {
      FindIs(infos, index, i + 1, k);
    }
  }

  lemma {:induction false} FindNone(infos: seq<Info>, index: nat, i: nat)
    requires i <= |infos| && forall p :: i <= p < |infos| ==> infos[p].index != index
    ensures Find(infos, index, i) == None
    decreases |infos| - i
  {
    if i < |infos| {
      FindNone(infos, index, i + 1);
    }
  }

  /* ----- the joins ----- */

  datatype Joined = Joined(trace: Trace, info: Info)

  function Resolve(capture: seq<Message>, startTs: nat, t: Trace): Option<Info> {
    Find(ViewAt(capture, |capture|, t.id, startTs).infos, t.frameIndex, 0)
  }

  /** One row for every trace whose frame the capture explains. */
  function EagerJoin(capture: seq<Message>, startTs: nat, traces: seq<Trace>, n: nat): seq<Joined>
    requires n <= |traces|
  {
    if n == 0 then []
    else
      var t := traces[n - 1];
      var r := Resolve(capture, startTs, t);
      EagerJoin(capture, startTs, traces, n - 1) + (if r.Some? then [Joined(t, r.value)] else [])
  }

  /** The largest frame number, among the first n traces of a client, that the capture reaches. */
  function High(capture: seq<Message>, startTs: nat, traces: seq<Trace>, n: nat, id: Id): nat
    requires n <= |traces|
  {
    if n == 0 then 0
    else
      var h, t := High(capture, startTs, traces, n - 1, id), traces[n - 1];
      if t.id == id && t.frameIndex <= ViewAt(capture, |capture|, id, startTs).frames && h < t.frameIndex
      then t.frameIndex else h
  }

  /** The trace at n - 1 comes after a later frame of its client, which has been dropped. */
  predicate Late(capture: seq<Message>, startTs: nat, traces: seq<Trace>, n: nat)
    requires 0 < n <= |traces|
  {
    traces[n - 1].frameIndex < High(capture, startTs, traces, n - 1, traces[n - 1].id)
  }

  function LazyJoin(capture: seq<Message>, startTs: nat, traces: seq<Trace>, n: nat): seq<Joined>
    requires n <= |traces|
  {
    if n == 0 then []
    else
      var t := traces[n - 1];
      var r := Resolve(capture, startTs, t);
      LazyJoin(capture, startTs, traces, n - 1) +
      (if r.Some? && !Late(capture, startTs, traces, n) then [Joined(t, r.value)] else [])
  }

  /** The lazy join is the eager one exactly when no trace that could be explained is late. */
  lemma {:induction false} LazyIsEager(capture: seq<Message>, startTs: nat, traces: seq<Trace>, n: nat)
    requires n <= |traces|
    ensures |LazyJoin(capture, startTs, traces, n)| <= |EagerJoin(capture, startTs, traces, n)|
    ensures LazyJoin(capture, startTs, traces, n) == EagerJoin(capture, startTs, traces, n) <==>
            forall k :: 0 < k <= n && Late(capture, startTs, traces, k) ==>
              Resolve(capture, startTs, traces[k - 1]).None?
  {
    hide Late, Resolve;
    if n > 0 {
      LazyIsEager(capture, startTs, traces, n - 1);
      var l, e := LazyJoin(capture, startTs, traces, n - 1), EagerJoin(capture, startTs, traces, n - 1);
      var l', e' := LazyJoin(capture, startTs, traces, n), EagerJoin(capture, startTs, traces, n);
      var t := traces[n - 1];
      var r := Resolve(capture, startTs, t);
      if r.None? {
        assert l' == l + [] == l && e' == e + [] == e;
      } else if Late(capture, startTs, traces, n) {
        assert l' == l + [] == l && |e'| == |e| + 1;
      } else {
        var x := [Joined(t, r.value)];
        assert l' == l + x && e' == e + x;
        assert l'[..|l|] == l && e'[..|e|] == e;
      }
    }
  }

  lemma {:induction false} FindHit(infos: seq<Info>, index: nat, i: nat)
    requires i <= |infos|
    ensures var r := Find(infos, index, i); r.Some? ==> r.value in infos && r.value.index == index
    decreases |infos| - i
  {
    if i < |infos| {
      FindHit(infos, index, i + 1);
    }
  }

  /** A trace is explained by what a message of its client tells of its frame. */
  lemma ResolveIs(capture: seq<Message>, startTs: nat, t: Trace, i: Info)
    ensures Resolve(capture, startTs, t) == Some(i) <==>
            i.index == t.frameIndex &&
            exists j :: 0 <= j < |capture| && capture[j].id == t.id && Tells(capture, startTs, j, i)
  {
    hide ViewAt, Tells;
    var v := ViewAt(capture, |capture|, t.id, startTs);
    ViewOrdered(capture, |capture|, t.id, startTs);
    InfosAre(capture, |capture|, t.id, startTs, i);
    FindHit(v.infos, t.frameIndex, 0);
    if i in v.infos && i.index == t.frameIndex {
      var k :| 0 <= k < |v.infos| && v.infos[k] == i;
      FindIs(v.infos, t.frameIndex, 0, k);
    }
  }

  lemma {:induction false} HighCovers(capture: seq<Message>, startTs: nat, traces: seq<Trace>, n: nat, k: nat)
    requires k < n <= |traces|
    requires traces[k].frameIndex <= ViewAt(capture, |capture|, traces[k].id, startTs).frames
    ensures traces[k].frameIndex <= High(capture, startTs, traces, n, traces[k].id)
    decreases n
  {
    hide ViewAt;
    if k < n - 1 {
      HighCovers(capture, startTs, traces, n - 1, k);
    }
  }

  lemma {:induction false} HighReached(capture: seq<Message>, startTs: nat, traces: seq<Trace>, n: nat, id: Id)
    requires n <= |traces|
    ensures var h := High(capture, startTs, traces, n, id);
            h == 0 || exists i :: 0 <= i < n && traces[i].id == id && traces[i].frameIndex == h
                                  && h <= ViewAt(capture, |capture|, id, startTs).frames
  {
    hide ViewAt;
    if n > 0 {
      HighReached(capture, startTs, traces, n - 1, id);
    }
  }

  /** Trace k of the client comes before and asks for a frame that is later than f, but within
      the client's numbered messages. */
  predicate Overtakes(capture: seq<Message>, traces: seq<Trace>, k: nat, id: Id, f: nat)
    requires k < |traces|
  {
    traces[k].id == id && f < traces[k].frameIndex <= |NumberedOf(capture, |capture|, id)|
  }

  lemma LateMeans(capture: seq<Message>, startTs: nat, traces: seq<Trace>, n: nat)
    requires 0 < n <= |traces|
    ensures var t := traces[n - 1];
            Late(capture, startTs, traces, n) <==>
            exists k :: 0 <= k < n - 1 && Overtakes(capture, traces, k, t.id, t.frameIndex)
  {
    hide ViewAt, NumberedOf, High;
    var t := traces[n - 1];
    FramesAre(capture, |capture|, t.id, startTs);
    HighReached(capture, startTs, traces, n - 1, t.id);
    forall k | 0 <= k < n - 1 && Overtakes(capture, traces, k, t.id, t.frameIndex)
      ensures Late(capture, startTs, traces, n)
    {
      HighCovers(capture, startTs, traces, n - 1, k);
    }
    if Late(capture, startTs, traces, n) {
      var k :| 0 <= k < n - 1 && traces[k].id == t.id && traces[k].frameIndex == High(capture, startTs, traces, n - 1, t.id);
      assert Overtakes(capture, traces, k, t.id, t.frameIndex);
    }
  }

  /** When a trace gets a row, and of what, said of the capture and the traces alone. */
  lemma RowMeans(capture: seq<Message>, startTs: nat, traces: seq<Trace>, n: nat, i: Info)
    requires 0 < n <= |traces|
    ensures var t := traces[n - 1];
            LazyJoin(capture, startTs, traces, n) == LazyJoin(capture, startTs, traces, n - 1) + [Joined(t, i)] <==>
              && i.index == t.frameIndex
              && (exists j :: 0 <= j < |capture| && capture[j].id == t.id && Tells(capture, startTs, j, i))
              && !(exists k :: 0 <= k < n - 1 && Overtakes(capture, traces, k, t.id, t.frameIndex))
  {
    hide Late, Resolve, Tells, Overtakes;
    var t := traces[n - 1];
    ResolveIs(capture, startTs, t, i);
    LateMeans(capture, startTs, traces, n);
    var before, now := LazyJoin(capture, startTs, traces, n - 1), LazyJoin(capture, startTs, traces, n);
    if now == before + [Joined(t, i)] {
      assert now[|before|] == Joined(t, i);
    }
  }

  predicate InOrder(traces: seq<Trace>) {
    forall i, j :: 0 <= i < j < |traces| && traces[i].id == traces[j].id ==>
      traces[i].frameIndex <= traces[j].frameIndex
  }

  lemma {:induction false} HighIsOne(capture: seq<Message>, startTs: nat, traces: seq<Trace>, n: nat, id: Id)
    requires n <= |traces|
    ensures var h := High(capture, startTs, traces, n, id);
            h == 0 || exists i :: 0 <= i < n && traces[i].id == id && traces[i].frameIndex == h
  {
    if n > 0 {
      HighIsOne(capture, startTs, traces, n - 1, id);
    }
  }

  /** Traces that come in the order of their client's frames get every row there is. */
  lemma InOrderIsEager(capture: seq<Message>, startTs: nat, traces: seq<Trace>)
    requires InOrder(traces)
    ensures LazyJoin(capture, startTs, traces, |traces|) == EagerJoin(capture, startTs, traces, |traces|)
  {
    hide Resolve, LazyJoin, EagerJoin;
    forall k | 0 < k <= |traces|
      ensures !Late(capture, startTs, traces, k)
    {
      HighIsOne(capture, startTs, traces, k - 1, traces[k - 1].id);
    }
    LazyIsEager(capture, startTs, traces, |traces|);
  }

  /** Out of order, a row is lost: frame 1 of a client asked for after its frame 2. */
  lemma OutOfOrderLoses()
    ensures var q := Message(7, 0, SimpleQuery([65]));
            var traces := [Trace(7, 2, 0, 0), Trace(7, 1, 0, 0)];
            |LazyJoin([q, q], 0, traces, 2)| == 1 && |EagerJoin([q, q], 0, traces, 2)| == 2
  {
    var q := Message(7, 0, SimpleQuery([65]));
    var c, traces := [q, q], [Trace(7, 2, 0, 0), Trace(7, 1, 0, 0)];
    var first, second := Info(1, [65], None, 0), Info(2, [65], None, 0);
    var v := View(2, [first, second], map[], map[]);
    assert ViewAt(c, 2, 7, 0) == v by {
      assert ViewAt(c, 0, 7, 0) == NOTHING;
      assert ViewAt(c, 1, 7, 0) == Apply(NOTHING, q, 0, 0) == View(1, [first], map[], map[]);
      assert ViewAt(c, 2, 7, 0) == Apply(View(1, [first], map[], map[]), q, 1, 0);
    }
    hide ViewAt;
    FindIs(v.infos, 2, 0, 1);
    FindIs(v.infos, 1, 0, 0);
    hide Find;
    assert Resolve(c, 0, traces[0]) == Some(second) && Resolve(c, 0, traces[1]) == Some(first);
    hide Resolve;
    assert High(c, 0, traces, 0, 7) == 0;
    assert High(c, 0, traces, 1, 7) == 2;
    assert !Late(c, 0, traces, 1) && Late(c, 0, traces, 2);
    hide High, Late;
    assert LazyJoin(c, 0, traces, 0) == [] && EagerJoin(c, 0, traces, 0) == [];
    assert |LazyJoin(c, 0, traces, 1)| == 1 && |EagerJoin(c, 0, traces, 1)| == 1;
  }

  /* ----- the lazy reading ----- */

  datatype QueryInfo = QueryInfo(index: nat, offset: nat, paramsOffset: nat, ts: nat)

  datatype Client = Client(
    frameIndex: nat, queries: seq<QueryInfo>, statements: map<Text, nat>, portals: map<Text, (nat, nat)>)

  const NEW_CLIENT := Client(0, [], map[], map[])

  function ClientOf(clients: map<Id, Client>, id: Id): Client {
    if id in clients then clients[id] else NEW_CLIENT
  }

  /** Where texts and the parameters of bind messages have been stored. */
  datatype Places = Places(texts: map<Text, nat>, params: map<nat, nat>)

  predicate Grown(a: Places, b: Places) {
    && (forall t :: t in a.texts ==> t in b.texts && b.texts[t] == a.texts[t])
    && (forall p :: p in a.params ==> p in b.params && b.params[p] == a.params[p])
  }

  predicate SameParams(bind: Option<nat>, offset: nat, p: Places) {
    match bind
    case None => offset == NO_PARAMS
    case Some(at) => at in p.params && p.params[at] == offset
  }

  predicate SameInfo(q: QueryInfo, i: Info, p: Places) {
    && q.index == i.index && q.ts == i.ts
    && i.text in p.texts && q.offset == p.texts[i.text] && SameParams(i.bind, q.paramsOffset, p)
  }

  /** The names of a client stand for the offsets of what the view binds them to. */
  predicate SameNames(statements: map<Text, nat>, portals: map<Text, (nat, nat)>,
                      texts: map<Text, Text>, binds: map<Text, (Text, nat)>, p: Places)
  {
    && statements.Keys == texts.Keys && portals.Keys == binds.Keys
    && (forall n :: n in texts ==> texts[n] in p.texts && statements[n] == p.texts[texts[n]])
    && (forall n :: n in binds ==>
          && binds[n].0 in p.texts && portals[n].0 == p.texts[binds[n].0]
          && SameParams(Some(binds[n].1), portals[n].1, p))
  }

  /** The queue holds the view's infos but for those before the frame `high`. */
  predicate SameQueue(queries: seq<QueryInfo>, infos: seq<Info>, high: nat, p: Places) {
    && |queries| <= |infos|
    && (forall j :: |infos| - |queries| <= j < |infos| ==> SameInfo(queries[j - (|infos| - |queries|)], infos[j], p))
    && (forall j :: 0 <= j < |infos| ==> (infos[j].index < high <==> j < |infos| - |queries|))
  }

  predicate Keeps(c: Client, v: View, high: nat, p: Places) {
    && c.frameIndex == v.frames && high <= v.frames
    && SameNames(c.statements, c.portals, v.statements, v.portals, p) && SameQueue(c.queries, v.infos, high, p)
  }

  lemma KeepsMore(c: Client, v: View, high: nat, p: Places, p': Places)
    requires Keeps(c, v, high, p) && Grown(p, p')
    ensures Keeps(c, v, high, p')
  {
    var d := |v.infos| - |c.queries|;
    assert forall j :: d <= j < |v.infos| ==> SameInfo(c.queries[j - d], v.infos[j], p');
  }

  /** A frame that names a statement is put at the end of the queue. */
  lemma QueuePush(queries: seq<QueryInfo>, infos: seq<Info>, high: nat, q: QueryInfo, i: Info, p: Places)
    requires SameQueue(queries, infos, high, p) && SameInfo(q, i, p) && high <= i.index
    ensures SameQueue(queries + [q], infos + [i], high, p)
  {
    hide SameInfo;
    var d := |infos| - |queries|;
    forall j | d <= j < |infos| + 1
      ensures SameInfo((queries + [q])[j - d], (infos + [i])[j], p)
    {
      if j < |infos| {
        assert SameInfo(queries[j - d], infos[j], p);
      }
    }
  }

  /** Dropping the front is right when its frame is before the one asked for. */
  lemma QueuePop(queries: seq<QueryInfo>, infos: seq<Info>, high: nat, f: nat, p: Places)
    requires SameQueue(queries, infos, high, p) && |queries| > 0 && queries[0].index < f
    requires forall i, j :: 0 <= i < j < |infos| ==> infos[i].index < infos[j].index
    ensures SameQueue(queries[1..], infos, queries[0].index + 1, p) && high <= queries[0].index + 1 <= f
  {
    var d := |infos| - |queries|;
    assert SameInfo(queries[0], infos[d], p);
    forall j | d + 1 <= j < |infos|
      ensures SameInfo(queries[1..][j - (d + 1)], infos[j], p)
    {
      assert SameInfo(queries[j - d], infos[j], p);
    }
  }

  /** What the front of the queue says once everything before frame f has been dropped: it is
      frame f exactly when the whole capture explains f and nothing after f was asked before. */
  lemma FrontDecides(queries: seq<QueryInfo>, v: View, w: View, high: nat, popped: nat, f: nat, p: Places)
    requires Ordered(v) && Ordered(w) && v.infos <= w.infos && f <= v.frames
    requires forall i :: |v.infos| <= i < |w.infos| ==> v.frames < w.infos[i].index
    requires SameQueue(queries, v.infos, popped, p) && high <= popped && (popped == high || popped <= f)
    requires |queries| > 0 ==> f <= queries[0].index
    ensures SameQueue(queries, v.infos, if high < f then f else high, p)
    ensures |queries| > 0 && queries[0].index == f <==> Find(w.infos, f, 0).Some? && high <= f
    ensures |queries| > 0 && queries[0].index == f ==> SameInfo(queries[0], Find(w.infos, f, 0).value, p)
  {
    var d := |v.infos| - |queries|;
    if |queries| > 0 {
      assert SameInfo(queries[0], v.infos[d], p);
    }
    assert forall j :: d < j < |v.infos| ==> v.infos[d].index < v.infos[j].index;
    if |queries| > 0 && queries[0].index == f {
      assert w.infos[d] == v.infos[d];
      FindIs(w.infos, f, 0, d);
    } else if high <= f {
      forall i | 0 <= i < |w.infos|
        ensures w.infos[i].index != f
      {
        if i < |v.infos| {
          assert w.infos[i] == v.infos[i];
        }
      }
      FindNone(w.infos, f, 0);
    }
  }

  /** A client's frame that names a statement. */
  lemma KeepsInfo(c: Client, v: View, high: nat, p: Places, q: QueryInfo, i: Info)
    requires Keeps(c, v, high, p) && SameInfo(q, i, p) && i.index == v.frames + 1
    ensures Keeps(c.(frameIndex := c.frameIndex + 1, queries := c.queries + [q]),
                  v.(frames := v.frames + 1, infos := v.infos + [i]), high, p)
  {
    hide SameInfo, SameQueue;
    QueuePush(c.queries, v.infos, high, q, i, p);
  }

  lemma KeepsStatement(c: Client, v: View, high: nat, p: Places, name: Text, text: Text)
    requires Keeps(c, v, high, p) && text in p.texts
    ensures Keeps(c.(statements := c.statements[name := p.texts[text]]), v.(statements := v.statements[name := text]), high, p)
  {
    hide SameQueue;
  }

  lemma KeepsPortal(c: Client, v: View, high: nat, p: Places, name: Text, text: Text, at: nat)
    requires Keeps(c, v, high, p) && text in p.texts && at in p.params
    ensures Keeps(c.(portals := c.portals[name := (p.texts[text], p.params[at])]), v.(portals := v.portals[name := (text, at)]), high, p)
  {
    hide SameQueue;
  }

  lemma SameKeys(c: Client, v: View, high: nat, p: Places)
    requires Keeps(c, v, high, p)
    ensures c.statements.Keys == v.statements.Keys && c.portals.Keys == v.portals.Keys
    ensures Keeps(c.(frameIndex := c.frameIndex + 1), v.(frames := v.frames + 1), high, p)
    ensures Grown(p, p)
  {
  }

  /** Later bind messages have later places. */
  predicate Spread(params: map<nat, nat>, read: nat, size: nat) {
    && (forall a :: a in params ==> a < read && params[a] < size)
    && (forall a, b :: a in params && b in params && a < b ==> params[a] < params[b])
  }

  function Max(a: nat, b: nat): nat { if a < b then b else a }

  function RowOf(t: Trace, q: QueryInfo): Row {
    Row(q.offset, q.paramsOffset, q.ts, t.id, t.duration, t.eventType)
  }

  /** The row says of the trace what the info says, with its text and parameters in the store. */
  predicate RowIs(row: Row, j: Joined, p: Places) {
    && row.ts == j.info.ts && row.client == j.trace.id
    && row.duration == j.trace.duration && row.eventType == j.trace.eventType
    && j.info.text in p.texts && row.queryOffset == p.texts[j.info.text]
    && SameParams(j.info.bind, row.paramsOffset, p)
  }

  predicate RowsAre(rows: seq<Row>, js: seq<Joined>, p: Places) {
    |rows| == |js| && forall r :: 0 <= r < |rows| ==> RowIs(rows[r], js[r], p)
  }

  lemma RowsMore(rows: seq<Row>, js: seq<Joined>, p: Places, p': Places)
    requires RowsAre(rows, js, p) && Grown(p, p')
    ensures RowsAre(rows, js, p')
  {
    forall r | 0 <= r < |rows|
      ensures RowIs(rows[r], js[r], p')
    {
      assert RowIs(rows[r], js[r], p);
    }
  }

  /** The viewer reads at a row's query offset the text of the frame the row is about. */
  lemma RowShowsText(store: seq<byte>, types: map<Text, seq<nat>>, row: Row, j: Joined, p: Places)
    requires Listed(store, p.texts, types) && RowIs(row, j, p) && Fits(j.info.text, types[j.info.text])
    ensures FetchOne(store, row.queryOffset) == Bytes(QueryEntry(j.info.text, types[j.info.text]))
  {
    hide QueryEntry, FetchOne, Fits;
    FetchEntry(store, row.queryOffset, j.info.text, types[j.info.text]);
  }

  ghost predicate AllKeep(clients: map<Id, Client>, capture: seq<Message>, read: nat, startTs: nat,
                          traces: seq<Trace>, n: nat, p: Places)
    requires read <= |capture| && n <= |traces|
  {
    forall id :: Keeps(ClientOf(clients, id), ViewAt(capture, read, id, startTs),
                       High(capture, startTs, traces, n, id), p)
  }

  /** The next message belongs to one client. */
  lemma AllKeepRead(clients: map<Id, Client>, capture: seq<Message>, read: nat, startTs: nat,
                    traces: seq<Trace>, n: nat, p: Places, p': Places, c': Client)
    requires read < |capture| && n <= |traces| && Grown(p, p')
    requires AllKeep(clients, capture, read, startTs, traces, n, p)
    requires var m := capture[read];
             Keeps(c', Apply(ViewAt(capture, read, m.id, startTs), m, read, startTs),
                   High(capture, startTs, traces, n, m.id), p')
    ensures AllKeep(clients[capture[read].id := c'], capture, read + 1, startTs, traces, n, p')
  {
    hide Keeps, Apply, Grown, High;
    var clients' := clients[capture[read].id := c'];
    forall id
      ensures Keeps(ClientOf(clients', id), ViewAt(capture, read + 1, id, startTs),
                    High(capture, startTs, traces, n, id), p')
    {
      assert Keeps(ClientOf(clients, id), ViewAt(capture, read, id, startTs), High(capture, startTs, traces, n, id), p);
      if id != capture[read].id {
        KeepsMore(ClientOf(clients, id), ViewAt(capture, read, id, startTs), High(capture, startTs, traces, n, id), p, p');
      }
    }
  }

  /** The next trace raises the mark of one client, or of none. */
  lemma AllKeepTrace(clients: map<Id, Client>, capture: seq<Message>, read: nat, startTs: nat,
                     traces: seq<Trace>, n: nat, p: Places, c': Client)
    requires read <= |capture| && n < |traces|
    requires AllKeep(clients, capture, read, startTs, traces, n, p)
    requires var t := traces[n];
             Keeps(c', ViewAt(capture, read, t.id, startTs), High(capture, startTs, traces, n + 1, t.id), p)
    ensures AllKeep(clients[traces[n].id := c'], capture, read, startTs, traces, n + 1, p)
  {
    hide Keeps, ViewAt;
    var clients' := clients[traces[n].id := c'];
    forall id
      ensures Keeps(ClientOf(clients', id), ViewAt(capture, read, id, startTs),
                    High(capture, startTs, traces, n + 1, id), p)
    {
      assert Keeps(ClientOf(clients, id), ViewAt(capture, read, id, startTs), High(capture, startTs, traces, n, id), p);
    }
  }

  /** A frame beyond the end of the capture has no row and raises no mark. */
  lemma Beyond(clients: map<Id, Client>, capture: seq<Message>, startTs: nat, traces: seq<Trace>, n: nat, p: Places)
    requires n < |traces| && ViewAt(capture, |capture|, traces[n].id, startTs).frames < traces[n].frameIndex
    requires AllKeep(clients, capture, |capture|, startTs, traces, n, p)
    ensures AllKeep(clients, capture, |capture|, startTs, traces, n + 1, p)
    ensures LazyJoin(capture, startTs, traces, n + 1) == LazyJoin(capture, startTs, traces, n)
  {
    hide Keeps, ViewAt;
    var t := traces[n];
    forall id
      ensures Keeps(ClientOf(clients, id), ViewAt(capture, |capture|, id, startTs),
                    High(capture, startTs, traces, n + 1, id), p)
    {
      assert Keeps(ClientOf(clients, id), ViewAt(capture, |capture|, id, startTs),
                   High(capture, startTs, traces, n, id), p);
    }
    ViewOrdered(capture, |capture|, t.id, startTs);
    FindNone(ViewAt(capture, |capture|, t.id, startTs).infos, t.frameIndex, 0);
  }

  lemma FramesOf(clients: map<Id, Client>, capture: seq<Message>, read: nat, startTs: nat,
                 traces: seq<Trace>, n: nat, p: Places, id: Id)
    requires read <= |capture| && n <= |traces| && AllKeep(clients, capture, read, startTs, traces, n, p)
    ensures ClientOf(clients, id).frameIndex == ViewAt(capture, read, id, startTs).frames
  {
    hide SameNames, SameQueue, ViewAt, High;
  }

  lemma AllKeepFresh(capture: seq<Message>, startTs: nat, traces: seq<Trace>, p: Places)
    ensures AllKeep(map[], capture, 0, startTs, traces, 0, p)
  {
  }

  lemma AllKeepEntry(clients: map<Id, Client>, capture: seq<Message>, read: nat, startTs: nat,
                     traces: seq<Trace>, n: nat, p: Places, id: Id)
    requires read <= |capture| && n <= |traces| && AllKeep(clients, capture, read, startTs, traces, n, p)
    ensures AllKeep(clients[id := ClientOf(clients, id)], capture, read, startTs, traces, n, p)
  {
    hide Keeps, ViewAt, High;
    forall other
      ensures Keeps(ClientOf(clients[id := ClientOf(clients, id)], other), ViewAt(capture, read, other, startTs),
                    High(capture, startTs, traces, n, other), p)
    {
      assert Keeps(ClientOf(clients, other), ViewAt(capture, read, other, startTs),
                   High(capture, startTs, traces, n, other), p);
    }
  }

  /* ----- what is stored beside the rows ----- */

  /** The text a message brings, and its parameter types. */
  function Brought(e: Event): Option<(Text, seq<nat>)> {
    match e
    case SimpleQuery(text) => Some((text, []))
    case Parse(_, query, types) => Some((query, types))
    case _ => None
  }

  predicate Brings(m: Message, text: Text) {
    Brought(m.event).Some? && Brought(m.event).value.0 == text
  }

  function TypesNext(types: map<Text, seq<nat>>, m: Message): map<Text, seq<nat>> {
    match Brought(m.event)
    case None => types
    case Some((text, ts)) => if text in types then types else types[text := ts]
  }

  function TypesUpto(capture: seq<Message>, n: nat): map<Text, seq<nat>>
    requires n <= |capture|
  {
    if n == 0 then map[] else TypesNext(TypesUpto(capture, n - 1), capture[n - 1])
  }

  /** Message k is the first that brings the text. */
  predicate IsFirstToBring(capture: seq<Message>, k: nat, text: Text)
    requires k < |capture|
  {
    Brings(capture[k], text) && forall j :: 0 <= j < k ==> !Brings(capture[j], text)
  }

  /** Just the texts of the messages read are stored, each with the types it came with first. */
  lemma {:induction false} TypesAreFirst(capture: seq<Message>, n: nat, text: Text)
    requires n <= |capture|
    ensures var types := TypesUpto(capture, n);
            if text in types then
              exists k :: 0 <= k < n && IsFirstToBring(capture, k, text) && Brought(capture[k].event) == Some((text, types[text]))
            else forall k :: 0 <= k < n ==> !Brings(capture[k], text)
  {
    if n > 0 {
      TypesAreFirst(capture, n - 1, text);
      var types, before := TypesUpto(capture, n), TypesUpto(capture, n - 1);
      if text in types && text !in before {
        assert IsFirstToBring(capture, n - 1, text);
      }
    }
  }

  /** The message is a bind of a statement its client has parsed. */
  predicate Binds(capture: seq<Message>, k: nat, startTs: nat)
    requires k < |capture|
  {
    capture[k].event.Bind? && capture[k].event.statement in ViewAt(capture, k, capture[k].id, startTs).statements
  }

  function SizeOf(e: Event): nat {
    if e.Bind? then ParamsSize(e.params, e.formats) else 0
  }

  /** Where the parameters of the first n messages end. */
  function ParamsEnd(capture: seq<Message>, n: nat, startTs: nat): nat
    requires n <= |capture|
  {
    if n == 0 then 0
    else ParamsEnd(capture, n - 1, startTs) + (if Binds(capture, n - 1, startTs) then SizeOf(capture[n - 1].event) else 0)
  }

  /** Each bind's parameters begin where those before it end. */
  ghost predicate Placed(params: map<nat, nat>, capture: seq<Message>, startTs: nat) {
    forall at :: at in params ==> at < |capture| && params[at] == ParamsEnd(capture, at, startTs)
  }

  datatype Outcome = Done | CaptureError

  class Analyzer {
    const capture: seq<Message>
    const startTs: nat
    /** The capture does not end cleanly: reading past its last message is an error. */
    const broken: bool
    const writer: StorageWriter
    var read: nat
    var captureEof: bool
    var clients: map<Id, Client>
    ghost var params: map<nat, nat>

    ghost function Stored(): Places
      reads this, writer
    {
      Places(writer.queryMap, params)
    }

    ghost predicate Sound()
      reads this, writer
    {
      && read <= |capture| && (captureEof ==> read == |capture| && !broken)
      && writer.Valid() && Spread(params, read, writer.paramsOffset)
    }

    /** The store has what the messages read have brought. */
    ghost predicate Filed()
      requires read <= |capture|
      reads this, writer
    {
      && writer.types == TypesUpto(capture, read) && writer.paramsOffset == ParamsEnd(capture, read, startTs)
      && Placed(params, capture, startTs)
    }

    /** The first n traces have been dealt with. */
    ghost predicate Upto(traces: seq<Trace>, n: nat)
      requires n <= |traces|
      reads this, writer
    {
      && Sound() && Filed() && AllKeep(clients, capture, read, startTs, traces, n, Stored())
      && RowsAre(writer.traces, LazyJoin(capture, startTs, traces, n), Stored())
    }

    constructor (capture: seq<Message>, startTs: nat, broken: bool, chunkSecs: Seconds)
      ensures Sound() && Filed() && fresh(writer) && read == 0 && clients == map[] && writer.traces == []
      ensures this.capture == capture && this.startTs == startTs && this.broken == broken
    {
      this.capture, this.startTs, this.broken := capture, startTs, broken;
      writer := new StorageWriter(chunkSecs);
      read, captureEof, clients, params := 0, false, map[], map[];
    }

    /** A simple query or, with a name, a parse. */
    method OnText(c: Client, name: Option<Text>, text: Text, types: seq<nat>, ts: nat, ghost v: View, ghost high: nat)
      returns (c': Client)
      requires Sound() && Keeps(c, v, high, Stored())
      modifies writer`queries, writer`queryOffset, writer`queryMap, writer`types
      ensures Sound() && Grown(old(Stored()), Stored())
      ensures var w := v.(frames := v.frames + 1, infos := v.infos + [Info(v.frames + 1, text, None, ts)]);
              Keeps(c', if name.Some? then w.(statements := w.statements[name.value := text]) else w, high, Stored())
      ensures writer.types == if text in old(writer.types) then old(writer.types) else old(writer.types)[text := types]
    {
      hide SameNames, SameQueue, writer.Valid;
      var offset := writer.MapQuery(text, types);
      KeepsMore(c, v, high, old(Stored()), Stored());
      var q := QueryInfo(c.frameIndex + 1, offset, NO_PARAMS, ts);
      ghost var i := Info(v.frames + 1, text, None, ts);
      KeepsInfo(c, v, high, Stored(), q, i);
      c' := c.(frameIndex := c.frameIndex + 1, queries := c.queries + [q]);
      if name.Some? {
        ghost var w := v.(frames := v.frames + 1, infos := v.infos + [i]);
        KeepsStatement(c', w, high, Stored(), name.value, text);
        c' := c'.(statements := c'.statements[name.value := offset]);
      }
    }

    method OnBind(c: Client, m: Message, ts: nat, ghost v: View, ghost high: nat) returns (c': Client)
      requires Sound() && Keeps(c, v, high, Stored()) && m.event.Bind? && m.event.statement in c.statements
      modifies this`params, writer`paramsOffset
      ensures writer.Valid() && Spread(params, read + 1, writer.paramsOffset) && Grown(old(Stored()), Stored())
      ensures params == old(params)[read := old(writer.paramsOffset)]
      ensures writer.paramsOffset == old(writer.paramsOffset) + SizeOf(m.event)
      ensures m.event.statement in v.statements
      ensures var text := v.statements[m.event.statement];
              Keeps(c', v.(frames := v.frames + 1, infos := v.infos + [Info(v.frames + 1, text, Some(read), ts)],
                           portals := v.portals[m.event.portal := (text, read)]), high, Stored())
    {
      hide SameQueue, writer.Valid;
      var queryOffset := c.statements[m.event.statement];
      ghost var text := v.statements[m.event.statement];
      var paramsOffset := writer.WriteParams(m.event.params, m.event.formats);
      params := params[read := paramsOffset];
      KeepsMore(c, v, high, old(Stored()), Stored());
      KeepsPortal(c, v, high, Stored(), m.event.portal, text, read);
      var d := c.(portals := c.portals[m.event.portal := (queryOffset, paramsOffset)]);
      ghost var w := v.(portals := v.portals[m.event.portal := (text, read)]);
      var q := QueryInfo(c.frameIndex + 1, queryOffset, paramsOffset, ts);
      KeepsInfo(d, w, high, Stored(), q, Info(v.frames + 1, text, Some(read), ts));
      c' := d.(frameIndex := d.frameIndex + 1, queries := d.queries + [q]);
    }

    static method OnExecute(c: Client, target: Text, ts: nat, ghost v: View, ghost high: nat, ghost p: Places)
      returns (c': Client)
      requires Keeps(c, v, high, p) && target in c.portals
      ensures target in v.portals
      ensures var (text, bind) := v.portals[target];
              Keeps(c', v.(frames := v.frames + 1, infos := v.infos + [Info(v.frames + 1, text, Some(bind), ts)]), high, p)
    {
      hide SameQueue;
      var (queryOffset, paramsOffset) := c.portals[target];
      var q := QueryInfo(c.frameIndex + 1, queryOffset, paramsOffset, ts);
      KeepsInfo(c, v, high, p, q, Info(v.frames + 1, v.portals[target].0, Some(v.portals[target].1), ts));
      c' := c.(frameIndex := c.frameIndex + 1, queries := c.queries + [q]);
    }

    /** The effect of one captured message on its client and the store; `v` is what the
        capture so far says of the client. */
    method OnCapture(c: Client, m: Message, ghost v: View, ghost high: nat) returns (c': Client)
      requires Sound() && read < |capture| && Keeps(c, v, high, Stored())
      modifies this`params, writer`queries, writer`queryOffset, writer`queryMap, writer`types, writer`paramsOffset
      ensures writer.Valid() && Spread(params, read + 1, writer.paramsOffset)
      ensures Grown(old(Stored()), Stored()) && Keeps(c', Apply(v, m, read, startTs), high, Stored())
      ensures writer.types == TypesNext(old(writer.types), m)
      ensures var binds := m.event.Bind? && m.event.statement in v.statements;
              && writer.paramsOffset == old(writer.paramsOffset) + (if binds then SizeOf(m.event) else 0)
              && params == if binds then old(params)[read := old(writer.paramsOffset)] else old(params)
    {
      hide Keeps, Grown, writer.Valid;
      SameKeys(c, v, high, Stored());
      var ts := if m.ts < startTs then 0 else m.ts - startTs;
      match m.event {
        case SimpleQuery(text) => c' := OnText(c, None, text, [], ts, v, high);
        case Parse(name, query, types) => c' := OnText(c, Some(name), query, types, ts, v, high);
        case Bind(_, statement, _, _) =>
          if statement in c.statements {
            c' := OnBind(c, m, ts, v, high);
          } else {
            c' := c.(frameIndex := c.frameIndex + 1);
          }
        case Execute(target, _) =>
          if target in c.portals {
            c' := OnExecute(c, target, ts, v, high, Stored());
          } else {
            c' := c.(frameIndex := c.frameIndex + 1);
          }
        case _ => c' := c;
      }
    }

    /** Writes the row of a trace whose frame has been read, if there is one; `w` is what the
        whole capture says of the client. */
    method OnTrace(c: Client, t: Trace, ghost v: View, ghost w: View, ghost high: nat) returns (c': Client)
      requires writer.Valid() && Keeps(c, v, high, Stored()) && t.frameIndex <= v.frames
      requires Ordered(v) && Ordered(w) && v.infos <= w.infos
      requires forall i :: |v.infos| <= i < |w.infos| ==> v.frames < w.infos[i].index
      modifies writer`traces, writer`chunks, writer`traceRowCount
      ensures writer.Valid() && Keeps(c', v, Max(high, t.frameIndex), Stored())
      ensures var r := Find(w.infos, t.frameIndex, 0);
              if r.Some? && high <= t.frameIndex
              then |c'.queries| > 0 && writer.traces == old(writer.traces) + [RowOf(t, c'.queries[0])]
                   && SameInfo(c'.queries[0], r.value, Stored())
              else writer.traces == old(writer.traces)
    {
      hide SameInfo, SameNames, writer.Valid, Find;
      c' := c;
      ghost var popped: nat := high;
      while |c'.queries| > 0 && c'.queries[0].index < t.frameIndex
        invariant c' == c.(queries := c'.queries) && SameQueue(c'.queries, v.infos, popped, Stored())
        invariant high <= popped && (popped == high || popped <= t.frameIndex)
        invariant writer.Valid() && writer.traces == old(writer.traces)
        decreases |c'.queries|
      {
        hide SameQueue;
        QueuePop(c'.queries, v.infos, popped, t.frameIndex, Stored());
        popped := c'.queries[0].index + 1;
        c' := c'.(queries := c'.queries[1..]);
      }
      FrontDecides(c'.queries, v, w, high, popped, t.frameIndex, Stored());
      if |c'.queries| > 0 && c'.queries[0].index == t.frameIndex {
        writer.WriteTrace(RowOf(t, c'.queries[0]));
      }
    }

    /** Reads one message. */
    method ReadEvent(ghost traces: seq<Trace>, ghost n: nat) returns (id: Id)
      requires n <= |traces| && Upto(traces, n) && read < |capture|
      modifies this`params, this`clients, this`read,
               writer`queries, writer`queryOffset, writer`queryMap, writer`types, writer`paramsOffset
      ensures read == old(read) + 1 && id == capture[old(read)].id && id in clients
      ensures Upto(traces, n)
      ensures forall other :: other in old(clients) && other != id ==> other in clients && clients[other] == old(clients)[other]
    {
      hide Keeps, LazyJoin, RowsAre, Apply, ViewAt, High, writer.Valid, Grown;
      var m := capture[read];
      id := m.id;
      var c := ClientOf(clients, id);
      var c' := OnCapture(c, m, ViewAt(capture, read, id, startTs), High(capture, startTs, traces, n, id));
      AllKeepRead(clients, capture, read, startTs, traces, n, old(Stored()), Stored(), c');
      RowsMore(writer.traces, LazyJoin(capture, startTs, traces, n), old(Stored()), Stored());
      clients := clients[id := c'];
      read := read + 1;
    }

    /** Handles a trace whose frame has been read. */
    method Answer(traces: seq<Trace>, n: nat)
      requires n < |traces| && Upto(traces, n) && traces[n].id in clients
      requires traces[n].frameIndex <= clients[traces[n].id].frameIndex
      modifies this`clients, writer`traces, writer`chunks, writer`traceRowCount
      ensures Upto(traces, n + 1)
    {
      hide Apply, ViewAt, writer.Valid, Find, SameNames, SameQueue, Ordered;
      var t := traces[n];
      ghost var v, w := ViewAt(capture, read, t.id, startTs), ViewAt(capture, |capture|, t.id, startTs);
      ghost var high := High(capture, startTs, traces, n, t.id);
      ViewOrdered(capture, read, t.id, startTs);
      ViewOrdered(capture, |capture|, t.id, startTs);
      ViewGrows(capture, read, |capture|, t.id, startTs);
      assert Keeps(ClientOf(clients, t.id), v, high, Stored());
      var c' := OnTrace(clients[t.id], t, v, w, high);
      AllKeepTrace(clients, capture, read, startTs, traces, n, Stored(), c');
      clients := clients[t.id := c'];
    }

    /** Reads the capture until the trace's frame has been read, or to its end. */
    method Advance(traces: seq<Trace>, n: nat) returns (r: Outcome)
      requires n < |traces| && Upto(traces, n) && traces[n].id in clients
      requires clients[traces[n].id].frameIndex < traces[n].frameIndex
      modifies this, writer
      ensures r == Done ==> Upto(traces, n + 1)
      ensures !broken ==> r == Done
      ensures Sound() || r == CaptureError
    {
      hide AllKeep, LazyJoin, RowsAre, writer.Valid, ViewAt;
      var t := traces[n];
      var answered := false;
      while !captureEof && !answered
        invariant if answered then Upto(traces, n + 1) else Upto(traces, n)
        invariant !answered ==> t.id in clients && clients[t.id].frameIndex < t.frameIndex
        decreases !answered, !captureEof, |capture| - read
      {
        if read < |capture| {
          var id := ReadEvent(traces, n);
          if id == t.id && clients[id].frameIndex >= t.frameIndex {
            Answer(traces, n);
            answered := true;
          }
        } else if broken {
          return CaptureError;
        } else {
          captureEof := true;
        }
      }
      if !answered {
        FramesOf(clients, capture, read, startTs, traces, n, Stored(), t.id);
        Beyond(clients, capture, startTs, traces, n, Stored());
      }
      r := Done;
    }

    /** The rows written are exactly those of the lazy join over the whole capture. */
    method Analyze(traces: seq<Trace>) returns (r: Outcome)
      requires Sound() && Filed() && read == 0 && clients == map[] && writer.traces == []
      modifies this, writer
      ensures r == Done ==> Upto(traces, |traces|)
      ensures !broken ==> r == Done
    {
      hide AllKeep, RowsAre, writer.Valid, ViewAt, Keeps;
      AllKeepFresh(capture, startTs, traces, Stored());
      assert RowsAre([], LazyJoin(capture, startTs, traces, 0), Stored()) by { NoRowsYet(Stored()); }
      for n := 0 to |traces|
        invariant Upto(traces, n)
      {
        hide LazyJoin;
        var t := traces[n];
        if t.id !in clients {
          AllKeepEntry(clients, capture, read, startTs, traces, n, Stored(), t.id);
          clients := clients[t.id := NEW_CLIENT];
        }
        if clients[t.id].frameIndex >= t.frameIndex {
          Answer(traces, n);
        } else {
          r := Advance(traces, n);
          if r != Done {
            return;
          }
        }
      }
      r := Done;
    }
  }

  lemma NoRowsYet(p: Places)
    ensures RowsAre([], [], p)
  {
  }
}
