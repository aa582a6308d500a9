/**
  Trace-level edge counting: over any trace of samples, the lid events and
  the plain press/release events are exactly the edges of the lid signal and
  of the button signal, one event per edge, whatever the other signal does.
 */
module EdgeTraces {
  import opened Events
  import opened Classifier

  /** The lid signal of a trace. */
  function Lids(ts: seq<Tick>): (bs: seq<bool>)
    ensures |bs| == |ts|
    ensures forall i :: 0 <= i < |ts| ==> bs[i] == ts[i].sample.lidOpen
  {
    seq(|ts|, i requires 0 <= i < |ts| => ts[i].sample.lidOpen)
  }

  /** The button signal of a trace. */
  function Buttons(ts: seq<Tick>): (bs: seq<bool>)
    ensures |bs| == |ts|
    ensures forall i :: 0 <= i < |ts| ==> bs[i] == ts[i].sample.buttonPressed
  {
    seq(|ts|, i requires 0 <= i < |ts| => ts[i].sample.buttonPressed)
  }

  /** Number of false-to-true transitions of `bs`, starting from `prev`. */
  function Rises(prev: bool, bs: seq<bool>): nat
    decreases |bs|
  {
    if |bs| == 0 then 0
    else (if bs[0] && !prev then 1 else 0) + Rises(bs[0], bs[1..])
  }

  /** Number of true-to-false transitions of `bs`, starting from `prev`. */
  function Falls(prev: bool, bs: seq<bool>): nat
    decreases |bs|
  {
    if |bs| == 0 then 0
    else (if !bs[0] && prev then 1 else 0) + Falls(bs[0], bs[1..])
  }

  /** One `up` per rising and one `down` per falling transition of `bs`, in signal order. */
  function EdgeEvents(prev: bool, bs: seq<bool>, up: EventType, down: EventType): (es: seq<EventType>)
    decreases |bs|
  {
    if |bs| == 0 then []
    else
      Edge(prev, bs[0], up, down) + EdgeEvents(bs[0], bs[1..], up, down)
  }

  /** The edge event stream has as many `up`s as rises and as many `down`s as falls. */
  lemma {:induction false} EdgeEventCounts(prev: bool, bs: seq<bool>, up: EventType, down: EventType)
    requires up != down
    ensures Count(EdgeEvents(prev, bs, up, down), up) == Rises(prev, bs)
    ensures Count(EdgeEvents(prev, bs, up, down), down) == Falls(prev, bs)
    decreases |bs|
  {
    if |bs| > 0 {
      var head := Edge(prev, bs[0], up, down);
      var rest := EdgeEvents(bs[0], bs[1..], up, down);
      EdgeEventCounts(bs[0], bs[1..], up, down);
      assert EdgeEvents(prev, bs, up, down) == head + rest;
      CountAppend(head, rest, up);
      CountAppend(head, rest, down);
      assert Count(head, up) == (if bs[0] && !prev then 1 else 0);
      assert Count(head, down) == (if !bs[0] && prev then 1 else 0);
    }
  }

  /** Rising and falling transitions alternate, so their counts differ only by where the signal starts and ends. */
  lemma {:induction false} RisesAndFallsAlternate(prev: bool, bs: seq<bool>)
    ensures |bs| > 0 ==> Rises(prev, bs) + (if prev then 1 else 0) == Falls(prev, bs) + (if bs[|bs| - 1] then 1 else 0)
    decreases |bs|
  {
    if |bs| > 1 {
      RisesAndFallsAlternate(bs[0], bs[1..]);
      assert bs[1..][|bs[1..]| - 1] == bs[|bs| - 1];
    }
  }

  /** The lid events of one sample are exactly the lid edge of that sample. */
  lemma StepLidEvents(cfg: Config, s: State, t: Tick)
    ensures Filter(Step(cfg, s, t).events, LidKinds) == Edge(s.prevLid, t.sample.lidOpen, LidOpen, LidClose)
  {
    var lid := Edge(s.prevLid, t.sample.lidOpen, LidOpen, LidClose);
    var hold := HoldEvents(cfg, s, t);
    var click := ClickEvents(cfg, s, t);
    var edge := Edge(s.prevPressed, t.sample.buttonPressed, ButtonPress, ButtonRelease);
    assert Filter(lid, LidKinds) == lid by { FilterAll(lid, LidKinds); }
    assert Filter(hold, LidKinds) == [] by { FilterNone(hold, LidKinds); }
    assert Filter(click, LidKinds) == [] by { FilterNone(click, LidKinds); }
    assert Filter(edge, LidKinds) == [] by { FilterNone(edge, LidKinds); }
    assert Filter(Step(cfg, s, t).events, LidKinds)
        == Filter(lid, LidKinds) + Filter(hold, LidKinds) + Filter(click, LidKinds) + Filter(edge, LidKinds) by {
      assert Step(cfg, s, t).events == lid + hold + click + edge;
      FilterAppend4(lid, hold, click, edge, LidKinds);
    }
  }

  /** The press and release events of one sample are exactly the button edge of that sample. */
  lemma StepButtonEdgeEvents(cfg: Config, s: State, t: Tick)
    ensures Filter(Step(cfg, s, t).events, EdgeKinds) == Edge(s.prevPressed, t.sample.buttonPressed, ButtonPress, ButtonRelease)
  {
    var lid := Edge(s.prevLid, t.sample.lidOpen, LidOpen, LidClose);
    var hold := HoldEvents(cfg, s, t);
    var click := ClickEvents(cfg, s, t);
    var edge := Edge(s.prevPressed, t.sample.buttonPressed, ButtonPress, ButtonRelease);
    assert Filter(lid, EdgeKinds) == [] by { FilterNone(lid, EdgeKinds); }
    assert Filter(hold, EdgeKinds) == [] by { FilterNone(hold, EdgeKinds); }
    assert Filter(click, EdgeKinds) == [] by { FilterNone(click, EdgeKinds); }
    assert Filter(edge, EdgeKinds) == edge by { FilterAll(edge, EdgeKinds); }
    assert Filter(Step(cfg, s, t).events, EdgeKinds)
        == Filter(lid, EdgeKinds) + Filter(hold, EdgeKinds) + Filter(click, EdgeKinds) + Filter(edge, EdgeKinds) by {
      assert Step(cfg, s, t).events == lid + hold + click + edge;
      FilterAppend4(lid, hold, click, edge, EdgeKinds);
    }
  }

  /** Over a whole trace the lid events are exactly the edges of the lid signal. */
  lemma {:induction false} RunLidEvents(cfg: Config, s: State, ts: seq<Tick>)
    ensures Filter(Run(cfg, s, ts).events, LidKinds) == EdgeEvents(s.prevLid, Lids(ts), LidOpen, LidClose)
    decreases |ts|
  {
    if |ts| > 0 {
      var first := Step(cfg, s, ts[0]);
      var rest := Run(cfg, first.next, ts[1..]);
      assert Run(cfg, s, ts).events == first.events + rest.events;
      FilterAppend(first.events, rest.events, LidKinds);
      StepLidEvents(cfg, s, ts[0]);
      RunLidEvents(cfg, first.next, ts[1..]);
      assert Lids(ts)[1..] == Lids(ts[1..]);
    }
  }

  /** Over a whole trace the press and release events are exactly the edges of the button signal. */
  lemma {:induction false} RunButtonEdgeEvents(cfg: Config, s: State, ts: seq<Tick>)
    ensures Filter(Run(cfg, s, ts).events, EdgeKinds) == EdgeEvents(s.prevPressed, Buttons(ts), ButtonPress, ButtonRelease)
    decreases |ts|
  {
    if |ts| > 0 {
      var first := Step(cfg, s, ts[0]);
      var rest := Run(cfg, first.next, ts[1..]);
      assert Run(cfg, s, ts).events == first.events + rest.events;
      FilterAppend(first.events, rest.events, EdgeKinds);
      StepButtonEdgeEvents(cfg, s, ts[0]);
      RunButtonEdgeEvents(cfg, first.next, ts[1..]);
      assert Buttons(ts)[1..] == Buttons(ts[1..]);
    }
  }

  /** Exactly one lid-open per opening and one lid-close per closing of the lid. */
  lemma LidEventCounts(cfg: Config, s: State, ts: seq<Tick>)
    ensures Count(Run(cfg, s, ts).events, LidOpen) == Rises(s.prevLid, Lids(ts))
    ensures Count(Run(cfg, s, ts).events, LidClose) == Falls(s.prevLid, Lids(ts))
  {
    var es := Run(cfg, s, ts).events;
    RunLidEvents(cfg, s, ts);
    EdgeEventCounts(s.prevLid, Lids(ts), LidOpen, LidClose);
    FilterCount(es, LidKinds, LidOpen);
    FilterCount(es, LidKinds, LidClose);
  }

  /** Exactly one press per press edge and one release per release edge of the button. */
  lemma PressReleaseCounts(cfg: Config, s: State, ts: seq<Tick>)
    ensures Count(Run(cfg, s, ts).events, ButtonPress) == Rises(s.prevPressed, Buttons(ts))
    ensures Count(Run(cfg, s, ts).events, ButtonRelease) == Falls(s.prevPressed, Buttons(ts))
  {
    var es := Run(cfg, s, ts).events;
    RunButtonEdgeEvents(cfg, s, ts);
    EdgeEventCounts(s.prevPressed, Buttons(ts), ButtonPress, ButtonRelease);
    FilterCount(es, EdgeKinds, ButtonPress);
    FilterCount(es, EdgeKinds, ButtonRelease);
  }

  /**
    The lid events depend on the lid signal alone: two traces with the same
    lid readings, started with the same remembered lid, report the same lid
    events, whatever the button does and whatever the thresholds are.
   */
  lemma LidEventsIgnoreButton(cfg1: Config, s1: State, ts1: seq<Tick>, cfg2: Config, s2: State, ts2: seq<Tick>)
    requires s1.prevLid == s2.prevLid
    requires Lids(ts1) == Lids(ts2)
    ensures Filter(Run(cfg1, s1, ts1).events, LidKinds) == Filter(Run(cfg2, s2, ts2).events, LidKinds)
  {
    RunLidEvents(cfg1, s1, ts1);
    RunLidEvents(cfg2, s2, ts2);
  }

  /**
    Symmetrically, the press and release events depend on the button signal
    alone, not on the lid, the clocks or the thresholds.
   */
  lemma EdgeEventsIgnoreLid(cfg1: Config, s1: State, ts1: seq<Tick>, cfg2: Config, s2: State, ts2: seq<Tick>)
    requires s1.prevPressed == s2.prevPressed
    requires Buttons(ts1) == Buttons(ts2)
    ensures Filter(Run(cfg1, s1, ts1).events, EdgeKinds) == Filter(Run(cfg2, s2, ts2).events, EdgeKinds)
  {
    RunButtonEdgeEvents(cfg1, s1, ts1);
    RunButtonEdgeEvents(cfg2, s2, ts2);
  }

  /**
    Lid opens and closes alternate: over a non-empty trace their counts
    differ only by where the lid started and where it ended.
   */
  lemma LidOpenCloseAlternate(cfg: Config, s: State, ts: seq<Tick>)
    requires |ts| > 0
    ensures Count(Run(cfg, s, ts).events, LidOpen) + (if s.prevLid then 1 else 0)
         == Count(Run(cfg, s, ts).events, LidClose) + (if ts[|ts| - 1].sample.lidOpen then 1 else 0)
  {
    LidEventCounts(cfg, s, ts);
    RisesAndFallsAlternate(s.prevLid, Lids(ts));
  }

}
