/**
  The shape of the button event stream. Every press goes through the same
  small automaton: a press, then at most one hold, then on release either a
  click or a double click (only when no hold fired) followed by the release.
  The classifier's button events always follow it, which gives "hold at most
  once per press", "a click xor a hold per press" and "never both a click and
  a double click" in one statement.
 */
module ButtonProtocol {
  import opened Wrappers
  import opened Events
  import opened Classifier

  /** Where a press cycle stands. `Clicked` only exists between the click and the release of one sample. */
  datatype Phase = Up | Down | Held | Clicked

  /** The phase a classifier state is in. */
  function PhaseOf(s: State): Phase
  {
    if !s.prevPressed then Up
    else if s.holdDetected then Held
    else Down
  }

  /** The protocol's transitions; `None` for an event the phase does not allow. */
  function Next(p: Phase, e: EventType): Option<Phase>
  {
    match (p, e)
    case (Up, ButtonPress) => Some(Down)
    case (Down, ButtonHold) => Some(Held)
    case (Down, ButtonClick) => Some(Clicked)
    case (Down, ButtonDoubleClick) => Some(Clicked)
    case (Held, ButtonRelease) => Some(Up)
    case (Clicked, ButtonRelease) => Some(Up)
    case _ => None
  }

  /** The phase reached after the events `es`, or `None` if the protocol rejects them. */
  function Walk(p: Phase, es: seq<EventType>): Option<Phase>
    decreases |es|
  {
    if |es| == 0 then Some(p)
    else
      match Next(p, es[0])
      case None => None
      case Some(q) => Walk(q, es[1..])
  }

  /** Walking a concatenation walks the first part, then the second from where the first ended. */
  lemma {:induction false} WalkAppend(p: Phase, a: seq<EventType>, b: seq<EventType>)
    ensures Walk(p, a + b) == match Walk(p, a) case None => None case Some(q) => Walk(q, b)
    decreases |a|
  {
    if |a| == 0 {
      assert a + b == b;
    } else {
      assert (a + b)[1..] == a[1..] + b;
      match Next(p, a[0])
      case None =>
      case Some(q) => WalkAppend(q, a[1..], b);
    }
  }

  /** The button events of one sample: hold, click, then the press or release edge. */
  lemma StepButtonEvents(cfg: Config, s: State, t: Tick)
    ensures Filter(Step(cfg, s, t).events, ButtonKinds)
         == HoldEvents(cfg, s, t) + ClickEvents(cfg, s, t) + Edge(s.prevPressed, t.sample.buttonPressed, ButtonPress, ButtonRelease)
  {
    var lid := Edge(s.prevLid, t.sample.lidOpen, LidOpen, LidClose);
    var hold := HoldEvents(cfg, s, t);
    var click := ClickEvents(cfg, s, t);
    var edge := Edge(s.prevPressed, t.sample.buttonPressed, ButtonPress, ButtonRelease);
    assert Step(cfg, s, t).events == lid + hold + click + edge;
    FilterDropsFirst(lid, hold, click, edge, ButtonKinds);
  }

  /** The button events of one sample, read against the protocol, lead to the phase the button is in afterwards. */
  lemma {:induction false} ButtonEventsStep(cfg: Config, s: State, t: Tick)
    requires Consistent(s)
    ensures var bs := HoldEvents(cfg, s, t) + ClickEvents(cfg, s, t) + Edge(s.prevPressed, t.sample.buttonPressed, ButtonPress, ButtonRelease);
      Walk(PhaseOf(s), bs) == Some(
        if !t.sample.buttonPressed then Up
        else if s.holdDetected || HoldDue(cfg, s, t) then Held
        else Down)
  {
    var hold := HoldEvents(cfg, s, t);
    var click := ClickEvents(cfg, s, t);
    var edge := Edge(s.prevPressed, t.sample.buttonPressed, ButtonPress, ButtonRelease);
    if !s.prevPressed {
      assert hold == [] && click == [];
      assert hold + click + edge == edge;
    } else if s.holdDetected {
      assert hold == [] && click == [];
      assert hold + click + edge == edge;
    } else if t.sample.buttonPressed {
      assert click == [] && edge == [];
      assert hold + click + edge == hold;
    } else {
      assert hold == [] && edge == [ButtonRelease];
      assert |click| == 1 && Next(Down, click[0]) == Some(Clicked);
      var bs := [click[0], ButtonRelease];
      assert hold + click + edge == bs;
      assert bs[1..] == [ButtonRelease];
      assert Walk(Down, bs) == Walk(Clicked, [ButtonRelease]);
    }
  }

  /** From a consistent state, one sample's button events are a legal protocol step to the new state's phase. */
  lemma StepFollowsProtocol(cfg: Config, s: State, t: Tick)
    requires Consistent(s)
    ensures Walk(PhaseOf(s), Filter(Step(cfg, s, t).events, ButtonKinds)) == Some(PhaseOf(Step(cfg, s, t).next))
  {
    StepButtonEvents(cfg, s, t);
    ButtonEventsStep(cfg, s, t);
  }

  /** Over a whole trace, from a consistent state, the button events follow the protocol. */
  lemma {:induction false} RunFollowsProtocol(cfg: Config, s: State, ts: seq<Tick>)
    requires Consistent(s)
    ensures Walk(PhaseOf(s), Filter(Run(cfg, s, ts).events, ButtonKinds)) == Some(PhaseOf(Run(cfg, s, ts).next))
    decreases |ts|
  {
    if |ts| > 0 {
      var first := Step(cfg, s, ts[0]);
      var rest := Run(cfg, first.next, ts[1..]);
      assert Run(cfg, s, ts).events == first.events + rest.events;
      FilterAppend(first.events, rest.events, ButtonKinds);
      StepFollowsProtocol(cfg, s, ts[0]);
      RunFollowsProtocol(cfg, first.next, ts[1..]);
      WalkAppend(PhaseOf(s), Filter(first.events, ButtonKinds), Filter(rest.events, ButtonKinds));
    }
  }

  /** 1 while the button is down, whatever has been decided about the press. */
  function Open(p: Phase): nat
  {
    if p == Up then 0 else 1
  }

  /** 1 once the press has been classified as a hold or a click. */
  function Decided(p: Phase): nat
  {
    if p == Held || p == Clicked then 1 else 0
  }

  /**
    Counting along an accepted walk: presses and releases balance up to the
    open press, and holds, clicks and double clicks together balance releases
    up to the undecided press.
   */
  lemma {:induction false} WalkCounts(p: Phase, es: seq<EventType>, q: Phase)
    requires Walk(p, es) == Some(q)
    ensures Count(es, ButtonPress) + Open(p) == Count(es, ButtonRelease) + Open(q)
    ensures Count(es, ButtonHold) + Count(es, ButtonClick) + Count(es, ButtonDoubleClick) + Decided(p)
         == Count(es, ButtonRelease) + Decided(q)
    decreases |es|
  {
    if |es| > 0 {
      assert es == [es[0]] + es[1..];
      var p' := Next(p, es[0]).value;
      WalkCounts(p', es[1..], q);
    }
  }

  /**
    Over a whole trace from the initial state: every press but possibly the
    last is matched by one release, and every completed press produced
    exactly one of hold, click or double click; a press still down may
    already hold its hold.
   */
  lemma PressCycleCounts(cfg: Config, ts: seq<Tick>)
    ensures var r := Run(cfg, Initial, ts);
      && Count(r.events, ButtonPress) == Count(r.events, ButtonRelease) + (if r.next.prevPressed then 1 else 0)
      && Count(r.events, ButtonHold) + Count(r.events, ButtonClick) + Count(r.events, ButtonDoubleClick)
         == Count(r.events, ButtonRelease) + (if r.next.holdDetected then 1 else 0)
  {
    var r := Run(cfg, Initial, ts);
    var bs := Filter(r.events, ButtonKinds);
    RunFollowsProtocol(cfg, Initial, ts);
    WalkCounts(Up, bs, PhaseOf(r.next));
    FilterCount(r.events, ButtonKinds, ButtonPress);
    FilterCount(r.events, ButtonKinds, ButtonRelease);
    FilterCount(r.events, ButtonKinds, ButtonHold);
    FilterCount(r.events, ButtonKinds, ButtonClick);
    FilterCount(r.events, ButtonKinds, ButtonDoubleClick);
  }

  /** Some sample of `ts` comes at least the hold duration after `pressedAt`. */
  predicate HoldReached(cfg: Config, pressedAt: nat, ts: seq<Tick>)
  {
    exists i :: 0 <= i < |ts| && ts[i].at - pressedAt >= cfg.holdDuration
  }

  /** A trace reaches the hold duration iff its first sample does or the rest of it does. */
  lemma HoldReachedCons(cfg: Config, pressedAt: nat, ts: seq<Tick>)
    requires |ts| > 0
    ensures HoldReached(cfg, pressedAt, ts) <==>
      ts[0].at - pressedAt >= cfg.holdDuration || HoldReached(cfg, pressedAt, ts[1..])
  {
    if HoldReached(cfg, pressedAt, ts) {
      var i :| 0 <= i < |ts| && ts[i].at - pressedAt >= cfg.holdDuration;
      if i > 0 {
        assert ts[1..][i - 1] == ts[i];
      }
    }
    if HoldReached(cfg, pressedAt, ts[1..]) {
      var j :| 0 <= j < |ts[1..]| && ts[1..][j].at - pressedAt >= cfg.holdDuration;
      assert ts[j + 1] == ts[1..][j];
    }
  }

  /** One sample with the button down since the previous one: the hold is counted once and remembered. */
  lemma StepWhileHeld(cfg: Config, s: State, t: Tick)
    requires s.prevPressed && t.sample.buttonPressed
    ensures var r := Step(cfg, s, t);
      && Count(r.events, ButtonHold) == (if HoldDue(cfg, s, t) then 1 else 0)
      && r.next.prevPressed
      && r.next.lastPress == s.lastPress
      && r.next.holdDetected == (s.holdDetected || HoldDue(cfg, s, t))
  {
    var r := Step(cfg, s, t);
    var lid := Edge(s.prevLid, t.sample.lidOpen, LidOpen, LidClose);
    assert ClickEvents(cfg, s, t) == [];
    assert Edge(s.prevPressed, t.sample.buttonPressed, ButtonPress, ButtonRelease) == [];
    assert r.events == lid + HoldEvents(cfg, s, t);
    assert ButtonHold !in multiset(lid);
  }

  /**
    While the button stays down, exactly one hold is reported if none had been
    yet and some sample comes at least the hold duration after the press, and
    none otherwise.
   */
  lemma {:induction false} HoldOnceWhileHeld(cfg: Config, s: State, ts: seq<Tick>)
    requires s.prevPressed
    requires forall i :: 0 <= i < |ts| ==> ts[i].sample.buttonPressed
    ensures Count(Run(cfg, s, ts).events, ButtonHold)
         == if !s.holdDetected && HoldReached(cfg, s.lastPress, ts) then 1 else 0
    decreases |ts|
  {
    if |ts| > 0 {
      var first := Step(cfg, s, ts[0]);
      var rest := Run(cfg, first.next, ts[1..]);
      assert Run(cfg, s, ts).events == first.events + rest.events;
      CountAppend(first.events, rest.events, ButtonHold);
      StepWhileHeld(cfg, s, ts[0]);
      HoldOnceWhileHeld(cfg, first.next, ts[1..]);
      HoldReachedCons(cfg, s.lastPress, ts);
    }
  }

}
