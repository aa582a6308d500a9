/**
  The event classifier: the body of the polling loop of
  `DreamCheekyButtonThread.run`. Each decoded sample, stamped with the time at
  which it was read, updates a small state and yields the events recognised
  on that sample, in the order the loop body emits them.

  Times are natural numbers in the unit of the two thresholds (milliseconds);
  differences between times are plain integers, so nothing here assumes that
  the clock never goes backwards.
 */
module Classifier {
  import opened Events
  import opened Decoder

  /** The two thresholds: how long a press lasts before it is a hold, and the double-click window. */
  datatype Config = Config(holdDuration: int, doubleClickDelay: int)

  /** The thresholds a thread gets when its caller passes no hold duration. */
  const DefaultConfig: Config := Config(1000, 300)

  /** The time the press and click clocks start at. */
  const Epoch: nat := 0

  /** A decoded sample together with the time it was read. */
  datatype Tick = Tick(at: nat, sample: Sample)

  /** What the loop remembers between samples. */
  datatype State = State(
    prevLid: bool,
    prevPressed: bool,
    holdDetected: bool,
    lastPress: nat,
    lastClick: nat)

  /** Lid closed, button up, no hold, both clocks at the epoch. */
  const Initial: State := State(false, false, false, Epoch, Epoch)

  /** The state after a sample and the events recognised on it. */
  datatype Emission = Emission(next: State, events: seq<EventType>)

  /** A hold can only be remembered while the button is still down. */
  predicate Consistent(s: State)
  {
    s.holdDetected ==> s.prevPressed
  }

  /** The button went down on this sample. */
  predicate PressEdge(s: State, t: Tick)
  {
    t.sample.buttonPressed && !s.prevPressed
  }

  /** The button came up on this sample. */
  predicate ReleaseEdge(s: State, t: Tick)
  {
    !t.sample.buttonPressed && s.prevPressed
  }

  /** The button has been down since the previous sample, with no hold yet and the hold threshold reached. */
  predicate HoldDue(cfg: Config, s: State, t: Tick)
  {
    t.sample.buttonPressed && s.prevPressed && !s.holdDetected && t.at - s.lastPress >= cfg.holdDuration
  }

  /** The hold event of a sample: reported once the press has lasted the hold duration. */
  function HoldEvents(cfg: Config, s: State, t: Tick): seq<EventType>
  {
    if HoldDue(cfg, s, t) then [ButtonHold] else []
  }

  /** A release that ends a press during which no hold was reported. */
  predicate ClickDue(cfg: Config, s: State, t: Tick)
  {
    ReleaseEdge(s, t) && !(s.holdDetected || HoldDue(cfg, s, t))
  }

  /** The click event of a sample: a double click when the previous click is recent, else a click. */
  function ClickEvents(cfg: Config, s: State, t: Tick): seq<EventType>
  {
    if !ClickDue(cfg, s, t) then []
    else if t.at - s.lastClick < cfg.doubleClickDelay then [ButtonDoubleClick]
    else [ButtonClick]
  }

  /** One pass of the loop body on a successfully read sample. */
  function Step(cfg: Config, s: State, t: Tick): (r: Emission)
    ensures r.next.prevLid == t.sample.lidOpen
    ensures r.next.prevPressed == t.sample.buttonPressed
    ensures Consistent(r.next)
    ensures |r.events| <= 3
  {
    var pressed := t.sample.buttonPressed;
    Emission(
      State(
        t.sample.lidOpen,
        pressed,
        pressed && (s.holdDetected || HoldDue(cfg, s, t)),
        if PressEdge(s, t) then t.at else s.lastPress,
        if ClickDue(cfg, s, t) then t.at else s.lastClick),
      Edge(s.prevLid, t.sample.lidOpen, LidOpen, LidClose)
      + HoldEvents(cfg, s, t)
      + ClickEvents(cfg, s, t)
      + Edge(s.prevPressed, pressed, ButtonPress, ButtonRelease))
  }

  /**
    The press clock moves to the sample's time exactly when a press is
    reported, and the click clock exactly when a click or double click is.
   */
  lemma StepClocks(cfg: Config, s: State, t: Tick)
    ensures var r := Step(cfg, s, t);
      && r.next.lastPress == (if ButtonPress in r.events then t.at else s.lastPress)
      && r.next.lastClick == (if ButtonClick in r.events || ButtonDoubleClick in r.events then t.at else s.lastClick)
  {
  }

  /** Every sample's events come out in the fixed order lid, hold, click, press, release. */
  lemma StepEmissionOrder(cfg: Config, s: State, t: Tick)
    ensures InEmissionOrder(Step(cfg, s, t).events)
  {
  }

  /** The loop body applied to each sample of a trace in turn, events concatenated. */
  function Run(cfg: Config, s: State, ts: seq<Tick>): (r: Emission)
    ensures |r.events| <= 3 * |ts|
    ensures Consistent(s) ==> Consistent(r.next)
    decreases |ts|
  {
    if |ts| == 0 then Emission(s, [])
    else
      var first := Step(cfg, s, ts[0]);
      var rest := Run(cfg, first.next, ts[1..]);
      Emission(rest.next, first.events + rest.events)
  }

  /** Classifying a trace whose first sample is `t`: that sample's events, then the rest's. */
  lemma RunCons(cfg: Config, s: State, t: Tick, ts: seq<Tick>)
    ensures Run(cfg, s, [t] + ts)
         == Emission(Run(cfg, Step(cfg, s, t).next, ts).next, Step(cfg, s, t).events + Run(cfg, Step(cfg, s, t).next, ts).events)
  {
    assert ([t] + ts)[0] == t;
    assert ([t] + ts)[1..] == ts;
  }

  /** Classifying two traces one after the other is classifying their concatenation. */
  lemma {:induction false} RunAppend(cfg: Config, s: State, a: seq<Tick>, b: seq<Tick>)
    ensures Run(cfg, s, a + b).next == Run(cfg, Run(cfg, s, a).next, b).next
    ensures Run(cfg, s, a + b).events == Run(cfg, s, a).events + Run(cfg, Run(cfg, s, a).next, b).events
    decreases |a|
  {
    if |a| == 0 {
      assert a + b == b;
    } else {
      var first := Step(cfg, s, a[0]);
      assert (a + b)[0] == a[0];
      assert (a + b)[1..] == a[1..] + b;
      RunAppend(cfg, first.next, a[1..], b);
      var mid := Run(cfg, first.next, a[1..]);
      var last := Run(cfg, mid.next, b);
      assert Run(cfg, s, a) == Emission(mid.next, first.events + mid.events);
      assert Run(cfg, s, a + b) == Emission(last.next, first.events + (mid.events + last.events));
      Associative(first.events, mid.events, last.events);
    }
  }

  /**
    Which events can share one sample: a hold never comes with a release, and
    a press comes with nothing but lid events.
   */
  lemma StepCoOccurrence(cfg: Config, s: State, t: Tick)
    ensures var es := Step(cfg, s, t).events;
      && (ButtonHold in es ==> ButtonRelease !in es)
      && (ButtonPress in es ==> es == Edge(s.prevLid, t.sample.lidOpen, LidOpen, LidClose) + [ButtonPress])
      && !(ButtonClick in es && ButtonDoubleClick in es)
  {
    var lid := Edge(s.prevLid, t.sample.lidOpen, LidOpen, LidClose);
    var hold := HoldEvents(cfg, s, t);
    var click := ClickEvents(cfg, s, t);
    var edge := Edge(s.prevPressed, t.sample.buttonPressed, ButtonPress, ButtonRelease);
    assert Step(cfg, s, t).events == lid + hold + click + edge;
    assert ButtonPress !in lid + hold + click;
    if PressEdge(s, t) {
      assert hold == [] && click == [] && edge == [ButtonPress];
    }
  }

  /** A hold is reported exactly when it is due, and then remembered until the button comes up. */
  lemma StepHold(cfg: Config, s: State, t: Tick)
    ensures var r := Step(cfg, s, t);
      && (ButtonHold in r.events <==> HoldDue(cfg, s, t))
      && (r.next.holdDetected <==> t.sample.buttonPressed && (s.holdDetected || ButtonHold in r.events))
  {
  }

  /**
    On the sample where the button comes up a release is reported, and a click
    or double click accompanies it exactly when no hold fired during the
    press; the double click is chosen exactly when the previous click is less
    than the delay ago.
   */
  lemma ReleaseClassification(cfg: Config, s: State, t: Tick)
    requires ReleaseEdge(s, t)
    ensures var es := Step(cfg, s, t).events;
      && ButtonRelease in es
      && ButtonHold !in es
      && ButtonPress !in es
      && (ButtonClick in es || ButtonDoubleClick in es <==> !s.holdDetected)
      && (ButtonDoubleClick in es <==> !s.holdDetected && t.at - s.lastClick < cfg.doubleClickDelay)
      && (ButtonClick in es <==> !s.holdDetected && t.at - s.lastClick >= cfg.doubleClickDelay)
  {
  }

  /** Without an edge of the button, neither press, release nor any click is reported. */
  lemma NoButtonEdgeNoClick(cfg: Config, s: State, t: Tick)
    requires t.sample.buttonPressed == s.prevPressed
    ensures var es := Step(cfg, s, t).events;
      ButtonPress !in es && ButtonRelease !in es && ButtonClick !in es && ButtonDoubleClick !in es
  {
  }

  /** The click clock only moves when a click or double click is reported, over whole traces. */
  lemma {:induction false} RunKeepsClickClock(cfg: Config, s: State, ts: seq<Tick>)
    requires ButtonClick !in Run(cfg, s, ts).events
    requires ButtonDoubleClick !in Run(cfg, s, ts).events
    ensures Run(cfg, s, ts).next.lastClick == s.lastClick
    decreases |ts|
  {
    if |ts| > 0 {
      var first := Step(cfg, s, ts[0]);
      StepClocks(cfg, s, ts[0]);
      RunKeepsClickClock(cfg, first.next, ts[1..]);
    }
  }

  /**
    From the initial state, as long as no click has been reported, the first
    release that ends a press without a hold, read at least the double-click
    delay after the epoch, is a single click.
   */
  lemma FirstReleaseIsClick(cfg: Config, ts: seq<Tick>, t: Tick)
    requires ButtonClick !in Run(cfg, Initial, ts).events
    requires ButtonDoubleClick !in Run(cfg, Initial, ts).events
    requires ReleaseEdge(Run(cfg, Initial, ts).next, t)
    requires !Run(cfg, Initial, ts).next.holdDetected
    requires t.at >= Epoch + cfg.doubleClickDelay
    ensures ButtonClick in Step(cfg, Run(cfg, Initial, ts).next, t).events
    ensures ButtonDoubleClick !in Step(cfg, Run(cfg, Initial, ts).next, t).events
  {
    RunKeepsClickClock(cfg, Initial, ts);
  }

}
