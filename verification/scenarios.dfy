/**
  Concrete traces through the classifier and the loop: a click, a hold, a
  double click, three quick clicks, a lid toggling under a held button, and
  failed reads before a good one. All use the default thresholds (hold
  1000 ms, double-click window 300 ms).
 */
module Scenarios {
  import opened Events
  import opened Decoder
  import opened Classifier
  import opened Dispatcher
  import opened Monitor

  /** Lid closed, button up. */
  const Idle: Sample := Sample(false, false)

  /** Lid closed, button down. */
  const Down: Sample := Sample(false, true)

  /** A press followed 50 ms later by a release: a press, then a click and a release together. */
  lemma SingleClick()
    ensures Run(DefaultConfig, Initial, [Tick(1000, Idle), Tick(1100, Down), Tick(1150, Idle)]).events
         == [ButtonPress, ButtonClick, ButtonRelease]
  {
    var cfg := DefaultConfig;
    var t0, t1, t2 := Tick(1000, Idle), Tick(1100, Down), Tick(1150, Idle);
    var down := State(false, true, false, 1100, Epoch);
    assert Step(cfg, Initial, t0) == Emission(Initial, []);
    assert Step(cfg, Initial, t1) == Emission(down, [ButtonPress]);
    assert Step(cfg, down, t2) == Emission(State(false, false, false, 1100, 1150), [ButtonClick, ButtonRelease]);
    RunCons(cfg, down, t2, []);
    RunCons(cfg, Initial, t1, [t2]);
    RunCons(cfg, Initial, t0, [t1, t2]);
    assert [t0] + [t1, t2] == [t0, t1, t2];
  }

  /** The button down since 1100 ms: the hold fires at the first sample 1000 ms later, then only the release follows. */
  lemma LongHoldHeld()
    ensures Run(DefaultConfig, State(false, true, false, 1100, Epoch),
                [Tick(1600, Down), Tick(2100, Down), Tick(2300, Down), Tick(2400, Idle)]).events
         == [ButtonHold, ButtonRelease]
  {
    var cfg := DefaultConfig;
    var t2, t3, t4, t5 := Tick(1600, Down), Tick(2100, Down), Tick(2300, Down), Tick(2400, Idle);
    var down, held := State(false, true, false, 1100, Epoch), State(false, true, true, 1100, Epoch);
    assert Step(cfg, down, t2) == Emission(down, []);
    assert Step(cfg, down, t3) == Emission(held, [ButtonHold]);
    assert Step(cfg, held, t4) == Emission(held, []);
    assert Step(cfg, held, t5) == Emission(State(false, false, false, 1100, Epoch), [ButtonRelease]);
    RunCons(cfg, held, t5, []);
    RunCons(cfg, held, t4, [t5]);
    RunCons(cfg, down, t3, [t4, t5]);
    RunCons(cfg, down, t2, [t3, t4, t5]);
    assert [t2] + [t3, t4, t5] == [t2, t3, t4, t5];
  }

  /**
    A press held for 1300 ms: a press, one hold once 1000 ms have passed,
    and on release only the release, no click.
   */
  lemma LongHold()
    ensures Run(DefaultConfig, Initial,
                [Tick(1000, Idle), Tick(1100, Down), Tick(1600, Down), Tick(2100, Down), Tick(2300, Down), Tick(2400, Idle)]).events
         == [ButtonPress, ButtonHold, ButtonRelease]
  {
    var cfg := DefaultConfig;
    var t0, t1 := Tick(1000, Idle), Tick(1100, Down);
    var rest := [Tick(1600, Down), Tick(2100, Down), Tick(2300, Down), Tick(2400, Idle)];
    var down := State(false, true, false, 1100, Epoch);
    assert Step(cfg, Initial, t0) == Emission(Initial, []);
    assert Step(cfg, Initial, t1) == Emission(down, [ButtonPress]);
    LongHoldHeld();
    RunCons(cfg, Initial, t1, rest);
    RunCons(cfg, Initial, t0, [t1] + rest);
    assert [t0] + ([t1] + rest) == [t0, t1, Tick(1600, Down), Tick(2100, Down), Tick(2300, Down), Tick(2400, Idle)];
  }

  /**
    A press on one sample and a release on the next, from an idle state:
    a press, then a click or (within the window of the previous click) a
    double click together with the release; no hold can fire in between.
   */
  lemma PressThenRelease(cfg: Config, s: State, down: nat, up: nat)
    requires !s.prevLid && !s.prevPressed && !s.holdDetected
    ensures Run(cfg, s, [Tick(down, Down), Tick(up, Idle)])
         == Emission(
              State(false, false, false, down, up),
              [ButtonPress, if up - s.lastClick < cfg.doubleClickDelay then ButtonDoubleClick else ButtonClick, ButtonRelease])
  {
    var t0, t1 := Tick(down, Down), Tick(up, Idle);
    var e0 := Step(cfg, s, t0);
    assert e0 == Emission(State(false, true, false, down, s.lastClick), [ButtonPress]);
    var e1 := Step(cfg, e0.next, t1);
    RunCons(cfg, e0.next, t1, []);
    RunCons(cfg, s, t0, [t1]);
    assert [t0] + [t1] == [t0, t1];
  }

  /** The second and third cycles of `QuickClicks`: each release is within the window of the click before it. */
  lemma QuickClicksAgain()
    ensures Run(DefaultConfig, State(false, false, false, 1000, 1050),
                [Tick(1100, Down), Tick(1200, Idle), Tick(1250, Down), Tick(1350, Idle)]).events
         == [ButtonPress, ButtonDoubleClick, ButtonRelease, ButtonPress, ButtonDoubleClick, ButtonRelease]
  {
    var cfg := DefaultConfig;
    var s1 := State(false, false, false, 1000, 1050);
    var b, c := [Tick(1100, Down), Tick(1200, Idle)], [Tick(1250, Down), Tick(1350, Idle)];
    PressThenRelease(cfg, s1, 1100, 1200);
    PressThenRelease(cfg, State(false, false, false, 1100, 1200), 1250, 1350);
    RunAppend(cfg, s1, b, c);
    assert b + c == [Tick(1100, Down), Tick(1200, Idle), Tick(1250, Down), Tick(1350, Idle)];
  }

  /**
    Three press/release cycles whose releases are 150 ms apart: a click, then
    a double click, then a double click again, since each release is compared
    with the previous click, not chained into a triple click.
   */
  lemma QuickClicks()
    ensures Run(DefaultConfig, Initial,
                [Tick(1000, Down), Tick(1050, Idle), Tick(1100, Down), Tick(1200, Idle), Tick(1250, Down), Tick(1350, Idle)]).events
         == [ButtonPress, ButtonClick, ButtonRelease,
             ButtonPress, ButtonDoubleClick, ButtonRelease,
             ButtonPress, ButtonDoubleClick, ButtonRelease]
  {
    var cfg := DefaultConfig;
    var t0, t1 := Tick(1000, Down), Tick(1050, Idle);
    var bc := [Tick(1100, Down), Tick(1200, Idle), Tick(1250, Down), Tick(1350, Idle)];
    var down, up := State(false, true, false, 1000, Epoch), State(false, false, false, 1000, 1050);
    var tail := [ButtonPress, ButtonDoubleClick, ButtonRelease, ButtonPress, ButtonDoubleClick, ButtonRelease];
    assert Run(cfg, down, [t1] + bc).events == [ButtonClick, ButtonRelease] + tail by {
      assert Step(cfg, down, t1) == Emission(up, [ButtonClick, ButtonRelease]);
      QuickClicksAgain();
      RunCons(cfg, down, t1, bc);
    }
    assert Run(cfg, Initial, [t0] + ([t1] + bc)).events == [ButtonPress] + ([ButtonClick, ButtonRelease] + tail) by {
      assert Step(cfg, Initial, t0) == Emission(down, [ButtonPress]);
      RunCons(cfg, Initial, t0, [t1] + bc);
    }
    assert [t0] + ([t1] + bc) == [t0, t1, Tick(1100, Down), Tick(1200, Idle), Tick(1250, Down), Tick(1350, Idle)];
  }

  /**
    The lid opens and closes while the button is held: the lid events come
    in between, and the press still ends in a click.
   */
  lemma LidUnderHeldButton()
    ensures Run(DefaultConfig, Initial,
                [Tick(1000, Down), Tick(1100, Sample(true, true)), Tick(1200, Down), Tick(1300, Idle)]).events
         == [ButtonPress, LidOpen, LidClose, ButtonClick, ButtonRelease]
  {
    var cfg := DefaultConfig;
    var t0, t1, t2, t3 := Tick(1000, Down), Tick(1100, Sample(true, true)), Tick(1200, Down), Tick(1300, Idle);
    var down, both := State(false, true, false, 1000, Epoch), State(true, true, false, 1000, Epoch);
    assert Step(cfg, Initial, t0) == Emission(down, [ButtonPress]);
    assert Step(cfg, down, t1) == Emission(both, [LidOpen]);
    assert Step(cfg, both, t2) == Emission(down, [LidClose]);
    assert Step(cfg, down, t3) == Emission(State(false, false, false, 1000, 1300), [ButtonClick, ButtonRelease]);
    RunCons(cfg, down, t3, []);
    RunCons(cfg, both, t2, [t3]);
    RunCons(cfg, down, t1, [t2, t3]);
    RunCons(cfg, Initial, t0, [t1, t2, t3]);
    assert [t0] + [t1, t2, t3] == [t0, t1, t2, t3];
  }

  /**
    A lid already open and a button already down when the loop starts are
    reported on the first sample, since the loop starts from "closed, up".
   */
  lemma StartsClosedAndUp()
    ensures Step(DefaultConfig, Initial, Tick(1000, Sample(true, true))).events == [LidOpen, ButtonPress]
  {
  }

  /**
    Five timed-out reads, then a report byte 0 (lid closed, button down):
    nothing happens during the failures, and the good read is classified as
    if they had never occurred.
   */
  lemma TimeoutsThenReport()
    ensures var d := Settings(true, true);
      var acts := [Poll(UsbError(true)), Poll(UsbError(true)), Poll(UsbError(true)), Poll(UsbError(true)),
                   Poll(UsbError(true)), Poll(Report(1000, 0))];
      var m := PerformAll(DefaultConfig, d, Start, acts);
      && m == PerformAll(DefaultConfig, d, Start, [Poll(Report(1000, 0))])
      && m.out.queue == [ButtonPress]
      && m.out.spawned == [ButtonPress]
      && m.alive
  {
    var d := Settings(true, true);
    var fail := Poll(UsbError(true));
    var good := Poll(Report(1000, 0));
    var acts := [fail, fail, fail, fail, fail, good];
    ErrorsAreInvisible(DefaultConfig, d, Start, acts);
    assert WithoutErrors(acts) == [good] by {
      assert WithoutErrors([good]) == [good] + WithoutErrors([]);
      assert WithoutErrors([fail, good]) == WithoutErrors([good]) by { assert [fail, good][1..] == [good]; }
      assert WithoutErrors([fail, fail, good]) == WithoutErrors([fail, good]) by {
        assert [fail, fail, good][1..] == [fail, good];
      }
      assert WithoutErrors([fail, fail, fail, good]) == WithoutErrors([fail, fail, good]) by {
        assert [fail, fail, fail, good][1..] == [fail, fail, good];
      }
      assert WithoutErrors([fail, fail, fail, fail, good]) == WithoutErrors([fail, fail, fail, good]) by {
        assert [fail, fail, fail, fail, good][1..] == [fail, fail, fail, good];
      }
      assert acts[1..] == [fail, fail, fail, fail, good];
    }
    var e := Step(DefaultConfig, Initial, Tick(1000, Decode(0)));
    assert e.events == [ButtonPress];
    assert HandleAll(d, Outbox([], []), [ButtonPress]) == Delivered(Outbox([ButtonPress], [ButtonPress]));
    assert PerformAll(DefaultConfig, d, Start, [good])
        == PerformAll(DefaultConfig, d, Perform(DefaultConfig, d, Start, good), []);
  }

}
