# Dream Cheeky button: event classifier model

A Dafny model of the lid/button event classifier of `py_dream_cheeky`. A
`DreamCheekyButtonThread` polls a USB "big red button" device. It decodes the
first byte of each status report into two flags: lid open and button pressed.
It feeds them, with the time of the read, through a small state machine. That
state machine reports `LID_OPEN`, `LID_CLOSE`, `BUTTON_PRESS`,
`BUTTON_RELEASE`, `BUTTON_HOLD`, `BUTTON_CLICK` and `BUTTON_DOUBLE_CLICK`
events. Each event goes to a bounded queue of 128 and/or to a handler that
runs on its own thread.

Modules, leaves first:

- `Wrappers`: an `Option` type.
- `Decoder`: the bit mapping from the first report byte to a `Sample`, and
  its canonical inverse `Encode`.
- `Events`: the closed `EventType` enumeration, the per-edge helper `Edge`,
  the fixed emission order (`Rank`), and `Filter`/`Count` over event streams.
- `Classifier`: the `State` the loop keeps between samples, the loop body as
  a pure `Step`, and `Run`, the fold of `Step` over a trace of time-stamped
  samples. It also holds the per-sample lemmas: which events may share a
  sample, hold timing, click versus double click, and the two clocks.
- `EdgeTraces`: trace-level counting. The lid events are exactly the edges of
  the lid signal, and press/release are exactly the edges of the button
  signal. Each depends on its own signal only.
- `ButtonProtocol`: an automaton that every press cycle follows (press, at
  most one hold, then click or double click only when no hold fired, then
  release). There is a proof that the classifier's button events always
  follow it, plus counting corollaries and the exact hold count while the
  button stays down.
- `Dispatcher`: `handle_event`, which puts an event on the queue (when
  enabled) and starts the handler (when set). It also covers the consumer's
  non-blocking take.
- `Monitor`: the whole polling loop. USB errors are absorbed. A full queue
  raises out of the loop and ends the thread. While the thread is alive, the loop is
  proved equal to the classifier run on the samples actually read.
- `Scenarios`: concrete traces (a click, a long hold, three quick clicks, a
  lid toggling under a held button, time-outs before a good read).

Times are natural numbers in milliseconds. Both clocks start at 0, the
epoch. Differences of times are plain integers, so no lemma needs the clock
to be monotonic. `Config` carries the hold duration (default 1000) and the
double-click delay (300). The thread's constructor only lets callers choose
the first. The second is a field of the model so that the lemmas state the
rule for any value.

Behaviour of the loop worth noting:

- Every `usb.core.USBError` is absorbed, not only time-outs. The
  non-time-out branch of the `except` falls through to the next iteration
  (py_dream_cheeky/button.py:120-122). `Monitor.PollOnce` ignores
  `UsbError(timedOut)` for both values of `timedOut`.
- A full queue is not absorbed. `put_nowait` raises `queue.Full`, which is
  not a `USBError`, so it escapes `run` and ends the thread. The device is
  then never released. `Monitor.PollOnce` sets `alive` to false.
  `Monitor.OverflowStopsLoop` states what was delivered before that
  happened.
- `previous_lid_open` starts false. So a lid that is already open when the
  loop starts is reported as `LID_OPEN` on the first sample, and likewise a
  button already down is reported as a press (`Scenarios.StartsClosedAndUp`).

## Model

| member | source | states |
|---|---|---|
| `Decoder.Decode` | py_dream_cheeky/button.py:144 | lid open iff bit 1 of the byte is set (the byte halved is odd); button pressed iff bit 0 is clear |
| `Decoder.Encode` | py_dream_cheeky/button.py:144 | the canonical report for a sample uses only the two low bits |
| `Decoder.DecodeEncode` | py_dream_cheeky/button.py:144 | decoding recovers every sample from its canonical report |
| `Decoder.EncodeDecode` | py_dream_cheeky/button.py:144 | re-encoding a decoded byte yields exactly its two low bits: no other bit is read |
| `Decoder.LowBitsDetermineSample` | py_dream_cheeky/button.py:144 | two bytes decode alike iff they agree on bits 0 and 1 |
| `Classifier.Step` | py_dream_cheeky/button.py:84-118 | after a sample the loop remembers that sample's lid and button. A hold is never remembered with the button up. At most three events come from one sample |
| `Classifier.StepClocks` | py_dream_cheeky/button.py:104-112 | the press clock moves to the sample time exactly when a press is reported. The click clock moves exactly when a click or double click is reported |
| `Classifier.StepEmissionOrder` | py_dream_cheeky/button.py:86-114 | events within a sample come out in the order lid-open, lid-close, hold, click, double click, press, release, each at most once |
| `Classifier.Run` | py_dream_cheeky/button.py:79-118 | folding the loop body over a trace gives at most three events per sample and keeps the hold flag consistent with the button |
| `Classifier.StepCoOccurrence` | py_dream_cheeky/button.py:95-114 | hold and release never share a sample. A press comes only with that sample's lid events. Click and double click never share a sample |
| `Classifier.StepHold` | py_dream_cheeky/button.py:95-98 | a hold is reported iff the button is down on this and the previous sample, none fired yet this press, and the hold duration has passed since the press. The flag then stays set exactly while the button stays down |
| `Classifier.ReleaseClassification` | py_dream_cheeky/button.py:101-114 | on a release sample: a release is reported, and no hold or press. A click or double click comes iff no hold fired. It is a double click iff the last click is strictly less than the delay ago |
| `Classifier.NoButtonEdgeNoClick` | py_dream_cheeky/button.py:101-114 | without a button edge there is no press, release, click or double click |
| `Classifier.RunKeepsClickClock` | py_dream_cheeky/button.py:104-108 | over any trace that reports no click, the click clock does not move |
| `Classifier.FirstReleaseIsClick` | py_dream_cheeky/button.py:75-108 | from the initial state, while no click has been reported yet, a release ending a hold-free press at least the delay after the epoch is a single click, not a double click |
| `EdgeTraces.StepLidEvents` | py_dream_cheeky/button.py:86-89 | a sample's lid events are exactly the edge of the lid flag |
| `EdgeTraces.StepButtonEdgeEvents` | py_dream_cheeky/button.py:110-114 | a sample's press/release events are exactly the edge of the button flag |
| `EdgeTraces.RunLidEvents` | py_dream_cheeky/button.py:86-89 | over a trace, the lid events are one LID_OPEN per rising and one LID_CLOSE per falling edge of the lid signal, in order |
| `EdgeTraces.RunButtonEdgeEvents` | py_dream_cheeky/button.py:110-114 | over a trace, the press/release events are one PRESS per rising and one RELEASE per falling edge of the button signal, in order |
| `EdgeTraces.LidEventCounts` | py_dream_cheeky/button.py:86-89 | the number of LID_OPEN equals the number of false-to-true lid transitions, and LID_CLOSE the true-to-false ones |
| `EdgeTraces.PressReleaseCounts` | py_dream_cheeky/button.py:110-114 | the number of PRESS equals the number of false-to-true button transitions, and RELEASE the true-to-false ones |
| `EdgeTraces.LidEventsIgnoreButton` | py_dream_cheeky/button.py:86-89 | two traces with the same lid readings give the same lid events, whatever the button, clocks or thresholds |
| `EdgeTraces.EdgeEventsIgnoreLid` | py_dream_cheeky/button.py:110-114 | two traces with the same button readings give the same press/release events, whatever the lid, clocks or thresholds |
| `EdgeTraces.LidOpenCloseAlternate` | py_dream_cheeky/button.py:86-89 | lid opens and closes alternate: their counts differ only by the lid's state at the start and at the end |
| `ButtonProtocol.StepButtonEvents` | py_dream_cheeky/button.py:95-114 | the button events of one sample are its hold, then its click or double click, then its press or release, and no lid event among them |
| `ButtonProtocol.StepFollowsProtocol` | py_dream_cheeky/button.py:95-118 | one sample's button events are a legal move of the press-cycle automaton, ending in the phase of the new state |
| `ButtonProtocol.RunFollowsProtocol` | py_dream_cheeky/button.py:95-118 | a whole trace's button events are accepted by the automaton: press, at most one hold, click or double click only if no hold, then release |
| `ButtonProtocol.PressCycleCounts` | py_dream_cheeky/button.py:95-118 | from the start, presses equal releases plus the press still down. Holds, clicks and double clicks together equal releases plus a hold on the press still down |
| `ButtonProtocol.StepWhileHeld` | py_dream_cheeky/button.py:95-98 | with the button down on both samples, one hold is counted iff due, the press clock is kept, and the flag latches |
| `ButtonProtocol.HoldOnceWhileHeld` | py_dream_cheeky/button.py:95-98 | while the button stays down, exactly one hold is reported if none was yet and some sample reaches the hold duration, else none |
| `Dispatcher.HandleEvent` | py_dream_cheeky/button.py:149-160 | dispatch fails iff queueing is on and the queue already holds its capacity, and then changes nothing. The queue never grows past its capacity |
| `Dispatcher.HandleAll` | py_dream_cheeky/button.py:153-160 | dispatching a sample's events keeps the queue within capacity and always succeeds when queueing is off |
| `Dispatcher.HandleAllDelivered` | py_dream_cheeky/button.py:153-160 | a successful dispatch appends every event to the queue (if enabled) and starts the handler for every event (if set), in order |
| `Dispatcher.HandleAllSucceedsIffFits` | py_dream_cheeky/button.py:155-156 | dispatch into a queue within capacity succeeds iff queueing is off or all the events fit in the 128 slots |
| `Dispatcher.HandleAllQueueFull` | py_dream_cheeky/button.py:155-156 | on overflow exactly the events that fitted were queued and handled, and the queue is full |
| `Dispatcher.Take` | py_dream_cheeky/button.py:162-163 | a consumer's non-blocking get returns nothing iff the queue is empty, else the oldest event, with the rest kept in order |
| `Monitor.PollOnce` | py_dream_cheeky/button.py:79-122 | a USB error of any kind, or a dead thread, changes nothing. A thread never comes back to life. The queue stays within capacity |
| `Monitor.Perform` | py_dream_cheeky/button.py:79-122 | polls and consumer takes keep the queue within capacity. Only a poll can start handlers |
| `Monitor.PerformAll` | py_dream_cheeky/button.py:79-122 | over any sequence of whole polls and consumer takes, the queue stays within capacity and a dead thread stays dead |
| `Monitor.PerformRunsClassifier` | py_dream_cheeky/button.py:79-122 | one action on a surviving thread equals classifying the sample it read (none for an error or a take), then dispatching its events |
| `Monitor.LoopState` | py_dream_cheeky/button.py:79-118 | while the thread survives, its state is the classifier run on exactly the samples it read |
| `Monitor.LoopHandlerCalls` | py_dream_cheeky/button.py:158-160 | while the thread survives, handlers were started for every classified event, in emission order |
| `Monitor.LoopQueueOrder` | py_dream_cheeky/button.py:155-156 | while the thread survives, what consumers took followed by the queue is the classified event stream, first in first out |
| `Monitor.WithoutQueueNeverStops` | py_dream_cheeky/button.py:120-122 | with queueing off the loop never dies: USB errors are absorbed, and no other failure is modelled |
| `Monitor.ErrorsAreInvisible` | py_dream_cheeky/button.py:120-122 | removing every failed read, time-out or not, from a trace leaves the loop's outcome unchanged |
| `Monitor.OverflowStopsLoop` | py_dream_cheeky/button.py:149-156 | a poll whose events overflow the queue ends the thread. The events that fitted are queued and the queue is full |
| `Scenarios.SingleClick` | py_dream_cheeky/button.py:101-114 | press then release 50 ms later gives PRESS, then CLICK and RELEASE together |
| `Scenarios.LongHoldHeld` | py_dream_cheeky/button.py:95-118 | with the button down since 1100 ms, samples at 1600, 2100 and 2300 ms then a release give exactly one HOLD, at 2100 ms, and then only RELEASE |
| `Scenarios.LongHold` | py_dream_cheeky/button.py:95-114 | a 1300 ms press gives PRESS, one HOLD at the 1000 ms mark, then only RELEASE |
| `Scenarios.PressThenRelease` | py_dream_cheeky/button.py:101-114 | from idle, a press sample then a release sample give PRESS, then CLICK or (within the window of the last click) DOUBLE_CLICK, then RELEASE. No hold can fire |
| `Scenarios.QuickClicksAgain` | py_dream_cheeky/button.py:104-108 | after a click at 1050 ms, releases at 1200 and 1350 ms are each a DOUBLE_CLICK, because each is compared with the click just before it |
| `Scenarios.QuickClicks` | py_dream_cheeky/button.py:104-108 | releases 150 ms apart give CLICK, DOUBLE_CLICK, DOUBLE_CLICK, with no triple click |
| `Scenarios.LidUnderHeldButton` | py_dream_cheeky/button.py:86-114 | the lid opening and closing under a held button adds LID_OPEN, LID_CLOSE without disturbing the click |
| `Scenarios.StartsClosedAndUp` | py_dream_cheeky/button.py:75-77 | a lid open and a button down on the first sample are reported as LID_OPEN and PRESS |
| `Scenarios.TimeoutsThenReport` | py_dream_cheeky/button.py:120-122 | five time-outs and then a report with byte 0 end exactly as the single report does: one PRESS queued and handled |

## Left out

- Device discovery, kernel-driver detach/attach, interface and endpoint lookup, and release (py_dream_cheeky/button.py:13-14, 53-70, 124-125). This is USB I/O through pyusb. A missing device (the `RuntimeError` of `init`) happens before the loop starts.
- The control transfer and endpoint read in `read_button_data` (py_dream_cheeky/button.py:129-142). This is raw transport. A read is modelled as either the first report byte or a USB error.
- `datetime.now()`. Read times are caller-supplied naturals in milliseconds. The real clock has microsecond resolution. Comparisons against the thresholds behave the same once everything is in one unit.
- The `running` flag and `stop()` (py_dream_cheeky/button.py:44, 70, 79, 146-147). These are lifecycle and cross-thread signalling. A trace simply ends where the loop would stop.
- Handler threads (py_dream_cheeky/button.py:159-160). Concurrency is not modelled. The model records, in order, the events a handler thread was started for. The order in which those threads run is not.
- Consumer takes in the middle of one sample. A `Poll` dispatches all of one sample's events at once, and consumer takes happen only between polls. In the program a consumer thread can call `get_nowait` between two `handle_event` calls of the same iteration (py_dream_cheeky/button.py:87-114). With 127 events queued and a `[BUTTON_CLICK, BUTTON_RELEASE]` sample, such a take lets the thread survive, whereas `Monitor.OverflowStopsLoop` ends it. Thread scheduling is not modelled.
- Failures other than USB errors and a full queue. `threading.Thread(...).start()` can raise `RuntimeError` (py_dream_cheeky/button.py:159-160), and `data[0]` raises `IndexError` on a zero-length read (py_dream_cheeky/button.py:144). Neither is a `USBError`, so either one would end the thread. The model's reads always carry a byte and handler starts always succeed, so `Monitor.WithoutQueueNeverStops` does not cover these failures.
- Consumer-side blocking `get` on the queue returned by `get_event_queue`. Only the non-blocking take is modelled. A blocking get differs only in waiting.
- The `isinstance` guard of `handle_event` (py_dream_cheeky/button.py:150-151). It cannot fail for the closed `EventType`.
- The identity fields of `DreamCheekyEvent` (thread and device references; py_dream_cheeky/__init__.py:27-43). An event is its type only.
- Partial state updates inside a sample whose dispatch raises. The thread ends there, so the model keeps the previous classifier state of the dead loop. Nothing observes that state.
- Classifier.FirstReleaseIsClick: requires the release to be read at least the double-click delay after the epoch. The source's `datetime.now()` is always far past the 1970 epoch, so this holds of every real read. The clocks here are free naturals.
- `setup.py`: packaging metadata, no behaviour.
