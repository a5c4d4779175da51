/** The watcher and the widget together: what the one signals is what the other is told. */
module Applet {
  import opened History
  import StateWatcher
  import WatcherRuns
  import Widget
  import WidgetRuns

  /** What reaches the widget: a signal of the watcher, with the clock and the window length it finds, or
      a change of one of its own settings. */
  datatype Input =
    | Heard(signal: StateWatcher.Signal, now: int, length: nat)
    | LingerSet(seconds: int)
    | ExclusionSet(entries: seq<string>)

  /** The widget's handler of an input, if it has one. */
  function Deliver(x: Input): seq<Widget.Event> {
    match x
    case Heard(IntervalMsChanged(_), _, _) => [Widget.SpacingChanged]
    case Heard(StatusChanged(status), _, _) => if status == StateWatcher.Ok then [] else [Widget.DaemonLost]
    case Heard(Updated(doc, _), now, length) => [Widget.Ingested(now, doc, length)]
    case Heard(_, _, _) => []
    case LingerSet(seconds) => [Widget.LingerChanged(seconds)]
    case ExclusionSet(entries) => [Widget.ExclusionChanged(entries)]
  }

  function Events(inputs: seq<Input>): seq<Widget.Event> {
    if inputs == [] then [] else Events(inputs[..|inputs| - 1]) + Deliver(inputs[|inputs| - 1])
  }

  function Signals(inputs: seq<Input>): seq<StateWatcher.Signal> {
    if inputs == [] then []
    else
      var x := inputs[|inputs| - 1];
      Signals(inputs[..|inputs| - 1]) + if x.Heard? then [x.signal] else []
  }

  predicate Publishes(x: Input) {
    x.Heard? && x.signal.Updated?
  }

  /** A signal that empties the windows. */
  predicate Clears(x: Input) {
    && x.Heard?
    && (x.signal.IntervalMsChanged? || (x.signal.StatusChanged? && x.signal.status != StateWatcher.Ok))
  }

  /** How many inputs there are up to the last that clears. */
  function ClearedAt(inputs: seq<Input>): (c: nat)
    ensures c <= |inputs| && (c > 0 ==> Clears(inputs[c - 1]))
    ensures forall j :: c <= j < |inputs| ==> !Clears(inputs[j])
  {
    if inputs == [] then 0
    else if Clears(inputs[|inputs| - 1]) then |inputs|
    else
      var front := inputs[..|inputs| - 1];
      assert forall j :: 0 <= j < |front| ==> front[j] == inputs[j];
      ClearedAt(front)
  }

  function Excluded(start: Widget.State, inputs: seq<Input>): seq<string> {
    WidgetRuns.Run(start, Events(inputs)).excluded
  }

  /** The sample a snapshot gives: the applications of that very document, without those excluded when
      it came. */
  function SampleOf(x: Input, excluded: seq<string>): Tick
    requires Publishes(x)
  {
    Tick(x.now, Widget.Kept(x.signal.doc.apps, excluded), x.length)
  }

  /** The samples of the snapshots from input number c on, in order. */
  function Samples(start: Widget.State, inputs: seq<Input>, c: nat): seq<Tick> {
    if |inputs| <= c then []
    else
      var front, x := inputs[..|inputs| - 1], inputs[|inputs| - 1];
      Samples(start, front, c) + if Publishes(x) then [SampleOf(x, Excluded(start, front))] else []
  }

  lemma {:induction false} WindowsNext(start: Widget.State, run: seq<Widget.Event>, e: Widget.Event)
    ensures WidgetRuns.LogOf(start, run + [e]).windows
         == match e
            case Ingested(now, doc, length) =>
              WidgetRuns.LogOf(start, run).windows
                + [Tick(now, Widget.Kept(doc.apps, WidgetRuns.Run(start, run).excluded), length)]
            case SpacingChanged => []
            case DaemonLost => []
            case _ => WidgetRuns.LogOf(start, run).windows
  {
    assert (run + [e])[..|run|] == run;
  }

  lemma {:induction false} PublishNext(start: Widget.State, inputs: seq<Input>, x: Input)
    requires Publishes(x)
    ensures WidgetRuns.LogOf(start, Events(inputs) + Deliver(x)).windows
         == WidgetRuns.LogOf(start, Events(inputs)).windows + [SampleOf(x, Excluded(start, inputs))]
  {
    var e := Widget.Ingested(x.now, x.signal.doc, x.length);
    assert Deliver(x) == [e];
    WindowsNext(start, Events(inputs), e);
  }

  lemma {:induction false} ClearNext(start: Widget.State, inputs: seq<Input>, x: Input)
    requires Clears(x)
    ensures WidgetRuns.LogOf(start, Events(inputs) + Deliver(x)).windows == []
  {
    var e := if x.signal.IntervalMsChanged? then Widget.SpacingChanged else Widget.DaemonLost;
    WindowsNext(start, Events(inputs), e);
  }

  lemma {:induction false} OtherNext(start: Widget.State, inputs: seq<Input>, x: Input)
    requires !Clears(x) && !Publishes(x)
    ensures WidgetRuns.LogOf(start, Events(inputs) + Deliver(x)).windows
         == WidgetRuns.LogOf(start, Events(inputs)).windows
  {
    match x {
      case Heard(_, _, _) => assert Events(inputs) + [] == Events(inputs);
      case LingerSet(seconds) => WindowsNext(start, Events(inputs), Widget.LingerChanged(seconds));
      case ExclusionSet(entries) => WindowsNext(start, Events(inputs), Widget.ExclusionChanged(entries));
    }
  }

  /** The widget's windows are, sample by sample, those of the snapshots since they were last cleared. */
  lemma {:induction false} WindowsAreSamples(start: Widget.State, inputs: seq<Input>)
    ensures WidgetRuns.LogOf(start, Events(inputs)).windows == Samples(start, inputs, ClearedAt(inputs))
  {
    if inputs != [] {
      var front, x := inputs[..|inputs| - 1], inputs[|inputs| - 1];
      WindowsAreSamples(start, front);
      if Publishes(x) {
        PublishNext(start, front, x);
      } else if Clears(x) {
        ClearNext(start, front, x);
      } else {
        OtherNext(start, front, x);
        assert Samples(start, front, ClearedAt(front)) + [] == Samples(start, front, ClearedAt(front));
      }
    }
  }

  lemma {:induction false} EventsNext(start: Widget.State, inputs: seq<Input>, x: Input, e: Widget.Event)
    requires Deliver(x) == [e]
    ensures WidgetRuns.Run(start, Events(inputs + [x])) == Widget.Step(WidgetRuns.Run(start, Events(inputs)), e)
  {
    hide Widget.Step;
    assert (inputs + [x])[..|inputs|] == inputs;
    assert (Events(inputs) + [e])[..|Events(inputs)|] == Events(inputs);
  }

  /** A change of a setting reaches the widget at once: whatever lingered under the old one is let go, and
      the windows stay. */
  lemma {:induction false} SettingsReachWidget(
    start: Widget.State, inputs: seq<Input>, seconds: int, entries: seq<string>)
    ensures var s := WidgetRuns.Run(start, Events(inputs));
            && WidgetRuns.Run(start, Events(inputs + [LingerSet(seconds)]))
               == s.(lingering := map[], lingerSeconds := seconds)
            && WidgetRuns.Run(start, Events(inputs + [ExclusionSet(entries)]))
               == s.(lingering := map[], excluded := entries)
  {
    hide Widget.Step, WidgetRuns.Run, Events;
    Widget.ResetsClear(WidgetRuns.Run(start, Events(inputs)), seconds, entries);
    EventsNext(start, inputs, LingerSet(seconds), Widget.LingerChanged(seconds));
    EventsNext(start, inputs, ExclusionSet(entries), Widget.ExclusionChanged(entries));
  }

  ghost predicate AllSpaced(inputs: seq<Input>, c: nat, interval: int) {
    forall j :: c <= j < |inputs| && Publishes(inputs[j]) ==> inputs[j].signal.spacing == interval
  }

  lemma {:induction false} RecordedNext(log: seq<StateWatcher.Signal>, x: StateWatcher.Signal)
    ensures WatcherRuns.Recorded(log + [x])
         == match x
            case IntervalMsChanged(_) => []
            case StatusChanged(status) => if status == StateWatcher.Ok then WatcherRuns.Recorded(log) else []
            case Updated(_, spacing) => WatcherRuns.Recorded(log) + [spacing]
            case _ => WatcherRuns.Recorded(log)
  {
    assert (log + [x])[..|log|] == log;
  }

  lemma {:induction false} OneSpacingFront(spacings: seq<int>, last: int, interval: int)
    requires WatcherRuns.OneSpacing(spacings + [last], interval)
    ensures WatcherRuns.OneSpacing(spacings, interval) && last == interval
  {
    var all := spacings + [last];
    assert all[|spacings|] == last;
    assert forall i :: 0 <= i < |spacings| ==> spacings[i] == all[i];
  }

  lemma {:induction false} RecordedAreSpaced(inputs: seq<Input>, interval: int)
    requires WatcherRuns.OneSpacing(WatcherRuns.Recorded(Signals(inputs)), interval)
    ensures AllSpaced(inputs, ClearedAt(inputs), interval)
  {
    if inputs != [] && !Clears(inputs[|inputs| - 1]) {
      var front, x := inputs[..|inputs| - 1], inputs[|inputs| - 1];
      if x.Heard? {
        RecordedNext(Signals(front), x.signal);
      } else {
        assert Signals(front) + [] == Signals(front);
      }
      if Publishes(x) {
        OneSpacingFront(WatcherRuns.Recorded(Signals(front)), x.signal.spacing, interval);
      }
      RecordedAreSpaced(front, interval);
      assert forall j :: 0 <= j < |front| ==> inputs[j] == front[j];
    }
  }

  predicate Roomy(inputs: seq<Input>) {
    inputs != [] ==>
      Roomy(inputs[..|inputs| - 1]) && (inputs[|inputs| - 1].Heard? ==> inputs[|inputs| - 1].length > 0)
  }

  lemma {:induction false} EventsAreRoomy(inputs: seq<Input>)
    requires Roomy(inputs)
    ensures WidgetRuns.Roomy(Events(inputs))
  {
    if inputs != [] {
      var front, x := inputs[..|inputs| - 1], inputs[|inputs| - 1];
      EventsAreRoomy(front);
      if Deliver(x) == [] {
        assert Events(front) + [] == Events(front);
      } else {
        WidgetRuns.RoomyNext(Events(front), Deliver(x)[0]);
      }
    }
  }

  /** Whatever happens to the watcher and to the widget's settings: the widget's windows are those of the
      samples of the snapshots since they were last cleared, and of no others; and each of those snapshots
      was accepted at the spacing that the watcher's intervalMs, and so the time axis, now claims. */
  lemma {:induction false} WindowsHoldOneSpacing(
    start: Widget.State, events: seq<StateWatcher.Event>, inputs: seq<Input>)
    requires start.history == map[] && Roomy(inputs)
    requires Signals(inputs) == StateWatcher.Run(StateWatcher.Initial, events).log
    ensures Refines(WidgetRuns.Run(start, Events(inputs)).history, Samples(start, inputs, ClearedAt(inputs)))
    ensures AllSpaced(inputs, ClearedAt(inputs), StateWatcher.Run(StateWatcher.Initial, events).intervalMs)
  {
    EventsAreRoomy(inputs);
    WidgetRuns.WindowsAgree(start, Events(inputs));
    WindowsAreSamples(start, inputs);
    WatcherRuns.WindowsNeverMixSpacings(events);
    RecordedAreSpaced(inputs, StateWatcher.Run(StateWatcher.Initial, events).intervalMs);
  }

  /** The windows of the widget, read off the samples of the snapshots since they were last cleared. */
  ghost predicate ReadsBack(history: map<string, seq<nat>>, samples: seq<Tick>, k: string, j: nat) {
    samples != [] && j < samples[|samples| - 1].length ==>
      var n := samples[|samples| - 1].length;
      |View(history, k, n)| == n && View(history, k, n)[n - 1 - j] == ReadingBack(samples, k, j)
  }

  lemma {:induction false} RefinedReads(history: map<string, seq<nat>>, samples: seq<Tick>, k: string, j: nat)
    requires Refines(history, samples)
    ensures ReadsBack(history, samples, k, j)
  {
    if samples != [] && j < samples[|samples| - 1].length {
      RefinedReadsBack(history, samples, k, j);
    }
  }

  /** Read off a row: j places from the right edge of its window stands the rate j snapshots ago, counted
      from when the windows were last cleared, and zero before that. */
  lemma {:induction false} WindowsReadBack(start: Widget.State, inputs: seq<Input>, k: string, j: nat)
    requires start.history == map[] && Roomy(inputs)
    ensures ReadsBack(WidgetRuns.Run(start, Events(inputs)).history, Samples(start, inputs, ClearedAt(inputs)), k, j)
  {
    hide ReadsBack, Samples, Refines;
    EventsAreRoomy(inputs);
    WidgetRuns.WindowsAgree(start, Events(inputs));
    WindowsAreSamples(start, inputs);
    RefinedReads(WidgetRuns.Run(start, Events(inputs)).history, Samples(start, inputs, ClearedAt(inputs)), k, j);
  }
}
