/** The one-button gesture recogniser: a key state, the time of the first press and a one-shot
    300 ms alarm.  Handlers are atomic, and an alarm is delivered before any key event that is not
    earlier than its deadline. */
module Button {
  import opened CArith

  const LONG_MS := 300
  const ALARM_US := 300 * 1000

  /** A `timeval`. */
  datatype Stamp = Stamp(sec: int, usec: int)

  ghost predicate ValidStamp(t: Stamp) {
    0 <= t.usec < 1_000_000
  }

  function Micro(t: Stamp): int {
    t.sec * 1_000_000 + t.usec
  }

  /** Milliseconds between two stamps as the handler computes them; the microsecond difference can
      be negative and is then truncated toward zero. */
  function ElapsedMs(old': Stamp, new': Stamp): int {
    (new'.sec - old'.sec) * 1000 + TruncDiv(new'.usec - old'.usec, 1000)
  }

  datatype ButtonState = Idle | FirstPress | FirstRelease

  datatype Gesture = Short | Double | Long

  /** An input event; a key event has value 1 for a press, 0 for a release, 2 for auto-repeat. */
  datatype KeyEvent = KeyEvent(isKey: bool, value: int, at: Stamp)

  datatype Machine = Machine(state: ButtonState, pressedAt: Stamp, alarm: Option<int>, emitted: seq<Gesture>)

  function OnKey(m: Machine, ev: KeyEvent): Machine {
    if !ev.isKey then m
    else if ev.value == 1 then
      match m.state
      case Idle => m.(state := FirstPress, pressedAt := ev.at)
      case FirstRelease => m.(state := Idle, alarm := None, emitted := m.emitted + [Double])
      case FirstPress => m
    else if ev.value == 0 && m.state == FirstPress then
      if ElapsedMs(m.pressedAt, ev.at) > LONG_MS then m.(state := Idle, emitted := m.emitted + [Long])
      else m.(state := FirstRelease, alarm := Some(Micro(ev.at) + ALARM_US))
    else m
  }

  /** `Handle`, entered once when the alarm expires. */
  function OnAlarm(m: Machine): Machine {
    m.(state := Idle, alarm := None, emitted := m.emitted + [Short])
  }

  class Button {
    var state: ButtonState
    var old': Stamp
    var alarm: Option<int>
    var emitted: seq<Gesture>

    ghost function View(): Machine
      reads this
    {
      Machine(state, old', alarm, emitted)
    }

    constructor ()
      ensures View() == Machine(Idle, Stamp(0, 0), None, [])
    {
      state, old', alarm, emitted := Idle, Stamp(0, 0), None, [];
    }

    method ReadButton(ev: KeyEvent)
      modifies this
      ensures View() == OnKey(old(View()), ev)
    {
      if !ev.isKey {
        return;
      }
      if ev.value == 1 {
        if state == Idle {
          old' := ev.at;
          state := FirstPress;
        } else if state == FirstRelease {
          emitted := emitted + [Double];
          state := Idle;
          alarm := None;
        }
      } else if ev.value == 0 {
        if state == FirstPress {
          var now := ev.at;
          if (now.sec - old'.sec) * 1000 + TruncDiv(now.usec - old'.usec, 1000) > LONG_MS {
            emitted := emitted + [Long];
            state := Idle;
          } else {
            state := FirstRelease;
            alarm := Some(Micro(now) + ALARM_US);
          }
        }
      }
    }

    method Handle()
      modifies this
      ensures View() == OnAlarm(old(View()))
    {
      alarm := None;
      emitted := emitted + [Short];
      state := Idle;
    }
  }

  // -------------------------------------------------------------------- runs

  function Feed(m: Machine, ev: KeyEvent): Machine {
    OnKey(if m.alarm.Some? && m.alarm.value <= Micro(ev.at) then OnAlarm(m) else m, ev)
  }

  function Run(m: Machine, evs: seq<KeyEvent>): Machine
    decreases |evs|
  {
    if evs == [] then m else Run(Feed(m, evs[0]), evs[1..])
  }

  /** Time passes with no further event: a pending alarm goes off. */
  function Settle(m: Machine): Machine {
    if m.alarm.Some? then OnAlarm(m) else m
  }

  /** The alarm is armed exactly while a short first click waits for a second one. */
  ghost predicate AlarmOk(m: Machine) {
    m.alarm.Some? <==> m.state == FirstRelease
  }

  lemma {:induction false} AlarmArmedIffWaiting(m: Machine, evs: seq<KeyEvent>)
    requires AlarmOk(m)
    ensures AlarmOk(Run(m, evs))
    decreases |evs|
  {
    if evs != [] {
      AlarmArmedIffWaiting(Feed(m, evs[0]), evs[1..]);
    }
  }

  // ------------------------------------------------------------ counting law

  ghost predicate IsPress(ev: KeyEvent) {
    ev.isKey && ev.value == 1
  }

  ghost predicate IsRelease(ev: KeyEvent) {
    ev.isKey && ev.value == 0
  }

  /** Presses and releases alternate; other events may come anywhere. */
  ghost predicate Alternates(evs: seq<KeyEvent>, pressNext: bool) {
    evs != [] ==>
      && (IsPress(evs[0]) ==> pressNext)
      && (IsRelease(evs[0]) ==> !pressNext)
      && Alternates(evs[1..], AfterEvent(evs[0], pressNext))
  }

  ghost function Presses(evs: seq<KeyEvent>): nat {
    if evs == [] then 0 else (if IsPress(evs[0]) then 1 else 0) + Presses(evs[1..])
  }

  /** Presses accounted for by the emitted gestures. */
  ghost function Spent(gs: seq<Gesture>): nat {
    if gs == [] then 0
    else Spent(gs[..|gs| - 1]) + if gs[|gs| - 1] == Double then 2 else 1
  }

  ghost function Pending(m: Machine): nat {
    if m.state == Idle then 0 else 1
  }

  ghost predicate Expects(m: Machine, pressNext: bool) {
    AlarmOk(m) && if pressNext then m.state != FirstPress else m.state != FirstRelease
  }

  ghost function AfterEvent(ev: KeyEvent, pressNext: bool): bool {
    if IsPress(ev) then false else if IsRelease(ev) then true else pressNext
  }

  ghost function Counted(m: Machine): nat {
    Spent(m.emitted) + Pending(m)
  }

  lemma AlarmCounts(m: Machine, pressNext: bool)
    requires Expects(m, pressNext) && m.alarm.Some?
    ensures Expects(OnAlarm(m), pressNext) && Counted(OnAlarm(m)) == Counted(m)
  {
    SpentSnoc(m.emitted);
  }

  lemma KeyCounts(m: Machine, ev: KeyEvent, pressNext: bool)
    requires Expects(m, pressNext) && (IsPress(ev) ==> pressNext) && (IsRelease(ev) ==> !pressNext)
    ensures Expects(OnKey(m, ev), AfterEvent(ev, pressNext))
    ensures Counted(OnKey(m, ev)) == Counted(m) + if IsPress(ev) then 1 else 0
  {
    SpentSnoc(m.emitted);
  }

  /** No press is lost or counted twice: at every point of an alternating trace each press belongs
      to exactly one emitted gesture, or to the one that is pending. */
  lemma {:induction false} EveryPressCountedOnce(m: Machine, evs: seq<KeyEvent>, pressNext: bool)
    requires Alternates(evs, pressNext) && Expects(m, pressNext)
    ensures Counted(Run(m, evs)) == Counted(m) + Presses(evs)
    decreases |evs|
  {
    if evs != [] {
      if m.alarm.Some? && m.alarm.value <= Micro(evs[0].at) {
        AlarmCounts(m, pressNext);
        KeyCounts(OnAlarm(m), evs[0], pressNext);
      } else {
        KeyCounts(m, evs[0], pressNext);
      }
      EveryPressCountedOnce(Feed(m, evs[0]), evs[1..], AfterEvent(evs[0], pressNext));
    }
  }

  lemma SpentSnoc(gs: seq<Gesture>)
    ensures Spent(gs + [Short]) == Spent(gs) + 1
    ensures Spent(gs + [Long]) == Spent(gs) + 1
    ensures Spent(gs + [Double]) == Spent(gs) + 2
  {
    assert (gs + [Short])[..|gs|] == gs && (gs + [Long])[..|gs|] == gs && (gs + [Double])[..|gs|] == gs;
  }

  // ---------------------------------------------------------- classification

  /** One press of the button: held from `down` until `up`, or still held. */
  datatype Hold = Click(down: Stamp, up: Stamp) | Pressed(down: Stamp)

  /** Times are `timeval`s and never go back. */
  ghost predicate Ordered(evs: seq<KeyEvent>) {
    && (forall k | 0 <= k < |evs| :: ValidStamp(evs[k].at))
    && (forall j, k | 0 <= j <= k < |evs| :: Micro(evs[j].at) <= Micro(evs[k].at))
  }

  /** The presses of a stream that starts with the button up.  Synchronisation events and the
      repeats of a held key are no part of them. */
  ghost function Holds(evs: seq<KeyEvent>): seq<Hold>
    decreases |evs|
  {
    if evs == [] then []
    else if IsPress(evs[0]) then HoldsDown(evs[1..], evs[0].at)
    else Holds(evs[1..])
  }

  /** The presses of a stream that starts with the button down since `down`. */
  ghost function HoldsDown(evs: seq<KeyEvent>, down: Stamp): (hs: seq<Hold>)
    ensures hs != [] && hs[0].down == down
    decreases |evs|
  {
    if evs == [] then [Pressed(down)]
    else if IsRelease(evs[0]) then [Click(down, evs[0].at)] + Holds(evs[1..])
    else HoldsDown(evs[1..], down)
  }

  /** Held for at least 301 ms, or for more than 300 ms with the microsecond field wrapping. */
  ghost predicate IsLong(down: Stamp, up: Stamp) {
    || Micro(up) - Micro(down) >= 301_000
    || (Micro(up) - Micro(down) > 300_000 && up.usec < down.usec)
  }

  /** What a stream of presses means: a long one stands alone, a short one joins a press that
      begins less than 300 ms after its release, and otherwise counts by itself; a press still held
      means nothing yet unless it is the second of two. */
  ghost function Classify(hs: seq<Hold>): seq<Gesture> {
    if hs == [] || hs[0].Pressed? then []
    else if IsLong(hs[0].down, hs[0].up) then [Long] + Classify(hs[1..])
    else if |hs| > 1 && Micro(hs[1].down) - Micro(hs[0].up) < 300_000 then [Double] + Classify(hs[2..])
    else [Short] + Classify(hs[1..])
  }

  /** The handler's millisecond arithmetic, exactly. */
  lemma LongPressExact(down: Stamp, up: Stamp)
    requires ValidStamp(down) && ValidStamp(up)
    ensures ElapsedMs(down, up) > LONG_MS <==> IsLong(down, up)
  {
    TruncFacts(up.usec - down.usec, 1000);
  }

  ghost predicate Ready(m: Machine) {
    m.state == Idle && m.alarm == None
  }

  /** Where the button stands: up; down in a first press; up after a short one, waiting; or down in
      a second press that has already been counted. */
  datatype Phase = KeyUp | First(d: Stamp) | Waiting(d: Stamp, u: Stamp) | Second(d: Stamp)

  ghost predicate InPhase(m: Machine, p: Phase) {
    match p
    case KeyUp => Ready(m)
    case First(d) => m.state == FirstPress && m.pressedAt == d && m.alarm == None && ValidStamp(d)
    case Waiting(d, u) =>
      m.state == FirstRelease && m.alarm == Some(Micro(u) + ALARM_US) && !IsLong(d, u)
    case Second(_) => Ready(m)
  }

  ghost predicate IsUp(p: Phase) {
    p.KeyUp? || p.Waiting?
  }

  /** The presses from a phase on, without a second one that has been counted. */
  ghost function HoldsFrom(p: Phase, evs: seq<KeyEvent>): seq<Hold> {
    match p
    case KeyUp => Holds(evs)
    case First(d) => HoldsDown(evs, d)
    case Waiting(d, u) => [Click(d, u)] + Holds(evs)
    case Second(d) => HoldsDown(evs, d)[1..]
  }

  ghost function NextPhase(p: Phase, ev: KeyEvent): Phase {
    if IsPress(ev) then if p.Waiting? then Second(ev.at) else First(ev.at)
    else if IsRelease(ev) then
      if p.First? && !IsLong(p.d, ev.at) then Waiting(p.d, ev.at) else KeyUp
    else p
  }

  /** The next press of an ordered stream begins no earlier than the stream. */
  lemma {:induction false} NextHoldLater(evs: seq<KeyEvent>, t: int)
    requires Ordered(evs) && (evs != [] ==> t <= Micro(evs[0].at))
    ensures Holds(evs) != [] ==> t <= Micro(Holds(evs)[0].down)
    decreases |evs|
  {
    if evs != [] {
      if !IsPress(evs[0]) {
        NextHoldLater(evs[1..], t);
      }
    }
  }

  /** Taking one event, or an alarm, from phase `p` with `evs` to come to phase `q` with `rest`
      emits what the classification says. */
  ghost predicate Emits(m: Machine, p: Phase, evs: seq<KeyEvent>, t: Machine, q: Phase, rest: seq<KeyEvent>) {
    && InPhase(t, q)
    && t.emitted + Classify(HoldsFrom(q, rest)) == m.emitted + Classify(HoldsFrom(p, evs))
  }

  lemma Regroup(e: seq<Gesture>, g: Gesture, rest: seq<Gesture>)
    ensures e + ([g] + rest) == (e + [g]) + rest
  {
  }

  /** An alarm that goes off settles a short press: what follows begins too late to join it. */
  lemma AlarmStep(m: Machine, p: Phase, evs: seq<KeyEvent>)
    requires p.Waiting? && InPhase(m, p) && Ordered(evs)
    requires evs != [] ==> m.alarm.value <= Micro(evs[0].at)
    ensures Emits(m, p, evs, OnAlarm(m), KeyUp, evs)
  {
    NextHoldLater(evs, m.alarm.value);
    assert HoldsFrom(p, evs)[1..] == Holds(evs);
    Regroup(m.emitted, Short, Classify(Holds(evs)));
  }

  lemma PressStep(m: Machine, p: Phase, evs: seq<KeyEvent>)
    requires evs != [] && IsPress(evs[0]) && IsUp(p) && InPhase(m, p) && ValidStamp(evs[0].at)
    requires m.alarm.Some? ==> Micro(evs[0].at) < m.alarm.value
    ensures Emits(m, p, evs, OnKey(m, evs[0]), NextPhase(p, evs[0]), evs[1..])
  {
    if p.Waiting? {
      var hs := HoldsDown(evs[1..], evs[0].at);
      assert HoldsFrom(p, evs)[1] == hs[0] && HoldsFrom(p, evs)[2..] == hs[1..];
      Regroup(m.emitted, Double, Classify(hs[1..]));
    }
  }

  lemma ReleaseStep(m: Machine, p: Phase, evs: seq<KeyEvent>)
    requires evs != [] && IsRelease(evs[0]) && !IsUp(p) && InPhase(m, p) && ValidStamp(evs[0].at)
    ensures Emits(m, p, evs, OnKey(m, evs[0]), NextPhase(p, evs[0]), evs[1..])
  {
    var hs := Holds(evs[1..]);
    assert HoldsDown(evs, p.d)[1..] == hs;
    if p.First? {
      LongPressExact(p.d, evs[0].at);
      Regroup(m.emitted, Long, Classify(hs));
    }
  }

  /** One event, after any alarm due before it. */
  lemma KeyStep(m: Machine, p: Phase, evs: seq<KeyEvent>)
    requires evs != [] && Ordered(evs) && Alternates(evs, IsUp(p)) && InPhase(m, p)
    requires m.alarm.Some? ==> Micro(evs[0].at) < m.alarm.value
    ensures Emits(m, p, evs, OnKey(m, evs[0]), NextPhase(p, evs[0]), evs[1..])
  {
    if IsPress(evs[0]) {
      PressStep(m, p, evs);
    } else if IsRelease(evs[0]) {
      ReleaseStep(m, p, evs);
    }
  }

  /** The stream ends and a pending alarm goes off. */
  lemma EndStep(m: Machine, p: Phase)
    requires InPhase(m, p)
    ensures Settle(m).emitted == m.emitted + Classify(HoldsFrom(p, []))
  {
    if p.Waiting? {
      AlarmStep(m, p, []);
    }
  }

  lemma {:induction false} GivesMeaning(m: Machine, p: Phase, evs: seq<KeyEvent>)
    requires Ordered(evs) && Alternates(evs, IsUp(p)) && InPhase(m, p)
    ensures Settle(Run(m, evs)).emitted == m.emitted + Classify(HoldsFrom(p, evs))
    decreases |evs|, if p.Waiting? then 1 else 0
  {
    hide HoldsFrom, OnKey, Classify;
    if evs == [] {
      EndStep(m, p);
    } else if p.Waiting? && m.alarm.value <= Micro(evs[0].at) {
      AlarmStep(m, p, evs);
      GivesMeaning(OnAlarm(m), KeyUp, evs);
    } else {
      KeyStep(m, p, evs);
      GivesMeaning(OnKey(m, evs[0]), NextPhase(p, evs[0]), evs[1..]);
    }
  }

  /** The recogniser emits exactly the classification of any stream of events in which presses and
      releases alternate, whatever synchronisation and repeat events come between and whether or not
      the last press has been released. */
  lemma RecognisesClassification(m: Machine, evs: seq<KeyEvent>)
    requires Ready(m) && Ordered(evs) && Alternates(evs, true)
    ensures Settle(Run(m, evs)).emitted == m.emitted + Classify(Holds(evs))
  {
    GivesMeaning(m, KeyUp, evs);
  }
}
