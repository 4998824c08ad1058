/** The user's two ways to reach the player: the app's pause button, which decides by the statuses
    it has seen, and the device's own button, which decides by the device's flags. */
module Controls {
  import opened CArith
  import opened MusicLink
  import opened Playback
  import opened Reachable
  import opened Refinement
  import opened RefinementRuns
  import B = Button

  // -------------------------------------------------------------- the app

  /** The status the device puts into its one-second report. */
  function StatusOf(start: bool, suspend: bool): string {
    if !start then "stop" else if !suspend then "start" else "suspend"
  }

  datatype AppFlags = AppFlags(start: bool, suspend: bool)

  function Heard(f: AppFlags, status: string): AppFlags {
    if status == "stop" then f.(start := false)
    else if status == "suspend" then f.(suspend := true)
    else if status == "start" then AppFlags(true, false)
    else f
  }

  function PauseCommand(f: AppFlags): string {
    if !f.start then "app_start" else if f.suspend then "app_continue" else "app_suspend"
  }

  /** What the app's window shows: the current track, which of its two mode buttons is checked, the
      device and its volume. */
  datatype Window = Window(curMusic: string, mode: Option<PlayMode>, deviceid: string, volume: int)

  function Shown(w: Window, curMusic: string, deviceid: string, volume: int, mode: int): Window {
    Window(curMusic, if mode == 1 then Some(Sequence) else if mode == 2 then Some(Circle) else w.mode,
           deviceid, volume)
  }

  /** The app's player window; its flags start out as they do in the source. */
  class App {
    var startFlag: bool
    var suspendFlag: bool
    var window: Window

    ghost function View(): AppFlags
      reads this
    {
      AppFlags(startFlag, suspendFlag)
    }

    constructor ()
      ensures View() == AppFlags(false, true)
    {
      startFlag, suspendFlag := false, true;
      window := Window("", None, "", 0);
    }

    method HandleInfo(curMusic: string, status: string, deviceid: string, volume: int, mode: int)
      modifies this
      ensures View() == Heard(old(View()), status)
      ensures window == Shown(old(window), curMusic, deviceid, volume, mode)
    {
      window := window.(curMusic := curMusic);
      if status == "stop" {
        startFlag := false;
      } else if status == "suspend" {
        suspendFlag := true;
      } else if status == "start" {
        startFlag := true;
        suspendFlag := false;
      }
      window := window.(deviceid := deviceid, volume := volume);
      if mode == 1 {
        window := window.(mode := Some(Sequence));
      } else if mode == 2 {
        window := window.(mode := Some(Circle));
      }
    }

    method OnPauseButtonClicked() returns (cmd: string)
      ensures cmd == PauseCommand(View())
    {
      if !startFlag {
        cmd := "app_start";
      } else if suspendFlag {
        cmd := "app_continue";
      } else {
        cmd := "app_suspend";
      }
    }
  }

  /** `ReadSocket`'s dispatch of the commands that reach the player. */
  function Dispatched(cmd: string, reply: seq<string>): Option<Event> {
    if cmd == "app_start" then Some(EStart)
    else if cmd == "app_stop" then Some(EStop)
    else if cmd == "app_suspend" then Some(ESuspend)
    else if cmd == "app_continue" then Some(EContinue)
    else if cmd == "app_next" then Some(ENext(reply))
    else if cmd == "app_prev" then Some(EPrev)
    else if cmd == "app_circle" then Some(ECircle)
    else if cmd == "app_sequence" then Some(ESequence)
    else None
  }

  function HeardAll(f: AppFlags, statuses: seq<string>): AppFlags
    decreases |statuses|
  {
    if statuses == [] then f else HeardAll(Heard(f, statuses[0]), statuses[1..])
  }

  lemma {:induction false} HeardLast(f: AppFlags, statuses: seq<string>, last: string)
    ensures HeardAll(f, statuses + [last]) == Heard(HeardAll(f, statuses), last)
    decreases |statuses|
  {
    if statuses != [] {
      assert (statuses + [last])[1..] == statuses[1..] + [last];
      HeardLast(Heard(f, statuses[0]), statuses[1..], last);
    } else {
      assert (statuses + [last])[1..] == [];
    }
  }

  /** Some `x` was heard, and no `y` after it. */
  ghost predicate LastIs(statuses: seq<string>, x: string, y: string) {
    exists k | 0 <= k < |statuses| :: statuses[k] == x && y !in statuses[k + 1..]
  }

  lemma TailSnoc(statuses: seq<string>, s: string, y: string, k: nat)
    requires k <= |statuses|
    ensures y in (statuses + [s])[k..] <==> y in statuses[k..] || y == s
  {
    assert (statuses + [s])[k..] == statuses[k..] + [s];
    assert [s][0] == s;
  }

  lemma LastIsSnoc(statuses: seq<string>, s: string, x: string, y: string)
    requires x != y
    ensures LastIs(statuses + [s], x, y) <==> s == x || (s != y && LastIs(statuses, x, y))
  {
    var all := statuses + [s];
    if s == x {
      assert all[|statuses|] == x && all[|statuses| + 1..] == [];
    } else {
      if LastIs(statuses, x, y) && s != y {
        var k: nat :| k < |statuses| && statuses[k] == x && y !in statuses[k + 1..];
        TailSnoc(statuses, s, y, k + 1);
        assert all[k] == x;
      }
      if LastIs(all, x, y) {
        var k: nat :| k < |all| && all[k] == x && y !in all[k + 1..];
        assert k < |statuses|;
        TailSnoc(statuses, s, y, k + 1);
        assert statuses[k] == x;
      }
    }
  }

  /** What the flags remember of everything heard: the start flag whether "start" or "stop" came last,
      the suspend flag whether "suspend" or "start" did. */
  lemma {:induction false} FlagsTell(f: AppFlags, statuses: seq<string>)
    ensures var now := HeardAll(f, statuses);
            && (now.start <==> LastIs(statuses, "start", "stop") || (f.start && "stop" !in statuses))
            && (now.suspend <==> LastIs(statuses, "suspend", "start") || (f.suspend && "start" !in statuses))
    decreases |statuses|
  {
    if statuses != [] {
      var init, s := statuses[..|statuses| - 1], statuses[|statuses| - 1];
      assert statuses == init + [s];
      FlagsTell(f, init);
      HeardLast(f, init, s);
      LastIsSnoc(init, s, "start", "stop");
      LastIsSnoc(init, s, "suspend", "start");
    }
  }

  // ---------------------------------------------------- commands from the relay

  /** The commands that concern the player. */
  ghost predicate IsPlayerCommand(cmd: string) {
    || cmd == "app_start" || cmd == "app_stop" || cmd == "app_suspend" || cmd == "app_continue"
    || cmd == "app_next" || cmd == "app_prev" || cmd == "app_circle" || cmd == "app_sequence"
  }

  /** The recorded singer can be read back. */
  ghost predicate Readable(c: State, a: Spec)
    requires WellFormed(a)
  {
    |Singer(a.playlist[Track(a.st)])| >= |c.shm.curSigner|
  }

  /** What each command must do to a device that plays as `a`, with `reply` in wait for a request. */
  ghost predicate Obeyed(c: State, a: Spec, cmd: string, reply: seq<string>, t: State)
    requires WellFormed(a)
  {
    var i, idle := Track(a.st), a.st.Stopped?;
    && (cmd == "app_start" ==> Plays(t, a.(st := Playing(i))))
    && (cmd == "app_stop" ==> Plays(t, a.(st := Stopped)))
    && (cmd == "app_suspend" ==> Plays(t, if idle then a else a.(st := Paused(i))))
    && (cmd == "app_continue" ==> Plays(t, if idle then a else a.(st := Playing(i))))
    && (cmd == "app_circle" ==> Plays(t, a.(mode := Circle)))
    && (cmd == "app_sequence" ==> Plays(t, a.(mode := Sequence)))
    && ((cmd == "app_next" || cmd == "app_prev") && idle ==> Plays(t, a))
    && ((cmd == "app_next" || cmd == "app_prev") && !idle && a.mode == Circle ==>
          (Plays(t, a.(st := Playing(i))) <==> Readable(c, a)))
    && (cmd == "app_prev" && !idle && a.mode == Sequence ==>
          Plays(t, a.(st := Playing(if i > 0 then i - 1 else 0))))
    && (cmd == "app_next" && !idle && a.mode == Sequence && i + 1 < |a.playlist| ==>
          Plays(t, a.(st := Playing(i + 1))))
    && (cmd == "app_next" && !idle && a.mode == Sequence && i + 1 == |a.playlist| ==>
          (Plays(t, a.(playlist := reply, requests := a.requests + [Singer(a.playlist[i])], st := Playing(0)))
           <==> c.releases && Readable(c, a)))
  }

  /** Every command of the relay, by its name. */
  lemma CommandObeyed(c: State, a: Spec, cmd: string, reply: seq<string>)
    requires Plays(c, a) && GoodList(reply)
    ensures Dispatched(cmd, reply).Some? <==> IsPlayerCommand(cmd)
    ensures IsPlayerCommand(cmd) ==> Obeyed(c, a, cmd, reply, Step(c, Dispatched(cmd, reply).value))
  {
    hide Step, Plays, GoodList;
    PlaysFacts(c, a);
    if IsPlayerCommand(cmd) {
      StepPlaysIff(c, a, Dispatched(cmd, reply).value);
    }
  }

  // ------------------------------------------------------ either button pressed

  /** The command a gesture runs: `Handle` picks by the flags. */
  function GestureEvent(c: State, g: B.Gesture, reply: seq<string>): Event {
    match g
    case Short => if !c.start then EStart else if !c.suspend then ESuspend else EContinue
    case Double => ENext(reply)
    case Long => EPrev
  }

  /** A press halts the run: the list has no track to start, or nobody reads the fifo. */
  ghost predicate PressHangs(s: State) {
    if s.start then s.sem == 0 else s.names == [] || !HasSlash(s.names[0])
  }

  /** What a press is for.  Stopped: the first track starts, unless there is none to start.
      Started: the suspend flag and the player toggle together, unless the exhausted exit of
      `NextPlay` has left no player.  In no case does nothing happen. */
  ghost predicate Acts(s: State, t: State) {
    && (if s.start then PauseDone(s, t) else Started(s, t))
    && t != s && (t.halted <==> PressHangs(s))
  }

  lemma PressActs(s: State, reply: seq<string>)
    requires Reachable.Inv(s) && !s.halted
    ensures Acts(s, Step(s, GestureEvent(s, B.Short, reply)))
  {
    hide StartPlay, SuspendPlay, ContinuePlay;
    PauseInv(s);
    if !s.start {
      StartInv(s);
    }
  }

  /** A short press is never a no-op: in every state the device can reach it starts, pauses or
      resumes, or it hangs, and exactly when it hangs. */
  lemma ShortPressActs(music: seq<string>, releases: bool, es: seq<Event>, reply: seq<string>)
    requires !Run(Boot(music, releases), es).halted
    ensures var s := Run(Boot(music, releases), es);
            Acts(s, Step(s, GestureEvent(s, B.Short, reply)))
  {
    BootInv(music, releases);
    RunInv(Boot(music, releases), es);
    PressActs(Run(Boot(music, releases), es), reply);
  }

  /** An app that has heard the device's present status last presses the device's own button,
      whatever flags it had and whatever it heard before. */
  lemma SameAsShortPress(s: State, f: AppFlags, heard: seq<string>, reply: seq<string>)
    requires (s.suspend ==> s.start) && !s.halted
    ensures var now := HeardAll(f, heard + [StatusOf(s.start, s.suspend)]);
            && Dispatched(PauseCommand(now), reply).Some?
            && Step(s, Dispatched(PauseCommand(now), reply).value) == Step(s, GestureEvent(s, B.Short, reply))
  {
    hide SuspendPlay, ContinuePlay, Grandchild;
    HeardLast(f, heard, StatusOf(s.start, s.suspend));
  }

  /** In every state the device can reach: whatever the app has heard before, once it has heard the
      present status its pause button starts, pauses or resumes. */
  lemma PauseButtonToggles(music: seq<string>, releases: bool, es: seq<Event>,
                           f: AppFlags, heard: seq<string>, reply: seq<string>)
    requires !Run(Boot(music, releases), es).halted
    ensures var s := Run(Boot(music, releases), es);
            var now := HeardAll(f, heard + [StatusOf(s.start, s.suspend)]);
            && Dispatched(PauseCommand(now), reply).Some?
            && Acts(s, Step(s, Dispatched(PauseCommand(now), reply).value))
  {
    EveryReachableState(music, releases, es);
    ShortPressActs(music, releases, es, reply);
    SameAsShortPress(Run(Boot(music, releases), es), f, heard, reply);
  }

  // ---------------------------------------------------- the device's button

  /** The commands of a series of gestures, each with the reply the server has ready for it. */
  function EventsOf(c: State, gs: seq<B.Gesture>, replies: seq<seq<string>>): (es: seq<Event>)
    requires |replies| == |gs|
    ensures (forall k | 0 <= k < |replies| :: GoodList(replies[k])) ==> GoodRun(es)
    decreases |gs|
  {
    if gs == [] then []
    else
      var e := GestureEvent(c, gs[0], replies[0]);
      [e] + EventsOf(Step(c, e), gs[1..], replies[1..])
  }

  /** What a gesture means to a listener: a short press toggles. */
  function Toggle(st: Status): Event {
    match st
    case Stopped => EStart
    case Playing(_) => ESuspend
    case Paused(_) => EContinue
  }

  function Meant(a: Spec, g: B.Gesture, reply: seq<string>): Event {
    match g
    case Short => Toggle(a.st)
    case Double => ENext(reply)
    case Long => EPrev
  }

  ghost function MeantEvents(a: Spec, gs: seq<B.Gesture>, replies: seq<seq<string>>): (es: seq<Event>)
    requires WellFormed(a) && |replies| == |gs| && forall k | 0 <= k < |replies| :: GoodList(replies[k])
    ensures GoodRun(es)
    decreases |gs|
  {
    if gs == [] then []
    else
      var e := Meant(a, gs[0], replies[0]);
      StepAKeepsWellFormed(a, e);
      [e] + MeantEvents(StepA(a, e), gs[1..], replies[1..])
  }

  /** The device picks the command that is meant: a short press toggles the plain player, a double one
      takes it a track on and a long one a track back. */
  lemma GestureMeans(c: State, a: Spec, g: B.Gesture, reply: seq<string>)
    requires Plays(c, a)
    ensures GestureEvent(c, g, reply) == Meant(a, g, reply)
    ensures StepA(a, Toggle(a.st)) == a.(st := match a.st
                                               case Stopped => Playing(0)
                                               case Playing(i) => Paused(i)
                                               case Paused(i) => Playing(i))
  {
  }

  lemma {:induction false} GesturesPlayIff(c: State, a: Spec, gs: seq<B.Gesture>, replies: seq<seq<string>>)
    requires Plays(c, a) && |replies| == |gs| && forall k | 0 <= k < |replies| :: GoodList(replies[k])
    ensures PlaysThroughout(c, a, EventsOf(c, gs, replies))
            <==> NeverMisplays(c.releases, a, |c.shm.curSigner|, MeantEvents(a, gs, replies))
    ensures PlaysThroughout(c, a, EventsOf(c, gs, replies)) ==> EventsOf(c, gs, replies) == MeantEvents(a, gs, replies)
    decreases |gs|
  {
    if gs != [] {
      hide Step, Plays, StepA, Misplays;
      var e := GestureEvent(c, gs[0], replies[0]);
      GestureMeans(c, a, gs[0], replies[0]);
      StepPlaysIff(c, a, e);
      StepAKeepsWellFormed(a, e);
      assert EventsOf(c, gs, replies)[1..] == EventsOf(Step(c, e), gs[1..], replies[1..]);
      assert MeantEvents(a, gs, replies)[1..] == MeantEvents(StepA(a, e), gs[1..], replies[1..]);
      if Plays(Step(c, e), StepA(a, e)) {
        SignerLenTracked(c, a, e);
        GesturesPlayIff(Step(c, e), StepA(a, e), gs[1..], replies[1..]);
      } else {
        NotThroughout(c, a, EventsOf(c, gs, replies));
      }
    }
  }

  /** From the button's events to music.  Take any stream of events in which presses and releases
      alternate and feed it through the recogniser, its gestures to the controller: the device plays
      at every point what the plain player does when it is driven by the classification of the
      presses, exactly when no step of that plain run misplays. */
  lemma ClicksDrivePlayer(c: State, a: Spec, m: B.Machine, evs: seq<B.KeyEvent>, replies: seq<seq<string>>)
    requires Plays(c, a) && B.Ready(m) && m.emitted == [] && B.Ordered(evs) && B.Alternates(evs, true)
    requires |replies| == |B.Classify(B.Holds(evs))| && forall k | 0 <= k < |replies| :: GoodList(replies[k])
    ensures var gs := B.Settle(B.Run(m, evs)).emitted;
            var meant := MeantEvents(a, B.Classify(B.Holds(evs)), replies);
            var right := NeverMisplays(c.releases, a, |c.shm.curSigner|, meant);
            && |replies| == |gs|
            && (PlaysThroughout(c, a, EventsOf(c, gs, replies)) <==> right)
            && (right ==>
                  Plays(Run(c, EventsOf(c, gs, replies)), RunA(a, meant)))
  {
    var gs := B.Classify(B.Holds(evs));
    B.RecognisesClassification(m, evs);
    assert m.emitted + gs == gs;
    GesturesPlayIff(c, a, gs, replies);
    if PlaysThroughout(c, a, EventsOf(c, gs, replies)) {
      PlaysAtEnd(c, a, EventsOf(c, gs, replies));
    }
  }
}
