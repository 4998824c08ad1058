/** Which runs of the controller keep step with the plain player: exact conditions on the abstract
    run alone, and what happens when they fail. */
module RefinementRuns {
  import opened MusicLink
  import opened Playback
  import opened Refinement
  import Reachable

  ghost predicate GoodRun(es: seq<Event>) {
    forall k | 0 <= k < |es| :: GoodEvent(es[k])
  }

  lemma StepAKeepsWellFormed(a: Spec, e: Event)
    requires WellFormed(a) && GoodEvent(e)
    ensures WellFormed(StepA(a, e))
  {
  }

  ghost function RunA(a: Spec, es: seq<Event>): Spec
    requires WellFormed(a) && GoodRun(es)
    decreases |es|
  {
    if es == [] then a
    else
      StepAKeepsWellFormed(a, es[0]);
      RunA(StepA(a, es[0]), es[1..])
  }

  // ------------------------------------------------------------ what is played

  ghost predicate PlaysThroughout(c: State, a: Spec, es: seq<Event>)
    requires WellFormed(a) && GoodRun(es)
    decreases |es|
  {
    Plays(c, a) && (es != [] ==>
      (StepAKeepsWellFormed(a, es[0]);
       PlaysThroughout(Step(c, es[0]), StepA(a, es[0]), es[1..])))
  }

  /** No step of the abstract run misplays, the recorded singer having `len` bytes at its start. */
  ghost predicate NeverMisplays(releases: bool, a: Spec, len: nat, es: seq<Event>)
    requires WellFormed(a) && GoodRun(es)
    decreases |es|
  {
    es != [] ==>
      (StepAKeepsWellFormed(a, es[0]);
       && !Misplays(releases, a, len, es[0])
       && NeverMisplays(releases, StepA(a, es[0]), SignerLen(a, len, es[0]), es[1..]))
  }

  /** A run plays what it should at every point exactly when no step of it misplays; whatever
      singers are recorded, that takes repeating a track, ending a list, or exhausting one by next. */
  lemma {:induction false} RunPlaysIff(c: State, a: Spec, es: seq<Event>)
    requires Plays(c, a) && GoodRun(es)
    ensures PlaysThroughout(c, a, es) <==> NeverMisplays(c.releases, a, |c.shm.curSigner|, es)
    decreases |es|
  {
    if es != [] {
      hide Step, Plays, StepA, Misplays;
      StepPlaysIff(c, a, es[0]);
      StepAKeepsWellFormed(a, es[0]);
      if Plays(Step(c, es[0]), StepA(a, es[0])) {
        SignerLenTracked(c, a, es[0]);
        RunPlaysIff(Step(c, es[0]), StepA(a, es[0]), es[1..]);
      } else {
        NotThroughout(c, a, es);
      }
    }
  }

  lemma NotThroughout(c: State, a: Spec, es: seq<Event>)
    requires WellFormed(a) && GoodRun(es) && es != [] && !Plays(Step(c, es[0]), StepA(a, es[0]))
    ensures !PlaysThroughout(c, a, es)
  {
    StepAKeepsWellFormed(a, es[0]);
  }

  lemma {:induction false} PlaysAtEnd(c: State, a: Spec, es: seq<Event>)
    requires WellFormed(a) && GoodRun(es) && PlaysThroughout(c, a, es)
    ensures Plays(Run(c, es), RunA(a, es))
    decreases |es|
  {
    if es != [] {
      StepAKeepsWellFormed(a, es[0]);
      PlaysAtEnd(Step(c, es[0]), StepA(a, es[0]), es[1..]);
    }
  }

  // ------------------------------------------------------------ the whole record

  ghost predicate RefinesThroughout(c: State, a: Spec, es: seq<Event>)
    requires WellFormed(a) && GoodRun(es)
    decreases |es|
  {
    R(c, a) && (es != [] ==>
      (StepAKeepsWellFormed(a, es[0]);
       RefinesThroughout(Step(c, es[0]), StepA(a, es[0]), es[1..])))
  }

  ghost predicate NeverBreaks(releases: bool, a: Spec, len: nat, es: seq<Event>)
    requires WellFormed(a) && GoodRun(es)
    decreases |es|
  {
    es != [] ==>
      (StepAKeepsWellFormed(a, es[0]);
       && !Breaks(releases, a, len, es[0])
       && NeverBreaks(releases, StepA(a, es[0]), SignerLen(a, len, es[0]), es[1..]))
  }

  /** A run keeps the whole shared record right at every point exactly when no step breaks it. */
  lemma {:induction false} RunRefinesIff(c: State, a: Spec, es: seq<Event>)
    requires R(c, a) && GoodRun(es)
    ensures RefinesThroughout(c, a, es) <==> NeverBreaks(c.releases, a, |c.shm.curSigner|, es)
    decreases |es|
  {
    if es != [] {
      hide Step, StepA, Plays, Breaks;
      StepRefinesIff(c, a, es[0]);
      StepAKeepsWellFormed(a, es[0]);
      if R(Step(c, es[0]), StepA(a, es[0])) {
        SignerLenTracked(c, a, es[0]);
        RunRefinesIff(Step(c, es[0]), StepA(a, es[0]), es[1..]);
      } else {
        NotRefined(c, a, es);
      }
    }
  }

  lemma NotRefined(c: State, a: Spec, es: seq<Event>)
    requires WellFormed(a) && GoodRun(es) && es != [] && !R(Step(c, es[0]), StepA(a, es[0]))
    ensures !RefinesThroughout(c, a, es)
  {
    StepAKeepsWellFormed(a, es[0]);
  }

  // ---------------------------------------------------------- runs from start-up

  ghost function Ready(music: seq<string>): Spec {
    Spec(music, Sequence, Online, Stopped, [FIRST_SINGER])
  }

  /** The file that plays, by its full name. */
  lemma PlayedFile(c: State, a: Spec)
    requires Plays(c, a) && !a.st.Stopped?
    ensures var place := if a.device.Online? then "http://8.130.123.33/music/" else "/mnt/usb/music/";
            Replay(c.log) == On(place + a.playlist[Track(a.st)], a.st.Paused?)
  {
  }

  /** Whose music is asked for at start-up and on a change of mode; a change stops playback, and going
      offline without a disk keeps the list. */
  lemma SingersAskedFor(c: State, a: Spec, music: seq<string>, releases: bool, ok: bool, reply: seq<string>)
    requires Plays(c, a) && GoodList(reply)
    ensures Boot(music, releases).requests == ["周杰伦"]
    ensures var t := Step(c, EOffline(ok, reply));
            a.device.Online? ==>
              && !t.halted && !t.start && t.device.Offline?
              && t.names == (if ok then reply else a.playlist)
              && t.requests == if ok then a.requests + ["林俊杰"] else a.requests
    ensures var t := Step(c, EOnline(ok, reply));
            a.device.Offline? ==>
              && !t.halted && !t.start && t.device.Online? == ok
              && t.names == reply && t.requests == a.requests + ["其他"]
  {
    hide Step;
    StepPlaysIff(c, a, EOffline(ok, reply));
    StepPlaysIff(c, a, EOnline(ok, reply));
  }

  /** Start-up with a good list is the stopped player. */
  lemma BootRefines(music: seq<string>, releases: bool)
    requires GoodList(music)
    ensures R(Boot(music, releases), Ready(music))
  {
    GoodReplyLoads(music);
  }

  /** The source as written, and repaired: exactly which runs from start-up play what they should. */
  lemma BootedRunPlaysIff(music: seq<string>, releases: bool, es: seq<Event>)
    requires GoodList(music) && GoodRun(es)
    ensures PlaysThroughout(Boot(music, releases), Ready(music), es)
            <==> NeverMisplays(releases, Ready(music), 0, es)
  {
    BootRefines(music, releases);
    RunPlaysIff(Boot(music, releases), Ready(music), es);
  }

  /** Every singer in the list has a name of `len` bytes. */
  ghost predicate SingersOf(names: seq<string>, len: nat) {
    Titled(names) && forall k | 0 <= k < |names| :: |Singer(names[k])| == len
  }

  ghost predicate ReplySingersOf(e: Event, len: nat) {
    e.ENext? || e.ETrackEnd? || e.ERequest? || e.EOffline? || e.EOnline? ==> SingersOf(e.reply, len)
  }

  /** Next is never pressed on the last track of a list played in sequence. */
  ghost predicate NeverExhausted(a: Spec, es: seq<Event>)
    requires WellFormed(a) && GoodRun(es)
    decreases |es|
  {
    es != [] ==>
      (StepAKeepsWellFormed(a, es[0]);
       !NextExhausts(a, es[0]) && NeverExhausted(StepA(a, es[0]), es[1..]))
  }

  lemma StepAKeepsSingers(a: Spec, e: Event, len: nat)
    requires WellFormed(a) && GoodEvent(e) && SingersOf(a.playlist, len) && ReplySingersOf(e, len)
    ensures SingersOf(StepA(a, e).playlist, len)
    ensures Publishes(a, e) ==> |Singer(PublishedName(a, e))| == len
  {
    StepAKeepsWellFormed(a, e);
  }

  /** With singers of one length a run breaks the record exactly by the exhausted exit. */
  lemma {:induction false} UniformNeverBreaks(releases: bool, a: Spec, len: nat, rec: nat, es: seq<Event>)
    requires WellFormed(a) && GoodRun(es) && SingersOf(a.playlist, len) && rec <= len
    requires forall k | 0 <= k < |es| :: ReplySingersOf(es[k], len)
    ensures NeverBreaks(releases, a, rec, es) <==> releases || NeverExhausted(a, es)
    decreases |es|
  {
    if es != [] {
      assert ReplySingersOf(es[0], len);
      StepAKeepsWellFormed(a, es[0]);
      StepAKeepsSingers(a, es[0], len);
      UniformNeverBreaks(releases, StepA(a, es[0]), len, SignerLen(a, rec, es[0]), es[1..]);
    }
  }

  /** Singers of one length, as in lists of one singer: the repaired source refines the abstract
      player in every run, and the source as written in exactly the runs that never press next on
      the last track of a list played in sequence. */
  lemma UniformRunRefinesIff(c: State, a: Spec, es: seq<Event>, len: nat)
    requires R(c, a) && GoodRun(es)
    requires SingersOf(a.playlist, len) && |c.shm.curSigner| <= len
    requires forall k | 0 <= k < |es| :: ReplySingersOf(es[k], len)
    ensures RefinesThroughout(c, a, es) <==> c.releases || NeverExhausted(a, es)
  {
    RunRefinesIff(c, a, es);
    UniformNeverBreaks(c.releases, a, len, |c.shm.curSigner|, es);
  }

  // ------------------------------------------------------------ runs gone wrong

  lemma OneTrackIsGood(name: string)
    requires HasSlash(name)
    ensures GoodList([name])
  {
  }

  lemma RunCons(c: State, e: Event, rest: seq<Event>)
    ensures Run(c, [e] + rest) == Run(Step(c, e), rest)
  {
    hide Step;
    assert ([e] + rest)[1..] == rest;
  }

  lemma RepeatLoads(c: State, a: Spec, reply: seq<string>, name: string)
    requires Plays(c, a) && !a.st.Stopped? && a.mode == Circle && CurrentName(c.shm) == name && HasSlash(name)
    ensures var t := Step(c, ENext(reply));
            !t.halted && t.names == c.names && Replay(t.log) == On(Url(c.device) + name, false)
  {
    ReplaySnoc(c.log, LoadFile(Url(c.device) + name));
  }

  /** Whatever plays, requesting a list by a one-letter singer over a longer recorded one leaves the
      longer one's tail in the record. */
  lemma RequestLeavesTail(c: State, a: Spec, singer: string, reply: seq<string>)
    requires Plays(c, a) && GoodList(reply)
    ensures var t := Step(Step(c, ERequest(singer, reply)), ECircle);
            && Plays(t, NewList(a, singer, reply, Playing(0)).(mode := Circle))
            && t.shm.curSigner == Overlay(c.shm.curSigner, Singer(reply[0]))
            && t.device == c.device
  {
    hide Step, Plays;
    PlaysFacts(c, a);
    var e := ERequest(singer, reply);
    StepPlaysIff(c, a, e);
    StepPlaysIff(Step(c, e), StepA(a, e), ECircle);
    DeviceOfSpec(c, a);
    DeviceOfSpec(Step(Step(c, e), ECircle), StepA(StepA(a, e), ECircle));
  }

  lemma DeviceOfSpec(c: State, a: Spec)
    requires Plays(c, a)
    ensures c.device == a.device && c.names == a.playlist && !c.halted
    ensures !a.st.Stopped? ==> c.shm.curMusic == Title(a.playlist[Track(a.st)])
  {
  }

  lemma FirstTrackRecorded(name: string, releases: bool)
    requires HasSlash(name)
    ensures Plays(Step(Boot([name], releases), EStart), StepA(Ready([name]), EStart))
    ensures Step(Boot([name], releases), EStart).shm.curSigner == Singer(name)
  {
    hide Step;
    OneTrackIsGood(name);
    BootRefines([name], releases);
    StepPlaysIff(Boot([name], releases), Ready([name]), EStart);
  }

  /** From start-up: after a list by `abc`, a list by `x` is requested and its first track repeated.
      The file loaded is no track of the list. */
  lemma ShorterSingerRun()
    ensures var s := Run(Boot(["abc/s"], true), [EStart, ERequest("x", ["x/t"]), ECircle, ENext(["x/t"])]);
            !s.halted && s.names == ["x/t"] && Replay(s.log) == On(Url(Online) + "xbc/t", false)
  {
    hide Step, Plays, StepA, Overlay, Run, Boot;
    var e, n := ERequest("x", ["x/t"]), ENext(["x/t"]);
    var c1, a1 := Step(Boot(["abc/s"], true), EStart), StepA(Ready(["abc/s"]), EStart);
    FirstTrackRecorded("abc/s", true);
    OneTrackIsGood("x/t");
    RequestLeavesTail(c1, a1, "x", ["x/t"]);
    var c3, a3 := Step(Step(c1, e), ECircle), NewList(a1, "x", ["x/t"], Playing(0)).(mode := Circle);
    DeviceOfSpec(c1, a1);
    DeviceOfSpec(c3, a3);
    SplitsOfWitness();
    RepeatLoads(c3, a3, ["x/t"], "xbc/t");
    RunOfFour(Boot(["abc/s"], true), EStart, e, ECircle, n);
    StartStaysOnline("abc/s", true);
  }

  lemma RunOfFour(c: State, e: Event, f: Event, g: Event, h: Event)
    ensures Run(c, [e, f, g, h]) == Step(Step(Step(Step(c, e), f), g), h)
  {
    hide Step, Run;
    var c1 := Step(c, e);
    assert [e] + [f, g, h] == [e, f, g, h] && [f] + [g, h] == [f, g, h];
    assert [g] + [h] == [g, h] && [h] + [] == [h];
    RunCons(c, e, [f, g, h]);
    RunCons(c1, f, [g, h]);
    RunCons(Step(c1, f), g, [h]);
    RunCons(Step(Step(c1, f), g), h, []);
    RunNil(Step(Step(Step(c1, f), g), h));
  }

  lemma RunNil(c: State)
    ensures Run(c, []) == c
  {
  }

  lemma StartStaysOnline(name: string, releases: bool)
    requires HasSlash(name)
    ensures StepA(Ready([name]), EStart).device == Online && StepA(Ready([name]), EStart).st == Playing(0)
  {
    OneTrackIsGood(name);
  }

  lemma SplitsOfWitness()
    ensures Singer("abc/s") == "abc" && Singer("x/t") == "x" && Title("x/t") == "t"
    ensures Overlay("abc", "x") == "xbc" && "xbc" + "/" + "t" == "xbc/t" && HasSlash("xbc/t")
  {
    assert SlashAt("abc/s") == 3 && SlashAt("x/t") == 1;
    assert "xbc/t"[3] == '/';
  }

  /** From start-up as the source is written: one track, started and skipped, and the semaphore is
      kept with no player left. */
  lemma ExhaustedRun()
    ensures var s := Run(Boot(["a/s"], false), [EStart, ENext(["a/t"])]);
            Stalled(s) && NextExhausts(StepA(Ready(["a/s"]), EStart), ENext(["a/t"]))
  {
    hide Step, Plays, Run, Boot;
    var c1, a1, n := Step(Boot(["a/s"], false), EStart), StepA(Ready(["a/s"]), EStart), ENext(["a/t"]);
    FirstTrackRecorded("a/s", false);
    OneTrackIsGood("a/s");
    OneTrackIsGood("a/t");
    BootReleases(["a/s"], false);
    NextStalls(c1, a1, ["a/t"]);
    RunCons(Boot(["a/s"], false), EStart, [n]);
    RunCons(c1, n, []);
    RunNil(Step(c1, n));
    assert [EStart] + [n] == [EStart, n] && [n] + [] == [n];
  }

  lemma BootReleases(music: seq<string>, releases: bool)
    ensures Boot(music, releases).releases == releases
  {
  }

  lemma NextStalls(c: State, a: Spec, reply: seq<string>)
    requires Plays(c, a) && GoodList(reply) && NextExhausts(a, ENext(reply)) && !c.releases
    ensures Stalled(Step(c, ENext(reply)))
  {
    hide NextPlay, NextInList;
    NextExhausted(c, a, reply);
  }

  lemma StalledStep(s: State, e: Event)
    requires Stalled(s)
    ensures Stalled(Step(s, e)) && Step(s, e).log == s.log
  {
    hide LoadTrack, NextInList, PrevInList, Grandchild, PlayerExited, UpdateMusic, StopPlay;
    if !s.halted {
      StalledStop(s);
      StalledStop(s.(device := Offline));
    }
  }

  /** Stopping then hangs on the command fifo. */
  lemma StalledStop(s: State)
    requires Stalled(s) && !s.halted
    ensures Stalled(StopPlay(s)) && StopPlay(s).halted && StopPlay(s).log == s.log
  {
  }

  lemma {:induction false} StalledRun(s: State, es: seq<Event>)
    requires Stalled(s)
    ensures Stalled(Run(s, es)) && Run(s, es).log == s.log
    decreases |es|
  {
    if es != [] {
      StalledStep(s, es[0]);
      StalledRun(Step(s, es[0]), es[1..]);
    }
  }

  /** Next in sequence on the last track by the parent's search, as the source is written. */
  ghost predicate ExhaustedExit(s: State, e: Event) {
    && e.ENext? && !s.halted && s.start && s.sem == 1 && !s.releases
    && s.shm.curMode == Sequence && NextOf(s.names, s.shm.curMusic).AtEnd?
  }

  lemma StartKeepsSem(s: State)
    ensures StartPlay(s).sem == s.sem
  {
    hide NextOf, Publish, Replay, Url;
  }

  lemma RequestKeepsSem(s: State, singer: string, reply: seq<string>)
    requires Reachable.Inv(s) && !s.halted
    ensures Request(s, singer, reply).sem == s.sem
    ensures s.start && s.sem == 1 ==> Request(s.(sem := 0), singer, reply).sem == 0
  {
    hide StartPlay, StopPlay;
    Reachable.StopInv(s);
    StartKeepsSem(GetMusicName(StopPlay(s), singer, reply));
    if s.start && s.sem == 1 {
      Reachable.StopHeld(s);
      StartKeepsSem(GetMusicName(StopPlay(s).(sem := 0), singer, reply));
    }
  }

  lemma LoadTrackGivesSem(s: State, name: string)
    ensures LoadTrack(s, name).sem == 1 || LoadTrack(s, name).halted
  {
  }

  lemma NextKeeps(s: State, reply: seq<string>)
    requires Reachable.Inv(s) && !s.halted && s.sem == 1
    ensures var t := NextPlay(s, reply);
            !t.halted ==> (t.sem == 0 <==> ExhaustedExit(s, ENext(reply)))
  {
    hide LoadTrack, Request, Reachable.Inv;
    if s.start {
      var n := NextOf(s.names, s.shm.curMusic);
      LoadTrackGivesSem(s.(sem := 0), CurrentName(s.shm));
      if n.Found? {
        LoadTrackGivesSem(s.(sem := 0), n.name);
      }
      RequestKeepsSem(s, s.shm.curSigner, reply);
      assert s.(sem := 0).(sem := 1) == s;
    }
  }

  lemma PrevGivesSem(s: State)
    requires !s.halted && s.sem == 1
    ensures PrevPlay(s).sem == 1 || PrevPlay(s).halted
  {
    hide LoadTrack;
    if s.start {
      var p := PrevOf(s.names, s.shm.curMusic);
      LoadTrackGivesSem(s.(sem := 0), CurrentName(s.shm));
      if p.Found? {
        LoadTrackGivesSem(s.(sem := 0), p.name);
      } else if p.AtEnd? {
        LoadTrackGivesSem(s.(sem := 0), s.names[0]);
      }
    }
  }

  lemma ExitKeepsSem(s: State)
    ensures PlayerExited(s).sem == s.sem
  {
    hide NextOf, Publish, Url;
  }

  lemma TrackEndKeepsSem(s: State, reply: seq<string>)
    ensures TrackEnded(s, reply).sem == s.sem
  {
    hide StartPlay, PlayerExited, Replay;
    var t := PlayerExited(s.(log := s.log + [Ended]));
    ExitKeepsSem(s.(log := s.log + [Ended]));
    StartKeepsSem(GetMusicName(t.(signalled := false, start := false), t.shm.curSigner, reply));
  }

  lemma SwitchKeepsSem(s: State, e: Event)
    requires Reachable.Inv(s) && !s.halted && (e.EOffline? || e.EOnline?)
    ensures Step(s, e).sem == s.sem
  {
    hide StopPlay;
    Reachable.StopInv(s);
    Reachable.StopInv(s.(device := Offline));
  }

  /** Of all the steps of a device, on any lists, only that exit comes back to the main loop with the
      semaphore kept. */
  lemma KeepsSemaphoreIff(s: State, e: Event)
    requires Reachable.Inv(s) && !s.halted && s.sem == 1
    ensures !Step(s, e).halted ==> (Step(s, e).sem == 0 <==> ExhaustedExit(s, e))
  {
    hide StartPlay, StopPlay, NextPlay, PrevPlay, TrackEnded, Request, ChangeOfflineMode, ChangeOnlineMode,
         Reachable.Inv;
    match e
    case EStart => StartKeepsSem(s);
    case EStop => Reachable.StopInv(s);
    case EPrev => PrevGivesSem(s);
    case ENext(reply) => NextKeeps(s, reply);
    case ETrackEnd(reply) => TrackEndKeepsSem(s, reply);
    case ERequest(singer, reply) => RequestKeepsSem(s, singer, reply);
    case EOffline(_, _) => SwitchKeepsSem(s, e);
    case EOnline(_, _) => SwitchKeepsSem(s, e);
    case _ =>
  }

  /** And whatever it is answered, it leaves no player. */
  lemma ExitStalls(s: State, e: Event)
    requires Reachable.Inv(s) && ExhaustedExit(s, e)
    ensures Stalled(Step(s, e))
  {
    hide StartPlay, StopPlay, NextPlay;
    var t := GetMusicName(StopPlay(s).(sem := 0), s.shm.curSigner, e.reply);
    Reachable.StopInv(s);
    Reachable.StopHeld(s);
    ExitIsRequest(s, e);
    StartWithoutSem(t);
  }

  lemma ExitIsRequest(s: State, e: Event)
    requires ExhaustedExit(s, e)
    ensures NextPlay(s, e.reply) == Request(s.(sem := 0), s.shm.curSigner, e.reply)
  {
    hide Request;
  }

  lemma StartWithoutSem(s: State)
    requires s.sem == 0 && !s.start && !s.suspend && Replay(s.log) == Off
    ensures Stalled(StartPlay(s))
  {
  }

  /** In whatever reachable state the semaphore has been kept, no command and no reply ever makes the
      player load anything again. */
  lemma StallIsForever(music: seq<string>, releases: bool, es: seq<Event>, more: seq<Event>)
    requires !Run(Boot(music, releases), es).halted && Run(Boot(music, releases), es).sem == 0
    ensures var s := Run(Boot(music, releases), es);
            Stalled(Run(s, more)) && Run(s, more).log == s.log && Replay(Run(s, more).log) == Off
  {
    hide Run;
    Reachable.BootInv(music, releases);
    Reachable.RunInv(Boot(music, releases), es);
    StalledRun(Run(Boot(music, releases), es), more);
  }
}
