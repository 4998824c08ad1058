/** What holds in every state the controller can reach from start-up, whatever lists it is given and
    whether or not the exhausted exit of `NextPlay` releases the semaphore. */
module Reachable {
  import opened MusicLink
  import opened Playback

  /** Only a list of one node can begin with an empty name. */
  ghost predicate ListShape(names: seq<string>) {
    names != [] && names[0] == "" ==> |names| == 1
  }

  /** The two flags: suspended only while started and with a player, by the parity of the pauses
      written since the last load. */
  ghost predicate FlagsOk(s: State) {
    && (s.suspend ==> s.start && Replay(s.log).On?)
    && (s.suspend <==> PausesSinceLoad(s.log) % 2 == 1)
  }

  /** Process ids are handed out once, and a signal does not stay on its way. */
  ghost predicate PidsOk(s: State) {
    && !s.signalled && s.shm.childPid < s.nextPid
    && (s.child.Child? ==> s.child.pid < s.nextPid)
  }

  /** While the parent is alive and not blocked: a player runs exactly when playback is started and
      the semaphore is free, and it belongs to the recorded child; nothing is left when stopped. */
  ghost predicate RunningOk(s: State) {
    && (s.sem == 0 || s.sem == 1)
    && (Replay(s.log).On? <==> s.start && s.sem == 1)
    && (!s.start ==> s.child == NoChild && s.sem == 1)
    && (Replay(s.log).On? ==>
          s.child.Child? && s.child.pid == s.shm.childPid && s.child.startFlag && s.child.buffer == "")
  }

  ghost predicate Inv(s: State) {
    FlagsOk(s) && PidsOk(s) && ListShape(s.names) && (!s.halted ==> RunningOk(s))
  }

  // ------------------------------------------------------------ preservation

  lemma {:induction false} LoadedShape(names: seq<string>, more: seq<string>)
    requires ListShape(names)
    ensures ListShape(InsertedAll(names, more))
    decreases |more|
  {
    if more != [] {
      LoadedShape(Inserted(names, more[0]), more[1..]);
    }
  }

  lemma LogSnoc(log: seq<Cmd>, c: Cmd)
    ensures PausesSinceLoad(log + [c]) == if c.Pause? then PausesSinceLoad(log) + 1 else 0
  {
    assert (log + [c])[..|log|] == log;
    ReplaySnoc(log, c);
  }

  /** Nothing runs and nothing is pending: where a stop leaves the device. */
  ghost predicate Quiet(s: State) {
    && Inv(s) && !s.halted && !s.start
  }

  /** A fresh start from quiet, with the semaphore as it happens to be. */
  lemma StartInv(s: State)
    requires FlagsOk(s) && PidsOk(s) && ListShape(s.names) && !s.halted && !s.start && s.child == NoChild
    requires Replay(s.log) == Off && (s.sem == 0 || s.sem == 1)
    ensures Inv(StartPlay(s))
    ensures s.sem == 1 ==> Started(s, StartPlay(s))
    ensures s.sem == 0 && !StartPlay(s).halted ==> StartPlay(s).start && StartPlay(s).log == s.log
  {
    if s.names != [] {
      var c := s.(start := true, nextPid := s.nextPid + 1,
                  child := Child(s.nextPid, true, s.names, s.device, s.names[0]));
      assert StartPlay(s) == Grandchild(c);
      if s.sem == 1 {
        if s.names[0] != "" {
          PlayNameInv(c, s.names[0]);
        } else {
          assert !NextOf(s.names, s.shm.curMusic).Found?;
        }
      }
    }
  }

  /** A start plays the first track; an empty list crashes the parent and an unparsed name the grandchild. */
  ghost predicate Started(s: State, t: State) {
    if s.names != [] && HasSlash(s.names[0]) then
      !t.halted && t.start && !t.suspend && Replay(t.log) == On(Url(s.device) + s.names[0], false)
    else t.halted && Replay(t.log) == Off
  }

  lemma PlayNameInv(s: State, name: string)
    requires s.child.Child? && s.child.startFlag && s.child.pid < s.nextPid && ListShape(s.names)
    requires s.start && s.sem == 1 && !s.suspend && !s.signalled && s.shm.childPid < s.nextPid && !s.halted
    requires PausesSinceLoad(s.log) % 2 == 0
    ensures Inv(PlayName(s, name))
    ensures if HasSlash(name) then
              !PlayName(s, name).halted && Replay(PlayName(s, name).log) == On(Url(s.child.device) + name, false)
            else PlayName(s, name) == s.(halted := true)
  {
    if HasSlash(name) {
      ReplaySnoc(s.log, Exec(Url(s.child.device) + name));
      LogSnoc(s.log, Exec(Url(s.child.device) + name));
    }
  }

  lemma PauseInv(s: State)
    requires Inv(s) && !s.halted
    ensures Inv(SuspendPlay(s)) && Inv(ContinuePlay(s))
    ensures s.start && !s.suspend ==> PauseDone(s, SuspendPlay(s))
    ensures s.suspend ==> PauseDone(s, ContinuePlay(s))
  {
    ReplaySnoc(s.log, Pause);
    LogSnoc(s.log, Pause);
  }

  /** A pause toggles flag and player together; with the semaphore kept there is no player and the
      write blocks. */
  ghost predicate PauseDone(s: State, t: State) {
    if s.sem == 1 then
      && !t.halted && t.start && t.suspend == !s.suspend
      && Replay(s.log).On? && Replay(t.log) == On(Replay(s.log).file, !Replay(s.log).paused)
    else t.halted && t.log == s.log
  }

  /** A stop reaps everything or, with no player to read the fifo, blocks. */
  lemma StopInv(s: State)
    requires Inv(s) && !s.halted
    ensures Inv(StopPlay(s)) && StopPlay(s).sem == s.sem
    ensures !StopPlay(s).halted ==> Quiet(StopPlay(s))
  {
    ReplaySnoc(s.log, Quit);
    LogSnoc(s.log, Quit);
  }

  /** The same inside a critical section of a running player. */
  lemma StopHeld(s: State)
    requires Inv(s) && !s.halted && s.start && s.sem == 1
    ensures StopPlay(s.(sem := 0)) == StopPlay(s).(sem := 0) && !StopPlay(s).halted
  {
  }

  lemma LoadedInv(s: State, singer: string, reply: seq<string>)
    requires Quiet(s)
    ensures Quiet(GetMusicName(s, singer, reply))
  {
    LoadedShape([], reply);
  }

  lemma RequestInv(s: State, singer: string, reply: seq<string>)
    requires Inv(s) && !s.halted
    ensures Inv(Request(s, singer, reply))
  {
    hide StartPlay, StopPlay;
    StopInv(s);
    var t := StopPlay(s);
    if !t.halted {
      LoadedInv(t, singer, reply);
      StartInv(GetMusicName(t, singer, reply));
    }
  }

  /** The exhausted exit that keeps the semaphore. */
  lemma RequestHeldInv(s: State, singer: string, reply: seq<string>)
    requires Inv(s) && !s.halted && s.start && s.sem == 1
    ensures Inv(Request(s.(sem := 0), singer, reply))
  {
    hide StartPlay, StopPlay;
    StopInv(s);
    StopHeld(s);
    LoadedInv(StopPlay(s), singer, reply);
    StartInv(GetMusicName(StopPlay(s), singer, reply).(sem := 0));
    assert Request(s.(sem := 0), singer, reply) == StartPlay(GetMusicName(StopPlay(s), singer, reply).(sem := 0));
  }

  lemma LoadTrackInv(s: State, name: string)
    requires Inv(s) && !s.halted && s.start && s.sem == 1
    ensures Inv(LoadTrack(s.(sem := 0), name))
  {
    if HasSlash(name) {
      ReplaySnoc(s.log, LoadFile(Url(s.device) + name));
      LogSnoc(s.log, LoadFile(Url(s.device) + name));
    }
  }

  lemma NextInv(s: State, reply: seq<string>)
    requires Inv(s) && !s.halted
    ensures Inv(NextPlay(s, reply))
  {
    hide LoadTrack, Request;
    if s.start && s.sem == 1 {
      LoadTrackInv(s, CurrentName(s.shm));
      var n := NextOf(s.names, s.shm.curMusic);
      if n.Found? {
        LoadTrackInv(s, n.name);
      }
      RequestInv(s, s.shm.curSigner, reply);
      RequestHeldInv(s, s.shm.curSigner, reply);
      assert s.(sem := 0).(sem := 1) == s;
    }
  }

  lemma PrevInv(s: State)
    requires Inv(s) && !s.halted
    ensures Inv(PrevPlay(s))
  {
    hide LoadTrack;
    if s.start && s.sem == 1 {
      LoadTrackInv(s, CurrentName(s.shm));
      var p := PrevOf(s.names, s.shm.curMusic);
      if p.Found? {
        LoadTrackInv(s, p.name);
      } else if p.AtEnd? {
        LoadTrackInv(s, s.names[0]);
      }
    }
  }

  lemma TrackEndInv(s: State, reply: seq<string>)
    requires Inv(s) && !s.halted
    ensures Inv(TrackEnded(s, reply))
  {
    if Replay(s.log).On? && !Replay(s.log).paused {
      PausedIsParity(s.log);
      ReplaySnoc(s.log, Ended);
      LogSnoc(s.log, Ended);
      EndedInv(s.(log := s.log + [Ended]), reply);
    }
  }

  /** The player is gone and the child goes on. */
  lemma EndedInv(s: State, reply: seq<string>)
    requires FlagsOk(s) && PidsOk(s) && ListShape(s.names) && !s.halted && s.start && !s.suspend && s.sem == 1
    requires Replay(s.log) == Off && PausesSinceLoad(s.log) == 0
    requires s.child.Child? && s.child.pid == s.shm.childPid && s.child.startFlag && s.child.buffer == ""
    ensures var t := PlayerExited(s);
            Inv(if t.signalled && !t.halted then UpdateMusic(t.(signalled := false), reply) else t)
  {
    hide StartPlay;
    match NextOf(s.child.names, s.shm.curMusic)
    case Found(name) =>
      PlayNameInv(s, name);
    case AtEnd =>
      var t := s.(child := NoChild, start := false);
      LoadedInv(t, s.shm.curSigner, reply);
      StartInv(GetMusicName(t, s.shm.curSigner, reply));
    case Fault =>
  }

  lemma SwitchInv(s: State, e: Event)
    requires Inv(s) && !s.halted && (e.EOffline? || e.EOnline?)
    ensures Inv(Step(s, e))
  {
    hide StopPlay;
    StopInv(s);
    StopInv(s.(device := Offline));
    LoadedShape([], e.reply);
  }

  lemma StepInv(s: State, e: Event)
    requires Inv(s)
    ensures Inv(Step(s, e))
  {
    hide StartPlay, StopPlay, SuspendPlay, ContinuePlay, NextPlay, PrevPlay, TrackEnded, Request,
         ChangeOfflineMode, ChangeOnlineMode;
    if !s.halted {
      match e
      case EStart => StartAnyInv(s);
      case EStop => StopInv(s);
      case ESuspend => PauseInv(s);
      case EContinue => PauseInv(s);
      case EPrev => PrevInv(s);
      case ENext(reply) => NextInv(s, reply);
      case ETrackEnd(reply) => TrackEndInv(s, reply);
      case ERequest(singer, reply) => RequestInv(s, singer, reply);
      case EOffline(_, _) => SwitchInv(s, e);
      case EOnline(_, _) => SwitchInv(s, e);
      case ECircle =>
      case ESequence =>
    }
  }

  lemma StartAnyInv(s: State)
    requires Inv(s) && !s.halted
    ensures Inv(StartPlay(s))
  {
    hide Grandchild;
    if s.suspend {
      PauseInv(s);
    } else if !s.start {
      StartInv(s);
    }
  }

  lemma {:induction false} RunInv(s: State, es: seq<Event>)
    requires Inv(s)
    ensures Inv(Run(s, es))
    decreases |es|
  {
    if es != [] {
      StepInv(s, es[0]);
      RunInv(Step(s, es[0]), es[1..]);
    }
  }

  lemma BootInv(music: seq<string>, releases: bool)
    ensures Inv(Boot(music, releases))
  {
    LoadedShape([], music);
  }

  /** In every state reachable from start-up, by any commands, replies and track ends: suspended
      implies started, the suspend flag is the parity of the `pause` commands written since the last
      start or load, and unless the run has halted by a crash or a block a player runs exactly when
      playback is started and the semaphore was not kept, paused exactly when suspended. */
  lemma EveryReachableState(music: seq<string>, releases: bool, es: seq<Event>)
    ensures var s := Run(Boot(music, releases), es);
            && (s.suspend ==> s.start)
            && (s.suspend <==> PausesSinceLoad(s.log) % 2 == 1)
            && (!s.halted ==>
                 && (Replay(s.log).On? <==> s.start && s.sem == 1)
                 && (Replay(s.log).On? ==> (Replay(s.log).paused <==> s.suspend)))
  {
    BootInv(music, releases);
    RunInv(Boot(music, releases), es);
    PausedIsParity(Run(Boot(music, releases), es).log);
  }

  // ------------------------------------------------------ the child's copies

  /** The list and device mode forked into the child are the parent's at every command boundary:
      whatever replaces the parent's has reaped the child first. */
  ghost predicate CopiesOk(s: State) {
    !s.halted && s.child.Child? ==> s.child.names == s.names && s.child.device == s.device
  }

  lemma GrandchildCopies(s: State)
    requires s.child.Child? && CopiesOk(s)
    ensures CopiesOk(Grandchild(s)) && Grandchild(s).names == s.names && Grandchild(s).device == s.device
    ensures Grandchild(s).signalled && !s.signalled ==> Grandchild(s).child.NoChild?
  {
    hide NextOf, Publish, Url;
  }

  lemma StartCopies(s: State)
    requires CopiesOk(s) && !s.halted
    ensures CopiesOk(StartPlay(s))
  {
    hide Grandchild;
    if !s.suspend && !s.start && s.names != [] {
      GrandchildCopies(s.(start := true, nextPid := s.nextPid + 1,
                          child := Child(s.nextPid, true, s.names, s.device, s.names[0])));
    }
  }

  lemma LoadTrackCopies(s: State, name: string)
    requires CopiesOk(s) && !s.halted
    ensures CopiesOk(LoadTrack(s.(sem := 0), name))
  {
    hide Publish, Replay, Url;
  }

  lemma NextCopies(s: State, reply: seq<string>)
    requires Inv(s) && !s.halted && CopiesOk(s)
    ensures CopiesOk(NextPlay(s, reply))
  {
    assert s.sem == 0 || s.sem == 1;
    hide LoadTrack, Request, Inv, CopiesOk;
    if s.start && s.sem == 1 {
      var n := NextOf(s.names, s.shm.curMusic);
      LoadTrackCopies(s, CurrentName(s.shm));
      if n.Found? {
        LoadTrackCopies(s, n.name);
      }
      RequestCopies(s, s.shm.curSigner, reply);
      RequestHeldCopies(s, s.shm.curSigner, reply);
      assert s.(sem := 0).(sem := 1) == s;
      HaltedCopies(s.(halted := true));
      HaltedCopies(s.(sem := 0, halted := true));
    } else {
      HaltedCopies(s.(halted := true));
    }
  }

  lemma HaltedCopies(s: State)
    requires s.halted
    ensures CopiesOk(s)
  {
  }

  lemma PrevCopies(s: State)
    requires !s.halted && CopiesOk(s)
    ensures CopiesOk(PrevPlay(s))
  {
    hide LoadTrack;
    if s.start && s.sem != 0 {
      var p := PrevOf(s.names, s.shm.curMusic);
      LoadTrackCopies(s, CurrentName(s.shm));
      if p.Found? {
        LoadTrackCopies(s, p.name);
      } else if p.AtEnd? {
        LoadTrackCopies(s, s.names[0]);
      }
    }
  }

  lemma RequestHeldCopies(s: State, singer: string, reply: seq<string>)
    requires Inv(s) && !s.halted && s.start && s.sem == 1
    ensures CopiesOk(Request(s.(sem := 0), singer, reply))
  {
    hide StartPlay, StopPlay;
    StopInv(s);
    StopHeld(s);
    StartCopies(GetMusicName(StopPlay(s).(sem := 0), singer, reply));
  }

  lemma RequestCopies(s: State, singer: string, reply: seq<string>)
    requires Inv(s) && !s.halted
    ensures CopiesOk(Request(s, singer, reply))
  {
    hide StartPlay, StopPlay;
    StopInv(s);
    if !StopPlay(s).halted {
      StartCopies(GetMusicName(StopPlay(s), singer, reply));
    }
  }

  lemma TrackEndCopies(s: State, reply: seq<string>)
    requires Inv(s) && !s.halted && CopiesOk(s)
    ensures CopiesOk(TrackEnded(s, reply))
  {
    hide StartPlay, Grandchild;
    if Replay(s.log).On? && !Replay(s.log).paused {
      var s1 := s.(log := s.log + [Ended]);
      GrandchildCopies(s1);
      var t := Grandchild(s1);
      if t.signalled && !t.halted && t.sem != 0 {
        StartCopies(GetMusicName(t.(signalled := false, start := false), t.shm.curSigner, reply));
      }
    }
  }

  lemma StopCopies(s: State)
    requires Inv(s) && !s.halted
    ensures CopiesOk(StopPlay(s))
  {
    hide StopPlay;
    StopInv(s);
  }

  lemma PauseCopies(s: State)
    requires CopiesOk(s)
    ensures CopiesOk(SuspendPlay(s)) && CopiesOk(ContinuePlay(s))
  {
    hide Replay;
  }

  lemma ModeCopies(s: State, mode: PlayMode)
    requires CopiesOk(s)
    ensures CopiesOk(s.(shm := s.shm.(curMode := mode)))
  {
  }

  lemma SwitchCopies(s: State, e: Event)
    requires Inv(s) && !s.halted && CopiesOk(s) && (e.EOffline? || e.EOnline?)
    ensures CopiesOk(Step(s, e))
  {
    hide StopPlay;
    StopInv(s);
    StopInv(s.(device := Offline));
  }

  lemma StepCopies(s: State, e: Event)
    requires Inv(s) && CopiesOk(s)
    ensures CopiesOk(Step(s, e))
  {
    hide StartPlay, StopPlay, SuspendPlay, ContinuePlay, NextPlay, PrevPlay, TrackEnded, Request,
         ChangeOfflineMode, ChangeOnlineMode, Inv, CopiesOk;
    if !s.halted {
      match e
      case EStart => StartCopies(s);
      case EStop => StopCopies(s);
      case ESuspend => PauseCopies(s);
      case EContinue => PauseCopies(s);
      case EPrev => PrevCopies(s);
      case ENext(reply) => NextCopies(s, reply);
      case ETrackEnd(reply) => TrackEndCopies(s, reply);
      case ERequest(singer, reply) => RequestCopies(s, singer, reply);
      case EOffline(_, _) => SwitchCopies(s, e);
      case EOnline(_, _) => SwitchCopies(s, e);
      case ECircle => ModeCopies(s, Circle);
      case ESequence => ModeCopies(s, Sequence);
    }
  }

  lemma {:induction false} RunCopies(s: State, es: seq<Event>)
    requires Inv(s) && CopiesOk(s)
    ensures CopiesOk(Run(s, es))
    decreases |es|
  {
    if es != [] {
      hide Step, Inv, CopiesOk;
      StepInv(s, es[0]);
      StepCopies(s, es[0]);
      RunCopies(Step(s, es[0]), es[1..]);
    }
  }

  /** What the end of a track leads to, told from the parent's own list and device mode: the
      successor of the recorded track by the parent's search, at the end of the list a new list by the
      recorded singer, and a crash of the grandchild where the search or the name found is no good. */
  ghost predicate Follows(s: State, t: State, reply: seq<string>) {
    match NextOf(s.names, s.shm.curMusic)
    case Found(name) =>
      if HasSlash(name) then
        && !t.halted && Replay(t.log) == On(Url(s.device) + name, false)
        && t.shm.curMusic == Title(name) && t.names == s.names && t.child == s.child
      else t.halted
    case AtEnd =>
      && t.requests == s.requests + [s.shm.curSigner]
      && t.names == InsertedAll([], reply) && Started(s.(names := t.names), t)
    case Fault => t.halted
  }

  lemma TrackEndFollows(s: State, reply: seq<string>)
    requires Inv(s) && !s.halted && CopiesOk(s) && Replay(s.log).On? && !s.suspend
    ensures Follows(s, TrackEnded(s, reply), reply)
  {
    hide StartPlay;
    var s1 := s.(log := s.log + [Ended]);
    PausedIsParity(s.log);
    ReplaySnoc(s.log, Ended);
    LogSnoc(s.log, Ended);
    assert TrackEnded(s, reply)
        == (var t := Grandchild(s1);
            if t.signalled && !t.halted then UpdateMusic(t.(signalled := false), reply) else t);
    match NextOf(s.names, s.shm.curMusic)
    case Found(name) =>
      PlayNameInv(s1, name);
    case AtEnd =>
      var t := GetMusicName(s1.(child := NoChild, start := false), s.shm.curSigner, reply);
      LoadedShape([], reply);
      StartInv(t);
      StartKeepsLists(t);
    case Fault =>
  }

  lemma StartKeepsLists(s: State)
    ensures StartPlay(s).names == s.names && StartPlay(s).requests == s.requests
  {
    hide NextOf, Publish, Replay, Url;
  }

  /** In every state reachable from start-up, whatever commands and replies came and whatever was
      misplayed on the way: the child's copies are the parent's list and device mode, and the end of a
      track that is not paused leads on from the parent's current track. */
  lemma TrackEndFollowsParent(music: seq<string>, releases: bool, es: seq<Event>, reply: seq<string>)
    ensures var s := Run(Boot(music, releases), es);
            && (!s.halted && s.child.Child? ==> s.child.names == s.names && s.child.device == s.device)
            && (!s.halted && Replay(s.log).On? && !s.suspend ==> Follows(s, TrackEnded(s, reply), reply))
  {
    hide Inv, Follows, TrackEnded;
    BootInv(music, releases);
    RunInv(Boot(music, releases), es);
    RunCopies(Boot(music, releases), es);
    var s := Run(Boot(music, releases), es);
    if !s.halted && Replay(s.log).On? && !s.suspend {
      TrackEndFollows(s, reply);
    }
  }
}
