/** Exactly when the controller halts, in every state it can reach from start-up: the parent waits for
    ever on the semaphore or the fifo, follows a null pointer, or a grandchild crashes on a name. */
module Halting {
  import opened MusicLink
  import opened Playback
  import opened Reachable

  ghost predicate NoTrack(names: seq<string>) {
    names == [] || !HasSlash(names[0])
  }

  /** What a started device stumbles over when it leaves its track, forward or back. */
  ghost predicate BadNext(s: State, reply: seq<string>) {
    match NextOf(s.names, s.shm.curMusic)
    case Found(name) => !HasSlash(name)
    case AtEnd => if s.releases then NoTrack(InsertedAll([], reply)) else reply == []
    case Fault => true
  }

  ghost predicate BadPrev(s: State) {
    match PrevOf(s.names, s.shm.curMusic)
    case Found(name) => !HasSlash(name)
    case AtEnd => !HasSlash(s.names[0])
    case Fault => true
  }

  ghost predicate BadEnd(s: State, reply: seq<string>) {
    match NextOf(s.names, s.shm.curMusic)
    case Found(name) => !HasSlash(name)
    case AtEnd => NoTrack(InsertedAll([], reply))
    case Fault => true
  }

  /** The commands that hang or crash.  Once the semaphore has been kept, everything that takes it or
      writes to the fifo hangs. */
  ghost predicate Halts(s: State, e: Event) {
    var kept := s.sem == 0;
    match e
    case EStart => !s.start && NoTrack(s.names)
    case EStop => kept
    case ESuspend => kept
    case EContinue => false
    case EPrev => kept || (s.start && s.shm.curMode == Sequence && BadPrev(s))
    case ENext(reply) => kept || (s.start && s.shm.curMode == Sequence && BadNext(s, reply))
    case ETrackEnd(reply) => s.start && !s.suspend && !kept && BadEnd(s, reply)
    case ERequest(_, reply) => kept || NoTrack(InsertedAll([], reply))
    case EOffline(_, _) => kept && s.device.Online?
    case EOnline(_, _) => kept && s.device.Offline?
    case ECircle => false
    case ESequence => false
  }

  lemma StartHalts(s: State)
    requires FlagsOk(s) && PidsOk(s) && ListShape(s.names) && !s.halted && !s.start && s.child == NoChild
    requires Replay(s.log) == Off && (s.sem == 0 || s.sem == 1)
    ensures StartPlay(s).halted <==> if s.sem == 1 then NoTrack(s.names) else s.names == []
  {
    StartInv(s);
  }

  lemma StopHalts(s: State)
    requires Inv(s) && !s.halted
    ensures StopPlay(s).halted <==> s.sem == 0
  {
  }

  lemma {:induction false} LoadedEmptyIff(names: seq<string>, reply: seq<string>)
    ensures InsertedAll(names, reply) == [] <==> names == [] && reply == []
    decreases |reply|
  {
    if reply != [] {
      LoadedEmptyIff(Inserted(names, reply[0]), reply[1..]);
    }
  }

  lemma RequestHalts(s: State, singer: string, reply: seq<string>)
    requires Inv(s) && !s.halted
    ensures Request(s, singer, reply).halted <==> s.sem == 0 || NoTrack(InsertedAll([], reply))
    ensures s.start && s.sem == 1 ==> (Request(s.(sem := 0), singer, reply).halted <==> reply == [])
  {
    hide StartPlay, StopPlay;
    StopInv(s);
    StopHalts(s);
    LoadedEmptyIff([], reply);
    if s.sem == 1 {
      LoadedInv(StopPlay(s), singer, reply);
      StartHalts(GetMusicName(StopPlay(s), singer, reply));
      if s.start {
        StopHeld(s);
        StartHalts(GetMusicName(StopPlay(s).(sem := 0), singer, reply));
      }
    }
  }

  lemma LoadTrackHalts(s: State, name: string)
    requires Inv(s) && !s.halted && s.start && s.sem == 1
    ensures LoadTrack(s.(sem := 0), name).halted <==> !HasSlash(name)
  {
  }

  lemma CurrentHasSlash(shm: Shm)
    ensures HasSlash(CurrentName(shm))
  {
    assert CurrentName(shm)[|shm.curSigner|] == '/';
  }

  lemma NextHalts(s: State, reply: seq<string>)
    requires Inv(s) && !s.halted
    ensures NextPlay(s, reply).halted <==> Halts(s, ENext(reply))
  {
    hide LoadTrack, Request, HasSlash;
    if s.start && s.sem == 1 {
      var n := NextOf(s.names, s.shm.curMusic);
      LoadTrackHalts(s, CurrentName(s.shm));
      CurrentHasSlash(s.shm);
      if n.Found? {
        LoadTrackHalts(s, n.name);
      }
      RequestHalts(s, s.shm.curSigner, reply);
      assert s.(sem := 0).(sem := 1) == s;
    }
  }

  lemma PrevHalts(s: State)
    requires Inv(s) && !s.halted
    ensures PrevPlay(s).halted <==> Halts(s, EPrev)
  {
    hide LoadTrack, HasSlash;
    if s.start && s.sem == 1 {
      var p := PrevOf(s.names, s.shm.curMusic);
      LoadTrackHalts(s, CurrentName(s.shm));
      CurrentHasSlash(s.shm);
      if p.Found? {
        LoadTrackHalts(s, p.name);
      } else if p.AtEnd? {
        LoadTrackHalts(s, s.names[0]);
      }
    }
  }

  lemma TrackEndHalts(s: State, reply: seq<string>)
    requires Inv(s) && CopiesOk(s) && !s.halted
    ensures TrackEnded(s, reply).halted <==> Halts(s, ETrackEnd(reply))
  {
    hide TrackEnded;
    PausedIsParity(s.log);
    if Replay(s.log).On? && !s.suspend {
      TrackEndFollows(s, reply);
    } else {
      NothingEnds(s, reply);
    }
  }

  lemma NothingEnds(s: State, reply: seq<string>)
    requires Replay(s.log).Off? || Replay(s.log).paused
    ensures TrackEnded(s, reply) == s
  {
  }

  lemma SwitchHalts(s: State, e: Event)
    requires Inv(s) && !s.halted && (e.EOffline? || e.EOnline?)
    ensures Step(s, e).halted <==> Halts(s, e)
  {
    hide StopPlay;
    StopHalts(s);
    StopHalts(s.(device := Offline));
  }

  lemma PauseHalts(s: State)
    requires Inv(s) && !s.halted
    ensures SuspendPlay(s).halted <==> s.sem == 0
    ensures !ContinuePlay(s).halted
    ensures StartPlay(s).halted <==> !s.start && NoTrack(s.names)
  {
    hide Grandchild;
    if !s.start {
      StartHalts(s);
    }
  }

  lemma StepHalts(s: State, e: Event)
    requires Inv(s) && CopiesOk(s) && !s.halted
    ensures Step(s, e).halted <==> Halts(s, e)
  {
    hide StartPlay, StopPlay, SuspendPlay, ContinuePlay, NextPlay, PrevPlay, TrackEnded, Request,
         ChangeOfflineMode, ChangeOnlineMode, NoTrack, BadNext, BadPrev, BadEnd;
    match e
    case EStart => PauseHalts(s);
    case EStop => StopHalts(s);
    case ESuspend => PauseHalts(s);
    case EContinue => PauseHalts(s);
    case EPrev => PrevHalts(s);
    case ENext(reply) => NextHalts(s, reply);
    case ETrackEnd(reply) => TrackEndHalts(s, reply);
    case ERequest(singer, reply) => RequestHalts(s, singer, reply);
    case EOffline(_, _) => SwitchHalts(s, e);
    case EOnline(_, _) => SwitchHalts(s, e);
    case ECircle =>
    case ESequence =>
  }

  /** Every event in every reachable state: it halts the run exactly as `Halts` says. */
  lemma HaltsIff(music: seq<string>, releases: bool, es: seq<Event>, e: Event)
    requires !Run(Boot(music, releases), es).halted
    ensures var s := Run(Boot(music, releases), es);
            Step(s, e).halted <==> Halts(s, e)
  {
    hide Run, Step, Inv, Halts;
    BootInv(music, releases);
    RunInv(Boot(music, releases), es);
    RunCopies(Boot(music, releases), es);
    StepHalts(Run(Boot(music, releases), es), e);
  }

  /** All that can happen once the semaphore has been kept: stop, suspend, next, previous, requests and
      real mode changes hang; start, continue and the end of a track change nothing; the play mode can
      still be set. */
  ghost predicate WithoutSemaphore(s: State, e: Event, t: State) {
    match e
    case EStart => t == s
    case EContinue => t == s
    case ETrackEnd(_) => t == s
    case ECircle => t == s.(shm := s.shm.(curMode := Circle))
    case ESequence => t == s.(shm := s.shm.(curMode := Sequence))
    case EOffline(_, _) => if s.device.Offline? then t == s else t.halted && t.log == s.log
    case EOnline(_, _) => if s.device.Online? then t == s else t.halted && t.log == s.log
    case _ => t.halted && t.log == s.log
  }

  lemma StepWithoutSemaphore(s: State, e: Event)
    requires Inv(s) && !s.halted && s.sem == 0
    ensures WithoutSemaphore(s, e, Step(s, e))
  {
    hide LoadTrack, NextInList, PrevInList, Grandchild, PlayerExited, UpdateMusic;
    if e.EOffline? {
      KeptStop(s.(device := Offline));
    }
    KeptStop(s);
  }

  lemma KeptStop(s: State)
    requires Inv(s) && !s.halted && s.sem == 0
    ensures StopPlay(s).halted && StopPlay(s).log == s.log
  {
    hide PlayerExited;
  }

  lemma KeptSemaphore(music: seq<string>, releases: bool, es: seq<Event>, e: Event)
    requires !Run(Boot(music, releases), es).halted && Run(Boot(music, releases), es).sem == 0
    ensures var s := Run(Boot(music, releases), es);
            WithoutSemaphore(s, e, Step(s, e))
  {
    hide Run, Step, Inv, WithoutSemaphore;
    BootInv(music, releases);
    RunInv(Boot(music, releases), es);
    StepWithoutSemaphore(Run(Boot(music, releases), es), e);
  }

  // --------------------------------------------- what next and previous lead to

  /** The track `name` is loaded and recorded, playing, with list, child and requests as they were. */
  ghost predicate Loaded(s: State, t: State, name: string)
    requires HasSlash(name)
  {
    && !t.halted && t.start && !t.suspend && t.sem == 1
    && Replay(t.log) == On(Url(s.device) + name, false)
    && t.shm == s.shm.(curMusic := Title(name), curSigner := Overlay(s.shm.curSigner, Singer(name)))
    && t.names == s.names && t.child == s.child && t.requests == s.requests && t.device == s.device
  }

  lemma LoadTrackLoads(s: State, name: string)
    requires Inv(s) && !s.halted && s.start && s.sem == 1 && HasSlash(name)
    ensures Loaded(s, LoadTrack(s.(sem := 0), name), name)
  {
    ReplaySnoc(s.log, LoadFile(Url(s.device) + name));
  }

  /** Next and previous on a started device with the semaphore free, on any list: in circle mode the
      track put together from the record; in sequence the neighbour found by the search, the first track
      again before the first, and after the last a new list by the recorded singer is requested. */
  ghost predicate Skips(s: State, reply: seq<string>, next: State, prev: State) {
    if s.shm.curMode == Circle then
      var again := s.shm.curSigner + "/" + s.shm.curMusic;
      HasSlash(again) && Loaded(s, next, again) && Loaded(s, prev, again)
    else
      && (NextOf(s.names, s.shm.curMusic).Found? && HasSlash(NextOf(s.names, s.shm.curMusic).name) ==>
            Loaded(s, next, NextOf(s.names, s.shm.curMusic).name))
      && (NextOf(s.names, s.shm.curMusic).AtEnd? ==>
            && next.requests == s.requests + [s.shm.curSigner] && next.names == InsertedAll([], reply)
            && (s.releases ==> Started(s.(names := next.names), next)))
      && (PrevOf(s.names, s.shm.curMusic).Found? && HasSlash(PrevOf(s.names, s.shm.curMusic).name) ==>
            Loaded(s, prev, PrevOf(s.names, s.shm.curMusic).name))
      && (PrevOf(s.names, s.shm.curMusic).AtEnd? && HasSlash(s.names[0]) ==> Loaded(s, prev, s.names[0]))
  }

  lemma RequestAsks(s: State, singer: string, reply: seq<string>)
    requires Inv(s) && !s.halted && s.start && s.sem == 1
    ensures var t := Request(s, singer, reply);
            && t.requests == s.requests + [singer] && t.names == InsertedAll([], reply)
            && Started(s.(names := t.names), t)
    ensures var t := Request(s.(sem := 0), singer, reply);
            t.requests == s.requests + [singer] && t.names == InsertedAll([], reply)
  {
    hide StartPlay, StopPlay;
    StopInv(s);
    StopHeld(s);
    StopKeeps(s);
    var u := GetMusicName(StopPlay(s), singer, reply);
    LoadedInv(StopPlay(s), singer, reply);
    StartInv(u);
    StartKeepsLists(u);
    StartKeepsLists(u.(sem := 0));
    assert GetMusicName(StopPlay(s).(sem := 0), singer, reply) == u.(sem := 0);
  }

  lemma StopKeeps(s: State)
    ensures StopPlay(s).requests == s.requests && StopPlay(s).device == s.device
  {
    hide Replay, NextOf, Publish, Url;
  }

  lemma NextSkips(s: State, reply: seq<string>)
    requires Inv(s) && !s.halted && s.start && s.sem == 1
    ensures Skips(s, reply, NextPlay(s, reply), PrevPlay(s))
  {
    hide LoadTrack, Request, Loaded, Started, HasSlash;
    var n, p := NextOf(s.names, s.shm.curMusic), PrevOf(s.names, s.shm.curMusic);
    CurrentHasSlash(s.shm);
    LoadTrackLoads(s, CurrentName(s.shm));
    if n.Found? && HasSlash(n.name) {
      LoadTrackLoads(s, n.name);
    }
    if p.Found? && HasSlash(p.name) {
      LoadTrackLoads(s, p.name);
    }
    if p.AtEnd? && HasSlash(s.names[0]) {
      LoadTrackLoads(s, s.names[0]);
    }
    RequestAsks(s, s.shm.curSigner, reply);
    assert s.(sem := 0).(sem := 1) == s;
  }

  lemma SkipsFollow(music: seq<string>, releases: bool, es: seq<Event>, reply: seq<string>)
    requires var s := Run(Boot(music, releases), es); !s.halted && s.start && s.sem == 1
    ensures var s := Run(Boot(music, releases), es);
            Skips(s, reply, NextPlay(s, reply), PrevPlay(s))
  {
    hide Run, NextPlay, PrevPlay, Inv, Skips;
    BootInv(music, releases);
    RunInv(Boot(music, releases), es);
    NextSkips(Run(Boot(music, releases), es), reply);
  }
}
