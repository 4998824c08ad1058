/** The playback controller refines a plain player: stopped, playing track `i` or paused on track
    `i` of a playlist.  Two relations are used: `Plays`, about everything a listener or a caller can
    see, and `R`, which also asks for the right singer in the shared record.  For each the runs that
    keep it are characterised exactly. */
module Refinement {
  import opened MusicLink
  import opened Playback

  // ---------------------------------------------------------- abstract player

  datatype Status = Stopped | Playing(i: nat) | Paused(i: nat)

  datatype Spec = Spec(playlist: seq<string>, mode: PlayMode, device: DeviceMode, st: Status, requests: seq<string>)

  ghost predicate GoodList(names: seq<string>) {
    names != [] && Titled(names) && Unambiguous(names)
  }

  function Track(st: Status): nat {
    match st
    case Stopped => 0
    case Playing(i) => i
    case Paused(i) => i
  }

  function NewList(a: Spec, singer: string, reply: seq<string>, st: Status): Spec {
    a.(playlist := reply, requests := a.requests + [singer], st := st)
  }

  /** Move on from track `i`: to the next one, or to the first of a new list by the same singer. */
  function Advance(a: Spec, i: nat, reply: seq<string>): Spec
    requires i < |a.playlist| && HasSlash(a.playlist[i])
  {
    if i + 1 < |a.playlist| then a.(st := Playing(i + 1))
    else NewList(a, Singer(a.playlist[i]), reply, Playing(0))
  }

  ghost predicate WellFormed(a: Spec) {
    GoodList(a.playlist) && Track(a.st) < |a.playlist|
  }

  ghost function StepA(a: Spec, e: Event): Spec
    requires WellFormed(a)
  {
    var i := Track(a.st);
    match e
    case EStart => if a.st.Stopped? then a.(st := Playing(0)) else a.(st := Playing(i))
    case EStop => a.(st := Stopped)
    case ESuspend => if a.st.Stopped? then a else a.(st := Paused(i))
    case EContinue => if a.st.Stopped? then a else a.(st := Playing(i))
    case EPrev =>
      if a.st.Stopped? then a
      else if a.mode == Circle || i == 0 then a.(st := Playing(i))
      else a.(st := Playing(i - 1))
    case ECircle => a.(mode := Circle)
    case ESequence => a.(mode := Sequence)
    case ENext(reply) =>
      if a.st.Stopped? then a
      else if a.mode == Circle then a.(st := Playing(i))
      else Advance(a, i, reply)
    case ETrackEnd(reply) => if a.st.Playing? then Advance(a, i, reply) else a
    case ERequest(singer, reply) => NewList(a, singer, reply, Playing(0))
    case EOffline(found, reply) =>
      if a.device.Offline? then a
      else if found then NewList(a, OFFLINE_SINGER, reply, Stopped).(device := Offline)
      else a.(device := Offline, st := Stopped)
    case EOnline(connected, reply) =>
      if a.device.Online? then a
      else NewList(a, ONLINE_SINGER, reply, Stopped).(device := if connected then Online else Offline)
  }

  /** Replies are playlists a player can work with. */
  ghost predicate GoodEvent(e: Event) {
    match e
    case ENext(reply) => GoodList(reply)
    case ETrackEnd(reply) => GoodList(reply)
    case ERequest(_, reply) => GoodList(reply)
    case EOffline(_, reply) => GoodList(reply)
    case EOnline(_, reply) => GoodList(reply)
    case _ => true
  }

  // ----------------------------------------------------- refinement relations

  /** Flags, playlist, requests, player, child copies, semaphore and the recorded title agree with
      the abstract player; of the recorded singer only that it begins with the right one. */
  ghost predicate Plays(c: State, a: Spec) {
    && WellFormed(a)
    && !c.halted && !c.signalled && c.sem == 1
    && c.names == a.playlist && c.device == a.device && c.requests == a.requests
    && c.shm.curMode == a.mode
    && (c.start <==> !a.st.Stopped?) && (c.suspend <==> a.st.Paused?)
    && if a.st.Stopped? then c.child == NoChild && Replay(c.log) == Off
       else
         var name := a.playlist[Track(a.st)];
         && Replay(c.log) == On(Url(a.device) + name, a.st.Paused?)
         && c.shm.curMusic == Title(name) && Singer(name) <= c.shm.curSigner
         && c.child == Child(c.shm.childPid, true, a.playlist, a.device, "")
  }

  /** The whole shared record is right as well. */
  ghost predicate R(c: State, a: Spec) {
    Plays(c, a) && (!a.st.Stopped? ==> c.shm.curSigner == Singer(a.playlist[Track(a.st)]))
  }

  /** Steps that write a track into the shared record. */
  ghost predicate Publishes(a: Spec, e: Event) {
    match e
    case EStart => a.st.Stopped?
    case ENext(_) => !a.st.Stopped?
    case EPrev => !a.st.Stopped?
    case ETrackEnd(_) => a.st.Playing?
    case ERequest(_, _) => true
    case _ => false
  }

  ghost function PublishedName(a: Spec, e: Event): string
    requires WellFormed(a) && GoodEvent(e) && Publishes(a, e)
  {
    var b := StepA(a, e);
    b.playlist[Track(b.st)]
  }

  /** Next on the last track of a list played in sequence. */
  ghost predicate NextExhausts(a: Spec, e: Event) {
    e.ENext? && !a.st.Stopped? && a.mode == Sequence && Track(a.st) == |a.playlist| - 1
  }

  /** Steps that read the singer back from the record: repeating a track, and asking for a new list
      at the end of one. */
  ghost predicate ReadsSigner(a: Spec, e: Event) {
    || ((e.ENext? || e.EPrev?) && !a.st.Stopped? && a.mode == Circle)
    || NextExhausts(a, e)
    || (e.ETrackEnd? && a.st.Playing? && a.st.i == |a.playlist| - 1)
  }

  /** The ways the source stops playing as it should, `len` being the length of the recorded singer:
      the exhausted exit of `NextPlay` that keeps the semaphore, and reading back a singer that still
      has the tail of a longer one. */
  ghost predicate Misplays(releases: bool, a: Spec, len: nat, e: Event)
    requires WellFormed(a)
  {
    || (NextExhausts(a, e) && !releases)
    || (ReadsSigner(a, e) && |Singer(a.playlist[Track(a.st)])| < len)
  }

  /** The record never shortens its singer. */
  ghost function SignerLen(a: Spec, len: nat, e: Event): nat
    requires WellFormed(a) && GoodEvent(e)
  {
    if Publishes(a, e) && len < |Singer(PublishedName(a, e))| then |Singer(PublishedName(a, e))| else len
  }

  /** The ways the record stops being right: the same exit, and publishing a singer shorter than the
      recorded one. */
  ghost predicate Breaks(releases: bool, a: Spec, len: nat, e: Event)
    requires WellFormed(a) && GoodEvent(e)
  {
    || (NextExhausts(a, e) && !releases)
    || (Publishes(a, e) && |Singer(PublishedName(a, e))| < len)
  }

  // ------------------------------------------------------------ single steps

  lemma GoodReplyLoads(reply: seq<string>)
    requires GoodList(reply)
    ensures InsertedAll([], reply) == reply
  {
    LoadedUnchangedIff(reply);
  }

  /** What a step has done to the recorded singer. */
  ghost predicate SignerAfter(c: State, t: State, name: string)
    requires HasSlash(name)
  {
    t.shm.curSigner == Overlay(c.shm.curSigner, Singer(name))
  }

  /** Starting on a good list with nothing running. */
  lemma StartFromStopped(c: State, a: Spec)
    requires WellFormed(a) && a.st == Playing(0)
    requires !c.start && !c.suspend && !c.halted && !c.signalled && c.child == NoChild && Replay(c.log) == Off
    requires c.names == a.playlist && c.device == a.device && c.shm.curMode == a.mode
    ensures Plays(StartPlay(c), a) <==> c.sem == 1 && c.requests == a.requests
    ensures c.sem == 1 ==> SignerAfter(c, StartPlay(c), a.playlist[0])
    ensures c.sem == 0 ==> Stalled(StartPlay(c))
  {
    ReplaySnoc(c.log, Exec(Url(c.device) + a.playlist[0]));
  }

  lemma StopRefines(c: State, a: Spec)
    requires Plays(c, a)
    ensures Plays(StopPlay(c), a.(st := Stopped)) && StopPlay(c).shm == c.shm
    ensures StopPlay(c.(device := Offline)) == StopPlay(c).(device := Offline)
    ensures StopPlay(c.(sem := 0)) == StopPlay(c).(sem := 0)
  {
    ReplaySnoc(c.log, Quit);
  }

  lemma LoadRefines(c: State, a: Spec, i: nat)
    requires Plays(c, a) && !a.st.Stopped? && i < |a.playlist|
    ensures var t := LoadTrack(c.(sem := 0), a.playlist[i]);
            Plays(t, a.(st := Playing(i))) && SignerAfter(c, t, a.playlist[i])
  {
    ReplaySnoc(c.log, LoadFile(Url(c.device) + a.playlist[i]));
  }

  /** Loading anything but track `i` is not playing track `i`. */
  lemma LoadOther(c: State, a: Spec, name: string, i: nat)
    requires Plays(c, a) && !a.st.Stopped? && i < |a.playlist| && name != a.playlist[i]
    ensures !Plays(LoadTrack(c.(sem := 0), name), a.(st := Playing(i)))
  {
    ReplaySnoc(c.log, LoadFile(Url(c.device) + name));
    var u := Url(c.device);
    assert (u + name)[|u|..] == name && (u + a.playlist[i])[|u|..] == a.playlist[i];
  }

  /** The name put together from the record is the current track's exactly when the recorded singer
      is no longer than the track's. */
  lemma CircleNames(c: State, a: Spec)
    requires Plays(c, a) && !a.st.Stopped?
    ensures var name := a.playlist[Track(a.st)];
            CurrentName(c.shm) == name <==> |Singer(name)| == |c.shm.curSigner|
  {
    var name := a.playlist[Track(a.st)];
    SplitJoins(name);
    assert |Singer(name)| == |c.shm.curSigner| ==> c.shm.curSigner == Singer(name);
  }

  /** Repeating the current track, as next and previous do in circle mode. */
  lemma RepeatPlaysIff(c: State, a: Spec)
    requires Plays(c, a) && !a.st.Stopped?
    ensures var t, name := LoadTrack(c.(sem := 0), CurrentName(c.shm)), a.playlist[Track(a.st)];
            && (Plays(t, a.(st := Playing(Track(a.st)))) <==> |Singer(name)| >= |c.shm.curSigner|)
            && (|Singer(name)| >= |c.shm.curSigner| ==> SignerAfter(c, t, name))
  {
    CircleNames(c, a);
    LoadRefines(c, a, Track(a.st));
    if CurrentName(c.shm) != a.playlist[Track(a.st)] {
      LoadOther(c, a, CurrentName(c.shm), Track(a.st));
    }
  }

  /** The semaphore is taken, no player runs, and the parent either hangs or believes it plays. */
  ghost predicate Stalled(s: State) {
    s.sem == 0 && Replay(s.log) == Off && (s.halted || (s.start && !s.suspend))
  }

  /** A step agrees with the abstract one exactly when it does not misplay, and then leaves the
      recorded singer overlaid by the published one or as it was. */
  ghost predicate StepOk(c: State, a: Spec, e: Event, t: State)
    requires WellFormed(a) && GoodEvent(e)
  {
    && (Plays(t, StepA(a, e)) <==> !Misplays(c.releases, a, |c.shm.curSigner|, e))
    && (Plays(t, StepA(a, e)) ==>
         if Publishes(a, e) then SignerAfter(c, t, PublishedName(a, e))
         else t.shm.curSigner == c.shm.curSigner)
  }

  lemma RequestsDiffer(old': seq<string>, x: string, y: string)
    ensures old' + [x] == old' + [y] <==> x == y
  {
    assert (old' + [x])[|old'|] == x && (old' + [y])[|old'|] == y;
  }

  /** The recorded singer is the track's exactly when it is not longer. */
  lemma SignerRight(c: State, a: Spec)
    requires Plays(c, a) && !a.st.Stopped?
    ensures var s := Singer(a.playlist[Track(a.st)]);
            c.shm.curSigner == s <==> !(|s| < |c.shm.curSigner|)
  {
  }

  lemma NextExhaustedIsRequest(c: State, a: Spec, reply: seq<string>)
    requires Plays(c, a) && NextExhausts(a, ENext(reply))
    ensures NextPlay(c, reply)
            == Request(if c.releases then c else c.(sem := 0), c.shm.curSigner, reply)
  {
    hide Request;
    MatchesItself(a.playlist, Track(a.st));
    assert c.releases ==> c.(sem := 0).(sem := 1) == c;
  }

  lemma NextExhausted(c: State, a: Spec, reply: seq<string>)
    requires Plays(c, a) && GoodList(reply) && NextExhausts(a, ENext(reply))
    ensures StepOk(c, a, ENext(reply), NextPlay(c, reply))
    ensures !c.releases ==> Stalled(NextPlay(c, reply))
  {
    hide StopPlay, StartPlay, NextPlay;
    var held := if c.releases then c else c.(sem := 0);
    var s := GetMusicName(StopPlay(held), c.shm.curSigner, reply);
    NextExhaustedIsRequest(c, a, reply);
    GoodReplyLoads(reply);
    StopRefines(c, a);
    assert NextPlay(c, reply) == StartPlay(s);
    RequestsDiffer(c.requests, c.shm.curSigner, Singer(a.playlist[Track(a.st)]));
    SignerRight(c, a);
    StartFromStopped(s, StepA(a, ENext(reply)));
  }

  lemma NextMovesOn(c: State, a: Spec, reply: seq<string>)
    requires Plays(c, a) && !a.st.Stopped? && a.mode == Sequence && Track(a.st) + 1 < |a.playlist|
    ensures NextPlay(c, reply) == LoadTrack(c.(sem := 0), a.playlist[Track(a.st) + 1])
  {
    hide LoadTrack, Request;
    MatchesItself(a.playlist, Track(a.st));
  }

  lemma NextOk(c: State, a: Spec, reply: seq<string>)
    requires Plays(c, a) && GoodList(reply)
    ensures StepOk(c, a, ENext(reply), NextPlay(c, reply))
  {
    hide LoadTrack, NextInList;
    if NextExhausts(a, ENext(reply)) {
      NextExhausted(c, a, reply);
    } else if !a.st.Stopped? {
      if a.mode == Circle {
        RepeatPlaysIff(c, a);
      } else {
        NextMovesOn(c, a, reply);
        LoadRefines(c, a, Track(a.st) + 1);
      }
    }
  }

  ghost function PrevTarget(a: Spec): nat {
    if a.mode == Circle || Track(a.st) == 0 then Track(a.st) else Track(a.st) - 1
  }

  lemma PrevMovesBack(c: State, a: Spec)
    requires Plays(c, a) && !a.st.Stopped? && a.mode == Sequence
    ensures PrevPlay(c) == LoadTrack(c.(sem := 0), a.playlist[PrevTarget(a)])
  {
    hide LoadTrack;
    MatchesItself(a.playlist, Track(a.st));
  }

  lemma PrevOk(c: State, a: Spec)
    requires Plays(c, a)
    ensures StepOk(c, a, EPrev, PrevPlay(c))
  {
    hide LoadTrack, PrevInList;
    if !a.st.Stopped? {
      if a.mode == Circle {
        RepeatPlaysIff(c, a);
      } else {
        PrevMovesBack(c, a);
        LoadRefines(c, a, PrevTarget(a));
      }
    }
  }

  /** In step with the plain player, a track that ends plays the successor of its current track;
      `Reachable.TrackEndFollowsParent` says what it plays in every other state. */
  lemma TrackEndPlaysSuccessor(c: State, a: Spec, reply: seq<string>)
    requires Plays(c, a) && a.st.Playing? && a.st.i + 1 < |a.playlist|
    ensures var t, name := TrackEnded(c, reply), c.names[a.st.i + 1];
            && Plays(t, a.(st := Playing(a.st.i + 1))) && SignerAfter(c, t, name)
            && Replay(t.log) == On(Url(c.device) + name, false)
            && t.child == c.child && t.names == c.names && t.shm.curMusic == Title(name)
  {
    hide UpdateMusic;
    var name, s := a.playlist[a.st.i + 1], c.(log := c.log + [Ended]);
    MatchesItself(a.playlist, a.st.i);
    ReplaySnoc(s.log, Exec(Url(c.device) + name));
    assert TrackEnded(c, reply) == PlayName(s, name);
  }

  lemma TrackEndExhausted(c: State, a: Spec, reply: seq<string>)
    requires Plays(c, a) && GoodList(reply) && a.st.Playing? && a.st.i + 1 == |a.playlist|
    ensures StepOk(c, a, ETrackEnd(reply), TrackEnded(c, reply))
  {
    hide StartPlay;
    var s := c.(log := c.log + [Ended], child := NoChild);
    var t := GetMusicName(s.(start := false), c.shm.curSigner, reply);
    MatchesItself(a.playlist, a.st.i);
    ReplaySnoc(c.log, Ended);
    GoodReplyLoads(reply);
    assert PlayerExited(c.(log := c.log + [Ended])) == s.(signalled := true);
    assert TrackEnded(c, reply) == StartPlay(t);
    RequestsDiffer(c.requests, c.shm.curSigner, Singer(a.playlist[a.st.i]));
    SignerRight(c, a);
    StartFromStopped(t, StepA(a, ETrackEnd(reply)));
  }

  lemma TrackEndOk(c: State, a: Spec, reply: seq<string>)
    requires Plays(c, a) && GoodList(reply)
    ensures StepOk(c, a, ETrackEnd(reply), TrackEnded(c, reply))
  {
    hide PlayerExited, UpdateMusic;
    if a.st.Playing? {
      if a.st.i + 1 < |a.playlist| {
        TrackEndPlaysSuccessor(c, a, reply);
      } else {
        TrackEndExhausted(c, a, reply);
      }
    }
  }

  lemma RequestOk(c: State, a: Spec, singer: string, reply: seq<string>)
    requires Plays(c, a) && GoodList(reply)
    ensures StepOk(c, a, ERequest(singer, reply), Request(c, singer, reply))
  {
    hide StopPlay, StartPlay;
    var s := GetMusicName(StopPlay(c), singer, reply);
    GoodReplyLoads(reply);
    StopRefines(c, a);
    StartFromStopped(s, NewList(a, singer, reply, Playing(0)));
  }

  lemma SwitchOk(c: State, a: Spec, e: Event)
    requires Plays(c, a) && GoodEvent(e) && (e.EOffline? || e.EOnline?)
    ensures StepOk(c, a, e, Step(c, e))
  {
    hide StopPlay, InsertedAll, Replay, Url;
    GoodReplyLoads(e.reply);
    StopRefines(c, a);
  }

  lemma StartOk(c: State, a: Spec)
    requires Plays(c, a)
    ensures StepOk(c, a, EStart, StartPlay(c))
  {
    hide Grandchild;
    if a.st.Stopped? {
      StartFromStopped(c, StepA(a, EStart));
    } else {
      ReplaySnoc(c.log, Pause);
    }
  }

  lemma PauseOk(c: State, a: Spec)
    requires Plays(c, a)
    ensures StepOk(c, a, ESuspend, SuspendPlay(c)) && StepOk(c, a, EContinue, ContinuePlay(c))
  {
    ReplaySnoc(c.log, Pause);
  }

  /** One step keeps the player right if and only if it is not one of the two that misplay. */
  lemma StepPlaysIff(c: State, a: Spec, e: Event)
    requires Plays(c, a) && GoodEvent(e)
    ensures StepOk(c, a, e, Step(c, e))
  {
    hide NextPlay, PrevPlay, TrackEnded, Request, ChangeOfflineMode, ChangeOnlineMode,
         StopPlay, StartPlay, SuspendPlay, ContinuePlay;
    match e
    case EStart => StartOk(c, a);
    case EStop => StopRefines(c, a);
    case ESuspend => PauseOk(c, a);
    case EContinue => PauseOk(c, a);
    case EPrev => PrevOk(c, a);
    case ENext(reply) => NextOk(c, a, reply);
    case ETrackEnd(reply) => TrackEndOk(c, a, reply);
    case ERequest(singer, reply) => RequestOk(c, a, singer, reply);
    case EOffline(_, _) => SwitchOk(c, a, e);
    case EOnline(_, _) => SwitchOk(c, a, e);
    case ECircle =>
    case ESequence =>
  }

  /** The length of the recorded singer is a matter of the abstract run alone. */
  lemma SignerLenTracked(c: State, a: Spec, e: Event)
    requires Plays(c, a) && GoodEvent(e) && Plays(Step(c, e), StepA(a, e))
    ensures |Step(c, e).shm.curSigner| == SignerLen(a, |c.shm.curSigner|, e)
  {
    hide Step;
    StepPlaysIff(c, a, e);
  }

  /** One step keeps the whole record right if and only if it is not one of the two that break it. */
  lemma StepRefinesIff(c: State, a: Spec, e: Event)
    requires R(c, a) && GoodEvent(e)
    ensures R(Step(c, e), StepA(a, e)) <==> !Breaks(c.releases, a, |c.shm.curSigner|, e)
  {
    hide Step, Plays;
    StepPlaysIff(c, a, e);
    PlaysFacts(c, a);
    if Publishes(a, e) {
      OverlayIsCopyIff(c.shm.curSigner, Singer(PublishedName(a, e)));
    } else {
      RecordKept(c, a, e);
    }
  }

  lemma PlaysFacts(c: State, a: Spec)
    requires Plays(c, a)
    ensures WellFormed(a)
  {
  }

  /** A step that publishes nothing and leaves playback started stays on its track. */
  lemma RecordKept(c: State, a: Spec, e: Event)
    requires R(c, a) && GoodEvent(e) && !Publishes(a, e)
    ensures !StepA(a, e).st.Stopped? ==>
              !a.st.Stopped? && StepA(a, e).playlist[Track(StepA(a, e).st)] == a.playlist[Track(a.st)]
  {
  }
}
