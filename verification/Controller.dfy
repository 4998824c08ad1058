/** The playback controller in its imperative form: global flags, a shared record rewritten in
    place, the heap list, and the processes.  Every method is tied to the transition of the same
    name in `Playback`, any series of commands to its runs, and so to what is proved of those. */
module Controller {
  import opened MusicLink
  import P = Playback
  import Reachable
  import Refinement
  import RefinementRuns
  import Controls
  import Button

  class Controller {
    var start: bool
    var suspend: bool
    var device: P.DeviceMode
    const list: MusicList
    var shm: P.Shm
    var sem: int
    var child: P.Child
    var log: seq<P.Cmd>
    var nextPid: nat
    var requests: seq<string>
    var signalled: bool
    var halted: bool
    const releases: bool

    ghost predicate Valid()
      reads this, list, list.repr
    {
      list.Valid()
    }

    ghost function View(): P.State
      requires Valid()
      reads this, list, list.repr
    {
      P.State(start, suspend, device, list.Names(), shm, sem, child,
              log, nextPid, requests, signalled, halted, releases)
    }

    /** The state after start-up has loaded a first list over the network. */
    constructor (music: seq<string>, releases: bool)
      ensures Valid() && View() == P.Boot(music, releases)
      ensures fresh(list) && fresh(list.repr)
    {
      list := new MusicList();
      start, suspend, device := false, false, P.Online;
      shm, sem, child := P.Shm("", "", P.Sequence, 0), 1, P.NoChild;
      log, nextPid, requests := [], 1, [P.FIRST_SINGER];
      signalled, halted := false, false;
      this.releases := releases;
      new;
      list.LinkMusicList(music);
    }

    method WriteFifo(c: P.Cmd)
      requires Valid()
      modifies this
      ensures Valid() && View() == P.WriteFifo(old(View()), c)
    {
      if P.Replay(log).Off? {
        halted := true;
      } else {
        log := log + [c];
      }
    }

    /** Copy one track name into the shared record. */
    method SetTrack(name: string)
      requires Valid() && HasSlash(name)
      modifies `shm
      ensures Valid() && View() == old(View()).(shm := P.Publish(old(shm), name))
    {
      var p := 0;
      while name[p] != '/'
        invariant 0 <= p < |name| && forall j | 0 <= j < p :: name[j] != '/'
        decreases |name| - p
      {
        p := p + 1;
        assert '/' in name[p..] by {
          assert name[SlashAt(name)] == '/';
        }
      }
      assert p == SlashAt(name);
      var signer := name[..p];
      var old' := shm.curSigner;
      shm := shm.(curSigner := if |signer| <= |old'| then signer + old'[|signer|..] else signer,
                  curMusic := name[p + 1..]);
    }

    method PlayName(name: string)
      requires Valid() && child.Child?
      modifies this
      ensures Valid() && View() == P.PlayName(old(View()), name)
    {
      hide P.Publish, P.Url;
      if !HasSlash(name) {
        halted := true;
        return;
      }
      SetTrack(name);
      shm := shm.(childPid := child.pid);
      child := child.(buffer := "");
      log := log + [P.Exec(P.Url(child.device) + name)];
    }

    method Grandchild()
      requires Valid() && child.Child?
      modifies this
      ensures Valid() && View() == P.Grandchild(old(View()))
    {
      hide P.PlayName, NextOf;
      if sem == 0 {
        return;
      }
      if child.buffer != "" {
        PlayName(child.buffer);
        return;
      }
      match NextOf(child.names, shm.curMusic) {
        case Found(name) =>
          PlayName(name);
        case AtEnd =>
          if shm.childPid == child.pid {
            child := P.NoChild;
            signalled := true;
          } else {
            halted := true;
          }
        case Fault =>
          halted := true;
      }
    }

    method PlayerExited()
      requires Valid()
      modifies this
      ensures Valid() && View() == P.PlayerExited(old(View()))
    {
      hide P.Grandchild;
      if child.Child? {
        if !child.startFlag {
          child := P.NoChild;
        } else {
          Grandchild();
        }
      }
    }

    method ContinuePlay()
      requires Valid() && !halted
      modifies this
      ensures Valid() && View() == P.ContinuePlay(old(View()))
    {
      if !suspend {
        return;
      }
      WriteFifo(P.Pause);
      if !halted {
        suspend := false;
      }
    }

    method SuspendPlay()
      requires Valid() && !halted
      modifies this
      ensures Valid() && View() == P.SuspendPlay(old(View()))
    {
      if !start || suspend {
        return;
      }
      WriteFifo(P.Pause);
      if !halted {
        suspend := true;
      }
    }

    method StartPlay()
      requires Valid() && !halted
      modifies this
      ensures Valid() && View() == P.StartPlay(old(View()))
    {
      hide P.Grandchild, P.ContinuePlay;
      if suspend {
        ContinuePlay();
        return;
      }
      if start {
        return;
      }
      if list.head == null {
        halted := true;
        return;
      }
      assert list.Names()[0] == list.head.musicName;
      // the child's list is a copy of the parent's at the moment of the fork
      ghost var before := View();
      var copy := list.UploadMusic();
      start := true;
      child := P.Child(nextPid, true, copy, device, list.head.musicName);
      nextPid := nextPid + 1;
      assert View() == before.(start := true, nextPid := before.nextPid + 1,
                               child := P.Child(before.nextPid, true, before.names, before.device, before.names[0]));
      Grandchild();
    }

    method StopPlay()
      requires Valid() && !halted
      modifies this
      ensures Valid() && View() == P.StopPlay(old(View()))
    {
      hide P.PlayerExited, P.Replay;
      if !start {
        return;
      }
      if child.Child? && child.pid == shm.childPid {
        child := child.(startFlag := false);
      }
      start := false;
      suspend := false;
      WriteFifo(P.Quit);
      if !halted {
        PlayerExited();
      }
    }

    method GetMusicName(singer: string, reply: seq<string>)
      requires Valid()
      modifies this, list, list.repr
      ensures Valid() && View() == P.GetMusicName(old(View()), singer, reply)
      ensures fresh(list.repr)
    {
      requests := requests + [singer];
      var uploaded := list.Reload(reply);
    }

    /** `SetShm` and `SemV` at the end of a critical section. */
    method PublishTrack(name: string)
      requires Valid() && HasSlash(name)
      modifies `shm, `sem
      ensures Valid() && View() == old(View()).(shm := P.Publish(old(shm), name), sem := 1)
    {
      SetTrack(name);
      sem := 1;
    }

    method LoadFile(name: string)
      requires Valid() && !halted
      modifies this
      ensures Valid() && View() == P.LoadFileOf(old(View()), name)
    {
      WriteFifo(P.LoadFile(P.Url(device) + name));
      if !halted {
        suspend := false;
      }
    }

    method LoadTrack(name: string)
      requires Valid() && !halted
      modifies this
      ensures Valid() && View() == P.LoadTrack(old(View()), name)
    {
      if !HasSlash(name) {
        halted := true;
      } else {
        PublishTrack(name);
        LoadFile(name);
      }
    }

    /** Repeating a track: its name is put together from the shared record. */
    method LoadCurrent()
      requires Valid() && !halted
      modifies this
      ensures Valid() && View() == P.LoadTrack(old(View()), P.CurrentName(old(shm)))
    {
      LoadTrack(shm.curSigner + "/" + shm.curMusic);
    }

    method NextPlay(reply: seq<string>)
      requires Valid() && !halted
      modifies this, list, list.repr
      ensures Valid() && View() == P.NextPlay(old(View()), reply)
      ensures fresh(list.repr - old(list.repr))
    {
      hide P.LoadTrack, P.NextInList;
      if !start {
        return;
      }
      if sem == 0 {
        halted := true;
        return;
      }
      sem := 0;
      if shm.curMode == P.Circle {
        LoadCurrent();
      } else {
        NextInList(reply);
      }
    }

    method NextInList(reply: seq<string>)
      requires Valid() && !halted && sem == 0
      modifies this, list, list.repr
      ensures Valid() && View() == P.NextInList(old(View()), reply)
      ensures fresh(list.repr - old(list.repr))
    {
      hide P.LoadTrack, P.Request, NextOf;
      var next := list.FindNextMusic(shm.curMusic);
      match next {
        case Fault =>
          halted := true;
        case Found(name) =>
          LoadTrack(name);
        case AtEnd =>
          if releases {
            sem := 1;
          }
          Request(shm.curSigner, reply);
      }
    }

    /** Stop, fetch a new list, start again: the voice request for a singer, and the exhausted list. */
    method Request(singer: string, reply: seq<string>)
      requires Valid() && !halted
      modifies this, list, list.repr
      ensures Valid() && View() == P.Request(old(View()), singer, reply)
      ensures fresh(list.repr - old(list.repr))
    {
      hide P.StopPlay, P.StartPlay;
      StopPlay();
      if !halted {
        GetMusicName(singer, reply);
        StartPlay();
      }
    }

    method PrevPlay()
      requires Valid() && !halted
      modifies this
      ensures Valid() && View() == P.PrevPlay(old(View()))
    {
      hide P.LoadTrack, P.PrevInList;
      if start {
        if sem == 0 {
          halted := true;
        } else {
          sem := 0;
          if shm.curMode == P.Circle {
            LoadCurrent();
          } else {
            PrevInList();
          }
        }
      }
    }

    method PrevInList()
      requires Valid() && !halted && sem == 0
      modifies this
      ensures Valid() && View() == P.PrevInList(old(View()))
    {
      hide P.LoadTrack;
      var prev := list.FindPrevMusic(shm.curMusic);
      match prev {
        case Fault =>
          halted := true;
        case Found(name) =>
          LoadTrack(name);
        case AtEnd =>
          assert list.Names()[0] == list.head.musicName;
          LoadTrack(list.head.musicName);
      }
    }

    method UpdateMusic(reply: seq<string>)
      requires Valid() && !halted
      modifies this, list, list.repr
      ensures Valid() && View() == P.UpdateMusic(old(View()), reply)
      ensures fresh(list.repr - old(list.repr))
    {
      hide P.StartPlay;
      start := false;
      if sem == 0 || child.Child? {
        halted := true;
        return;
      }
      GetMusicName(shm.curSigner, reply);
      StartPlay();
    }

    method TrackEnded(reply: seq<string>)
      requires Valid() && !halted
      modifies this, list, list.repr
      ensures Valid() && View() == P.TrackEnded(old(View()), reply)
      ensures fresh(list.repr - old(list.repr))
    {
      hide P.PlayerExited, P.UpdateMusic;
      if P.Replay(log).Off? || P.Replay(log).paused {
        return;
      }
      log := log + [P.Ended];
      PlayerExited();
      if signalled && !halted {
        signalled := false;
        UpdateMusic(reply);
      }
    }

    method CirclePlay()
      requires Valid() && !halted
      modifies this
      ensures Valid() && View() == P.Step(old(View()), P.ECircle)
    {
      shm := shm.(curMode := P.Circle);
    }

    method SequencePlay()
      requires Valid() && !halted
      modifies this
      ensures Valid() && View() == P.Step(old(View()), P.ESequence)
    {
      shm := shm.(curMode := P.Sequence);
    }

    method StopAndReset()
      requires Valid() && !halted
      modifies this
      ensures Valid() && View() == P.StopAndReset(old(View()))
    {
      StopPlay();
      if !halted {
        start := false;
        suspend := false;
      }
    }

    method ChangeOfflineMode(found: bool, reply: seq<string>)
      requires Valid() && !halted
      modifies this, list, list.repr
      ensures Valid() && View() == P.ChangeOfflineMode(old(View()), found, reply)
      ensures fresh(list.repr - old(list.repr))
    {
      if device == P.Offline {
        return;
      }
      device := P.Offline;
      StopAndReset();
      if halted {
        return;
      }
      if found {
        GetMusicName(P.OFFLINE_SINGER, reply);
      }
    }

    method ChangeOnlineMode(connected: bool, reply: seq<string>)
      requires Valid() && !halted
      modifies this, list, list.repr
      ensures Valid() && View() == P.ChangeOnlineMode(old(View()), connected, reply)
      ensures fresh(list.repr - old(list.repr))
    {
      if device == P.Online {
        return;
      }
      StopAndReset();
      if halted {
        return;
      }
      if connected {
        device := P.Online;
      }
      GetMusicName(P.ONLINE_SINGER, reply);
    }

    /** One command, track end or reply; once the run has halted nothing more happens. */
    method Do(e: P.Event)
      requires Valid()
      modifies this, list, list.repr
      ensures Valid() && View() == P.Step(old(View()), e)
      ensures fresh(list.repr - old(list.repr))
    {
      hide P.StartPlay, P.StopPlay, P.SuspendPlay, P.ContinuePlay, P.NextPlay, P.PrevPlay, P.TrackEnded,
           P.Request, P.ChangeOfflineMode, P.ChangeOnlineMode;
      if halted {
        return;
      }
      match e {
        case EStart => StartPlay();
        case EStop => StopPlay();
        case ESuspend => SuspendPlay();
        case EContinue => ContinuePlay();
        case EPrev => PrevPlay();
        case ECircle => CirclePlay();
        case ESequence => SequencePlay();
        case ENext(reply) => NextPlay(reply);
        case ETrackEnd(reply) => TrackEnded(reply);
        case ERequest(singer, reply) => Request(singer, reply);
        case EOffline(found, reply) => ChangeOfflineMode(found, reply);
        case EOnline(connected, reply) => ChangeOnlineMode(connected, reply);
      }
    }

    /** A short press of the device's button. */
    method Handle()
      requires Valid() && !halted
      modifies this
      ensures Valid() && View() == P.Step(old(View()), Controls.GestureEvent(old(View()), Button.Short, []))
      ensures Reachable.Inv(old(View())) ==> Controls.Acts(old(View()), View())
    {
      hide P.StartPlay, P.SuspendPlay, P.ContinuePlay, Reachable.Inv, Controls.Acts;
      ghost var s := View();
      if Reachable.Inv(s) {
        Controls.PressActs(s, []);
      }
      if !start {
        StartPlay();
      } else if !suspend {
        SuspendPlay();
      } else {
        ContinuePlay();
      }
    }

    /** The main loop over a whole series of commands. */
    method Serve(es: seq<P.Event>)
      requires Valid()
      modifies this, list, list.repr
      ensures Valid() && View() == P.Run(old(View()), es)
    {
      hide P.Step;
      var k := 0;
      while k < |es|
        invariant 0 <= k <= |es| && Valid() && fresh(list.repr - old(list.repr))
        invariant P.Run(View(), es[k..]) == P.Run(old(View()), es)
      {
        assert es[k..][1..] == es[k + 1..];
        Do(es[k]);
        k := k + 1;
      }
    }
  }

  /** The device program from start-up on: it reaches a state in which flags, player and processes
      fit together, whatever the commands and replies; and on a good list it plays what the plain
      player plays, unless some step of the plain run is one that misplays. */
  method Session(music: seq<string>, releases: bool, es: seq<P.Event>) returns (c: Controller)
    ensures c.Valid() && c.View() == P.Run(P.Boot(music, releases), es)
    ensures Reachable.Inv(c.View())
    ensures Refinement.GoodList(music) && RefinementRuns.GoodRun(es)
            && RefinementRuns.NeverMisplays(releases, RefinementRuns.Ready(music), 0, es) ==>
              Refinement.Plays(c.View(), RefinementRuns.RunA(RefinementRuns.Ready(music), es))
  {
    hide P.Run, Reachable.Inv, Refinement.Plays;
    c := new Controller(music, releases);
    c.Serve(es);
    Reachable.BootInv(music, releases);
    Reachable.RunInv(P.Boot(music, releases), es);
    if Refinement.GoodList(music) && RefinementRuns.GoodRun(es) {
      RefinementRuns.BootedRunPlaysIff(music, releases, es);
      if RefinementRuns.NeverMisplays(releases, RefinementRuns.Ready(music), 0, es) {
        RefinementRuns.PlaysAtEnd(P.Boot(music, releases), RefinementRuns.Ready(music), es);
      }
    }
  }
}
