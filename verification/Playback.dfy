/** The playback controller as a transition system: the parent's flags and playlist, the shared
    record and its semaphore, the child process with its forked copies, and the slave player fed by
    a command log.  Every parent command is one step; the grandchild it starts publishes its record
    within that step.  A `char` stands for a byte and no string holds a NUL. */
module Playback {
  import opened MusicLink

  // ------------------------------------------------------------ slave player

  /** What happens to the player process: started on a file, the three slave commands, and the
      natural end of a track. */
  datatype Cmd = Exec(file: string) | Pause | LoadFile(file: string) | Quit | Ended

  datatype MPlayer = Off | On(file: string, paused: bool)

  /** The player after a log of commands: `pause` toggles, `loadfile` loads and resumes. */
  function Replay(log: seq<Cmd>): MPlayer {
    if log == [] then Off
    else
      var p := Replay(log[..|log| - 1]);
      match log[|log| - 1]
      case Exec(f) => On(f, false)
      case Pause => if p.On? then p.(paused := !p.paused) else Off
      case LoadFile(f) => if p.On? then On(f, false) else Off
      case Quit => Off
      case Ended => Off
  }

  lemma ReplaySnoc(log: seq<Cmd>, c: Cmd)
    ensures Replay(log + [c]) == match c
                                 case Exec(f) => On(f, false)
                                 case Pause =>
                                   if Replay(log).On? then Replay(log).(paused := !Replay(log).paused) else Off
                                 case LoadFile(f) => if Replay(log).On? then On(f, false) else Off
                                 case Quit => Off
                                 case Ended => Off
  {
    assert (log + [c])[..|log|] == log;
  }

  /** `pause` commands written since the last start or `loadfile`. */
  function PausesSinceLoad(log: seq<Cmd>): nat {
    if log == [] || !log[|log| - 1].Pause? then 0 else PausesSinceLoad(log[..|log| - 1]) + 1
  }

  lemma {:induction false} PausedIsParity(log: seq<Cmd>)
    ensures Replay(log).On? ==> (Replay(log).paused <==> PausesSinceLoad(log) % 2 == 1)
  {
    if log != [] {
      PausedIsParity(log[..|log| - 1]);
    }
  }

  // ------------------------------------------------------------------- state

  datatype PlayMode = Sequence | Circle

  datatype DeviceMode = Online | Offline

  function Url(d: DeviceMode): string {
    if d.Online? then "http://8.130.123.33/music/" else "/mnt/usb/music/"
  }

  // The singers asked for at start-up and after a mode change; these strings are only passed on.
  const FIRST_SINGER := "周杰伦"
  const OFFLINE_SINGER := "林俊杰"
  const ONLINE_SINGER := "其他"

  datatype Shm = Shm(curMusic: string, curSigner: string, curMode: PlayMode, childPid: nat)

  /** The child process with the copies `fork` gave it; `buffer` is the name it was started with,
      emptied once its first grandchild runs. */
  datatype Child =
    | NoChild
    | Child(pid: nat, startFlag: bool, names: seq<string>, device: DeviceMode, buffer: string)

  /** `halted`: the parent has crashed or waits forever, or a grandchild has crashed on a name it
      cannot split or a search that finds nothing.  In the source the parent survives that last case, with
      a child that goes on forking; nothing is modelled from there on.  `signalled`: SIGUSR1 is on its
      way to the parent.  `releases`: whether the list-exhausted exit of `NextPlay` gives the semaphore
      back; it does not in the source. */
  datatype State = State(
    start: bool, suspend: bool, device: DeviceMode, names: seq<string>, shm: Shm, sem: int, child: Child,
    log: seq<Cmd>, nextPid: nat, requests: seq<string>, signalled: bool, halted: bool, releases: bool)

  /** `strncpy` of exactly `|new'|` bytes over a string: nothing terminates the copy, so the rest of
      a longer old string stays. */
  function Overlay(old': string, new': string): string {
    if |new'| <= |old'| then new' + old'[|new'|..] else new'
  }

  lemma OverlayIsCopyIff(old': string, new': string)
    ensures Overlay(old', new') == new' <==> |old'| <= |new'|
  {
  }

  function Publish(shm: Shm, name: string): Shm
    requires HasSlash(name)
  {
    shm.(curSigner := Overlay(shm.curSigner, Singer(name)), curMusic := Title(name))
  }

  // ------------------------------------------------------- processes and fifo

  /** Opening the command fifo blocks while no player reads it. */
  function WriteFifo(s: State, c: Cmd): (t: State)
    ensures t.releases == s.releases
  {
    if Replay(s.log).Off? then s.(halted := true) else s.(log := s.log + [c])
  }

  function PlayName(s: State, name: string): (t: State)
    requires s.child.Child?
    ensures t.releases == s.releases
  {
    if !HasSlash(name) then s.(halted := true)
    else
      s.(shm := Publish(s.shm, name).(childPid := s.child.pid),
         child := s.child.(buffer := ""),
         log := s.log + [Exec(Url(s.child.device) + name)])
  }

  /** A grandchild: it takes the semaphore, picks its track from the child's copies, publishes it,
      and becomes the player; at the end of the list it signals parent and child instead. */
  function Grandchild(s: State): (t: State)
    requires s.child.Child?
    ensures t.releases == s.releases
  {
    if s.sem == 0 then s
    else if s.child.buffer != "" then PlayName(s, s.child.buffer)
    else
      match NextOf(s.child.names, s.shm.curMusic)
      case Found(name) => PlayName(s, name)
      case AtEnd =>
        if s.shm.childPid == s.child.pid then s.(child := NoChild, signalled := true)
        else s.(halted := true)
      case Fault => s.(halted := true)
  }

  /** The player process is gone and the child's `wait` returns. */
  function PlayerExited(s: State): (t: State)
    ensures t.releases == s.releases
  {
    if s.child.NoChild? then s
    else if !s.child.startFlag then s.(child := NoChild)
    else Grandchild(s)
  }

  function KillChild(s: State, pid: nat): State {
    if s.child.Child? && s.child.pid == pid then s.(child := s.child.(startFlag := false)) else s
  }

  // ----------------------------------------------------------------- commands

  function ContinuePlay(s: State): (t: State)
    ensures t.releases == s.releases
  {
    if !s.suspend then s
    else
      var s1 := WriteFifo(s, Pause);
      if s1.halted then s1 else s1.(suspend := false)
  }

  function SuspendPlay(s: State): (t: State)
    ensures t.releases == s.releases
  {
    if !s.start || s.suspend then s
    else
      var s1 := WriteFifo(s, Pause);
      if s1.halted then s1 else s1.(suspend := true)
  }

  function StartPlay(s: State): (t: State)
    ensures t.releases == s.releases
  {
    if s.suspend then ContinuePlay(s)
    else if s.start then s
    else if s.names == [] then s.(halted := true)
    else
      Grandchild(s.(start := true, nextPid := s.nextPid + 1,
                    child := Child(s.nextPid, true, s.names, s.device, s.names[0])))
  }

  function StopPlay(s: State): (t: State)
    ensures t.releases == s.releases
  {
    if !s.start then s
    else
      var s1 := WriteFifo(KillChild(s, s.shm.childPid).(start := false, suspend := false), Quit);
      if s1.halted then s1 else PlayerExited(s1)
  }

  /** `ClearMusicList` and the reply to the request for a singer's music. */
  function GetMusicName(s: State, singer: string, reply: seq<string>): State {
    s.(names := InsertedAll([], reply), requests := s.requests + [singer])
  }

  function LoadFileOf(s: State, name: string): (t: State)
    ensures t.releases == s.releases
  {
    var s1 := WriteFifo(s, LoadFile(Url(s.device) + name));
    if s1.halted then s1 else s1.(suspend := false)
  }

  /** Publish a track, release the semaphore, and have the running player load it. */
  function LoadTrack(s: State, name: string): (t: State)
    ensures t.releases == s.releases
  {
    if !HasSlash(name) then s.(halted := true)
    else LoadFileOf(s.(shm := Publish(s.shm, name), sem := 1), name)
  }

  function CurrentName(shm: Shm): string {
    shm.curSigner + "/" + shm.curMusic
  }

  function Request(s: State, singer: string, reply: seq<string>): (t: State)
    ensures t.releases == s.releases
  {
    var s1 := StopPlay(s);
    if s1.halted then s1 else StartPlay(GetMusicName(s1, singer, reply))
  }

  /** `NextPlay` in sequence, inside its critical section.  The exhausted exit stops, reloads and
      starts without having released the semaphore. */
  function NextInList(s: State, reply: seq<string>): (t: State)
    ensures t.releases == s.releases
  {
    match NextOf(s.names, s.shm.curMusic)
    case Fault => s.(halted := true)
    case Found(name) => LoadTrack(s, name)
    case AtEnd => Request(if s.releases then s.(sem := 1) else s, s.shm.curSigner, reply)
  }

  function NextPlay(s: State, reply: seq<string>): (t: State)
    ensures t.releases == s.releases
  {
    if !s.start then s
    else if s.sem == 0 then s.(halted := true)
    else if s.shm.curMode == Circle then LoadTrack(s.(sem := 0), CurrentName(s.shm))
    else NextInList(s.(sem := 0), reply)
  }

  function PrevInList(s: State): (t: State)
    ensures t.releases == s.releases
  {
    match PrevOf(s.names, s.shm.curMusic)
    case Fault => s.(halted := true)
    case Found(name) => LoadTrack(s, name)
    case AtEnd => LoadTrack(s, s.names[0])
  }

  function PrevPlay(s: State): (t: State)
    ensures t.releases == s.releases
  {
    if !s.start then s
    else if s.sem == 0 then s.(halted := true)
    else if s.shm.curMode == Circle then LoadTrack(s.(sem := 0), CurrentName(s.shm))
    else PrevInList(s.(sem := 0))
  }

  /** The parent's handler for SIGUSR1: reap the child, fetch a new list, start again. */
  function UpdateMusic(s: State, reply: seq<string>): (t: State)
    ensures t.releases == s.releases
  {
    if s.sem == 0 || s.child.Child? then s.(start := false, halted := true)
    else StartPlay(GetMusicName(s.(start := false), s.shm.curSigner, reply))
  }

  /** A track plays to its end. */
  function TrackEnded(s: State, reply: seq<string>): (t: State)
    ensures t.releases == s.releases
  {
    if Replay(s.log).Off? || Replay(s.log).paused then s
    else
      var s1 := PlayerExited(s.(log := s.log + [Ended]));
      if s1.signalled && !s1.halted then UpdateMusic(s1.(signalled := false), reply) else s1
  }

  /** Stop and clear both flags, as the mode changes do. */
  function StopAndReset(s: State): (t: State)
    ensures t.releases == s.releases
  {
    var s1 := StopPlay(s);
    if s1.halted then s1 else s1.(start := false, suspend := false)
  }

  function ChangeOfflineMode(s: State, found: bool, reply: seq<string>): (t: State)
    ensures t.releases == s.releases
  {
    if s.device.Offline? then s
    else
      var s1 := StopAndReset(s.(device := Offline));
      if s1.halted || !found then s1 else GetMusicName(s1, OFFLINE_SINGER, reply)
  }

  function ChangeOnlineMode(s: State, connected: bool, reply: seq<string>): (t: State)
    ensures t.releases == s.releases
  {
    if s.device.Online? then s
    else
      var s1 := StopAndReset(s);
      if s1.halted then s1
      else GetMusicName(s1.(device := if connected then Online else s1.device), ONLINE_SINGER, reply)
  }

  // -------------------------------------------------------------------- steps

  datatype Event =
    | EStart | EStop | ESuspend | EContinue | EPrev | ECircle | ESequence
    | ENext(reply: seq<string>)
    | ETrackEnd(reply: seq<string>)
    | ERequest(singer: string, reply: seq<string>)
    | EOffline(found: bool, reply: seq<string>)
    | EOnline(connected: bool, reply: seq<string>)

  function Step(s: State, e: Event): (t: State)
    ensures t.releases == s.releases
  {
    if s.halted then s
    else
      match e
      case EStart => StartPlay(s)
      case EStop => StopPlay(s)
      case ESuspend => SuspendPlay(s)
      case EContinue => ContinuePlay(s)
      case EPrev => PrevPlay(s)
      case ECircle => s.(shm := s.shm.(curMode := Circle))
      case ESequence => s.(shm := s.shm.(curMode := Sequence))
      case ENext(reply) => NextPlay(s, reply)
      case ETrackEnd(reply) => TrackEnded(s, reply)
      case ERequest(singer, reply) => Request(s, singer, reply)
      case EOffline(found, reply) => ChangeOfflineMode(s, found, reply)
      case EOnline(connected, reply) => ChangeOnlineMode(s, connected, reply)
  }

  /** The state after start-up has loaded a first list over the network. */
  function Boot(music: seq<string>, releases: bool): State {
    State(false, false, Online, InsertedAll([], music), Shm("", "", Sequence, 0), 1, NoChild,
          [], 1, [FIRST_SINGER], false, false, releases)
  }

  function Run(s: State, es: seq<Event>): State
    decreases |es|
  {
    if es == [] then s else Run(Step(s, es[0]), es[1..])
  }
}
