/** The server's answer to a request for a singer's music, and what the device makes of it. */
module Catalogue {
  import opened CArith
  import opened MusicLink
  import opened Playback
  import opened Reachable
  import opened RefinementRuns

  const LIMIT := 5

  /** A directory entry. */
  datatype Entry = Entry(regular: bool, name: string)

  predicate IsMusic(e: Entry) {
    e.regular && Contains(e.name, ".mp3")
  }

  function MusicOf(singer: string, dir: seq<Entry>): seq<string> {
    if dir == [] then []
    else (if IsMusic(dir[0]) then [singer + "/" + dir[0].name] else []) + MusicOf(singer, dir[1..])
  }

  function Offered(singer: string, dir: seq<Entry>): seq<string> {
    var all := MusicOf(singer, dir);
    if |all| >= LIMIT then all[..LIMIT] else all
  }

  /** The JSON sent back: `null`, or an array of names. */
  datatype Reply = NullReply | MusicReply(music: seq<string>)

  /** The answer for a directory that may be missing. */
  function Answer(singer: string, dir: Option<seq<Entry>>): Reply {
    if dir.None? then NullReply else MusicReply(Offered(singer, dir.value))
  }

  method GetMusicName(singer: string, dir: Option<seq<Entry>>) returns (val: Reply)
    ensures val == Answer(singer, dir) && (val == NullReply <==> dir.None?)
  {
    if dir.None? {
      return NullReply;
    }
    var files := dir.value;
    var musicList := [];
    var d := 0;
    while d < |files|
      invariant 0 <= d <= |files|
      invariant MusicOf(singer, files) == musicList + MusicOf(singer, files[d..])
    {
      var file := files[d];
      d := d + 1;
      assert files[d - 1..][1..] == files[d..];
      if !file.regular {
        continue;
      }
      if !Contains(file.name, ".mp3") {
        continue;
      }
      musicList := musicList + [singer + "/" + file.name];
    }
    var n := if |musicList| >= LIMIT then LIMIT else |musicList|;
    var arr := [];
    for i := 0 to n
      invariant arr == musicList[..i]
    {
      arr := arr + [musicList[i]];
    }
    val := MusicReply(arr);
  }

  lemma SplitOffered(singer: string, file: string)
    requires '/' !in singer
    ensures HasSlash(singer + "/" + file)
    ensures Singer(singer + "/" + file) == singer && Title(singer + "/" + file) == file
  {
    var name := singer + "/" + file;
    assert name[|singer|] == '/';
    assert forall k | 0 <= k < |singer| :: name[k] == singer[k] && singer[k] in singer;
    assert SlashAt(name) == |singer|;
  }

  lemma {:induction false} MusicIsSingers(singer: string, dir: seq<Entry>)
    requires '/' !in singer
    ensures forall k | 0 <= k < |MusicOf(singer, dir)| ::
              && HasSlash(MusicOf(singer, dir)[k])
              && Singer(MusicOf(singer, dir)[k]) == singer
              && Contains(Title(MusicOf(singer, dir)[k]), ".mp3")
  {
    if dir != [] {
      SplitOffered(singer, dir[0].name);
      MusicIsSingers(singer, dir[1..]);
    }
  }

  /** A single entry counts exactly if it is a regular file with `.mp3` in its name. */
  lemma MusicOfOne(singer: string, e: Entry)
    ensures MusicOf(singer, [e])
            == if e.regular && Contains(e.name, ".mp3") then [singer + "/" + e.name] else []
  {
    assert [e][1..] == [];
  }

  /** And what two stretches of a directory offer is what the first offers and then the second. */
  lemma {:induction false} MusicEntryByEntry(singer: string, a: seq<Entry>, b: seq<Entry>)
    ensures MusicOf(singer, a + b) == MusicOf(singer, a) + MusicOf(singer, b)
    decreases |a|
  {
    hide IsMusic;
    if a == [] {
      assert a + b == b;
    } else {
      MusicEntryByEntry(singer, a[1..], b);
      assert (a + b)[1..] == a[1..] + b;
    }
  }

  /** All of it is offered up to five names, and of more the first five. */
  lemma OfferedAreFirstFive(singer: string, dir: seq<Entry>)
    ensures Offered(singer, dir) <= MusicOf(singer, dir)
    ensures |Offered(singer, dir)| == if |MusicOf(singer, dir)| < 5 then |MusicOf(singer, dir)| else 5
  {
  }

  /** Whatever the directory holds, the list offered has at most five tracks, all by the singer
      asked for, so its singers have names of one length. */
  lemma OfferedIsUniform(singer: string, dir: seq<Entry>)
    requires '/' !in singer
    ensures |Offered(singer, dir)| <= 5
    ensures SingersOf(Offered(singer, dir), |singer|)
    ensures forall k | 0 <= k < |Offered(singer, dir)| ::
              && HasSlash(Offered(singer, dir)[k])
              && Singer(Offered(singer, dir)[k]) == singer
              && Contains(Title(Offered(singer, dir)[k]), ".mp3")
  {
    MusicIsSingers(singer, dir);
  }

  /** The names `LinkMusicList` inserts; it refuses a reply that is no object. */
  function NamesOf(r: Reply): seq<string> {
    if r.NullReply? then [] else r.music
  }

  /** Stopping keeps the device mode, and with the semaphore kept it hangs. */
  lemma StopKeeps(s: State)
    requires Reachable.Inv(s) && !s.halted
    ensures StopPlay(s).device == s.device
    ensures s.sem == 0 ==> StopPlay(s).halted && Replay(StopPlay(s).log) == Off
    ensures s.sem == 1 ==> !StopPlay(s).halted
  {
  }

  /** A missing directory leaves the device without a track, any other gives it what is offered. */
  lemma NamesAnswered(singer: string, dir: Option<seq<Entry>>)
    ensures NamesOf(Answer(singer, dir)) == if dir.None? then [] else Offered(singer, dir.value)
  {
  }

  /** A request in any reachable state of an online device: the device goes over to the first track
      offered, and if the directory is missing or holds no music the parent crashes on its empty
      list.  With the semaphore kept it hangs in either case. */
  lemma RequestAnswered(s: State, singer: string, dir: Option<seq<Entry>>)
    requires Reachable.Inv(s) && !s.halted && s.device.Online? && '/' !in singer
    ensures var names := NamesOf(Answer(singer, dir));
            var t := Step(s, ERequest(singer, names));
            if s.sem == 1 && names != [] then
              !t.halted && t.names == names && Replay(t.log) == On(Url(Online) + names[0], false)
            else t.halted && Replay(t.log) == Off
  {
    hide StopPlay, StartPlay;
    var names := NamesOf(Answer(singer, dir));
    if dir.Some? {
      MusicIsSingers(singer, dir.value);
    }
    StopInv(s);
    StopKeeps(s);
    if !StopPlay(s).halted {
      LoadedInv(StopPlay(s), singer, names);
      LoadedUnchangedIff(names);
      StartKeepsLists(Playback.GetMusicName(StopPlay(s), singer, names));
      StartInv(Playback.GetMusicName(StopPlay(s), singer, names));
    }
  }
}
