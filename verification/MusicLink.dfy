/** The playlist: a heap-allocated doubly linked list of `singer/title` names, and the two searches
    the player does on it. */
module MusicLink {

  // ------------------------------------------------- the list as a sequence

  /** A bare list, or one holding only the nameless node `InitMusicLink` creates, takes the name
      into its head; any other list gets a new last node. */
  function Inserted(names: seq<string>, name: string): seq<string> {
    if names == [] then [name]
    else if names[0] == "" then [name] + names[1..]
    else names + [name]
  }

  function InsertedAll(names: seq<string>, more: seq<string>): seq<string>
    decreases |more|
  {
    if more == [] then names else InsertedAll(Inserted(names, more[0]), more[1..])
  }

  lemma InsertedAllStep(names: seq<string>, more: seq<string>, i: nat)
    requires i < |more|
    ensures InsertedAll(names, more[i..]) == InsertedAll(Inserted(names, more[i]), more[i + 1..])
  {
    assert more[i..][1..] == more[i + 1..];
  }

  /** `strstr(hay, needle) != NULL`. */
  predicate Contains(hay: string, needle: string) {
    exists k: nat | k <= |hay| :: OccursAt(hay, needle, k)
  }

  predicate OccursAt(hay: string, needle: string, k: nat)
    requires k <= |hay|
  {
    needle <= hay[k..]
  }

  /** Index of the first name that contains `cur`, or the length of the list. */
  function FirstMatch(names: seq<string>, cur: string): (m: nat)
    ensures m <= |names|
    ensures m < |names| ==> Contains(names[m], cur)
    ensures forall k | 0 <= k < m :: !Contains(names[k], cur)
  {
    if names == [] then 0
    else if Contains(names[0], cur) then 0
    else
      var m := FirstMatch(names[1..], cur);
      assert forall k | 1 <= k < m + 1 :: names[k] == names[1..][k - 1];
      m + 1
  }

  /** Outcome of a search; `Fault` is the dereference of a null pointer. */
  datatype Search = Found(name: string) | AtEnd | Fault

  function NextOf(names: seq<string>, cur: string): Search {
    var m := FirstMatch(names, cur);
    if m == |names| then Fault
    else if m == |names| - 1 then AtEnd
    else Found(names[m + 1])
  }

  function PrevOf(names: seq<string>, cur: string): Search {
    var m := FirstMatch(names, cur);
    if m == |names| then Fault
    else if m == 0 then AtEnd
    else Found(names[m - 1])
  }

  // --------------------------------------------------------------- the heap

  class MusicNode {
    var musicName: string
    var prev: MusicNode?
    var next: MusicNode?
    ghost var live: bool

    constructor (name: string)
      ensures musicName == name && prev == null && next == null && live
    {
      musicName, prev, next, live := name, null, null, true;
    }
  }

  class MusicList {
    var head: MusicNode?
    ghost var nodes: seq<MusicNode>
    ghost var repr: set<MusicNode>

    /** Neighbouring nodes point at each other, the ends point nowhere, and no node that was freed
        is reachable. */
    ghost predicate Valid()
      reads this, repr
    {
      && (forall k | 0 <= k < |nodes| :: nodes[k] in repr)
      && (head == null <==> nodes == [])
      && (nodes != [] ==> head == nodes[0] && nodes[0].prev == null && nodes[|nodes| - 1].next == null)
      && (forall k {:trigger nodes[k].next} | 0 <= k < |nodes| - 1 :: nodes[k].next == nodes[k + 1])
      && (forall k {:trigger nodes[k].prev} | 1 <= k < |nodes| :: nodes[k].prev == nodes[k - 1])
      && (forall j, k | 0 <= j < k < |nodes| :: nodes[j] != nodes[k])
      && (forall k | 0 <= k < |nodes| :: nodes[k].live)
    }

    ghost function Names(): seq<string>
      requires Valid()
      reads this, repr
    {
      seq(|nodes|, k requires 0 <= k < |nodes| && nodes[k] in repr reads this, repr => nodes[k].musicName)
    }

    constructor ()
      ensures Valid() && Names() == [] && repr == {}
    {
      head, nodes, repr := null, [], {};
    }

    method InitMusicLink()
      requires Valid() && head == null
      modifies this
      ensures Valid() && Names() == [""] && fresh(repr)
    {
      head := new MusicNode("");
      nodes, repr := [head], {head};
    }

    /** Walk to the last node and hang a new one behind it. */
    method Append(name: string)
      requires Valid() && head != null
      modifies this, repr
      ensures Valid() && Names() == old(Names()) + [name]
      ensures fresh(repr - old(repr))
    {
      ghost var before := Names();
      var node := new MusicNode(name);
      var cur := head;
      ghost var at := 0;
      while cur.next != null
        invariant 0 <= at < |nodes| && cur == nodes[at]
        decreases |nodes| - at
      {
        cur := cur.next;
        at := at + 1;
      }
      assert at == |nodes| - 1;
      cur.next := node;
      node.next := null;
      node.prev := cur;
      nodes, repr := nodes + [node], repr + {node};
      assert Names()[..|before|] == before;
    }

    method InsertMusic(name: string)
      requires Valid()
      modifies this, repr
      ensures Valid() && Names() == Inserted(old(Names()), name)
      ensures fresh(repr - old(repr))
    {
      if head == null {
        InitMusicLink();
      }
      ghost var mid := Names();
      assert head == nodes[0] && nodes[0] in repr && mid[0] == head.musicName;
      if head.musicName == "" {
        head.musicName := name;
        assert Names()[1..] == mid[1..] && Names()[0] == name;
        assert Names() == [name] + mid[1..];
      } else {
        Append(name);
      }
    }

    /** The loop of `LinkMusicList` over the names of a reply. */
    method LinkMusicList(music: seq<string>)
      requires Valid()
      modifies this, repr
      ensures Valid() && Names() == InsertedAll(old(Names()), music)
      ensures fresh(repr - old(repr))
    {
      var i := 0;
      assert music[0..] == music;
      while i < |music|
        invariant 0 <= i <= |music| && Valid()
        invariant InsertedAll(old(Names()), music) == InsertedAll(Names(), music[i..])
        invariant fresh(repr - old(repr))
      {
        InsertedAllStep(Names(), music, i);
        InsertMusic(music[i]);
        i := i + 1;
      }
    }

    /** Every node is freed exactly once, in order, and none is touched after that. */
    method ClearMusicList() returns (ghost freed: seq<MusicNode>)
      requires Valid()
      modifies this, repr
      ensures Valid() && Names() == [] && repr == {}
      ensures freed == old(nodes) && forall n | n in freed :: !n.live
    {
      freed := [];
      var p := head;
      while p != null
        invariant |freed| <= |nodes| && freed == nodes[..|freed|] && nodes == old(nodes)
        invariant p == if |freed| == |nodes| then null else nodes[|freed|]
        invariant forall k | 0 <= k < |freed| :: !nodes[k].live
        invariant forall k | |freed| <= k < |nodes| :: nodes[k].live && nodes[k].next == old(nodes[k].next)
        invariant forall j, k | 0 <= j < k < |nodes| :: nodes[j] != nodes[k]
        decreases |nodes| - |freed|
      {
        assert p.live;
        var q := p.next;
        freed := freed + [p];
        p.live := false;
        p := q;
      }
      head, nodes, repr := null, [], {};
    }

    /** `FindNextMusic`; the play mode it is handed is never looked at. */
    method FindNextMusic(cur: string) returns (r: Search)
      requires Valid()
      ensures r == NextOf(Names(), cur)
    {
      var p := head;
      ghost var at := 0;
      while p != null
        invariant 0 <= at <= |nodes| && p == if at == |nodes| then null else nodes[at]
        invariant forall k | 0 <= k < at :: !Contains(Names()[k], cur)
        decreases |nodes| - at
      {
        assert Names()[at] == p.musicName;
        if Contains(p.musicName, cur) {
          break;
        }
        p := p.next;
        at := at + 1;
      }
      assert at == FirstMatch(Names(), cur);
      if p == null {
        return Fault;
      }
      if p.next == null {
        return AtEnd;
      }
      return Found(p.next.musicName);
    }

    /** `FindPrevMusic`; the head has no predecessor and is reported as the end. */
    method FindPrevMusic(cur: string) returns (r: Search)
      requires Valid()
      ensures r == PrevOf(Names(), cur)
    {
      var p := head;
      if p == null {
        return Fault;
      }
      if Contains(p.musicName, cur) {
        assert FirstMatch(Names(), cur) == 0;
        return AtEnd;
      }
      ghost var at := 0;
      while p.next != null && !Contains(p.next.musicName, cur)
        invariant 0 <= at < |nodes| && p == nodes[at]
        invariant forall k | 0 <= k <= at :: !Contains(Names()[k], cur)
        decreases |nodes| - at
      {
        p := p.next;
        at := at + 1;
      }
      if p.next == null {
        return Fault;
      }
      assert Names()[at + 1] == p.next.musicName;
      assert FirstMatch(Names(), cur) == at + 1;
      return Found(p.musicName);
    }

    /** The array `UploadMusic` builds from the list. */
    method UploadMusic() returns (array': seq<string>)
      requires Valid()
      ensures array' == Names()
    {
      array' := [];
      var p := head;
      while p != null
        invariant |array'| <= |nodes| && array' == Names()[..|array'|]
        invariant p == if |array'| == |nodes| then null else nodes[|array'|]
        decreases |nodes| - |array'|
      {
        array' := array' + [p.musicName];
        p := p.next;
      }
    }

    /** A reply loaded into a cleared list and uploaded again. */
    method Reload(music: seq<string>) returns (uploaded: seq<string>)
      requires Valid()
      modifies this, repr
      ensures Valid() && Names() == InsertedAll([], music) == uploaded
      ensures fresh(repr)
    {
      ghost var freed := ClearMusicList();
      LinkMusicList(music);
      uploaded := UploadMusic();
    }
  }

  // ------------------------------------------------------------- properties

  lemma {:induction false} AppendsToNamedHead(names: seq<string>, more: seq<string>)
    requires names != [] && names[0] != ""
    ensures InsertedAll(names, more) == names + more
    decreases |more|
  {
    if more != [] {
      AppendsToNamedHead(names + [more[0]], more[1..]);
      assert names + [more[0]] + more[1..] == names + more;
    } else {
      assert names + more == names;
    }
  }

  lemma {:induction false} NamelessHeadShortens(names: seq<string>, more: seq<string>)
    requires |names| >= 1
    ensures 1 <= |InsertedAll(names, more)| <= |names| + |more|
    ensures names[0] == "" && more != [] ==> |InsertedAll(names, more)| < |names| + |more|
    decreases |more|
  {
    if more != [] {
      NamelessHeadShortens(Inserted(names, more[0]), more[1..]);
    }
  }

  /** A loaded playlist is the reply, name for name, if and only if the reply does not begin with
      an empty name that a second name then overwrites. */
  lemma LoadedUnchangedIff(music: seq<string>)
    ensures InsertedAll([], music) == music <==> |music| <= 1 || music[0] != ""
  {
    if music != [] {
      var one := [music[0]];
      assert InsertedAll([], music) == InsertedAll(one, music[1..]);
      if music[0] != "" {
        AppendsToNamedHead(one, music[1..]);
        assert one + music[1..] == music;
      } else {
        NamelessHeadShortens(one, music[1..]);
        if |music| == 1 {
          assert music == one && music[1..] == [];
        }
      }
    }
  }

  /** A reply without the empty names at its front; the last name stays whatever it is. */
  function Unblanked(music: seq<string>): seq<string> {
    if |music| > 1 && music[0] == "" then Unblanked(music[1..]) else music
  }

  /** What any reply becomes in a cleared list. */
  lemma {:induction false} LoadedIs(music: seq<string>)
    ensures InsertedAll([], music) == Unblanked(music)
  {
    if |music| > 1 && music[0] == "" {
      var t := music[1..];
      LoadedIs(t);
      assert Inserted([""], t[0]) == [t[0]] && Inserted([], t[0]) == [t[0]];
      assert InsertedAll([], music) == InsertedAll([""], t) == InsertedAll([t[0]], t[1..]);
    } else {
      LoadedUnchangedIff(music);
    }
  }

  // ---------------------------------------------------------------- searches

  /** `strstr` finds a substring. */
  lemma ContainsIff(hay: string, needle: string)
    ensures Contains(hay, needle) <==> exists a, b :: hay == a + needle + b
  {
    if Contains(hay, needle) {
      var k: nat :| k <= |hay| && OccursAt(hay, needle, k);
      assert hay == hay[..k] + needle + hay[k + |needle|..];
    }
    if a, b :| hay == a + needle + b {
      assert hay[|a|..][..|needle|] == needle;
      assert OccursAt(hay, needle, |a|);
    }
  }

  /** Name `i` is the first to contain `cur`. */
  ghost predicate FirstAt(names: seq<string>, cur: string, i: nat) {
    i < |names| && Contains(names[i], cur) && forall j | 0 <= j < i :: !Contains(names[j], cur)
  }

  /** Both searches on any list: they go to the neighbour of the first name that contains the current
      title; the last name has no successor and the first no predecessor; and where no name contains
      the title the null pointer is followed. */
  lemma SearchesFromFirst(names: seq<string>, cur: string, i: nat)
    ensures FirstAt(names, cur, i) ==>
              && NextOf(names, cur) == (if i + 1 < |names| then Found(names[i + 1]) else AtEnd)
              && PrevOf(names, cur) == (if i > 0 then Found(names[i - 1]) else AtEnd)
    ensures NextOf(names, cur) == Fault <==> forall k | 0 <= k < |names| :: !Contains(names[k], cur)
    ensures PrevOf(names, cur) == Fault <==> forall k | 0 <= k < |names| :: !Contains(names[k], cur)
  {
    hide Contains;
    var m := FirstMatch(names, cur);
    if FirstAt(names, cur, i) {
      assert m == i;
    }
  }

  // ------------------------------------------------------------------ titles

  predicate HasSlash(name: string) {
    '/' in name
  }

  /** Index of the first `/`, where a name is split. */
  function SlashAt(name: string): (k: nat)
    requires HasSlash(name)
    ensures k < |name| && name[k] == '/' && forall j | 0 <= j < k :: name[j] != '/'
  {
    if name[0] == '/' then 0 else SlashAt(name[1..]) + 1
  }

  function Singer(name: string): string
    requires HasSlash(name)
  {
    name[..SlashAt(name)]
  }

  function Title(name: string): string
    requires HasSlash(name)
  {
    name[SlashAt(name) + 1..]
  }

  lemma SplitJoins(name: string)
    requires HasSlash(name)
    ensures Singer(name) + "/" + Title(name) == name
    ensures Contains(name, Title(name))
  {
    var k := SlashAt(name);
    assert OccursAt(name, Title(name), k + 1);
  }

  ghost predicate Titled(names: seq<string>) {
    forall k | 0 <= k < |names| :: HasSlash(names[k])
  }

  /** No title occurs in an earlier entry. */
  ghost predicate Unambiguous(names: seq<string>)
    requires Titled(names)
  {
    forall j, k | 0 <= j < k < |names| :: !Contains(names[j], Title(names[k]))
  }

  lemma MatchesItself(names: seq<string>, i: nat)
    requires Titled(names) && Unambiguous(names) && i < |names|
    ensures FirstMatch(names, Title(names[i])) == i
  {
    SplitJoins(names[i]);
  }

  ghost predicate StepsForward(names: seq<string>, i: nat)
    requires Titled(names) && i < |names|
  {
    NextOf(names, Title(names[i])) == if i + 1 < |names| then Found(names[i + 1]) else AtEnd
  }

  ghost predicate WalksForward(names: seq<string>)
    requires Titled(names)
  {
    forall i | 0 <= i < |names| :: StepsForward(names, i)
  }

  lemma EarlierMatchMisleads(names: seq<string>, j: nat, k: nat)
    requires Titled(names) && j < k < |names| && Contains(names[j], Title(names[k]))
    requires forall p, q | 0 <= p < q < |names| :: names[p] != names[q]
    ensures !StepsForward(names, k)
  {
    var m := FirstMatch(names, Title(names[k]));
    assert m <= j;
    assert NextOf(names, Title(names[k])) == Found(names[m + 1]);
    assert k + 1 < |names| ==> names[m + 1] != names[k + 1];
  }

  /** On a list of different names, `FindNextMusic` walks the whole playlist in order if and only if
      no title occurs in an earlier entry. */
  lemma WalksForwardIff(names: seq<string>)
    requires Titled(names) && forall j, k | 0 <= j < k < |names| :: names[j] != names[k]
    ensures WalksForward(names) <==> Unambiguous(names)
  {
    if Unambiguous(names) {
      forall i | 0 <= i < |names|
        ensures StepsForward(names, i)
      {
        MatchesItself(names, i);
      }
    } else {
      var j, k :| 0 <= j < k < |names| && Contains(names[j], Title(names[k]));
      EarlierMatchMisleads(names, j, k);
    }
  }

  /** Going forward and back again returns to the same track. */
  lemma PrevAfterNext(names: seq<string>, i: nat)
    requires Titled(names) && Unambiguous(names) && i + 1 < |names|
    ensures NextOf(names, Title(names[i])) == Found(names[i + 1])
    ensures PrevOf(names, Title(names[i + 1])) == Found(names[i])
  {
    MatchesItself(names, i);
    MatchesItself(names, i + 1);
  }
}
