/** The server's event loop over the registry: messages, the one-second timer and closed connections,
    in the order in which they come. */
module RegistryServer {
  import opened CArith
  import opened Registry
  import opened RegistryRuns
  import opened RegistryRouting

  datatype Cause = Message(bev: Conn, v: Msg) | Timer | Closed(bev: Conn)

  datatype Arrival = Arrival(at: int, cause: Cause)

  /** Messages come parsed; the offline answer is only ever sent. */
  ghost predicate Parsed(arrivals: seq<Arrival>) {
    forall k | 0 <= k < |arrivals| :: arrivals[k].cause.Message? ==> arrivals[k].cause.v.Msg?
  }

  /** The event an arrival is to the list, if any. */
  function EventsOf(a: Arrival): seq<Timed>
    requires a.cause.Message? ==> a.cause.v.Msg?
  {
    match a.cause
    case Message(bev, v) => if EventOf(bev, v).Some? then [Timed(a.at, EventOf(bev, v).value)] else []
    case Timer => [Timed(a.at, Sweep)]
    case Closed(bev) => [Timed(a.at, Eof(bev))]
  }

  /** What the callbacks make of the list. */
  function Served(l: seq<Node>, a: Arrival): seq<Node>
    requires Stamped(l) && (a.cause.Message? ==> a.cause.v.Msg?)
  {
    match a.cause
    case Message(bev, v) => Handled(l, bev, v, a.at)
    case Timer => Swept(l, a.at)
    case Closed(bev) => Disconnected(l, bev)
  }

  function SentOn(l: seq<Node>, a: Arrival): seq<Sent>
    requires a.cause.Message? ==> a.cause.v.Msg?
  {
    if a.cause.Message? then Relayed(l, a.cause.bev, a.cause.v) else []
  }

  function Events(arrivals: seq<Arrival>): (es: seq<Timed>)
    requires Parsed(arrivals)
    ensures Messages(es)
  {
    if arrivals == [] then []
    else Events(arrivals[..|arrivals| - 1]) + EventsOf(arrivals[|arrivals| - 1])
  }

  /** All that is sent on: each message by the list as it then was. */
  ghost function Sends(arrivals: seq<Arrival>): seq<Sent>
    requires Parsed(arrivals)
  {
    if arrivals == [] then []
    else
      var before, a := arrivals[..|arrivals| - 1], arrivals[|arrivals| - 1];
      Sends(before) + SentOn(Runs(Events(before)), a)
  }

  lemma RunsOn(es: seq<Timed>, e: Timed)
    requires Messages(es) && IsMessage(e)
    ensures Messages(es + [e]) && Runs(es + [e]) == Step(Runs(es), e)
  {
    assert (es + [e])[..|es|] == es;
  }

  /** Handling one arrival is running its events. */
  lemma ArrivalRuns(es: seq<Timed>, a: Arrival)
    requires Messages(es) && (a.cause.Message? ==> a.cause.v.Msg?)
    ensures Messages(es + EventsOf(a))
    ensures Runs(es + EventsOf(a)) == Served(Runs(es), a)
  {
    if EventsOf(a) == [] {
      assert es + EventsOf(a) == es;
    } else {
      RunsOn(es, EventsOf(a)[0]);
      assert EventsOf(a) == [EventsOf(a)[0]];
    }
  }

  lemma ServedOn(arrivals: seq<Arrival>, n: nat)
    requires Parsed(arrivals) && n < |arrivals|
    ensures Runs(Events(arrivals[..n + 1])) == Served(Runs(Events(arrivals[..n])), arrivals[n])
    ensures Sends(arrivals[..n + 1]) == Sends(arrivals[..n]) + SentOn(Runs(Events(arrivals[..n])), arrivals[n])
  {
    assert arrivals[..n + 1][..n] == arrivals[..n];
    ArrivalRuns(Events(arrivals[..n]), arrivals[n]);
  }

  method Handle(p: Player, a: Arrival)
    requires Stamped(p.onlineList) && (a.cause.Message? ==> a.cause.v.Msg?)
    modifies p
    ensures p.onlineList == Served(old(p.onlineList), a)
    ensures p.outbox == old(p.outbox) + SentOn(old(p.onlineList), a)
  {
    match a.cause {
      case Message(bev, v) => p.ReadCb(bev, v, a.at);
      case Timer => p.TraverseList(a.at);
      case Closed(bev) => p.AppOrDevOffline(bev);
    }
  }

  /** The server over any arrivals: its list is the run of their events, so device ids are unique and
      the sweep reads no timestamp that was not written, and it has sent what the messages called for.
      Where connections keep their roles, stored connections are those of their own device. */
  method Serve(arrivals: seq<Arrival>) returns (p: Player)
    requires Parsed(arrivals)
    ensures fresh(p) && p.onlineList == Runs(Events(arrivals)) && p.outbox == Sends(arrivals)
    ensures Tidy(p.onlineList)
    ensures forall owner | History(owner, Events(arrivals)) :: p.onlineList == Run(owner, Events(arrivals))
  {
    hide Served, SentOn, UniqueIds;
    p := new Player();
    var k := 0;
    while k < |arrivals|
      invariant 0 <= k <= |arrivals| && fresh(p)
      invariant p.onlineList == Runs(Events(arrivals[..k])) && p.outbox == Sends(arrivals[..k])
    {
      ServedOn(arrivals, k);
      Handle(p, arrivals[k]);
      k := k + 1;
    }
    assert arrivals[..k] == arrivals;
  }

  // --------------------------------------------------- one arrival after others

  ghost predicate OthersAs(l: seq<Node>, t: seq<Node>, d: string) {
    forall id: string | id != d :: Find(t, id) == Find(l, id)
  }

  /** A report makes a node with no app, or brings the device's node up to date and leaves its links. */
  ghost predicate Reported(was: Option<Node>, bev: Conn, v: Msg, now: int, o: Option<Node>)
    requires v.Msg?
  {
    && o.Some? && o.value.dTime == now && o.value.curMusic == v.curMusic
    && o.value.volume == v.volume && o.value.mode == v.mode
    && match was
       case None => o.value.dBev == bev && o.value.aBev == NULL && o.value.aTime == None && o.value.appid == ""
       case Some(n) =>
         && o.value.dBev == n.dBev && o.value.aBev == n.aBev
         && o.value.aTime == n.aTime && o.value.appid == n.appid
  }

  /** An app's report binds it to a device that is there, and changes nothing the device has told. */
  ghost predicate Bound(was: Option<Node>, bev: Conn, v: Msg, now: int, o: Option<Node>)
    requires v.Msg?
  {
    match was
    case None => o == None
    case Some(n) =>
      && o.Some? && o.value.aBev == bev && o.value.aTime == Some(now) && o.value.appid == v.appid
      && o.value.dTime == n.dTime && o.value.dBev == n.dBev && o.value.curMusic == n.curMusic
      && o.value.volume == n.volume && o.value.mode == n.mode
  }

  /** What each arrival does to the list, in the words of the protocol. */
  ghost predicate Acted(l: seq<Node>, a: Arrival, t: seq<Node>)
    requires a.cause.Message? ==> a.cause.v.Msg?
  {
    match a.cause
    case Timer =>
      && (forall k | 0 <= k < |t| :: a.at - t[k].dTime <= 6)
      && (forall k | 0 <= k < |t| :: t[k].aBev != NULL ==> t[k].aTime.Some? && a.at - t[k].aTime.value <= 6)
      && (forall k | 0 <= k < |l| && a.at - l[k].dTime <= 6 :: Find(t, l[k].deviceid).Some?)
    case Closed(c) => c != NULL ==> (Gone(t, c) <==> HeldOnce(l, c))
    case Message(bev, v) =>
      if v.cmd == "info" then
        OthersAs(l, t, v.deviceid) && Reported(Find(l, v.deviceid), bev, v, a.at, Find(t, v.deviceid))
      else if v.cmd == "app_info" then
        OthersAs(l, t, v.deviceid) && Bound(Find(l, v.deviceid), bev, v, a.at, Find(t, v.deviceid))
      else if v.cmd == "app_offline" then
        bev != NULL && HeldOnce(l, bev) ==> forall k | 0 <= k < |t| :: t[k].aBev != bev
      else t == l
  }

  lemma {:induction false} ReportFound(l: seq<Node>, bev: Conn, v: Msg, now: int, d: string)
    requires v.Msg?
    ensures var t := DevUpdated(l, bev, v, now);
            && Reported(Find(l, v.deviceid), bev, v, now, Find(t, v.deviceid))
            && (d != v.deviceid ==> Find(t, d) == Find(l, d))
    decreases |l|
  {
    if l != [] {
      ReportFound(l[1..], bev, v, now, d);
    }
  }

  lemma {:induction false} BindFound(l: seq<Node>, bev: Conn, v: Msg, now: int, d: string)
    requires v.Msg?
    ensures var t := AppUpdated(l, bev, v, now);
            && Bound(Find(l, v.deviceid), bev, v, now, Find(t, v.deviceid))
            && (d != v.deviceid ==> Find(t, d) == Find(l, d))
    decreases |l|
  {
    if l != [] {
      BindFound(l[1..], bev, v, now, d);
    }
  }

  lemma {:induction false} LeftFound(l: seq<Node>, bev: Conn)
    requires bev != NULL && HeldOnce(l, bev)
    ensures forall k | 0 <= k < |AppLeft(l, bev)| :: AppLeft(l, bev)[k].aBev != bev
    decreases |l|
  {
    if l != [] {
      assert l == [l[0]] + l[1..];
      HeldOnceCons(l[0], l[1..], bev);
      if l[0].aBev != bev {
        LeftFound(l[1..], bev);
      }
    }
  }

  lemma SweepFound(l: seq<Node>, now: int)
    requires Tidy(l)
    ensures Acted(l, Arrival(now, Timer), Swept(l, now))
  {
    var t, idx := Swept(l, now), Recent(l, now, 0);
    SweepKeepsOrder(l, now);
    forall k | 0 <= k < |t|
      ensures now - t[k].dTime <= 6
      ensures t[k].aBev != NULL ==> t[k].aTime.Some? && now - t[k].aTime.value <= 6
    {
      assert CameFrom(l, now, t[k], idx[k]) && idx[k] in idx;
    }
    forall k: nat | k < |l| && now - l[k].dTime <= 6
      ensures Find(t, l[k].deviceid).Some?
    {
      assert k in idx;
      var j :| 0 <= j < |idx| && idx[j] == k;
      assert CameFrom(l, now, t[j], idx[j]);
      FindIsIn(t, l[k].deviceid);
    }
  }

  /** After any arrivals one more acts on the list as the protocol says: by the literal names of the
      commands, the timer by six seconds, and a closed connection exactly if it was stored once; and a
      message is passed on, or answered, by the list it found. */
  lemma ArrivalActs(arrivals: seq<Arrival>, a: Arrival)
    requires Parsed(arrivals) && Parsed(arrivals + [a]) && (a.cause.Message? ==> a.cause.v.Msg?)
    ensures Acted(Runs(Events(arrivals)), a, Runs(Events(arrivals + [a])))
    ensures Sends(arrivals + [a])
            == if a.cause.Message? then Sends(arrivals) + Relayed(Runs(Events(arrivals)), a.cause.bev, a.cause.v)
               else Sends(arrivals)
  {
    hide Runs, Events, Sends, Relayed, Find, HeldOnce, Gone, DevUpdated, AppUpdated, AppLeft, Disconnected, Swept;
    var l := Runs(Events(arrivals));
    assert (arrivals + [a])[..|arrivals|] == arrivals && (arrivals + [a])[..|arrivals| + 1] == arrivals + [a];
    ServedOn(arrivals + [a], |arrivals|);
    match a.cause
    case Timer => SweepFound(l, a.at);
    case Closed(c) =>
      if c != NULL {
        DisconnectClearsIff(l, c);
      }
    case Message(bev, v) =>
      ReportFound(l, bev, v, a.at, v.deviceid);
      BindFound(l, bev, v, a.at, v.deviceid);
      forall id: string | id != v.deviceid
        ensures Find(DevUpdated(l, bev, v, a.at), id) == Find(l, id)
        ensures Find(AppUpdated(l, bev, v, a.at), id) == Find(l, id)
      {
        ReportFound(l, bev, v, a.at, id);
        BindFound(l, bev, v, a.at, id);
      }
      if bev != NULL && HeldOnce(l, bev) {
        LeftFound(l, bev);
      }
  }

  function Ids(l: seq<Node>): seq<string> {
    seq(|l|, k requires 0 <= k < |l| => l[k].deviceid)
  }

  /** A report leaves the devices in their order and puts a new one last. */
  lemma {:induction false} ReportKeepsOrder(l: seq<Node>, bev: Conn, v: Msg, now: int)
    requires v.Msg?
    ensures Ids(DevUpdated(l, bev, v, now)) == if Find(l, v.deviceid).Some? then Ids(l) else Ids(l) + [v.deviceid]
    decreases |l|
  {
    if l != [] {
      var t := DevUpdated(l, bev, v, now);
      ReportKeepsOrder(l[1..], bev, v, now);
      assert Ids(l) == [l[0].deviceid] + Ids(l[1..]);
      assert Ids(t) == [t[0].deviceid] + Ids(t[1..]);
    }
  }
}
