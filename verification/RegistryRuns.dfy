/** All timed runs of the registry.  The first-match loops over the list are shown to act on each
    device's node alone, and what a device's node holds is read off the history of events. */
module RegistryRuns {
  import opened CArith
  import opened Registry

  /** What a connection is used for: one role, for one device id, for as long as it lives. */
  datatype Role = DeviceRole(id: string) | AppRole(id: string)

  type Owners = map<Conn, Role>

  ghost predicate IsDevice(owner: Owners, c: Conn, id: string) {
    c != NULL && c in owner && owner[c] == DeviceRole(id)
  }

  ghost predicate IsApp(owner: Owners, c: Conn, id: string) {
    c != NULL && c in owner && owner[c] == AppRole(id)
  }

  datatype Event =
    | Report(bev: Conn, v: Msg)
    | Bind(bev: Conn, v: Msg)
    | Sweep
    | Eof(bev: Conn)
    | Bye(bev: Conn)

  datatype Timed = Timed(at: int, ev: Event)

  ghost predicate Conforms(owner: Owners, e: Event) {
    match e
    case Report(bev, v) => v.Msg? && IsDevice(owner, bev, v.deviceid)
    case Bind(bev, v) => v.Msg? && IsApp(owner, bev, v.deviceid)
    case Sweep => true
    case Eof(bev) => bev != NULL
    case Bye(bev) => bev != NULL
  }

  /** Conforming events at times that never go back. */
  ghost predicate History(owner: Owners, es: seq<Timed>) {
    && (forall k | 0 <= k < |es| :: Conforms(owner, es[k].ev))
    && (forall j, k | 0 <= j <= k < |es| :: es[j].at <= es[k].at)
  }

  // --------------------------------------------------------------- invariant

  ghost predicate UniqueIds(l: seq<Node>) {
    forall j, k | 0 <= j < k < |l| :: l[j].deviceid != l[k].deviceid
  }

  ghost predicate NodeOk(owner: Owners, n: Node) {
    && IsDevice(owner, n.dBev, n.deviceid)
    && (n.aBev != NULL ==> IsApp(owner, n.aBev, n.deviceid) && n.aTime.Some?)
  }

  /** Device ids are unique and every stored connection belongs to its node's device. */
  ghost predicate Inv(owner: Owners, l: seq<Node>) {
    UniqueIds(l) && forall k | 0 <= k < |l| :: NodeOk(owner, l[k])
  }

  /** The node of a device, by the same first match the loops use. */
  function Find(l: seq<Node>, id: string): Option<Node> {
    if l == [] then None
    else if l[0].deviceid == id then Some(l[0])
    else Find(l[1..], id)
  }

  lemma {:induction false} FindIsIn(l: seq<Node>, id: string)
    ensures Find(l, id).Some? ==> Find(l, id).value in l && Find(l, id).value.deviceid == id
    ensures Find(l, id).None? ==> forall k | 0 <= k < |l| :: l[k].deviceid != id
  {
    if l != [] {
      FindIsIn(l[1..], id);
    }
  }

  lemma InvTail(owner: Owners, l: seq<Node>)
    requires Inv(owner, l) && l != []
    ensures Inv(owner, l[1..]) && Find(l[1..], l[0].deviceid).None? && NodeOk(owner, l[0])
  {
    FindIsIn(l[1..], l[0].deviceid);
  }

  lemma FoundOk(owner: Owners, l: seq<Node>, d: string)
    requires Inv(owner, l)
    ensures Find(l, d).Some? ==> NodeOk(owner, Find(l, d).value) && Find(l, d).value.deviceid == d
  {
    FindIsIn(l, d);
  }

  lemma InvCons(owner: Owners, n: Node, l: seq<Node>)
    requires NodeOk(owner, n) && Inv(owner, l) && Find(l, n.deviceid).None?
    ensures Inv(owner, [n] + l)
  {
    FindIsIn(l, n.deviceid);
  }

  // ---------------------------------------------------------- one device's view

  /** What one event does to the node of device `d`, the other devices left aside. */
  function NodeStep(o: Option<Node>, d: string, e: Timed): Option<Node>
    requires e.ev.Report? || e.ev.Bind? ==> e.ev.v.Msg?
    requires o.Some? && o.value.aBev != NULL ==> o.value.aTime.Some?
  {
    match e.ev
    case Report(bev, v) =>
      if v.deviceid != d then o
      else if o.None? then Some(NewNode(bev, v, e.at))
      else Some(Refreshed(o.value, v, e.at))
    case Bind(bev, v) =>
      if v.deviceid != d || o.None? then o
      else Some(o.value.(aBev := bev, aTime := Some(e.at), appid := v.appid))
    case Sweep =>
      if o.None? || e.at - o.value.dTime > 6 then None else Some(AppSwept(o.value, e.at))
    case Eof(bev) =>
      if o.None? then None
      else if bev == o.value.aBev then Some(o.value.(aBev := NULL))
      else if bev == o.value.dBev then None
      else o
    case Bye(bev) =>
      if o.Some? && bev == o.value.aBev then Some(o.value.(aBev := NULL)) else o
  }

  function Step(l: seq<Node>, e: Timed): seq<Node>
    requires e.ev.Report? || e.ev.Bind? ==> e.ev.v.Msg?
    requires Stamped(l)
  {
    match e.ev
    case Report(bev, v) => DevUpdated(l, bev, v, e.at)
    case Bind(bev, v) => AppUpdated(l, bev, v, e.at)
    case Sweep => Swept(l, e.at)
    case Eof(bev) => Disconnected(l, bev)
    case Bye(bev) => AppLeft(l, bev)
  }

  /** The event a message is to the list, if any. */
  function EventOf(bev: Conn, v: Msg): Option<Event>
    requires v.Msg?
  {
    if v.cmd == "info" then Some(Report(bev, v))
    else if v.cmd == "app_info" then Some(Bind(bev, v))
    else if v.cmd == "app_offline" then Some(Bye(bev))
    else None
  }

  ghost predicate StepOk(owner: Owners, l: seq<Node>, e: Timed, d: string)
    requires Conforms(owner, e.ev) && Stamped(l)
  {
    && Inv(owner, Step(l, e))
    && (Find(l, d).Some? && Find(l, d).value.aBev != NULL ==> Find(l, d).value.aTime.Some?)
    && Find(Step(l, e), d) == NodeStep(Find(l, d), d, e)
  }

  lemma {:induction false} ReportStep(owner: Owners, l: seq<Node>, e: Timed, d: string)
    requires Inv(owner, l) && Conforms(owner, e.ev) && e.ev.Report?
    ensures StepOk(owner, l, e, d)
    decreases |l|
  {
    var id := e.ev.v.deviceid;
    if l == [] {
    } else {
      InvTail(owner, l);
      FoundOk(owner, l[1..], d);
      if l[0].deviceid == id {
        InvCons(owner, Refreshed(l[0], e.ev.v, e.at), l[1..]);
      } else {
        var rest := Step(l[1..], e);
        ReportStep(owner, l[1..], e, d);
        ReportStep(owner, l[1..], e, l[0].deviceid);
        InvCons(owner, l[0], rest);
      }
    }
  }

  lemma {:induction false} BindStep(owner: Owners, l: seq<Node>, e: Timed, d: string)
    requires Inv(owner, l) && Conforms(owner, e.ev) && e.ev.Bind?
    ensures StepOk(owner, l, e, d)
    decreases |l|
  {
    if l != [] {
      var v := e.ev.v;
      InvTail(owner, l);
      FoundOk(owner, l[1..], d);
      if l[0].deviceid == v.deviceid {
        InvCons(owner, l[0].(aBev := e.ev.bev, aTime := Some(e.at), appid := v.appid), l[1..]);
      } else {
        BindStep(owner, l[1..], e, d);
        BindStep(owner, l[1..], e, l[0].deviceid);
        InvCons(owner, l[0], Step(l[1..], e));
      }
    }
  }

  lemma {:induction false} SweepStep(owner: Owners, l: seq<Node>, e: Timed, d: string)
    requires Inv(owner, l) && e.ev.Sweep?
    ensures StepOk(owner, l, e, d)
    decreases |l|
  {
    if l != [] {
      InvTail(owner, l);
      SweepStep(owner, l[1..], e, d);
      SweepStep(owner, l[1..], e, l[0].deviceid);
      if e.at - l[0].dTime <= 6 {
        InvCons(owner, AppSwept(l[0], e.at), Step(l[1..], e));
      }
    }
  }

  /** Although the loop stops at its first match, a disconnect acts on every device's node. */
  lemma {:induction false} EofStep(owner: Owners, l: seq<Node>, e: Timed, d: string)
    requires Inv(owner, l) && Conforms(owner, e.ev) && e.ev.Eof?
    ensures StepOk(owner, l, e, d)
    decreases |l|
  {
    if l != [] {
      var bev := e.ev.bev;
      InvTail(owner, l);
      FoundOk(owner, l[1..], d);
      if bev == l[0].aBev {
        InvCons(owner, l[0].(aBev := NULL), l[1..]);
      } else if bev != l[0].dBev {
        EofStep(owner, l[1..], e, d);
        EofStep(owner, l[1..], e, l[0].deviceid);
        InvCons(owner, l[0], Step(l[1..], e));
      }
    }
  }

  lemma {:induction false} ByeStep(owner: Owners, l: seq<Node>, e: Timed, d: string)
    requires Inv(owner, l) && Conforms(owner, e.ev) && e.ev.Bye?
    ensures StepOk(owner, l, e, d)
    decreases |l|
  {
    if l != [] {
      var bev := e.ev.bev;
      InvTail(owner, l);
      FoundOk(owner, l[1..], d);
      if bev == l[0].aBev {
        InvCons(owner, l[0].(aBev := NULL), l[1..]);
      } else {
        ByeStep(owner, l[1..], e, d);
        ByeStep(owner, l[1..], e, l[0].deviceid);
        InvCons(owner, l[0], Step(l[1..], e));
      }
    }
  }

  /** Every event keeps the registry well formed and acts on each device by itself. */
  lemma StepIsPerDevice(owner: Owners, l: seq<Node>, e: Timed, d: string)
    requires Inv(owner, l) && Conforms(owner, e.ev)
    ensures StepOk(owner, l, e, d)
  {
    match e.ev
    case Report(_, _) => ReportStep(owner, l, e, d);
    case Bind(_, _) => BindStep(owner, l, e, d);
    case Sweep => SweepStep(owner, l, e, d);
    case Eof(_) => EofStep(owner, l, e, d);
    case Bye(_) => ByeStep(owner, l, e, d);
  }

  // ------------------------------------- what needs no rule about connections

  ghost predicate IsMessage(e: Timed) {
    e.ev.Report? || e.ev.Bind? ==> e.ev.v.Msg?
  }

  ghost predicate Tidy(l: seq<Node>) {
    UniqueIds(l) && Stamped(l)
  }

  lemma TidyTail(l: seq<Node>)
    requires Tidy(l) && l != []
    ensures Tidy(l[1..]) && Find(l[1..], l[0].deviceid).None?
  {
    FindIsIn(l[1..], l[0].deviceid);
  }

  lemma TidyCons(n: Node, l: seq<Node>)
    requires Tidy(l) && Find(l, n.deviceid).None? && (n.aBev != NULL ==> n.aTime.Some?)
    ensures Tidy([n] + l)
  {
    FindIsIn(l, n.deviceid);
  }

  ghost predicate IsReportOf(e: Timed, d: string) {
    e.ev.Report? && e.ev.v.Msg? && e.ev.v.deviceid == d
  }

  /** A node found after an event has the time of that report, or of before if the event was none;
      and a sweep has left it only within six seconds. */
  ghost predicate TimeStep(before: Option<Node>, e: Timed, d: string, after: Option<Node>) {
    after.Some? ==>
      if IsReportOf(e, d) then after.value.dTime == e.at
      else
        && before.Some? && after.value.dTime == before.value.dTime
        && (e.ev.Sweep? ==> e.at - before.value.dTime <= 6)
  }

  ghost predicate StaysTidy(l: seq<Node>, e: Timed, d: string)
    requires Tidy(l) && IsMessage(e)
  {
    Tidy(Step(l, e)) && TimeStep(Find(l, d), e, d, Find(Step(l, e), d))
  }

  lemma {:induction false} ReportTidy(l: seq<Node>, e: Timed, d: string)
    requires Tidy(l) && IsMessage(e) && e.ev.Report?
    ensures StaysTidy(l, e, d)
    decreases |l|
  {
    if l != [] {
      TidyTail(l);
      if l[0].deviceid == e.ev.v.deviceid {
        TidyCons(Refreshed(l[0], e.ev.v, e.at), l[1..]);
      } else {
        ReportTidy(l[1..], e, d);
        ReportTidy(l[1..], e, l[0].deviceid);
        TidyCons(l[0], Step(l[1..], e));
      }
    }
  }

  lemma {:induction false} BindTidy(l: seq<Node>, e: Timed, d: string)
    requires Tidy(l) && IsMessage(e) && e.ev.Bind?
    ensures StaysTidy(l, e, d)
    decreases |l|
  {
    if l != [] {
      TidyTail(l);
      if l[0].deviceid == e.ev.v.deviceid {
        TidyCons(l[0].(aBev := e.ev.bev, aTime := Some(e.at), appid := e.ev.v.appid), l[1..]);
      } else {
        BindTidy(l[1..], e, d);
        BindTidy(l[1..], e, l[0].deviceid);
        TidyCons(l[0], Step(l[1..], e));
      }
    }
  }

  lemma {:induction false} SweepTidy(l: seq<Node>, e: Timed, d: string)
    requires Tidy(l) && IsMessage(e) && e.ev.Sweep?
    ensures StaysTidy(l, e, d)
    decreases |l|
  {
    if l != [] {
      TidyTail(l);
      SweepTidy(l[1..], e, d);
      SweepTidy(l[1..], e, l[0].deviceid);
      if e.at - l[0].dTime <= 6 {
        TidyCons(AppSwept(l[0], e.at), Step(l[1..], e));
      }
    }
  }

  lemma {:induction false} EofTidy(l: seq<Node>, e: Timed, d: string)
    requires Tidy(l) && IsMessage(e) && e.ev.Eof?
    ensures StaysTidy(l, e, d)
    decreases |l|
  {
    if l != [] {
      TidyTail(l);
      if e.ev.bev == l[0].aBev {
        TidyCons(l[0].(aBev := NULL), l[1..]);
      } else if e.ev.bev != l[0].dBev {
        EofTidy(l[1..], e, d);
        EofTidy(l[1..], e, l[0].deviceid);
        TidyCons(l[0], Step(l[1..], e));
      }
    }
  }

  lemma {:induction false} ByeTidy(l: seq<Node>, e: Timed, d: string)
    requires Tidy(l) && IsMessage(e) && e.ev.Bye?
    ensures StaysTidy(l, e, d)
    decreases |l|
  {
    if l != [] {
      TidyTail(l);
      if e.ev.bev == l[0].aBev {
        TidyCons(l[0].(aBev := NULL), l[1..]);
      } else {
        ByeTidy(l[1..], e, d);
        ByeTidy(l[1..], e, l[0].deviceid);
        TidyCons(l[0], Step(l[1..], e));
      }
    }
  }

  /** Whatever arrives over whatever connection, ids stay unique, bound apps stay stamped, and no
      node gets younger but by its own report. */
  lemma StepTidy(l: seq<Node>, e: Timed, d: string)
    requires Tidy(l) && IsMessage(e)
    ensures StaysTidy(l, e, d)
  {
    match e.ev
    case Report(_, _) => ReportTidy(l, e, d);
    case Bind(_, _) => BindTidy(l, e, d);
    case Sweep => SweepTidy(l, e, d);
    case Eof(_) => EofTidy(l, e, d);
    case Bye(_) => ByeTidy(l, e, d);
  }

  // ------------------------------------------------------------------- runs

  ghost predicate Messages(es: seq<Timed>) {
    forall k | 0 <= k < |es| :: IsMessage(es[k])
  }

  /** The list after any messages of any clients over any connections, at any times: device ids are
      unique, and wherever an app is bound its timestamp has been written. */
  ghost function Runs(es: seq<Timed>): (l: seq<Node>)
    requires Messages(es)
    ensures Tidy(l)
  {
    if es == [] then []
    else
      var l, e := Runs(es[..|es| - 1]), es[|es| - 1];
      StepTidy(l, e, "");
      Step(l, e)
  }

  lemma ConformingMessages(owner: Owners, es: seq<Timed>)
    requires forall k | 0 <= k < |es| :: Conforms(owner, es[k].ev)
    ensures Messages(es)
  {
    forall k | 0 <= k < |es|
      ensures IsMessage(es[k])
    {
      assert Conforms(owner, es[k].ev);
    }
  }

  lemma {:induction false} RunKeepsInv(owner: Owners, es: seq<Timed>)
    requires Messages(es) && forall k | 0 <= k < |es| :: Conforms(owner, es[k].ev)
    ensures Inv(owner, Runs(es))
    decreases |es|
  {
    if es != [] {
      RunKeepsInv(owner, es[..|es| - 1]);
      StepIsPerDevice(owner, Runs(es[..|es| - 1]), es[|es| - 1], "");
    }
  }

  /** The same list where every connection keeps its role: then each node's connections are those of
      its own device as well. */
  ghost function Run(owner: Owners, es: seq<Timed>): (l: seq<Node>)
    requires forall k | 0 <= k < |es| :: Conforms(owner, es[k].ev)
    ensures Inv(owner, l)
  {
    ConformingMessages(owner, es);
    RunKeepsInv(owner, es);
    Runs(es)
  }

  /** The node of device `d` after a history. */
  ghost function After(owner: Owners, es: seq<Timed>, d: string): (o: Option<Node>)
    requires forall k | 0 <= k < |es| :: Conforms(owner, es[k].ev)
    ensures o.Some? ==> NodeOk(owner, o.value) && o.value.deviceid == d
  {
    FindIsIn(Run(owner, es), d);
    Find(Run(owner, es), d)
  }

  lemma AfterSnoc(owner: Owners, es: seq<Timed>, d: string)
    requires es != [] && forall k | 0 <= k < |es| :: Conforms(owner, es[k].ev)
    ensures After(owner, es, d) == NodeStep(After(owner, es[..|es| - 1], d), d, es[|es| - 1])
  {
    StepIsPerDevice(owner, Run(owner, es[..|es| - 1]), es[|es| - 1], d);
  }

  // ---------------------------------------------------- who is in the registry

  /** The `i`-th event is a report of `d`; since then its connection was not closed and no sweep
      came more than six seconds after that report. */
  ghost predicate KeptAlive(es: seq<Timed>, d: string, i: nat) {
    && i < |es| && IsReportOf(es[i], d)
    && forall j | i < j < |es| ::
         && (es[j].ev.Sweep? ==> es[j].at - es[i].at <= 6)
         && (es[j].ev.Eof? ==> es[j].ev.bev != es[i].ev.bev)
  }

  ghost predicate ClosedBetween(es: seq<Timed>, c: Conn, j: nat, k: nat) {
    exists m | j < m < k < |es| :: es[m].ev == Eof(c)
  }

  /** A device that comes back on a new connection has had its old one closed first:
      `DevUpdateList` never replaces the connection of a node it finds. */
  ghost predicate OneLiveConnection(es: seq<Timed>) {
    forall d, j: nat, k: nat | j < k < |es| && IsReportOf(es[j], d) && IsReportOf(es[k], d) ::
      es[j].ev.bev == es[k].ev.bev || ClosedBetween(es, es[j].ev.bev, j, k)
  }

  lemma OneLivePrefix(es: seq<Timed>, n: nat)
    requires OneLiveConnection(es) && n <= |es|
    ensures OneLiveConnection(es[..n])
  {
    forall d, j: nat, k: nat | j < k < n && IsReportOf(es[..n][j], d) && IsReportOf(es[..n][k], d)
      ensures es[..n][j].ev.bev == es[..n][k].ev.bev || ClosedBetween(es[..n], es[..n][j].ev.bev, j, k)
    {
      assert es[..n][j] == es[j] && es[..n][k] == es[k];
      if es[j].ev.bev != es[k].ev.bev {
        var m :| j < m < k < |es| && es[m].ev == Eof(es[j].ev.bev);
        assert es[..n][m] == es[m];
      }
    }
  }

  lemma KeptAlivePrefix(es: seq<Timed>, d: string, i: nat)
    requires es != [] && i < |es| - 1
    ensures KeptAlive(es, d, i) ==> KeptAlive(es[..|es| - 1], d, i)
    ensures KeptAlive(es[..|es| - 1], d, i) ==>
              (KeptAlive(es, d, i) <==>
                && (es[|es| - 1].ev.Sweep? ==> es[|es| - 1].at - es[i].at <= 6)
                && (es[|es| - 1].ev.Eof? ==> es[|es| - 1].ev.bev != es[i].ev.bev))
  {
    var init := es[..|es| - 1];
    assert forall j | 0 <= j < |es| - 1 :: init[j] == es[j];
  }

  lemma SameConnection(es: seq<Timed>, d: string, j: nat, k: nat)
    requires OneLiveConnection(es) && j < k < |es| && IsReportOf(es[j], d) && IsReportOf(es[k], d)
    requires forall m | j < m < k :: es[m].ev != Eof(es[j].ev.bev)
    ensures es[j].ev.bev == es[k].ev.bev
  {
    assert !ClosedBetween(es, es[j].ev.bev, j, k);
  }

  /** A registered device's node is its last report: sent within six seconds of every sweep since,
      over the connection stored, with the track, volume and mode stored. */
  lemma {:induction false} PresentHasReport(owner: Owners, es: seq<Timed>, d: string) returns (i: nat)
    requires History(owner, es) && OneLiveConnection(es)
    requires After(owner, es, d).Some?
    ensures KeptAlive(es, d, i)
    ensures var n, v := After(owner, es, d).value, es[i].ev.v;
            && n.dTime == es[i].at && n.dBev == es[i].ev.bev
            && n.curMusic == v.curMusic && n.volume == v.volume && n.mode == v.mode
    decreases |es|
  {
    var last := |es| - 1;
    var init, e := es[..last], es[last];
    AfterSnoc(owner, es, d);
    OneLivePrefix(es, last);
    if IsReportOf(e, d) {
      i := last;
      if After(owner, init, d).Some? {
        var j := PresentHasReport(owner, init, d);
        KeptAlivePrefix(es, d, j);
        SameConnection(es, d, j, last);
      }
    } else {
      i := PresentHasReport(owner, init, d);
      KeptAlivePrefix(es, d, i);
    }
  }

  lemma {:induction false} ReportKeepsPresent(owner: Owners, es: seq<Timed>, d: string, i: nat)
    requires History(owner, es) && OneLiveConnection(es) && KeptAlive(es, d, i)
    ensures After(owner, es, d).Some?
    ensures var n := After(owner, es, d).value; n.dTime >= es[i].at && n.dBev == es[i].ev.bev
    decreases |es|
  {
    var last := |es| - 1;
    var init, e := es[..last], es[last];
    AfterSnoc(owner, es, d);
    OneLivePrefix(es, last);
    if i < last {
      KeptAlivePrefix(es, d, i);
      ReportKeepsPresent(owner, init, d, i);
    } else {
      var k := PresentHasReport(owner, es, d);
      if k < i {
        SameConnection(es, d, k, i);
      }
    }
  }

  /** Exactly which devices are in the registry after any history. */
  lemma PresentIff(owner: Owners, es: seq<Timed>, d: string)
    requires History(owner, es) && OneLiveConnection(es)
    ensures After(owner, es, d).Some? <==> exists i: nat :: KeptAlive(es, d, i)
  {
    if After(owner, es, d).Some? {
      var i := PresentHasReport(owner, es, d);
    }
    if i: nat :| KeptAlive(es, d, i) {
      ReportKeepsPresent(owner, es, d, i);
    }
  }

  /** Some report of `d` between `i` and `k` is at most six seconds older than event `k`. */
  ghost predicate ReportedLately(es: seq<Timed>, d: string, i: nat, k: nat)
    requires k < |es|
  {
    exists r: nat :: i <= r <= k && IsReportOf(es[r], d) && es[k].at - es[r].at <= 6
  }

  ghost predicate NotOlder(o: Option<Node>, es: seq<Timed>, d: string) {
    o.Some? && forall q | 0 <= q < |es| && IsReportOf(es[q], d) :: es[q].at <= o.value.dTime
  }

  ghost predicate Punctual(owner: Owners, es: seq<Timed>, d: string, i: nat) {
    && i < |es| && IsReportOf(es[i], d)
    && (forall k | i <= k < |es| :: ReportedLately(es, d, i, k))
    && (forall k | i < k < |es| && es[k].ev.Eof? :: !IsDevice(owner, es[k].ev.bev, d))
  }

  lemma PunctualPrefix(owner: Owners, es: seq<Timed>, d: string, i: nat, n: nat)
    requires Punctual(owner, es, d, i) && i < n <= |es|
    ensures Punctual(owner, es[..n], d, i)
  {
    forall k | i <= k < n
      ensures ReportedLately(es[..n], d, i, k)
    {
      assert ReportedLately(es, d, i, k);
      var r: nat :| i <= r <= k && IsReportOf(es[r], d) && es[k].at - es[r].at <= 6;
      assert es[..n][r] == es[r] && es[..n][k] == es[k];
    }
  }

  /** A device that keeps reporting at most six seconds apart is never dropped by a sweep, over
      however many connections it reports, while none of its connections is seen closed. */
  lemma {:induction false} PunctualNeverDropped(owner: Owners, es: seq<Timed>, d: string, i: nat)
    requires History(owner, es) && Punctual(owner, es, d, i)
    ensures NotOlder(After(owner, es, d), es, d)
    decreases |es|
  {
    var last := |es| - 1;
    AfterSnoc(owner, es, d);
    if i < last {
      PunctualPrefix(owner, es, d, i, last);
      PunctualNeverDropped(owner, es[..last], d, i);
      PunctualStep(owner, es, d, i);
    }
  }

  lemma PunctualStep(owner: Owners, es: seq<Timed>, d: string, i: nat)
    requires History(owner, es) && Punctual(owner, es, d, i) && i < |es| - 1
    requires NotOlder(After(owner, es[..|es| - 1], d), es[..|es| - 1], d)
    ensures NotOlder(NodeStep(After(owner, es[..|es| - 1], d), d, es[|es| - 1]), es, d)
  {
    var last := |es| - 1;
    var n := After(owner, es[..last], d).value;
    assert Conforms(owner, es[last].ev) && NodeOk(owner, n);
    forall q | 0 <= q < last && IsReportOf(es[q], d)
      ensures es[q].at <= n.dTime
    {
      assert es[..last][q] == es[q];
    }
    assert ReportedLately(es, d, i, last);
    var r: nat :| i <= r <= last && IsReportOf(es[r], d) && es[last].at - es[r].at <= 6;
  }

  /** The `i`-th event is a report of `d`, and every sweep since came within six seconds of it. */
  ghost predicate RecentReport(es: seq<Timed>, d: string, i: nat) {
    && i < |es| && IsReportOf(es[i], d)
    && forall j | i < j < |es| && es[j].ev.Sweep? :: es[j].at - es[i].at <= 6
  }

  /** Whatever clients do, a node bears the time of a recent report. */
  lemma {:induction false} NodeHasRecentReport(es: seq<Timed>, d: string) returns (i: nat)
    requires Messages(es) && Find(Runs(es), d).Some?
    ensures RecentReport(es, d, i) && Find(Runs(es), d).value.dTime == es[i].at
    decreases |es|
  {
    var last := |es| - 1;
    StepTidy(Runs(es[..last]), es[last], d);
    if IsReportOf(es[last], d) {
      i := last;
    } else {
      i := NodeHasRecentReport(es[..last], d);
      assert forall j | 0 <= j < last :: es[..last][j] == es[j];
    }
  }

  /** A silent device is gone after the first sweep more than six seconds after its last report, in
      every run. */
  lemma SilentIsDropped(es: seq<Timed>, d: string, s: nat)
    requires Messages(es) && s < |es| && es[s].ev.Sweep?
    requires forall r | 0 <= r < |es| && IsReportOf(es[r], d) :: r < s && es[s].at - es[r].at > 6
    ensures forall k | 0 <= k < |Runs(es)| :: Runs(es)[k].deviceid != d
  {
    if Find(Runs(es), d).Some? {
      var i := NodeHasRecentReport(es, d);
    }
    FindIsIn(Runs(es), d);
  }

  // ------------------------------------------------------ which app is bound

  ghost predicate IsBindOf(e: Timed, c: Conn, d: string) {
    e.ev.Bind? && e.ev.bev == c && e.ev.v.Msg? && e.ev.v.deviceid == d
  }

  /** What event `k` must not do for a binding made at event `i` to last. */
  ghost predicate LeavesBound(es: seq<Timed>, d: string, c: Conn, i: nat, k: nat)
    requires i < |es| && k < |es|
  {
    && (es[k].ev.Sweep? ==> es[k].at - es[i].at <= 6)
    && (es[k].ev.Bind? && es[k].ev.v.Msg? && es[k].ev.v.deviceid == d ==> es[k].ev.bev == c)
    && (es[k].ev.Eof? || es[k].ev.Bye? ==> es[k].ev.bev != c)
  }

  ghost predicate LeftBound(es: seq<Timed>, d: string, c: Conn, i: nat)
    requires i < |es|
  {
    forall j | i < j < |es| :: LeavesBound(es, d, c, i, j)
  }

  /** `d` was in the registry when event `i` came and has been ever since. */
  ghost predicate StaysRegistered(owner: Owners, es: seq<Timed>, d: string, i: nat)
    requires forall k | 0 <= k < |es| :: Conforms(owner, es[k].ev)
  {
    forall j | i <= j <= |es| :: After(owner, es[..j], d).Some?
  }

  /** The `i`-th event bound `c` to `d` while `d` was registered; since then `d` has stayed
      registered, nobody else bound to it, `c` neither left nor was closed, and no sweep came more
      than six seconds later. */
  ghost predicate HeldBound(owner: Owners, es: seq<Timed>, d: string, c: Conn, i: nat)
    requires forall k | 0 <= k < |es| :: Conforms(owner, es[k].ev)
  {
    && i < |es| && IsBindOf(es[i], c, d)
    && StaysRegistered(owner, es, d, i)
    && LeftBound(es, d, c, i)
  }

  lemma StaysRegisteredSnoc(owner: Owners, es: seq<Timed>, d: string, i: nat)
    requires es != [] && i < |es| && forall k | 0 <= k < |es| :: Conforms(owner, es[k].ev)
    ensures StaysRegistered(owner, es, d, i)
            <==> StaysRegistered(owner, es[..|es| - 1], d, i) && After(owner, es, d).Some?
  {
    hide After;
    var init := es[..|es| - 1];
    assert es[..|es|] == es;
    assert forall j | 0 <= j < |es| :: es[..j] == init[..j];
    if StaysRegistered(owner, es, d, i) {
      forall j | i <= j < |es|
        ensures After(owner, init[..j], d).Some?
      {
        assert After(owner, es[..j], d).Some?;
      }
      assert After(owner, es[..|es|], d).Some?;
    }
    if StaysRegistered(owner, init, d, i) && After(owner, es, d).Some? {
      forall j | i <= j <= |es|
        ensures After(owner, es[..j], d).Some?
      {
        assert j < |es| ==> After(owner, init[..j], d).Some?;
      }
    }
  }

  lemma HeldBoundSnoc(owner: Owners, es: seq<Timed>, d: string, c: Conn, i: nat)
    requires es != [] && i < |es| - 1
    requires forall k | 0 <= k < |es| :: Conforms(owner, es[k].ev)
    ensures HeldBound(owner, es, d, c, i)
            <==> && HeldBound(owner, es[..|es| - 1], d, c, i)
                 && After(owner, es, d).Some? && LeavesBound(es, d, c, i, |es| - 1)
  {
    StaysRegisteredSnoc(owner, es, d, i);
    LeftBoundSnoc(es, d, c, i);
  }

  lemma LeftBoundSnoc(es: seq<Timed>, d: string, c: Conn, i: nat)
    requires es != [] && i < |es| - 1
    ensures LeftBound(es, d, c, i)
            <==> LeftBound(es[..|es| - 1], d, c, i) && LeavesBound(es, d, c, i, |es| - 1)
  {
    var init := es[..|es| - 1];
    assert forall j | 0 <= j < |es| - 1 :: init[j] == es[j];
    if LeftBound(es, d, c, i) {
      forall j | i < j < |es| - 1
        ensures LeavesBound(init, d, c, i, j)
      {
        assert LeavesBound(es, d, c, i, j);
      }
    }
    if LeftBound(init, d, c, i) {
      forall j | i < j < |es| - 1
        ensures LeavesBound(es, d, c, i, j)
      {
        assert LeavesBound(init, d, c, i, j);
      }
    }
  }

  /** The app stored for a device is the one whose last report is stored with it. */
  lemma {:induction false} BoundHasBind(owner: Owners, es: seq<Timed>, d: string, c: Conn) returns (i: nat)
    requires History(owner, es) && c != NULL
    requires After(owner, es, d).Some? && After(owner, es, d).value.aBev == c
    ensures HeldBound(owner, es, d, c, i)
    ensures var n := After(owner, es, d).value; n.aTime == Some(es[i].at) && n.appid == es[i].ev.v.appid
    decreases |es|
  {
    var last := |es| - 1;
    AfterSnoc(owner, es, d);
    if IsBindOf(es[last], c, d) {
      i := last;
      BoundNow(owner, es, d, c);
    } else {
      i := BoundHasBind(owner, es[..last], d, c);
      HeldBoundSnoc(owner, es, d, c, i);
    }
  }

  /** A bind that finds the device registered leaves it registered. */
  lemma BoundNow(owner: Owners, es: seq<Timed>, d: string, c: Conn)
    requires es != [] && IsBindOf(es[|es| - 1], c, d)
    requires forall k | 0 <= k < |es| :: Conforms(owner, es[k].ev)
    ensures HeldBound(owner, es, d, c, |es| - 1) <==> After(owner, es[..|es| - 1], d).Some?
  {
    AfterSnoc(owner, es, d);
    RegisteredNow(owner, es, d);
  }

  lemma RegisteredNow(owner: Owners, es: seq<Timed>, d: string)
    requires es != [] && forall k | 0 <= k < |es| :: Conforms(owner, es[k].ev)
    ensures StaysRegistered(owner, es, d, |es| - 1)
            <==> After(owner, es[..|es| - 1], d).Some? && After(owner, es, d).Some?
  {
    hide After;
    assert es[..|es|] == es;
  }

  ghost predicate BoundSince(o: Option<Node>, c: Conn, t: int) {
    o.Some? && o.value.aBev == c && o.value.aTime.Some? && o.value.aTime.value >= t
  }

  lemma BoundStep(owner: Owners, es: seq<Timed>, d: string, c: Conn, i: nat, o: Option<Node>)
    requires History(owner, es) && c != NULL && i < |es| - 1
    requires LeavesBound(es, d, c, i, |es| - 1) && BoundSince(o, c, es[i].at)
    requires NodeStep(o, d, es[|es| - 1]).Some?
    ensures BoundSince(NodeStep(o, d, es[|es| - 1]), c, es[i].at)
  {
  }

  lemma {:induction false} BindKeepsBound(owner: Owners, es: seq<Timed>, d: string, c: Conn, i: nat)
    requires History(owner, es) && c != NULL && HeldBound(owner, es, d, c, i)
    ensures BoundSince(After(owner, es, d), c, es[i].at)
    decreases |es|
  {
    var last := |es| - 1;
    var o := After(owner, es[..last], d);
    AfterSnoc(owner, es, d);
    if i < last {
      HeldBoundSnoc(owner, es, d, c, i);
      BindKeepsBound(owner, es[..last], d, c, i);
      BoundStep(owner, es, d, c, i, o);
    } else {
      BoundNow(owner, es, d, c);
    }
  }

  /** Exactly which app a device is bound to after any history, in terms of registration. */
  lemma BoundIffHeld(owner: Owners, es: seq<Timed>, d: string, c: Conn)
    requires History(owner, es) && c != NULL
    ensures (After(owner, es, d).Some? && After(owner, es, d).value.aBev == c)
            <==> exists i: nat :: HeldBound(owner, es, d, c, i)
  {
    if After(owner, es, d).Some? && After(owner, es, d).value.aBev == c {
      var i := BoundHasBind(owner, es, d, c);
    }
    if i: nat :| HeldBound(owner, es, d, c, i) {
      BindKeepsBound(owner, es, d, c, i);
    }
  }

  // -------------------------------------------------- told from the events alone

  /** Some report keeps `d` registered. */
  ghost predicate Alive(es: seq<Timed>, d: string) {
    exists r: nat :: KeptAlive(es, d, r)
  }

  /** So it was when event `i` came, and after every event since. */
  ghost predicate AliveSince(es: seq<Timed>, d: string, i: nat) {
    forall j | i <= j <= |es| :: Alive(es[..j], d)
  }

  /** The `i`-th event bound `c` to `d` while reports kept `d` registered; since then they have gone
      on doing so, nobody else bound to `d`, `c` neither left nor was closed, and no sweep came more
      than six seconds later. */
  ghost predicate KeptBound(es: seq<Timed>, d: string, c: Conn, i: nat) {
    i < |es| && IsBindOf(es[i], c, d) && AliveSince(es, d, i) && LeftBound(es, d, c, i)
  }

  lemma AliveIsRegistered(owner: Owners, es: seq<Timed>, d: string, i: nat)
    requires History(owner, es) && OneLiveConnection(es)
    ensures AliveSince(es, d, i) <==> StaysRegistered(owner, es, d, i)
  {
    hide KeptAlive, After;
    forall j | i <= j <= |es|
      ensures After(owner, es[..j], d).Some? <==> Alive(es[..j], d)
    {
      OneLivePrefix(es, j);
      PresentIff(owner, es[..j], d);
    }
    if AliveSince(es, d, i) {
      forall j | i <= j <= |es|
        ensures After(owner, es[..j], d).Some?
      {
        assert Alive(es[..j], d);
      }
    }
    if StaysRegistered(owner, es, d, i) {
      forall j | i <= j <= |es|
        ensures Alive(es[..j], d)
      {
        assert After(owner, es[..j], d).Some?;
      }
    }
  }

  /** Exactly which app a device is bound to after any history. */
  lemma BoundIff(owner: Owners, es: seq<Timed>, d: string, c: Conn)
    requires History(owner, es) && OneLiveConnection(es) && c != NULL
    ensures (After(owner, es, d).Some? && After(owner, es, d).value.aBev == c)
            <==> exists i: nat :: KeptBound(es, d, c, i)
  {
    hide AliveSince, StaysRegistered, LeftBound, After;
    BoundIffHeld(owner, es, d, c);
    forall i: nat
      ensures KeptBound(es, d, c, i) <==> HeldBound(owner, es, d, c, i)
    {
      AliveIsRegistered(owner, es, d, i);
    }
  }
}
