/** From the device's one-second report through the relay to the app, and from the app's pause button
    back through the relay to the device's player. */
module EndToEnd {
  import opened CArith
  import P = Playback
  import Refinement
  import opened Controls
  import G = Registry
  import H = RegistryRuns
  import RegistryRouting

  // -------------------------------------------------------------- messages

  /** `SendServer`'s report, built from the record, the flags and the mixer. */
  function InfoOf(c: P.State, d: string, volume: int): G.Msg {
    G.Msg("info", d, "", c.shm.curMusic, volume, if c.shm.curMode == P.Sequence then 1 else 2,
          StatusOf(c.start, c.suspend))
  }

  /** The message by which the app gives a command. */
  function Message(cmd: string): G.Msg {
    G.Msg(cmd, "", "", "", 0, 0, "")
  }

  /** The message the app sends for its pause button. */
  function PauseMessage(f: AppFlags): G.Msg {
    Message(PauseCommand(f))
  }

  /** The messages among `sent` that go to `app`. */
  function To(sent: seq<G.Sent>, app: G.Conn): seq<G.Msg> {
    if sent == [] then []
    else (if sent[0].to == app then [sent[0].msg] else []) + To(sent[1..], app)
  }

  /** The reports the server has passed on to `app` in a history; nothing else it sends an app touches
      the app's flags. */
  ghost function Forwarded(owner: H.Owners, es: seq<H.Timed>, app: G.Conn): seq<G.Msg>
    requires forall k | 0 <= k < |es| :: H.Conforms(owner, es[k].ev)
  {
    if es == [] then []
    else
      var before, e := es[..|es| - 1], es[|es| - 1].ev;
      Forwarded(owner, before, app)
      + if e.Report? && e.v.Msg? then To(G.DevForward(H.Run(owner, before), e.v), app) else []
  }

  /** What the app makes of its messages: the statuses of the reports. */
  function Statuses(msgs: seq<G.Msg>): seq<string> {
    if msgs == [] then []
    else
      (if msgs[0].Msg? && msgs[0].cmd == "info" then [msgs[0].status] else []) + Statuses(msgs[1..])
  }

  lemma {:induction false} StatusesSnoc(msgs: seq<G.Msg>, v: G.Msg)
    requires v.Msg? && v.cmd == "info"
    ensures Statuses(msgs + [v]) == Statuses(msgs) + [v.status]
  {
    if msgs == [] {
      assert ([] + [v])[1..] == [];
    } else {
      assert (msgs + [v])[1..] == msgs[1..] + [v];
      StatusesSnoc(msgs[1..], v);
    }
  }

  // ----------------------------------------------------------------- the trip

  /** The app's flags after everything the server has passed on to it. */
  ghost function FlagsAfter(f: AppFlags, owner: H.Owners, es: seq<H.Timed>, app: G.Conn): AppFlags
    requires forall k | 0 <= k < |es| :: H.Conforms(owner, es[k].ev)
  {
    HeardAll(f, Statuses(Forwarded(owner, es, app)))
  }

  /** `app` has been bound to `d` and nothing has undone it. */
  ghost predicate StillBound(es: seq<H.Timed>, d: string, app: G.Conn) {
    exists i: nat :: H.KeptBound(es, d, app, i)
  }

  /** A report of `d` is the last event, and a binding of `app` to `d` has lasted until then. */
  ghost predicate ReportsTo(owner: H.Owners, es: seq<H.Timed>, d: string, x: G.Conn, v: G.Msg, app: G.Conn) {
    && H.History(owner, es) && H.OneLiveConnection(es) && app != G.NULL
    && es != [] && es[|es| - 1].ev == H.Report(x, v) && v.Msg? && v.deviceid == d
    && StillBound(es[..|es| - 1], d, app)
  }

  lemma WasBound(owner: H.Owners, es: seq<H.Timed>, d: string, x: G.Conn, v: G.Msg, app: G.Conn)
    requires ReportsTo(owner, es, d, x, v, app)
    ensures var o := H.After(owner, es[..|es| - 1], d); o.Some? && o.value.aBev == app
  {
    hide H.KeptBound, H.After;
    H.OneLivePrefix(es, |es| - 1);
    H.BoundIff(owner, es[..|es| - 1], d, app);
  }

  /** The app's window shows what the device plays, in which mode and how loud. */
  lemma ReportShows(c: P.State, d: string, volume: int, w: Window)
    ensures var v := InfoOf(c, d, volume);
            Shown(w, v.curMusic, v.deviceid, v.volume, v.mode) == Window(c.shm.curMusic, Some(c.shm.curMode), d, volume)
  {
  }

  /** The report is passed on to the app and to nobody else. */
  lemma ReportArrives(owner: H.Owners, es: seq<H.Timed>, d: string, x: G.Conn, v: G.Msg, app: G.Conn)
    requires ReportsTo(owner, es, d, x, v, app)
    ensures G.DevForward(H.Run(owner, es[..|es| - 1]), v) == [G.Sent(app, v)]
    ensures v.cmd == "info" ==>
              && H.EventOf(x, v) == Some(es[|es| - 1].ev)
              && G.Relayed(H.Run(owner, es[..|es| - 1]), x, v) == [G.Sent(app, v)]
    ensures Forwarded(owner, es, app) == Forwarded(owner, es[..|es| - 1], app) + [v]
  {
    hide H.Run, H.OneLiveConnection, StillBound;
    WasBound(owner, es, d, x, v, app);
    RegistryRouting.ForwardRoute(H.Run(owner, es[..|es| - 1]), v);
    assert [G.Sent(app, v)][1..] == [] && To([G.Sent(app, v)], app) == [v] + [];
  }

  /** Afterwards device and app are linked: the node holds the connection the report came over. */
  lemma ReportKeepsLink(owner: H.Owners, es: seq<H.Timed>, d: string, x: G.Conn, v: G.Msg, app: G.Conn)
    requires ReportsTo(owner, es, d, x, v, app)
    ensures var o := H.After(owner, es, d); o.Some? && o.value.aBev == app && o.value.dBev == x
  {
    hide H.Run, H.After, H.OneLiveConnection, StillBound;
    WasBound(owner, es, d, x, v, app);
    H.AfterSnoc(owner, es, d);
    var i := H.PresentHasReport(owner, es, d);
    if i < |es| - 1 {
      H.SameConnection(es, d, i, |es| - 1);
    }
  }

  lemma PauseIsAppCommand(f: AppFlags)
    ensures PauseCommand(f) in G.APP_COMMANDS
    ensures PauseCommand(f) != "info" && PauseCommand(f) != "upload_music"
  {
  }

  /** The app's command goes to the device it is bound to and to nobody else. */
  lemma PauseRelayed(owner: H.Owners, es: seq<H.Timed>, d: string, app: G.Conn, f: AppFlags)
    requires H.History(owner, es) && app != G.NULL
    requires H.After(owner, es, d).Some? && H.After(owner, es, d).value.aBev == app
    ensures G.Relayed(H.Run(owner, es), app, PauseMessage(f))
            == [G.Sent(H.After(owner, es, d).value.dBev, PauseMessage(f))]
  {
    PauseIsAppCommand(f);
    RegistryRouting.CommandAndReplyMeet(owner, es, d, app, PauseMessage(f), PauseMessage(f));
  }

  /** The whole trip, for a device in any reachable state and a server after any history: the device
      reports over `x`; the server passes the report on to the app bound to it, whose flags were
      whatever they were; the app's pause button then makes the server send one message, and it goes
      to `x`; and what the device does on that message starts, pauses or resumes its player. */
  lemma PauseReachesPlayer(music: seq<string>, releases: bool, ds: seq<P.Event>, volume: int,
                           owner: H.Owners, es: seq<H.Timed>, d: string, x: G.Conn, app: G.Conn,
                           f: AppFlags, reply: seq<string>)
    requires !P.Run(P.Boot(music, releases), ds).halted
    requires ReportsTo(owner, es, d, x, InfoOf(P.Run(P.Boot(music, releases), ds), d, volume), app)
    ensures var c := P.Run(P.Boot(music, releases), ds);
            var now := FlagsAfter(f, owner, es, app);
            && G.Relayed(H.Run(owner, es[..|es| - 1]), x, InfoOf(c, d, volume)) == [G.Sent(app, InfoOf(c, d, volume))]
            && G.Relayed(H.Run(owner, es), app, PauseMessage(now)) == [G.Sent(x, PauseMessage(now))]
            && Dispatched(PauseMessage(now).cmd, reply).Some?
            && var t := P.Step(c, Dispatched(PauseMessage(now).cmd, reply).value);
            Acts(c, t)
  {
    hide P.Run, P.Step, Acts, StillBound;
    var c, last := P.Run(P.Boot(music, releases), ds), |es| - 1;
    var v := InfoOf(c, d, volume);
    ReportArrives(owner, es, d, x, v, app);
    ReportKeepsLink(owner, es, d, x, v, app);
    StatusesSnoc(Forwarded(owner, es[..last], app), v);
    PauseRelayed(owner, es, d, app, FlagsAfter(f, owner, es, app));
    PauseButtonToggles(music, releases, ds, f, Statuses(Forwarded(owner, es[..last], app)), reply);
  }

  // ------------------------------------------------------------ every command

  /** The device's answer to a command; it answers "continue" as it does "suspend". */
  function AnswerTo(cmd: string): string {
    if cmd == "app_continue" then "app_suspend_reply" else cmd + "_reply"
  }

  lemma CommandsAreKnown(cmd: string)
    requires IsPlayerCommand(cmd)
    ensures RegistryRouting.IsCommand(cmd) && RegistryRouting.IsAnswer(AnswerTo(cmd))
  {
    assert "app_start" + "_reply" == "app_start_reply" && "app_stop" + "_reply" == "app_stop_reply";
    assert "app_suspend" + "_reply" == "app_suspend_reply" && "app_circle" + "_reply" == "app_circle_reply";
    assert "app_next" + "_reply" == "app_next_reply" && "app_prev" + "_reply" == "app_prev_reply";
    assert "app_sequence" + "_reply" == "app_sequence_reply";
  }

  /** Any command from the app, after any history in which its binding to `d` has lasted: one message
      goes to the device `d`, the device does what the command is for, and its answer goes back to the
      app.  `reply` is what the server has in wait for a request of the device. */
  lemma CommandReachesPlayer(owner: H.Owners, es: seq<H.Timed>, d: string, app: G.Conn,
                             c: P.State, a: Refinement.Spec, cmd: string, reply: seq<string>)
    requires H.History(owner, es) && H.OneLiveConnection(es) && app != G.NULL && StillBound(es, d, app)
    requires Refinement.Plays(c, a) && Refinement.GoodList(reply) && IsPlayerCommand(cmd)
    ensures H.After(owner, es, d).Some? && Dispatched(cmd, reply).Some?
    ensures var x := H.After(owner, es, d).value.dBev;
            && H.IsDevice(owner, x, d)
            && G.Relayed(H.Run(owner, es), app, Message(cmd)) == [G.Sent(x, Message(cmd))]
            && Obeyed(c, a, cmd, reply, P.Step(c, Dispatched(cmd, reply).value))
            && G.Relayed(H.Run(owner, es), x, Message(AnswerTo(cmd))) == [G.Sent(app, Message(AnswerTo(cmd)))]
  {
    hide H.Run, H.After, H.KeptBound, Obeyed, Refinement.Plays, IsPlayerCommand, AnswerTo;
    H.BoundIff(owner, es, d, app);
    CommandsAreKnown(cmd);
    RegistryRouting.CommandAndReplyMeet(owner, es, d, app, Message(cmd), Message(AnswerTo(cmd)));
    CommandObeyed(c, a, cmd, reply);
  }
}
