/** Consequences for the relay: whom a command, a reply or a disconnect reaches. */
module RegistryRouting {
  import opened CArith
  import opened Registry
  import opened RegistryRuns

  // ------------------------------------------------------------------ routing

  /** A command goes to the device its app is bound to, and to nobody else. */
  lemma {:induction false} CommandRoute(owner: Owners, l: seq<Node>, c: Conn, d: string, v: Msg)
    requires Inv(owner, l) && IsApp(owner, c, d)
    ensures CmdSends(l, c, v) == match Find(l, d)
                                 case Some(n) => if n.aBev == c then [Sent(n.dBev, v)] else [Sent(c, OfflineReply)]
                                 case None => [Sent(c, OfflineReply)]
    decreases |l|
  {
    if l != [] {
      InvTail(owner, l);
      CommandRoute(owner, l[1..], c, d, v);
    }
  }

  /** A reply goes to the app bound to the device that sent it. */
  lemma {:induction false} ReplyRoute(owner: Owners, l: seq<Node>, c: Conn, d: string, v: Msg)
    requires Inv(owner, l) && IsDevice(owner, c, d)
    ensures ReplySends(l, c, v) == match Find(l, d)
                                   case Some(n) =>
                                     if n.dBev == c && n.aBev != NULL then [Sent(n.aBev, v)]
                                     else [Sent(c, OfflineReply)]
                                   case None => [Sent(c, OfflineReply)]
    decreases |l|
  {
    if l != [] {
      InvTail(owner, l);
      ReplyRoute(owner, l[1..], c, d, v);
    }
  }

  lemma {:induction false} UploadRoute(owner: Owners, l: seq<Node>, c: Conn, d: string, v: Msg)
    requires Inv(owner, l) && IsDevice(owner, c, d)
    ensures UploadSends(l, c, v) == match Find(l, d)
                                    case Some(n) =>
                                      if n.dBev == c && n.aBev != NULL then [Sent(n.aBev, v)] else []
                                    case None => []
    decreases |l|
  {
    if l != [] {
      InvTail(owner, l);
      FoundOk(owner, l[1..], d);
      UploadRoute(owner, l[1..], c, d, v);
    }
  }

  lemma {:induction false} CaptureRoute(owner: Owners, l: seq<Node>, c: Conn, d: string, v: Msg)
    requires Inv(owner, l) && IsApp(owner, c, d)
    ensures CaptureSends(l, c, v) == match Find(l, d)
                                     case Some(n) => if n.aBev == c then [Sent(n.dBev, v)] else []
                                     case None => []
    decreases |l|
  {
    if l != [] {
      InvTail(owner, l);
      FoundOk(owner, l[1..], d);
      CaptureRoute(owner, l[1..], c, d, v);
    }
  }

  lemma {:induction false} ForwardRoute(l: seq<Node>, v: Msg)
    requires v.Msg?
    ensures DevForward(l, v) == match Find(l, v.deviceid)
                                case Some(n) => if n.aBev != NULL then [Sent(n.aBev, v)] else []
                                case None => []
    decreases |l|
  {
    if l != [] {
      ForwardRoute(l[1..], v);
    }
  }

  /** What an app asks of its device. */
  ghost predicate IsCommand(cmd: string) {
    || cmd == "app_start" || cmd == "app_stop"
    || cmd == "app_suspend" || cmd == "app_continue"
    || cmd == "app_prev" || cmd == "app_next"
    || cmd == "app_upvolume" || cmd == "app_downvolume"
    || cmd == "app_circle" || cmd == "app_sequence"
    || cmd == "app_capture_cur_musiclist"
  }

  /** What a device answers, or tells of its own accord. */
  ghost predicate IsAnswer(cmd: string) {
    || cmd == "app_start_reply" || cmd == "app_stop_reply"
    || cmd == "app_suspend_reply" || cmd == "app_continue_reply"
    || cmd == "app_prev_reply" || cmd == "app_next_reply"
    || cmd == "app_upvolume_reply" || cmd == "app_downvolume_reply"
    || cmd == "app_circle_reply" || cmd == "app_sequence_reply"
    || cmd == "upload_music"
  }

  /** Which loop over the list a message is handed to. */
  lemma Dispatched(l: seq<Node>, c: Conn, v: Msg)
    requires v.Msg?
    ensures IsCommand(v.cmd) ==>
              Relayed(l, c, v)
              == if v.cmd == "app_capture_cur_musiclist" then CaptureSends(l, c, v) else CmdSends(l, c, v)
    ensures IsAnswer(v.cmd) ==>
              Relayed(l, c, v) == if v.cmd == "upload_music" then UploadSends(l, c, v) else ReplySends(l, c, v)
    ensures v.cmd == "info" ==> Relayed(l, c, v) == DevForward(l, v)
    ensures !IsCommand(v.cmd) && !IsAnswer(v.cmd) && v.cmd != "info" ==> Relayed(l, c, v) == []
  {
  }

  /** After any history: whatever the app bound to `d` asks reaches exactly the device `d`, and whatever
      that device answers, uploads or reports comes back to exactly that app. */
  lemma CommandAndReplyMeet(owner: Owners, es: seq<Timed>, d: string, c: Conn, v: Msg, r: Msg)
    requires History(owner, es) && c != NULL
    requires After(owner, es, d).Some? && After(owner, es, d).value.aBev == c
    ensures var x := After(owner, es, d).value.dBev;
            && IsDevice(owner, x, d)
            && CmdSends(Run(owner, es), c, v) == [Sent(x, v)]
            && ReplySends(Run(owner, es), x, r) == [Sent(c, r)]
            && UploadSends(Run(owner, es), x, r) == [Sent(c, r)]
            && (r.Msg? && r.deviceid == d ==> DevForward(Run(owner, es), r) == [Sent(c, r)])
            && (v.Msg? && IsCommand(v.cmd) ==> Relayed(Run(owner, es), c, v) == [Sent(x, v)])
            && (r.Msg? && IsAnswer(r.cmd) ==> Relayed(Run(owner, es), x, r) == [Sent(c, r)])
            && (r.Msg? && r.cmd == "info" && r.deviceid == d ==> Relayed(Run(owner, es), x, r) == [Sent(c, r)])
  {
    hide Run, After, Relayed, IsCommand, IsAnswer;
    var x := After(owner, es, d).value.dBev;
    if v.Msg? {
      Dispatched(Run(owner, es), c, v);
    }
    AfterIsFound(owner, es, d);
    CommandRoute(owner, Run(owner, es), c, d, v);
    CaptureRoute(owner, Run(owner, es), c, d, v);
    ReplyRoute(owner, Run(owner, es), x, d, r);
    UploadRoute(owner, Run(owner, es), x, d, r);
    if r.Msg? {
      Dispatched(Run(owner, es), x, r);
      ForwardRoute(Run(owner, es), r);
    }
  }

  lemma AfterIsFound(owner: Owners, es: seq<Timed>, d: string)
    requires History(owner, es)
    ensures After(owner, es, d) == Find(Run(owner, es), d)
  {
  }

  /** Exactly when what an app asks is relayed rather than answered with "offline", told from the
      events alone; only the request for the music list is then left without an answer. */
  lemma CommandRelayedIff(owner: Owners, es: seq<Timed>, d: string, c: Conn, v: Msg)
    requires History(owner, es) && OneLiveConnection(es) && IsApp(owner, c, d) && v.Msg?
    ensures CmdSends(Run(owner, es), c, v) == [Sent(c, OfflineReply)]
            <==> !exists i: nat :: KeptBound(es, d, c, i)
    ensures IsCommand(v.cmd) && !(exists i: nat :: KeptBound(es, d, c, i)) ==>
              Relayed(Run(owner, es), c, v)
              == if v.cmd == "app_capture_cur_musiclist" then [] else [Sent(c, OfflineReply)]
  {
    hide Relayed, IsCommand, IsAnswer, KeptBound;
    Dispatched(Run(owner, es), c, v);
    CommandRoute(owner, Run(owner, es), c, d, v);
    CaptureRoute(owner, Run(owner, es), c, d, v);
    BoundIff(owner, es, d, c);
  }

  /** And a device's reply: it goes to the app that is bound, if it comes over the connection stored, and
      is answered "offline" otherwise; an upload is then dropped. */
  lemma AnswerRelayed(owner: Owners, es: seq<Timed>, d: string, x: Conn, r: Msg)
    requires History(owner, es) && IsDevice(owner, x, d) && r.Msg? && IsAnswer(r.cmd)
    ensures var o := After(owner, es, d);
            Relayed(Run(owner, es), x, r)
            == if o.Some? && o.value.dBev == x && o.value.aBev != NULL then [Sent(o.value.aBev, r)]
               else if r.cmd == "upload_music" then [] else [Sent(x, OfflineReply)]
  {
    hide Relayed, IsCommand, Run, After;
    AfterIsFound(owner, es, d);
    Dispatched(Run(owner, es), x, r);
    ReplyRoute(owner, Run(owner, es), x, d, r);
    UploadRoute(owner, Run(owner, es), x, d, r);
  }

  /** Whatever message arrives, the registry stays well formed, changes only as its event says, and
      sends nothing to the device or app of any other device id. */
  lemma MessageStaysInside(owner: Owners, es: seq<Timed>, bev: Conn, v: Msg, now: int, d: string)
    requires History(owner, es) && v.Msg? && (IsApp(owner, bev, d) || IsDevice(owner, bev, d))
    requires EventOf(bev, v).Some? ==> Conforms(owner, EventOf(bev, v).value)
    ensures Inv(owner, Handled(Run(owner, es), bev, v, now))
    ensures forall k | 0 <= k < |Relayed(Run(owner, es), bev, v)| ::
              var to := Relayed(Run(owner, es), bev, v)[k].to; IsApp(owner, to, d) || IsDevice(owner, to, d)
  {
    var l := Run(owner, es);
    if EventOf(bev, v).Some? {
      StepIsPerDevice(owner, l, Timed(now, EventOf(bev, v).value), d);
    }
    FoundOk(owner, l, d);
    if v.cmd == "info" {
      ForwardRoute(l, v);
    }
    if IsApp(owner, bev, d) {
      CommandRoute(owner, l, bev, d, v);
      CaptureRoute(owner, l, bev, d, v);
      NotADevice(owner, l, bev, v);
    } else {
      ReplyRoute(owner, l, bev, d, v);
      UploadRoute(owner, l, bev, d, v);
      NotAnApp(owner, l, bev, v);
    }
  }

  /** An app's connection is no device's, so what only devices send goes nowhere. */
  lemma {:induction false} NotADevice(owner: Owners, l: seq<Node>, c: Conn, v: Msg)
    requires Inv(owner, l) && forall id :: !IsDevice(owner, c, id)
    ensures UploadSends(l, c, v) == [] && ReplySends(l, c, v) == [Sent(c, OfflineReply)]
    decreases |l|
  {
    if l != [] {
      InvTail(owner, l);
      NotADevice(owner, l[1..], c, v);
    }
  }

  lemma {:induction false} NotAnApp(owner: Owners, l: seq<Node>, c: Conn, v: Msg)
    requires Inv(owner, l) && c != NULL && forall id :: !IsApp(owner, c, id)
    ensures CaptureSends(l, c, v) == [] && CmdSends(l, c, v) == [Sent(c, OfflineReply)]
    decreases |l|
  {
    if l != [] {
      InvTail(owner, l);
      NotAnApp(owner, l[1..], c, v);
    }
  }

  // ----------------------------------------------------------- punctual apps

  ghost predicate BoundLately(es: seq<Timed>, d: string, c: Conn, i: nat, k: nat)
    requires k < |es|
  {
    exists r: nat :: i <= r <= k && IsBindOf(es[r], c, d) && es[k].at - es[r].at <= 6
  }

  lemma {:induction false} LastBind(es: seq<Timed>, d: string, c: Conn, i: nat, n: nat) returns (r: nat)
    requires i < n <= |es| && IsBindOf(es[i], c, d)
    ensures i <= r < n && IsBindOf(es[r], c, d) && forall k | r < k < n :: !IsBindOf(es[k], c, d)
  {
    if i == n - 1 || IsBindOf(es[n - 1], c, d) {
      r := n - 1;
    } else {
      r := LastBind(es, d, c, i, n - 1);
    }
  }

  /** An app that keeps reporting at most six seconds apart stays bound while its device is
      registered, nobody else binds and it does not leave. */
  lemma PunctualAppStaysBound(owner: Owners, es: seq<Timed>, d: string, c: Conn, i: nat)
    requires History(owner, es) && c != NULL && i < |es| && IsBindOf(es[i], c, d)
    requires StaysRegistered(owner, es, d, i)
    requires forall k | i <= k < |es| :: BoundLately(es, d, c, i, k)
    requires forall k | i < k < |es| && !es[k].ev.Sweep? :: LeavesBound(es, d, c, i, k)
    ensures After(owner, es, d).Some? && After(owner, es, d).value.aBev == c
  {
    var r := LastBind(es, d, c, i, |es|);
    forall k | r < k < |es|
      ensures LeavesBound(es, d, c, r, k)
    {
      assert !es[k].ev.Sweep? ==> LeavesBound(es, d, c, i, k);
      assert BoundLately(es, d, c, i, k);
      var q: nat :| i <= q <= k && IsBindOf(es[q], c, d) && es[k].at - es[q].at <= 6;
      assert q <= r && es[q].at <= es[r].at;
    }
    assert HeldBound(owner, es, d, c, r);
    BoundIffHeld(owner, es, d, c);
  }

  /** The same from the events alone: device and app both report at most six seconds apart, the
      device from before the app on, nothing closes and nobody else binds. */
  lemma PunctualPairStaysBound(owner: Owners, es: seq<Timed>, d: string, c: Conn, first: nat, i: nat)
    requires History(owner, es) && c != NULL && first < i < |es|
    requires Punctual(owner, es, d, first) && IsBindOf(es[i], c, d)
    requires forall k | i <= k < |es| :: BoundLately(es, d, c, i, k)
    requires forall k | i < k < |es| && !es[k].ev.Sweep? :: LeavesBound(es, d, c, i, k)
    ensures After(owner, es, d).Some? && After(owner, es, d).value.aBev == c
  {
    forall j | i <= j <= |es|
      ensures After(owner, es[..j], d).Some?
    {
      PunctualPrefix(owner, es, d, first, j);
      PunctualNeverDropped(owner, es[..j], d, first);
    }
    PunctualAppStaysBound(owner, es, d, c, i);
  }

  /** An app silent for more than six seconds before a sweep is unbound from then on. */
  lemma SilentAppIsUnbound(owner: Owners, es: seq<Timed>, d: string, c: Conn, s: nat)
    requires History(owner, es) && c != NULL && s < |es| && es[s].ev.Sweep?
    requires forall r | 0 <= r < |es| && IsBindOf(es[r], c, d) :: r < s && es[s].at - es[r].at > 6
    ensures After(owner, es, d).Some? ==> After(owner, es, d).value.aBev != c
  {
    BoundIffHeld(owner, es, d, c);
    forall i: nat
      ensures !HeldBound(owner, es, d, c, i)
    {
      if i < s {
        assert IsBindOf(es[i], c, d) ==> !LeavesBound(es, d, c, i, s);
      }
    }
  }

  // -------------------------------------------------------------------- sweeps

  /** Where in `l` the nodes stand that were reported within six seconds, counting from `from`. */
  ghost function Recent(l: seq<Node>, now: int, from: nat): seq<nat> {
    if l == [] then []
    else if now - l[0].dTime > 6 then Recent(l[1..], now, from + 1)
    else [from] + Recent(l[1..], now, from + 1)
  }

  lemma {:induction false} RecentExactly(l: seq<Node>, now: int, from: nat, p: nat)
    ensures p in Recent(l, now, from) <==> from <= p < from + |l| && now - l[p - from].dTime <= 6
    decreases |l|
  {
    if l != [] {
      RecentExactly(l[1..], now, from + 1, p);
      assert p in [from] + Recent(l[1..], now, from + 1) <==> p == from || p in Recent(l[1..], now, from + 1);
    }
  }

  lemma {:induction false} RecentAscends(l: seq<Node>, now: int, from: nat, j: nat, k: nat)
    requires j < k < |Recent(l, now, from)|
    ensures from <= Recent(l, now, from)[j] < Recent(l, now, from)[k]
    decreases |l|
  {
    var rest := Recent(l[1..], now, from + 1);
    if now - l[0].dTime > 6 {
      RecentAscends(l[1..], now, from + 1, j, k);
    } else if j > 0 {
      RecentAscends(l[1..], now, from + 1, j - 1, k - 1);
    } else {
      assert Recent(l, now, from)[k] == rest[k - 1] && rest[k - 1] in rest;
      RecentExactly(l[1..], now, from + 1, rest[k - 1]);
    }
  }

  lemma {:induction false} SweptLength(l: seq<Node>, now: int, from: nat)
    requires Stamped(l)
    ensures |Swept(l, now)| == |Recent(l, now, from)|
    decreases |l|
  {
    if l != [] {
      SweptLength(l[1..], now, from + 1);
    }
  }

  /** The `k`-th survivor came from position `p`. */
  ghost predicate CameFrom(l: seq<Node>, now: int, n: Node, p: int) {
    0 <= p < |l| && (l[p].aBev != NULL ==> l[p].aTime.Some?) && n == AppSwept(l[p], now)
  }

  lemma {:induction false} SweptIsRecent(l: seq<Node>, now: int, from: nat, k: nat)
    requires Stamped(l) && k < |Swept(l, now)| && |Swept(l, now)| == |Recent(l, now, from)|
    ensures CameFrom(l, now, Swept(l, now)[k], Recent(l, now, from)[k] - from)
    decreases |l|
  {
    var t := l[1..];
    SweptLength(t, now, from + 1);
    if now - l[0].dTime > 6 {
      SweptIsRecent(t, now, from + 1, k);
      assert l[Recent(l, now, from)[k] - from] == t[Recent(l, now, from)[k] - (from + 1)];
    } else if k > 0 {
      SweptIsRecent(t, now, from + 1, k - 1);
      assert Recent(l, now, from)[k] == Recent(t, now, from + 1)[k - 1];
      assert Swept(l, now)[k] == Swept(t, now)[k - 1];
      assert l[Recent(l, now, from)[k] - from] == t[Recent(l, now, from)[k] - (from + 1)];
    }
  }

  /** A sweep leaves exactly the nodes reported within six seconds, in their original order. */
  lemma SweepKeepsOrder(l: seq<Node>, now: int)
    requires Stamped(l)
    ensures var idx, s := Recent(l, now, 0), Swept(l, now);
            && |s| == |idx|
            && (forall k | 0 <= k < |idx| :: CameFrom(l, now, s[k], idx[k]))
            && (forall j, k | 0 <= j < k < |idx| :: idx[j] < idx[k])
            && (forall p: nat | p < |l| :: p in idx <==> now - l[p].dTime <= 6)
  {
    var idx, s := Recent(l, now, 0), Swept(l, now);
    SweptLength(l, now, 0);
    forall k | 0 <= k < |idx|
      ensures CameFrom(l, now, s[k], idx[k])
    {
      SweptIsRecent(l, now, 0, k);
    }
    forall j, k | 0 <= j < k < |idx|
      ensures idx[j] < idx[k]
    {
      RecentAscends(l, now, 0, j, k);
    }
    forall p: nat | p < |l|
      ensures p in idx <==> now - l[p].dTime <= 6
    {
      RecentExactly(l, now, 0, p);
    }
  }

  // --------------------------------------------------------------- disconnects

  ghost predicate Holds(n: Node, c: Conn) {
    n.aBev == c || n.dBev == c
  }

  ghost predicate Gone(l: seq<Node>, c: Conn) {
    forall k | 0 <= k < |l| :: !Holds(l[k], c)
  }

  /** `c` is stored in at most one place of the list. */
  ghost predicate HeldOnce(l: seq<Node>, c: Conn) {
    && (forall k | 0 <= k < |l| :: !(l[k].aBev == c && l[k].dBev == c))
    && (forall j, k | 0 <= j < k < |l| :: !(Holds(l[j], c) && Holds(l[k], c)))
  }

  lemma GoneCons(n: Node, t: seq<Node>, c: Conn)
    ensures Gone([n] + t, c) <==> !Holds(n, c) && Gone(t, c)
  {
    var l := [n] + t;
    assert l[0] == n && forall k | 0 <= k < |t| :: t[k] == l[k + 1];
  }

  lemma HeldOnceCons(n: Node, t: seq<Node>, c: Conn)
    ensures HeldOnce([n] + t, c)
            <==> !(n.aBev == c && n.dBev == c) && HeldOnce(t, c) && (Holds(n, c) ==> Gone(t, c))
  {
    var l := [n] + t;
    assert l[0] == n && forall k | 0 <= k < |t| :: t[k] == l[k + 1];
  }

  /** The loop stops at its first match: it removes every reference to the closed connection if
      and only if there was at most one. */
  lemma {:induction false} DisconnectClearsIff(l: seq<Node>, c: Conn)
    requires c != NULL
    ensures Gone(Disconnected(l, c), c) <==> HeldOnce(l, c)
    decreases |l|
  {
    if l != [] {
      var n, t := l[0], l[1..];
      assert l == [n] + t;
      HeldOnceCons(n, t, c);
      GoneCons(n.(aBev := NULL), t, c);
      GoneCons(n, Disconnected(t, c), c);
      if !Holds(n, c) {
        DisconnectClearsIff(t, c);
      }
    }
  }

  /** After any history the condition holds, so a disconnect leaves no reference behind. */
  lemma DisconnectClears(owner: Owners, es: seq<Timed>, c: Conn)
    requires History(owner, es) && c != NULL
    ensures Gone(Disconnected(Run(owner, es), c), c)
  {
    var l := Run(owner, es);
    assert forall k | 0 <= k < |l| :: NodeOk(owner, l[k]);
    DisconnectClearsIff(l, c);
  }

  /** Without the one-role rule it can fail: an app bound to two devices stays in the second node. */
  lemma DisconnectCanMiss()
    ensures var n := Node("1", "", "", 0, 1, 0, Some(0), 10, 7);
            var m := n.(deviceid := "2", dBev := 11);
            UniqueIds([n, m]) && Disconnected([n, m], 7) == [n.(aBev := NULL), m] && !Gone([n.(aBev := NULL), m], 7)
  {
    var n := Node("1", "", "", 0, 1, 0, Some(0), 10, 7);
    var m := n.(deviceid := "2", dBev := 11);
    assert n.deviceid[0] != m.deviceid[0];
    assert Holds([n.(aBev := NULL), m][1], 7);
  }
}
