/** The relay server's registry of online devices: one node per device with the connection of the
    device, the connection of the app bound to it, and the times of their last reports. */
module Registry {
  import opened CArith

  /** A `bufferevent*`; 0 is the null pointer. */
  type Conn = nat

  const NULL: Conn := 0
  const EXPIRY := 6

  /** A JSON message: the fields the registry reads, and `status`, which it only passes on. */
  datatype Msg =
    | Msg(cmd: string, deviceid: string, appid: string, curMusic: string, volume: int, mode: int, status: string)
    | OfflineReply

  /** `aTime` is written only when an app binds. */
  datatype Node = Node(deviceid: string, appid: string, curMusic: string, volume: int, mode: int,
                       dTime: int, aTime: Option<int>, dBev: Conn, aBev: Conn)

  datatype Sent = Sent(to: Conn, msg: Msg)

  // ------------------------------------------------------------ specification

  function Refreshed(n: Node, v: Msg, now: int): Node
    requires v.Msg?
  {
    n.(curMusic := v.curMusic, mode := v.mode, volume := v.volume, dTime := now)
  }

  function NewNode(bev: Conn, v: Msg, now: int): Node
    requires v.Msg?
  {
    Node(v.deviceid, "", v.curMusic, v.volume, v.mode, now, None, bev, NULL)
  }

  function DevUpdated(l: seq<Node>, bev: Conn, v: Msg, now: int): seq<Node>
    requires v.Msg?
  {
    if l == [] then [NewNode(bev, v, now)]
    else if l[0].deviceid == v.deviceid then [Refreshed(l[0], v, now)] + l[1..]
    else [l[0]] + DevUpdated(l[1..], bev, v, now)
  }

  /** The device's report is passed on to the app bound to it. */
  function DevForward(l: seq<Node>, v: Msg): seq<Sent>
    requires v.Msg?
  {
    if l == [] then []
    else if l[0].deviceid == v.deviceid then
      if l[0].aBev != NULL then [Sent(l[0].aBev, v)] else []
    else DevForward(l[1..], v)
  }

  function AppUpdated(l: seq<Node>, bev: Conn, v: Msg, now: int): seq<Node>
    requires v.Msg?
  {
    if l == [] then []
    else if l[0].deviceid == v.deviceid then
      [l[0].(aBev := bev, aTime := Some(now), appid := v.appid)] + l[1..]
    else [l[0]] + AppUpdated(l[1..], bev, v, now)
  }

  /** What a sweep leaves of one node: the app binding goes when it is older than six seconds. */
  function AppSwept(n: Node, now: int): Node
    requires n.aBev != NULL ==> n.aTime.Some?
  {
    if n.aBev != NULL && now - n.aTime.value > EXPIRY then n.(aBev := NULL) else n
  }

  function Swept(l: seq<Node>, now: int): seq<Node>
    requires Stamped(l)
  {
    if l == [] then []
    else if now - l[0].dTime > EXPIRY then Swept(l[1..], now)
    else [AppSwept(l[0], now)] + Swept(l[1..], now)
  }

  function CmdSends(l: seq<Node>, bev: Conn, v: Msg): seq<Sent> {
    if l == [] then [Sent(bev, OfflineReply)]
    else if l[0].aBev == bev && l[0].dBev != NULL then [Sent(l[0].dBev, v)]
    else CmdSends(l[1..], bev, v)
  }

  function ReplySends(l: seq<Node>, bev: Conn, v: Msg): seq<Sent> {
    if l == [] then [Sent(bev, OfflineReply)]
    else if l[0].dBev == bev && l[0].aBev != NULL then [Sent(l[0].aBev, v)]
    else ReplySends(l[1..], bev, v)
  }

  function UploadSends(l: seq<Node>, bev: Conn, v: Msg): seq<Sent> {
    if l == [] then []
    else if l[0].dBev == bev then if l[0].aBev != NULL then [Sent(l[0].aBev, v)] else []
    else UploadSends(l[1..], bev, v)
  }

  function Disconnected(l: seq<Node>, bev: Conn): seq<Node> {
    if l == [] then []
    else if bev == l[0].aBev then [l[0].(aBev := NULL)] + l[1..]
    else if bev == l[0].dBev then l[1..]
    else [l[0]] + Disconnected(l[1..], bev)
  }

  function AppLeft(l: seq<Node>, bev: Conn): seq<Node> {
    if l == [] then []
    else if bev == l[0].aBev then [l[0].(aBev := NULL)] + l[1..]
    else [l[0]] + AppLeft(l[1..], bev)
  }

  /** The music list is asked of every device the app is bound to. */
  function CaptureSends(l: seq<Node>, bev: Conn, v: Msg): seq<Sent> {
    if l == [] then []
    else if l[0].aBev == bev then [Sent(l[0].dBev, v)] + CaptureSends(l[1..], bev, v)
    else CaptureSends(l[1..], bev, v)
  }

  const APP_COMMANDS := {"app_start", "app_stop", "app_suspend", "app_continue", "app_prev", "app_next",
                         "app_upvolume", "app_downvolume", "app_circle", "app_sequence"}

  const DEV_REPLIES := {"app_start_reply", "app_stop_reply", "app_suspend_reply", "app_continue_reply",
                        "app_prev_reply", "app_next_reply", "app_upvolume_reply", "app_downvolume_reply",
                        "app_circle_reply", "app_sequence_reply"}

  /** The list after a message of connection `bev`. */
  function Handled(l: seq<Node>, bev: Conn, v: Msg, now: int): seq<Node>
    requires v.Msg?
  {
    if v.cmd == "info" then DevUpdated(l, bev, v, now)
    else if v.cmd == "app_info" then AppUpdated(l, bev, v, now)
    else if v.cmd == "app_offline" then AppLeft(l, bev)
    else l
  }

  /** What the registry sends on because of it. */
  function Relayed(l: seq<Node>, bev: Conn, v: Msg): seq<Sent>
    requires v.Msg?
  {
    if v.cmd == "info" then DevForward(l, v)
    else if v.cmd == "upload_music" then UploadSends(l, bev, v)
    else if v.cmd in APP_COMMANDS then CmdSends(l, bev, v)
    else if v.cmd in DEV_REPLIES then ReplySends(l, bev, v)
    else if v.cmd == "app_capture_cur_musiclist" then CaptureSends(l, bev, v)
    else []
  }

  /** An app timestamp is there to be read wherever an app is bound. */
  ghost predicate Stamped(l: seq<Node>) {
    forall k | 0 <= k < |l| :: l[k].aBev != NULL ==> l[k].aTime.Some?
  }

  // ------------------------------------------------------------------ the list

  class Player {
    var onlineList: seq<Node>
    var outbox: seq<Sent>

    constructor ()
      ensures onlineList == [] && outbox == []
    {
      onlineList, outbox := [], [];
    }

    method SendData(bev: Conn, v: Msg)
      modifies `outbox
      ensures outbox == old(outbox) + [Sent(bev, v)]
    {
      outbox := outbox + [Sent(bev, v)];
    }

    method DevUpdateList(bev: Conn, v: Msg, now: int)
      requires v.Msg?
      modifies this
      ensures onlineList == DevUpdated(old(onlineList), bev, v, now)
      ensures outbox == old(outbox) + DevForward(old(onlineList), v)
    {
      var it := 0;
      while it < |onlineList|
        invariant 0 <= it <= |onlineList| && onlineList == old(onlineList) && outbox == old(outbox)
        invariant forall k | 0 <= k < it :: onlineList[k].deviceid != v.deviceid
      {
        if onlineList[it].deviceid == v.deviceid {
          DevUpdatedAt(onlineList, it, bev, v, now);
          var node := onlineList[it];
          node := node.(curMusic := v.curMusic, mode := v.mode, volume := v.volume, dTime := now);
          onlineList := onlineList[it := node];
          if node.aBev != NULL {
            SendData(node.aBev, v);
          }
          return;
        }
        it := it + 1;
      }
      DevUpdatedAt(onlineList, it, bev, v, now);
      onlineList := onlineList + [Node(v.deviceid, "", v.curMusic, v.volume, v.mode, now, None, bev, NULL)];
    }

    method AppUpdateList(bev: Conn, v: Msg, now: int)
      requires v.Msg?
      modifies `onlineList
      ensures onlineList == AppUpdated(old(onlineList), bev, v, now)
    {
      var it := 0;
      while it < |onlineList|
        invariant 0 <= it <= |onlineList| && onlineList == old(onlineList)
        invariant forall k | 0 <= k < it :: onlineList[k].deviceid != v.deviceid
      {
        if v.deviceid == onlineList[it].deviceid {
          AppUpdatedAt(onlineList, it, bev, v, now);
          onlineList := onlineList[it := onlineList[it].(aBev := bev, aTime := Some(now), appid := v.appid)];
          return;
        }
        it := it + 1;
      }
      AppUpdatedAt(onlineList, it, bev, v, now);
    }

    /** `TraverseList` with the erase-and-continue loop: the source goes on using the iterator it
        has just erased. */
    method TraverseList(now: int)
      requires Stamped(onlineList)
      modifies `onlineList
      ensures onlineList == Swept(old(onlineList), now)
    {
      ghost var l := onlineList;
      ghost var done := 0;
      var it := 0;
      while it < |onlineList|
        invariant 0 <= it <= |onlineList| && 0 <= done <= |l|
        invariant onlineList[it..] == l[done..]
        invariant Swept(l, now) == onlineList[..it] + Swept(l[done..], now)
        decreases |onlineList| - it
      {
        ghost var list := onlineList;
        assert list[it] == l[done];
        assert l[done..][1..] == l[done + 1..];
        if now - onlineList[it].dTime > EXPIRY {
          onlineList := onlineList[..it] + onlineList[it + 1..];
        } else {
          if onlineList[it].aBev != NULL {
            if now - onlineList[it].aTime.value > EXPIRY {
              onlineList := onlineList[it := onlineList[it].(aBev := NULL)];
            }
          }
          assert onlineList[..it + 1] == list[..it] + [AppSwept(l[done], now)];
          it := it + 1;
        }
        done := done + 1;
        assert onlineList[it..] == l[done..];
      }
      assert onlineList[..it] == onlineList;
    }

    method TransAppCmd(bev: Conn, v: Msg)
      modifies `outbox
      ensures outbox == old(outbox) + CmdSends(onlineList, bev, v)
    {
      var it := 0;
      while it < |onlineList|
        invariant 0 <= it <= |onlineList| && outbox == old(outbox)
        invariant CmdSends(onlineList, bev, v) == CmdSends(onlineList[it..], bev, v)
      {
        assert onlineList[it..][1..] == onlineList[it + 1..];
        if onlineList[it].aBev == bev {
          if onlineList[it].dBev != NULL {
            SendData(onlineList[it].dBev, v);
            return;
          }
        }
        it := it + 1;
      }
      SendData(bev, OfflineReply);
    }

    method TransDevReply(bev: Conn, v: Msg)
      modifies `outbox
      ensures outbox == old(outbox) + ReplySends(onlineList, bev, v)
    {
      var it := 0;
      while it < |onlineList|
        invariant 0 <= it <= |onlineList| && outbox == old(outbox)
        invariant ReplySends(onlineList, bev, v) == ReplySends(onlineList[it..], bev, v)
      {
        assert onlineList[it..][1..] == onlineList[it + 1..];
        if onlineList[it].dBev == bev {
          if onlineList[it].aBev != NULL {
            SendData(onlineList[it].aBev, v);
            return;
          }
        }
        it := it + 1;
      }
      SendData(bev, OfflineReply);
    }

    method UploadMusic(bev: Conn, v: Msg)
      modifies `outbox
      ensures outbox == old(outbox) + UploadSends(onlineList, bev, v)
    {
      var it := 0;
      while it < |onlineList|
        invariant 0 <= it <= |onlineList| && outbox == old(outbox)
        invariant UploadSends(onlineList, bev, v) == UploadSends(onlineList[it..], bev, v)
      {
        assert onlineList[it..][1..] == onlineList[it + 1..];
        if onlineList[it].dBev == bev {
          if onlineList[it].aBev != NULL {
            SendData(onlineList[it].aBev, v);
          }
          return;
        }
        it := it + 1;
      }
    }

    method CaptureCurMusicList(bev: Conn, v: Msg)
      modifies `outbox
      ensures outbox == old(outbox) + CaptureSends(onlineList, bev, v)
    {
      var it := 0;
      while it < |onlineList|
        invariant 0 <= it <= |onlineList|
        invariant old(outbox) + CaptureSends(onlineList, bev, v)
                  == outbox + CaptureSends(onlineList[it..], bev, v)
      {
        assert onlineList[it..][1..] == onlineList[it + 1..];
        if bev == onlineList[it].aBev {
          SendData(onlineList[it].dBev, v);
        }
        it := it + 1;
      }
    }

    /** The part of the server's read callback that concerns the registry. */
    method ReadCb(bev: Conn, v: Msg, now: int)
      requires v.Msg?
      modifies this
      ensures onlineList == Handled(old(onlineList), bev, v, now)
      ensures outbox == old(outbox) + Relayed(old(onlineList), bev, v)
    {
      if v.cmd == "info" {
        DevUpdateList(bev, v, now);
      } else if v.cmd == "app_info" {
        AppUpdateList(bev, v, now);
      } else if v.cmd == "upload_music" {
        UploadMusic(bev, v);
      } else if v.cmd in APP_COMMANDS {
        TransAppCmd(bev, v);
      } else if v.cmd in DEV_REPLIES {
        TransDevReply(bev, v);
      } else if v.cmd == "app_offline" {
        AppOffline(bev);
      } else if v.cmd == "app_capture_cur_musiclist" {
        CaptureCurMusicList(bev, v);
      }
    }

    method AppOrDevOffline(bev: Conn)
      modifies `onlineList
      ensures onlineList == Disconnected(old(onlineList), bev)
    {
      var it := 0;
      while it < |onlineList|
        invariant 0 <= it <= |onlineList| && onlineList == old(onlineList)
        invariant forall k | 0 <= k < it :: onlineList[k].aBev != bev && onlineList[k].dBev != bev
      {
        if bev == onlineList[it].aBev {
          DisconnectedAt(onlineList, it, bev);
          onlineList := onlineList[it := onlineList[it].(aBev := NULL)];
          return;
        } else if bev == onlineList[it].dBev {
          DisconnectedAt(onlineList, it, bev);
          onlineList := onlineList[..it] + onlineList[it + 1..];
          return;
        }
        it := it + 1;
      }
      DisconnectedAt(onlineList, it, bev);
    }

    method AppOffline(bev: Conn)
      modifies `onlineList
      ensures onlineList == AppLeft(old(onlineList), bev)
    {
      var it := 0;
      while it < |onlineList|
        invariant 0 <= it <= |onlineList| && onlineList == old(onlineList)
        invariant forall k | 0 <= k < it :: onlineList[k].aBev != bev
      {
        if bev == onlineList[it].aBev {
          AppLeftAt(onlineList, it, bev);
          onlineList := onlineList[it := onlineList[it].(aBev := NULL)];
          return;
        }
        it := it + 1;
      }
      AppLeftAt(onlineList, it, bev);
    }
  }

  // ------------------------------------------- what stopping at a match means

  lemma {:induction false} DevUpdatedAt(l: seq<Node>, m: nat, bev: Conn, v: Msg, now: int)
    requires v.Msg? && m <= |l| && forall k | 0 <= k < m :: l[k].deviceid != v.deviceid
    requires m < |l| ==> l[m].deviceid == v.deviceid
    ensures m < |l| ==> DevUpdated(l, bev, v, now) == l[m := Refreshed(l[m], v, now)]
    ensures m < |l| ==> DevForward(l, v) == if l[m].aBev != NULL then [Sent(l[m].aBev, v)] else []
    ensures m == |l| ==> DevUpdated(l, bev, v, now) == l + [NewNode(bev, v, now)] && DevForward(l, v) == []
    decreases |l|
  {
    if m > 0 {
      DevUpdatedAt(l[1..], m - 1, bev, v, now);
      assert l == [l[0]] + l[1..];
    }
  }

  lemma {:induction false} AppUpdatedAt(l: seq<Node>, m: nat, bev: Conn, v: Msg, now: int)
    requires v.Msg? && m <= |l| && forall k | 0 <= k < m :: l[k].deviceid != v.deviceid
    requires m < |l| ==> l[m].deviceid == v.deviceid
    ensures AppUpdated(l, bev, v, now)
            == if m < |l| then l[m := l[m].(aBev := bev, aTime := Some(now), appid := v.appid)] else l
    decreases |l|
  {
    if m > 0 {
      AppUpdatedAt(l[1..], m - 1, bev, v, now);
      assert l == [l[0]] + l[1..];
    }
  }

  lemma {:induction false} DisconnectedAt(l: seq<Node>, m: nat, bev: Conn)
    requires m <= |l| && forall k | 0 <= k < m :: l[k].aBev != bev && l[k].dBev != bev
    requires m < |l| ==> l[m].aBev == bev || l[m].dBev == bev
    ensures Disconnected(l, bev) == if m == |l| then l
                                    else if l[m].aBev == bev then l[m := l[m].(aBev := NULL)]
                                    else l[..m] + l[m + 1..]
    decreases |l|
  {
    if m > 0 {
      var t := l[1..];
      assert l == [l[0]] + t;
      assert Disconnected(l, bev) == [l[0]] + Disconnected(t, bev);
      DisconnectedAt(t, m - 1, bev);
      if m < |l| && l[m].aBev != bev {
        assert l[..m] == [l[0]] + t[..m - 1] && l[m + 1..] == t[m..];
      }
    }
  }

  lemma {:induction false} AppLeftAt(l: seq<Node>, m: nat, bev: Conn)
    requires m <= |l| && forall k | 0 <= k < m :: l[k].aBev != bev
    requires m < |l| ==> l[m].aBev == bev
    ensures AppLeft(l, bev) == if m < |l| then l[m := l[m].(aBev := NULL)] else l
    decreases |l|
  {
    if m > 0 {
      AppLeftAt(l[1..], m - 1, bev);
      assert l == [l[0]] + l[1..];
    }
  }
}
