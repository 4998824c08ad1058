/** The length-prefixed framing spoken between device, server and app: a four-byte little-endian
    length and then that many payload bytes. */
module Wire {
  import opened CArith

  newtype byte = x: int | 0 <= x < 256

  const HEADER := 4
  const BUFFER := 1024

  /** The bytes of a C `int` as the sender's `memcpy` lays them out. */
  function IntBytes(n: nat): seq<byte>
    requires n < 0x8000_0000
  {
    [(n % 256) as byte, (n / 256 % 256) as byte, (n / 65536 % 256) as byte, (n / 16777216) as byte]
  }

  function IntValue(b: seq<byte>): nat
    requires |b| == HEADER
  {
    b[0] as int + 256 * b[1] as int + 65536 * b[2] as int + 16777216 * b[3] as int
  }

  lemma IntRoundTrip(n: nat)
    requires n < 0x8000_0000
    ensures IntValue(IntBytes(n)) == n
  {
    var a, b := n / 256, n / 65536;
    assert n == 256 * a + n % 256;
    assert b == a / 256 && a == 256 * b + a % 256;
    assert n / 16777216 == b / 256 && b == 256 * (b / 256) + b % 256;
  }

  function Frame(payload: seq<byte>): seq<byte>
    requires |payload| <= BUFFER - HEADER
  {
    IntBytes(|payload|) + payload
  }

  /** Splitting the first frame off a stream; `None` while it is incomplete. */
  function Decode(stream: seq<byte>): Option<(seq<byte>, seq<byte>)> {
    if |stream| < HEADER then None
    else
      var len := IntValue(stream[..HEADER]);
      if |stream| < HEADER + len then None
      else Some((stream[HEADER..HEADER + len], stream[HEADER + len..]))
  }

  function Zeros(n: nat): seq<byte> {
    seq(n, _ => 0)
  }

  /** The C string at the start of a buffer. */
  function CString(b: seq<byte>): seq<byte> {
    if b == [] || b[0] == 0 then [] else [b[0]] + CString(b[1..])
  }

  // --------------------------------------------------------------- endpoints

  function Flat(chunks: seq<seq<byte>>): seq<byte> {
    if chunks == [] then [] else chunks[0] + Flat(chunks[1..])
  }

  /** A connected socket: bytes still to be received, cut into the pieces in which the network
      delivers them, and bytes sent. */
  class Socket {
    var pieces: seq<seq<byte>>
    var sent: seq<byte>

    ghost predicate Valid()
      reads this
    {
      forall k | 0 <= k < |pieces| :: pieces[k] != []
    }

    ghost function Stream(): seq<byte>
      reads this
    {
      Flat(pieces)
    }

    constructor (pieces: seq<seq<byte>>)
      requires forall k | 0 <= k < |pieces| :: pieces[k] != []
      ensures Valid() && this.pieces == pieces && sent == []
    {
      this.pieces, sent := pieces, [];
    }

    /** `recv`: at most `n` bytes, and never more than the piece at hand. */
    method Recv(n: nat) returns (got: seq<byte>)
      requires Valid() && pieces != []
      modifies `pieces
      ensures Valid() && |got| <= n && (n > 0 ==> got != [])
      ensures old(Stream()) == got + Stream()
    {
      var p := pieces[0];
      if n >= |p| {
        got := p;
        pieces := pieces[1..];
      } else {
        got := p[..n];
        pieces := [p[n..]] + pieces[1..];
        assert pieces[1..] == old(pieces)[1..];
        assert p == p[..n] + p[n..];
      }
    }

    method Send(bytes: seq<byte>)
      modifies `sent
      ensures sent == old(sent) + bytes
    {
      sent := sent + bytes;
    }
  }

  /** `SendMusicInfo`: nothing leaves an offline device. */
  method SendMusicInfo(sock: Socket, online: bool, info: seq<byte>)
    requires |info| <= BUFFER - HEADER
    modifies sock`sent
    ensures sock.sent == old(sock.sent) + if online then Frame(info) else []
  {
    if online {
      var buffer := new byte[BUFFER](_ => 0);
      var len := |info|;
      var head := IntBytes(len);
      forall i | 0 <= i < HEADER {
        buffer[i] := head[i];
      }
      forall i | 0 <= i < len {
        buffer[HEADER + i] := info[i];
      }
      assert buffer[..len + HEADER] == Frame(info);
      sock.Send(buffer[..len + HEADER]);
    }
  }

  /** One of the two accumulating loops of `RecSocketData`: fill `data[..want]` from the
      socket, however the bytes arrive. */
  method ReadFully(sock: Socket, data: array<byte>, want: nat)
    requires sock.Valid() && want <= data.Length && want <= |sock.Stream()|
    modifies sock`pieces, data
    ensures sock.Valid()
    ensures data[..want] == old(sock.Stream())[..want]
    ensures data[want..] == old(data[want..])
    ensures sock.Stream() == old(sock.Stream())[want..]
  {
    ghost var stream := sock.Stream();
    var size := 0;
    while size != want
      invariant 0 <= size <= want && sock.Valid()
      invariant data[..size] == stream[..size]
      invariant data[want..] == old(data[want..])
      invariant sock.Stream() == stream[size..]
      decreases want - size
    {
      var got := sock.Recv(want - size);
      assert stream[size..][..|got|] == got;
      assert stream[size..][|got|..] == sock.Stream();
      forall i | 0 <= i < |got| {
        data[size + i] := got[i];
      }
      size := size + |got|;
    }
  }

  /** `RecSocketData` on a zeroed buffer, for a stream that holds at least one whole frame: one
      frame is consumed and no byte after it, and the buffer is the payload followed by zeros. */
  method RecSocketData(sock: Socket, data: array<byte>)
    requires sock.Valid() && data.Length == BUFFER && data[..] == Zeros(BUFFER)
    requires Decode(sock.Stream()).Some? && |Decode(sock.Stream()).value.0| <= BUFFER - HEADER
    modifies sock`pieces, data
    ensures sock.Valid()
    ensures var (payload, rest) := Decode(old(sock.Stream())).value;
            data[..] == payload + Zeros(BUFFER - |payload|) && sock.Stream() == rest
  {
    ghost var stream := sock.Stream();
    ReadFully(sock, data, HEADER);
    var len := IntValue(data[..HEADER]);
    assert data[HEADER..] == Zeros(BUFFER - HEADER) by {
      assert forall k | HEADER <= k < BUFFER :: old(data[..])[k] == old(data[HEADER..])[k - HEADER];
    }
    forall i | 0 <= i < HEADER {
      data[i] := 0;
    }
    assert forall k | HEADER <= k < BUFFER :: data[k] == 0;
    ghost var blank := data[..];
    ReadFully(sock, data, len);
    assert data[len..] == blank[len..];
    assert data[..] == data[..len] + data[len..];
  }

  /** Receiving `n` messages in a row. */
  method ReceiveAll(sock: Socket, n: nat, ghost payloads: seq<seq<byte>>, ghost rest: seq<byte>)
    returns (out: seq<seq<byte>>)
    requires sock.Valid() && |payloads| == n && Sendable(payloads)
    requires sock.Stream() == Frames(payloads) + rest
    modifies sock`pieces
    ensures out == payloads && sock.Valid() && sock.Stream() == rest
  {
    out := [];
    var i := 0;
    assert payloads[0..] == payloads;
    while i < n
      invariant 0 <= i <= n && sock.Valid()
      invariant out == payloads[..i]
      invariant sock.Stream() == Frames(payloads[i..]) + rest
    {
      ghost var todo := payloads[i..];
      FirstFrame(todo, rest);
      var data := new byte[BUFFER](_ => 0);
      assert data[..] == Zeros(BUFFER);
      RecSocketData(sock, data);
      CStringOfPadded(payloads[i], BUFFER - |payloads[i]|);
      out := out + [CString(data[..])];
      assert todo[1..] == payloads[i + 1..];
      i := i + 1;
    }
    assert payloads[n..] == [];
    assert out == payloads;
  }

  // -------------------------------------------------------------- properties

  /** Messages that fit the sender's buffer and are C strings. */
  ghost predicate Sendable(payloads: seq<seq<byte>>) {
    forall k | 0 <= k < |payloads| :: |payloads[k]| <= BUFFER - HEADER && 0 !in payloads[k]
  }

  function Frames(payloads: seq<seq<byte>>): seq<byte>
    requires Sendable(payloads)
  {
    if payloads == [] then [] else Frame(payloads[0]) + Frames(payloads[1..])
  }

  /** Decoding undoes encoding and leaves exactly what followed the frame. */
  lemma DecodeOfFrame(payload: seq<byte>, rest: seq<byte>)
    requires |payload| <= BUFFER - HEADER
    ensures Decode(Frame(payload) + rest) == Some((payload, rest))
  {
    var s := Frame(payload) + rest;
    assert s[..HEADER] == IntBytes(|payload|);
    IntRoundTrip(|payload|);
    assert s[HEADER..HEADER + |payload|] == payload;
    assert s[HEADER + |payload|..] == rest;
  }

  /** The header: the length, lowest byte first. */
  lemma FrameHead(payload: seq<byte>)
    requires |payload| <= 1020
    ensures var f := Frame(payload);
            && |f| == 4 + |payload| && f[4..] == payload
            && f[0] as int == |payload| % 256 && f[1] as int == |payload| / 256 && f[2] == 0 && f[3] == 0
  {
    assert Frame(payload)[4..] == payload;
  }

  lemma Regroup(a: seq<byte>, b: seq<byte>, c: seq<byte>)
    ensures (a + b) + c == a + (b + c)
  {
  }

  lemma FirstFrame(payloads: seq<seq<byte>>, rest: seq<byte>)
    requires Sendable(payloads) && payloads != []
    ensures Decode(Frames(payloads) + rest) == Some((payloads[0], Frames(payloads[1..]) + rest))
  {
    Regroup(Frame(payloads[0]), Frames(payloads[1..]), rest);
    DecodeOfFrame(payloads[0], Frames(payloads[1..]) + rest);
  }

  /** Encoding undoes decoding: a decoded frame is the only way to have produced those bytes. */
  lemma FrameOfDecode(stream: seq<byte>)
    requires Decode(stream).Some? && |Decode(stream).value.0| <= BUFFER - HEADER
    ensures stream == Frame(Decode(stream).value.0) + Decode(stream).value.1
  {
    var (payload, rest) := Decode(stream).value;
    var head := stream[..HEADER];
    assert IntBytes(IntValue(head)) == head;
    assert stream == head + payload + rest;
  }

  /** No whole frame can be read from a proper prefix of one. */
  lemma PrefixFree(payload: seq<byte>, cut: nat)
    requires |payload| <= BUFFER - HEADER && cut < |Frame(payload)|
    ensures Decode(Frame(payload)[..cut]) == None
  {
    if cut >= HEADER {
      assert Frame(payload)[..cut][..HEADER] == IntBytes(|payload|);
      IntRoundTrip(|payload|);
    }
  }

  lemma FirstFrameOnly(ps: seq<seq<byte>>)
    requires Sendable(ps) && ps != []
    ensures Decode(Frames(ps)) == Some((ps[0], Frames(ps[1..])))
  {
    FirstFrame(ps, []);
    assert Frames(ps) + [] == Frames(ps) && Frames(ps[1..]) + [] == Frames(ps[1..]);
  }

  lemma SameFirstFrame(ps: seq<seq<byte>>, qs: seq<seq<byte>>)
    requires Sendable(ps) && Sendable(qs) && ps != [] && Frames(ps) == Frames(qs)
    ensures qs != [] && ps[0] == qs[0] && Frames(ps[1..]) == Frames(qs[1..])
  {
    FirstFrameOnly(ps);
    if qs != [] {
      FirstFrameOnly(qs);
    }
  }

  /** Different message sequences give different streams. */
  lemma {:induction false} FramesInjective(ps: seq<seq<byte>>, qs: seq<seq<byte>>)
    requires Sendable(ps) && Sendable(qs) && Frames(ps) == Frames(qs)
    ensures ps == qs
    decreases |ps|
  {
    if ps != [] {
      SameFirstFrame(ps, qs);
      FramesInjective(ps[1..], qs[1..]);
      assert ps == [ps[0]] + ps[1..] && qs == [qs[0]] + qs[1..];
    } else if qs != [] {
      SameFirstFrame(qs, ps);
    }
  }

  lemma {:induction false} CStringOfPadded(payload: seq<byte>, pad: nat)
    requires 0 !in payload
    ensures CString(payload + Zeros(pad)) == payload
  {
    var b := payload + Zeros(pad);
    if payload != [] {
      assert b[1..] == payload[1..] + Zeros(pad);
      CStringOfPadded(payload[1..], pad);
      assert payload == [payload[0]] + payload[1..];
    }
  }

  function DecodeMany(stream: seq<byte>, n: nat): Option<(seq<seq<byte>>, seq<byte>)>
    decreases n
  {
    if n == 0 then Some(([], stream))
    else
      match Decode(stream)
      case None => None
      case Some((payload, rest)) =>
        match DecodeMany(rest, n - 1)
        case None => None
        case Some((ps, left)) => Some(([payload] + ps, left))
  }

  /** Any number of messages survive the trip, in order. */
  lemma {:induction false} RoundTrip(payloads: seq<seq<byte>>, rest: seq<byte>)
    requires Sendable(payloads)
    ensures DecodeMany(Frames(payloads) + rest, |payloads|) == Some((payloads, rest))
    decreases |payloads|
  {
    if payloads == [] {
      assert Frames(payloads) + rest == rest;
    } else {
      FirstFrame(payloads, rest);
      RoundTrip(payloads[1..], rest);
      assert payloads == [payloads[0]] + payloads[1..];
    }
  }
}
