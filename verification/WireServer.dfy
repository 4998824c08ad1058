/** The server's end of the framing: `ServerReadData` run by the read callback over the bytes that are
    buffered when it is called.  Nothing more arrives while it loops, because the callback and the
    socket share one thread. */
module WireServer {
  import opened CArith
  import opened Wire

  /** The four bytes read back as a C `int`. */
  function Signed(b: seq<byte>): int
    requires |b| == HEADER
  {
    if IntValue(b) < 0x8000_0000 then IntValue(b) else IntValue(b) - 0x1_0000_0000
  }

  /** How many bytes `bufferevent_read` takes; a negative size turns into a huge one. */
  function Taken(want: int, input: seq<byte>): (n: nat)
    ensures n <= |input|
  {
    if 0 <= want <= |input| then want else |input|
  }

  // ------------------------------------------------------------ turn by turn

  /** The two loops: what the current one has gathered, and what is still buffered. */
  datatype Reader =
    | Head(got: seq<byte>, input: seq<byte>)
    | Body(len: int, got: seq<byte>, input: seq<byte>)
    | Returned(payload: seq<byte>, input: seq<byte>)

  /** One turn of a loop; `r <= 0` is tested before `r == len`. */
  function Turn(s: Reader): Reader {
    match s
    case Head(got, input) =>
      var n := Taken(HEADER - |got|, input);
      var all := got + input[..n];
      if |all| <= 0 || |all| != HEADER then Head(all, input[n..]) else Body(Signed(all), [], input[n..])
    case Body(len, got, input) =>
      var n := Taken(len - |got|, input);
      var all := got + input[..n];
      if |all| <= 0 || |all| != len then Body(len, all, input[n..]) else Returned(all, input[n..])
    case Returned(_, _) => s
  }

  function Turns(s: Reader, n: nat): Reader
    decreases n
  {
    if n == 0 then s else Turns(Turn(s), n - 1)
  }

  /** A whole frame with something in it is buffered. */
  ghost predicate Complete(input: seq<byte>) {
    |input| >= HEADER && Signed(input[..HEADER]) >= 1 && |input| - HEADER >= Signed(input[..HEADER])
  }

  lemma CompleteIsDecoded(input: seq<byte>)
    ensures Complete(input)
            <==> Decode(input).Some? && 1 <= |Decode(input).value.0| < 0x8000_0000
  {
  }

  lemma {:induction false} Fixed(s: Reader, n: nat)
    requires Turn(s) == s
    ensures Turns(s, n) == s
  {
    if n > 0 {
      Fixed(s, n - 1);
    }
  }

  lemma TwoTurns(s: Reader)
    ensures Turns(s, 2) == Turn(Turn(s))
  {
    assert Turns(s, 2) == Turns(Turn(s), 1);
  }

  lemma HeadTurn(input: seq<byte>)
    ensures Turn(Head([], input))
            == if |input| < HEADER then Head(input, []) else Body(Signed(input[..HEADER]), [], input[HEADER..])
  {
    hide Signed;
    if |input| < HEADER {
      assert [] + input[..|input|] == input && input[|input|..] == [];
    } else {
      assert [] + input[..HEADER] == input[..HEADER];
    }
  }

  lemma BodyTurn(len: int, rest: seq<byte>)
    ensures Turn(Body(len, [], rest))
            == if 1 <= len <= |rest| then Returned(rest[..len], rest[len..])
               else if len == 0 then Body(len, [], rest)
               else Body(len, rest, [])
  {
    var n := Taken(len, rest);
    assert [] + rest[..n] == rest[..n];
    if n == |rest| {
      assert rest[..n] == rest && rest[n..] == [];
    } else if n == 0 {
      assert rest[..n] == [] && rest[n..] == rest;
    }
  }

  /** A loop that has used up its input without leaving is stuck. */
  lemma Drained(got: seq<byte>, len: int)
    ensures |got| < HEADER ==> Turn(Head(got, [])) == Head(got, [])
    ensures got == [] || |got| != len ==> Turn(Body(len, got, [])) == Body(len, got, [])
  {
    var none: seq<byte> := [];
    assert got + none == got && none[..0] == none && none[0..] == none;
  }

  /** Two turns decide. */
  lemma AfterTwo(input: seq<byte>)
    ensures var s := Turns(Head([], input), 2);
            && Turn(s) == s
            && (Complete(input) ==> s == Returned(Decode(input).value.0, Decode(input).value.1))
            && (!Complete(input) ==> !s.Returned?)
  {
    hide Turn, Turns, Taken;
    TwoTurns(Head([], input));
    HeadTurn(input);
    if |input| < HEADER {
      Drained(input, 0);
    } else {
      var len, rest := Signed(input[..HEADER]), input[HEADER..];
      BodyTurn(len, rest);
      Drained(rest, len);
      CompleteIsDecoded(input);
      if Complete(input) {
        assert rest[..len] == input[HEADER..HEADER + len] && rest[len..] == input[HEADER + len..];
        ReturnedFixed(rest[..len], rest[len..]);
      }
    }
  }

  lemma ReturnedFixed(payload: seq<byte>, rest: seq<byte>)
    ensures Turn(Returned(payload, rest)) == Returned(payload, rest)
  {
  }

  lemma {:induction false} TurnsOn(s: Reader, m: nat, n: nat)
    ensures Turns(s, m + n) == Turns(Turns(s, m), n)
    decreases m
  {
    if m > 0 {
      TurnsOn(Turn(s), m - 1, n);
    }
  }

  lemma SameFromTwo(input: seq<byte>, n: nat)
    requires n >= 2
    ensures Turns(Head([], input), n) == Turns(Head([], input), 2)
  {
    hide Turn, Turns;
    AfterTwo(input);
    TurnsOn(Head([], input), 2, n - 2);
    Fixed(Turns(Head([], input), 2), n - 2);
  }

  lemma ReturnedStays(s: Reader, n: nat)
    requires Turns(s, n).Returned?
    ensures Turns(s, n + 2) == Turns(s, n)
  {
    TurnsOn(s, n, 2);
    TwoTurns(Turns(s, n));
  }

  /** The call returns if and only if a whole frame of at least one byte is buffered, and then with
      what the framing says.  Otherwise its state is the same from the second turn on, for ever. */
  lemma ReturnsIff(input: seq<byte>)
    ensures (exists n: nat :: Turns(Head([], input), n).Returned?) <==> Complete(input)
    ensures forall n: nat | n >= 2 ::
              Turns(Head([], input), n)
              == if Complete(input) then Returned(Decode(input).value.0, Decode(input).value.1)
                 else Turns(Head([], input), 2)
  {
    hide Turn, Turns, Complete;
    var s := Head([], input);
    AfterTwo(input);
    CompleteIsDecoded(input);
    forall n: nat | n >= 2
      ensures Turns(s, n) == Turns(s, 2)
    {
      SameFromTwo(input, n);
    }
    if n: nat :| Turns(s, n).Returned? {
      ReturnedStays(s, n);
      SameFromTwo(input, n + 2);
    }
    assert Complete(input) ==> Turns(s, 2).Returned?;
  }

  /** A frame that has only partly arrived is never read, not even once the rest is sent. */
  lemma CutFrameHangs(payload: seq<byte>, cut: nat, n: nat)
    requires |payload| <= BUFFER - HEADER && cut < |Frame(payload)|
    ensures !Turns(Head([], Frame(payload)[..cut]), n).Returned?
  {
    PrefixFree(payload, cut);
    CompleteIsDecoded(Frame(payload)[..cut]);
    ReturnsIff(Frame(payload)[..cut]);
  }

  /** Four zero bytes are a whole frame to the framing and to the device, but hang the server,
      whatever follows them. */
  lemma EmptyFrameHangs(rest: seq<byte>, n: nat)
    ensures Decode([0, 0, 0, 0] + rest) == Some(([], rest))
    ensures !Turns(Head([], [0, 0, 0, 0] + rest), n).Returned?
  {
    var input: seq<byte> := [0, 0, 0, 0] + rest;
    var head := input[..HEADER];
    assert head == [0, 0, 0, 0] && IntValue(head) == 0;
    assert input[HEADER..HEADER + 0] == [] && input[HEADER..] == rest;
    ReturnsIff(input);
  }

  // --------------------------------------------------------- the loops in place

  /** A connection's input buffer. */
  class Bufferevent {
    var input: seq<byte>

    constructor (input: seq<byte>)
      ensures this.input == input
    {
      this.input := input;
    }

    /** `bufferevent_read` */
    method Read(want: int) returns (got: seq<byte>)
      modifies this
      ensures got == old(input)[..Taken(want, old(input))]
      ensures input == old(input)[Taken(want, old(input))..]
    {
      var n := Taken(want, input);
      got, input := input[..n], input[n..];
    }
  }

  /** What the second loop copies stays inside the caller's buffer. */
  ghost predicate Fits(input: seq<byte>) {
    |input| >= HEADER ==> Taken(Signed(input[..HEADER]), input[HEADER..]) <= BUFFER
  }

  method CopyTo(buffer: array<byte>, at: nat, got: seq<byte>)
    requires at + |got| <= buffer.Length
    modifies buffer
    ensures buffer[..] == old(buffer[..])[..at] + got + old(buffer[..])[at + |got|..]
  {
    forall i | 0 <= i < |got| {
      buffer[at + i] := got[i];
    }
  }

  /** The buffer after `r` bytes of `input` have been copied over `was`. */
  ghost function Filled(input: seq<byte>, was: seq<byte>, r: nat): seq<byte>
    requires r <= |input| && r <= |was|
  {
    input[..r] + was[r..]
  }

  lemma FilledNone(input: seq<byte>, was: seq<byte>)
    ensures Filled(input, was, 0) == was && input[0..] == input
  {
  }

  lemma FilledMore(input: seq<byte>, was: seq<byte>, r: nat, n: nat)
    requires r + n <= |input| && r + n <= |was|
    ensures var b := Filled(input, was, r);
            b[..r] + input[r..][..n] + b[r + n..] == Filled(input, was, r + n)
    ensures input[r..][n..] == input[r + n..]
  {
  }

  /** However far the loop has got, its next turn takes all there is to take. */
  lemma TakenMore(want: int, input: seq<byte>, r: nat)
    requires r <= Taken(want, input)
    ensures r + Taken(want - r, input[r..]) == Taken(want, input)
    ensures 1 <= want <= |input| <==> want > 0 && Taken(want, input) == want
  {
  }

  /** Either loop, reading `want` bytes into an empty place.  A turn that reads nothing and does not
      leave the loop is followed by the same turn for ever; `left` is then false. */
  method ReadLoop(bev: Bufferevent, buffer: array<byte>, want: int) returns (left: bool)
    requires Taken(want, bev.input) <= buffer.Length
    modifies bev, buffer
    ensures left <==> 1 <= want <= |old(bev.input)|
    ensures left ==> bev.input == old(bev.input)[want..]
    ensures left ==> buffer[..] == Filled(old(bev.input), old(buffer[..]), want)
  {
    hide Taken, Filled;
    ghost var input, was := bev.input, buffer[..];
    FilledNone(input, was);
    TakenMore(want, input, 0);
    var r := 0;
    while true
      invariant 0 <= r <= Taken(want, input) && (r == 0 || r != want)
      invariant bev.input == input[r..]
      invariant buffer[..] == Filled(input, was, r)
      decreases |bev.input|
    {
      TakenMore(want, input, r);
      var got := bev.Read(want - r);
      FilledMore(input, was, r, |got|);
      CopyTo(buffer, r, got);
      r := r + |got|;
      if r <= 0 {
      } else if r == want {
        return true;
      }
      if got == [] {
        return false;
      }
    }
  }

  /** `ServerReadData` on a zeroed buffer; `returned` is false when it loops for ever. */
  method ServerReadData(bev: Bufferevent, buffer: array<byte>) returns (returned: bool)
    requires buffer.Length == BUFFER && buffer[..] == Zeros(BUFFER) && Fits(bev.input)
    modifies bev, buffer
    ensures returned <==> Complete(old(bev.input))
    ensures returned ==>
              var (payload, rest) := Decode(old(bev.input)).value;
              buffer[..] == payload + Zeros(BUFFER - |payload|) && bev.input == rest
  {
    ghost var input := bev.input;
    ghost var zeros := buffer[..];
    CompleteIsDecoded(input);
    var first := ReadLoop(bev, buffer, HEADER);
    if !first {
      return false;
    }
    assert buffer[..HEADER] == input[..HEADER];
    var bufferLen := Signed(buffer[..HEADER]);
    CopyTo(buffer, 0, Zeros(HEADER));
    assert buffer[..] == zeros;
    returned := ReadLoop(bev, buffer, bufferLen);
    assert returned ==> buffer[bufferLen..] == zeros[bufferLen..];
  }

  // ------------------------------------------------------------- a connection

  /** A connection as the callback leaves it: the messages handled and the bytes still buffered, or
      hung in `ServerReadData` with the whole server. */
  datatype Conn = Live(handled: seq<seq<byte>>, input: seq<byte>) | Hung

  /** A piece of the stream arrives and the callback runs once. */
  function Arrive(c: Conn, piece: seq<byte>): Conn {
    if c.Hung? then c
    else
      match Turns(Head([], c.input + piece), 2)
      case Returned(payload, rest) => Live(c.handled + [payload], rest)
      case _ => Hung
  }

  function Served(pieces: seq<seq<byte>>): Conn {
    if pieces == [] then Live([], []) else Arrive(Served(pieces[..|pieces| - 1]), pieces[|pieces| - 1])
  }

  /** The stream begins with `n` whole frames, none of them empty. */
  ghost predicate Whole(stream: seq<byte>, n: nat) {
    && DecodeMany(stream, n).Some?
    && forall p | p in DecodeMany(stream, n).value.0 :: 1 <= |p| < 0x8000_0000
  }

  lemma {:induction false} FlatSnoc(pieces: seq<seq<byte>>)
    requires pieces != []
    ensures Flat(pieces) == Flat(pieces[..|pieces| - 1]) + pieces[|pieces| - 1]
  {
    if |pieces| > 1 {
      FlatSnoc(pieces[1..]);
      assert pieces[1..][..|pieces| - 2] == pieces[..|pieces| - 1][1..];
    }
  }

  lemma DecodeMore(s: seq<byte>, t: seq<byte>)
    requires Decode(s).Some?
    ensures Decode(s + t) == Some((Decode(s).value.0, Decode(s).value.1 + t))
  {
    assert (s + t)[..HEADER] == s[..HEADER];
    var len := IntValue(s[..HEADER]);
    assert (s + t)[HEADER..HEADER + len] == s[HEADER..HEADER + len];
    assert (s + t)[HEADER + len..] == s[HEADER + len..] + t;
  }

  lemma {:induction false} DecodeManyMore(s: seq<byte>, t: seq<byte>, n: nat)
    requires DecodeMany(s, n).Some?
    ensures DecodeMany(s + t, n) == Some((DecodeMany(s, n).value.0, DecodeMany(s, n).value.1 + t))
    decreases n
  {
    if n > 0 {
      DecodeMore(s, t);
      DecodeManyMore(Decode(s).value.1, t, n - 1);
    }
  }

  lemma {:induction false} DecodeManySnoc(s: seq<byte>, n: nat)
    requires DecodeMany(s, n).Some?
    ensures var (ps, left) := DecodeMany(s, n).value;
            DecodeMany(s, n + 1)
            == match Decode(left) case None => None case Some((p, rest)) => Some((ps + [p], rest))
    decreases n
  {
    if n == 0 {
      if Decode(s).Some? {
        var (p, rest) := Decode(s).value;
        assert DecodeMany(rest, 0) == Some(([], rest)) && [p] + [] == [] + [p];
      }
    } else {
      var (p, rest) := Decode(s).value;
      DecodeManySnoc(rest, n - 1);
      var (ps, left) := DecodeMany(rest, n - 1).value;
      assert DecodeMany(s, n + 1) == match DecodeMany(rest, n)
                                     case None => None
                                     case Some((qs, l)) => Some(([p] + qs, l));
      if Decode(left).Some? {
        assert ([p] + ps) + [Decode(left).value.0] == [p] + (ps + [Decode(left).value.0]);
      }
    }
  }

  /** What is served is the stream decoded, one message for every arrival. */
  ghost predicate Follows(c: Conn, stream: seq<byte>, n: nat) {
    c.Live? && Whole(stream, n) && DecodeMany(stream, n) == Some((c.handled, c.input))
  }

  lemma ArriveStep(c: Conn, stream: seq<byte>, n: nat, piece: seq<byte>)
    requires Follows(c, stream, n)
    ensures var t := Arrive(c, piece);
            (t.Live? ==> Follows(t, stream + piece, n + 1)) && (t.Live? <==> Whole(stream + piece, n + 1))
  {
    var input := c.input + piece;
    DecodeManyMore(stream, piece, n);
    DecodeManySnoc(stream + piece, n);
    AfterTwo(input);
    CompleteIsDecoded(input);
    if Decode(input).Some? {
      var ps, p := c.handled, Decode(input).value.0;
      assert p in ps + [p];
    }
  }

  ghost predicate KeepsUp(pieces: seq<seq<byte>>) {
    forall k | 0 <= k <= |pieces| :: Whole(Flat(pieces[..k]), k)
  }

  lemma KeepsUpSnoc(pieces: seq<seq<byte>>)
    requires pieces != []
    ensures KeepsUp(pieces) <==> KeepsUp(pieces[..|pieces| - 1]) && Whole(Flat(pieces), |pieces|)
  {
    hide Whole, Flat;
    var init := pieces[..|pieces| - 1];
    assert pieces[..|pieces|] == pieces;
    assert forall k | 0 <= k < |pieces| :: init[..k] == pieces[..k];
    if KeepsUp(pieces) {
      forall k | 0 <= k <= |init|
        ensures Whole(Flat(init[..k]), k)
      {
        assert Whole(Flat(pieces[..k]), k);
      }
    }
    if KeepsUp(init) && Whole(Flat(pieces), |pieces|) {
      forall k | 0 <= k <= |pieces|
        ensures Whole(Flat(pieces[..k]), k)
      {
        assert k < |pieces| ==> Whole(Flat(init[..k]), k);
      }
    }
  }

  /** Under every cutting of a stream: the server keeps serving the connection if and only if after
      each arrival, the `k`-th, at least `k` whole frames have come, and then it has handled exactly
      the first `k` of them, in order.  So a frame cut in two hangs it unless enough whole ones came
      before, and of frames that come together all but one wait for later arrivals. */
  lemma {:induction false} ServedIff(pieces: seq<seq<byte>>)
    ensures Served(pieces).Live? <==> KeepsUp(pieces)
    ensures Served(pieces).Live? ==> Follows(Served(pieces), Flat(pieces), |pieces|)
    decreases |pieces|
  {
    if pieces != [] {
      hide Arrive, Whole, Flat, KeepsUp;
      var n := |pieces| - 1;
      ServedIff(pieces[..n]);
      KeepsUpSnoc(pieces);
      FlatSnoc(pieces);
      if Served(pieces[..n]).Live? {
        ArriveStep(Served(pieces[..n]), Flat(pieces[..n]), n, pieces[n]);
      } else {
        HungStays(pieces);
      }
    }
  }

  lemma HungStays(pieces: seq<seq<byte>>)
    requires pieces != [] && Served(pieces[..|pieces| - 1]).Hung?
    ensures Served(pieces).Hung?
  {
  }
}
