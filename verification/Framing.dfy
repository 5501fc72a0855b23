/** The in-place response buffer: reads of any size, one response at a time, and the bytes beyond it
    shifted to the front. The header parser is a parameter of which only prefix stability is known. */
module Framing {
  import opened Arithmetic
  import opened Octets
  import opened Verdicts

  /** What the header parser says of the bytes so far. */
  datatype Head = Complete(headerEnd: nat, resp: Response) | Partial | Bad

  type Parser = Bytes -> Head

  /** How the verdict on a stream relates to the verdict on its first k bytes. */
  ghost predicate StableAt(parse: Parser, s: Bytes, k: nat)
    requires k <= |s|
  {
    && (parse(s).Complete? ==>
          && 0 < parse(s).headerEnd <= |s|
          && parse(s[..k]) == if k < parse(s).headerEnd then Partial else parse(s))
    && (!parse(s[..k]).Partial? ==> parse(s) == parse(s[..k]))
  }

  /** More bytes never change a verdict once it has been reached. */
  ghost predicate Stable(parse: Parser) {
    forall s: Bytes, k: nat :: k <= |s| ==> StableAt(parse, s, k)
  }

  const BLANK_LINE: Bytes := [13, 10, 13, 10]

  /** Where the first blank line ends; 0 if there is none yet. */
  function HeaderEnd(s: Bytes): nat {
    if |s| < 4 then 0
    else
      var before := HeaderEnd(s[..|s| - 1]);
      if before > 0 then before else if s[|s| - 4..] == BLANK_LINE then |s| else 0
  }

  /** A parser that waits for the blank line and then reads nothing but the header. */
  function BlankLineParser(fields: Bytes -> Option<Response>): Parser {
    s =>
      var end := HeaderEnd(s);
      if end == 0 || end > |s| then Partial
      else match fields(s[..end])
           case None => Bad
           case Some(resp) => Complete(end, resp)
  }

  lemma {:induction false} HeaderEndOfPrefix(s: Bytes, k: nat)
    requires k <= |s|
    ensures HeaderEnd(s) <= |s|
    ensures HeaderEnd(s[..k]) == if k < HeaderEnd(s) then 0 else HeaderEnd(s)
  {
    if k < |s| {
      assert s[..|s| - 1][..k] == s[..k];
      HeaderEndOfPrefix(s[..|s| - 1], k);
    } else {
      assert s[..k] == s;
      if |s| >= 4 {
        HeaderEndOfPrefix(s[..|s| - 1], 0);
      }
    }
  }

  /** The four bytes that end a header end at n. */
  ghost predicate BlankLineAt(s: Bytes, n: nat) {
    4 <= n <= |s| && s[n - 4] == 13 && s[n - 3] == 10 && s[n - 2] == 13 && s[n - 1] == 10
  }

  lemma BlankLineLast(s: Bytes)
    requires |s| >= 4
    ensures BlankLineAt(s, |s|) <==> s[|s| - 4..] == BLANK_LINE
  {
    var t := s[|s| - 4..];
    assert t[0] == s[|s| - 4] && t[1] == s[|s| - 3] && t[2] == s[|s| - 2] && t[3] == s[|s| - 1];
    assert t == [t[0], t[1], t[2], t[3]];
  }

  lemma BlankLineBefore(s: Bytes, n: nat)
    requires n < |s|
    ensures BlankLineAt(s, n) <==> BlankLineAt(s[..|s| - 1], n)
  {
  }

  /** A header ends with the first blank line, and nowhere if there is none. */
  lemma {:induction false} HeaderEndMeans(s: Bytes, n: nat)
    ensures HeaderEnd(s) > 0 ==> BlankLineAt(s, HeaderEnd(s))
    ensures BlankLineAt(s, n) ==> 0 < HeaderEnd(s) <= n
  {
    if |s| >= 4 {
      var init := s[..|s| - 1];
      HeaderEndMeans(init, n);
      HeaderEndOfPrefix(init, |init|);
      BlankLineLast(s);
      if HeaderEnd(init) > 0 {
        BlankLineBefore(s, HeaderEnd(init));
      }
      if n < |s| {
        BlankLineBefore(s, n);
      }
    }
  }

  /** Stability holds of every such parser, whatever it makes of the header. */
  lemma BlankLineIsStable(fields: Bytes -> Option<Response>)
    ensures Stable(BlankLineParser(fields))
  {
    forall s: Bytes, k: nat | k <= |s|
      ensures StableAt(BlankLineParser(fields), s, k)
    {
      HeaderEndOfPrefix(s, k);
      if HeaderEnd(s) <= k {
        assert s[..k][..HeaderEnd(s)] == s[..HeaderEnd(s)];
      }
    }
  }

  // ---- the socket ----

  /** What one poll of the socket brings; no bytes at all is the end of the stream. */
  datatype Arrival = Data(bytes: Bytes) | Broken | Late

  predicate Stops(a: Arrival) { !a.Data? || a.bytes == [] }

  /** Every byte that arrives before the stream ends, breaks or stalls past the timeout. */
  function Incoming(arrivals: seq<Arrival>): Bytes {
    if arrivals == [] || Stops(arrivals[0]) then [] else arrivals[0].bytes + Incoming(arrivals[1..])
  }

  function Ending(arrivals: seq<Arrival>): Arrival {
    if arrivals == [] then Data([]) else if Stops(arrivals[0]) then arrivals[0] else Ending(arrivals[1..])
  }

  /** What is left to arrive once n bytes of the first arrival have been read. */
  function AfterRead(arrivals: seq<Arrival>, n: nat): seq<Arrival>
    requires arrivals != [] && !Stops(arrivals[0]) && 0 < n <= |arrivals[0].bytes|
  {
    if n < |arrivals[0].bytes| then arrivals[0 := Data(arrivals[0].bytes[n..])] else arrivals[1..]
  }

  lemma SplitBefore(data: Bytes, n: nat, rest: Bytes)
    requires n <= |data|
    ensures data + rest == data[..n] + (data[n..] + rest)
  {
    assert data == data[..n] + data[n..];
  }

  lemma ReadTakesPrefix(arrivals: seq<Arrival>, n: nat)
    requires arrivals != [] && !Stops(arrivals[0]) && 0 < n <= |arrivals[0].bytes|
    ensures Incoming(arrivals) == arrivals[0].bytes[..n] + Incoming(AfterRead(arrivals, n))
    ensures Ending(arrivals) == Ending(AfterRead(arrivals, n))
  {
    var data, rest, next := arrivals[0].bytes, Incoming(arrivals[1..]), AfterRead(arrivals, n);
    if n < |data| {
      assert next[1..] == arrivals[1..];
      assert Incoming(next) == data[n..] + rest;
      SplitBefore(data, n, rest);
    }
  }

  class Socket {
    var arrivals: seq<Arrival>

    constructor (arrivals: seq<Arrival>)
      ensures this.arrivals == arrivals
    {
      this.arrivals := arrivals;
    }

    /** Reads into `buf` from `at` on: as much of the next arrival as there is room for. */
    method Read(buf: array<byte>, at: nat) returns (n: nat, stop: Option<Arrival>)
      requires at < buf.Length
      modifies this, buf
      ensures stop.None? ==> 0 < n <= buf.Length - at
      ensures stop.Some? ==> n == 0 && stop.value == old(Ending(arrivals)) && old(Incoming(arrivals)) == []
      ensures buf[..at] == old(buf[..at])
      ensures old(Incoming(arrivals)) == buf[at..at + n] + Incoming(arrivals)
      ensures Ending(arrivals) == old(Ending(arrivals))
    {
      if arrivals == [] || Stops(arrivals[0]) {
        return 0, Some(Ending(arrivals));
      }
      var data := arrivals[0].bytes;
      n := Min(|data|, buf.Length - at);
      forall i | 0 <= i < n {
        buf[at + i] := data[i];
      }
      assert buf[at..at + n] == data[..n];
      ReadTakesPrefix(arrivals, n);
      arrivals := AfterRead(arrivals, n);
      stop := None;
    }
  }

  // ---- what one read yields, as a function of the stream ----

  datatype Frame = Frame(len: nat, resp: Response)

  datatype ReadResult = Received(frame: Frame) | Timeout | Err

  const BUFFER := 65536

  /** The response at the front of the bytes in the buffer. */
  function Front(parse: Parser, held: Bytes): Option<Frame> {
    match parse(held)
    case Complete(headerEnd, resp) =>
      if headerEnd + resp.contentLength <= |held| then Some(Frame(headerEnd + resp.contentLength, resp)) else None
    case _ => None
  }

  function Window(stream: Bytes): Bytes { stream[..Min(BUFFER, |stream|)] }

  /** A window that does not start with a whole response fails, unless the stream stalls while there
      is room for more. */
  function Outcome(parse: Parser, stream: Bytes, ending: Arrival): ReadResult {
    match Front(parse, Window(stream))
    case Some(frame) => Received(frame)
    case None =>
      if !parse(Window(stream)).Bad? && ending.Late? && |stream| < BUFFER then Timeout else Err
  }

  /** A response is found exactly when the whole stream starts with one that the buffer can hold. */
  lemma FoundIffFits(parse: Parser, stream: Bytes, ending: Arrival, frame: Frame)
    requires Stable(parse)
    ensures Outcome(parse, stream, ending) == Received(frame) <==>
            && parse(stream).Complete? && frame.resp == parse(stream).resp
            && frame.len == parse(stream).headerEnd + frame.resp.contentLength
            && frame.len <= |stream| && frame.len <= BUFFER
  {
    assert StableAt(parse, stream, Min(BUFFER, |stream|));
  }

  datatype ParseOutcome = Whole(frame: Frame) | NeedMore | BadHead

  function TryParse(parse: Parser, held: Bytes): ParseOutcome {
    match parse(held)
    case Complete(headerEnd, resp) =>
      var total := headerEnd + resp.contentLength;
      if |held| >= total then Whole(Frame(total, resp)) else NeedMore
    case Partial => NeedMore
    case Bad => BadHead
  }

  /** What has been seen of the window decides as soon as it parses, and at the latest when nothing
      more can be read. */
  lemma WhenToStop(parse: Parser, held: Bytes, arrivals: seq<Arrival>)
    requires Stable(parse) && |held| <= BUFFER
    ensures var r := Outcome(parse, held + Incoming(arrivals), Ending(arrivals));
            match TryParse(parse, held)
            case Whole(frame) => r == Received(frame)
            case BadHead => r == Err
            case NeedMore =>
              if |held| == BUFFER then r == Err
              else if arrivals != [] && arrivals[0].Late? then r == Timeout
              else Incoming(arrivals) == [] ==> r == Err
  {
    var stream := held + Incoming(arrivals);
    assert Window(stream)[..|held|] == held;
    assert StableAt(parse, Window(stream), |held|);
    if |held| == BUFFER || Incoming(arrivals) == [] {
      assert Window(stream) == held;
    }
  }

  // ---- the whole stream, and the buffer on it ----

  /** The responses in a stream, one after the other, as long as each fits the buffer. */
  ghost function Framed(parse: Parser, stream: Bytes): seq<Frame>
    requires Stable(parse)
    decreases |stream|
  {
    var r := Outcome(parse, stream, Broken);
    if r.Received? then
      FoundIffFits(parse, stream, Broken, r.frame);
      assert StableAt(parse, stream, 0);
      [r.frame] + Framed(parse, stream[r.frame.len..])
    else []
  }

  function TotalLen(frames: seq<Frame>): nat {
    if frames == [] then 0 else TotalLen(frames[..|frames| - 1]) + frames[|frames| - 1].len
  }

  /** The frames taken are the first of the stream's, and what remains is exactly the rest of it. */
  ghost predicate Progress(parse: Parser, stream: Bytes, got: seq<Frame>, rest: Bytes)
    requires Stable(parse)
  {
    && TotalLen(got) <= |stream| && rest == stream[TotalLen(got)..]
    && Framed(parse, stream) == got + Framed(parse, rest)
  }

  lemma EndingOnlyMattersAtTheEnd(parse: Parser, stream: Bytes, ending: Arrival)
    ensures Outcome(parse, stream, ending).Received? <==> Outcome(parse, stream, Broken).Received?
    ensures Outcome(parse, stream, ending).Received? ==>
              Outcome(parse, stream, ending) == Outcome(parse, stream, Broken)
  {
  }

  lemma FramedStep(parse: Parser, stream: Bytes, ending: Arrival)
    requires Stable(parse) && Outcome(parse, stream, ending).Received?
    ensures var f := Outcome(parse, stream, ending).frame;
            0 < f.len <= |stream| && Framed(parse, stream) == [f] + Framed(parse, stream[f.len..])
  {
    EndingOnlyMattersAtTheEnd(parse, stream, ending);
    FoundIffFits(parse, stream, ending, Outcome(parse, stream, ending).frame);
    assert StableAt(parse, stream, 0);
  }

  /** One more frame taken off a stream. */
  lemma TotalLenMore(stream: Bytes, got: seq<Frame>, f: Frame)
    requires TotalLen(got) + f.len <= |stream|
    ensures TotalLen(got + [f]) == TotalLen(got) + f.len
    ensures stream[TotalLen(got)..][f.len..] == stream[TotalLen(got + [f])..]
  {
    assert (got + [f])[..|got|] == got;
  }

  lemma MoreProgress(parse: Parser, stream: Bytes, got: seq<Frame>, rest: Bytes, ending: Arrival)
    requires Stable(parse) && Progress(parse, stream, got, rest) && Outcome(parse, rest, ending).Received?
    ensures var f := Outcome(parse, rest, ending).frame;
            f.len <= |rest| && Progress(parse, stream, got + [f], rest[f.len..])
  {
    var f := Outcome(parse, rest, ending).frame;
    FramedStep(parse, rest, ending);
    TotalLenMore(stream, got, f);
    assert got + ([f] + Framed(parse, rest[f.len..])) == got + [f] + Framed(parse, rest[f.len..]);
  }

  lemma FramedNothing(parse: Parser, stream: Bytes, ending: Arrival)
    requires Stable(parse) && !Outcome(parse, stream, ending).Received?
    ensures Framed(parse, stream) == []
  {
    EndingOnlyMattersAtTheEnd(parse, stream, ending);
  }

  class Reader {
    const parse: Parser
    const buf: array<byte>
    var len: nat

    ghost predicate Valid()
      reads this
    {
      len <= buf.Length == BUFFER && Stable(parse)
    }

    /** The bytes received and not yet consumed. */
    function Held(): Bytes
      requires len <= buf.Length
      reads this, buf
    {
      buf[..len]
    }

    /** Everything not yet consumed: in the buffer, or still to arrive. */
    ghost function Unconsumed(sock: Socket): Bytes
      requires len <= buf.Length
      reads this, buf, sock
    {
      Held() + Incoming(sock.arrivals)
    }

    constructor (parse: Parser)
      requires Stable(parse)
      ensures Valid() && fresh(buf) && this.parse == parse && Held() == []
    {
      this.parse := parse;
      buf := new byte[BUFFER];
      len := 0;
    }

    /** Reads once more: the buffer grows, or the stream has stopped. */
    method Fill(sock: Socket) returns (stop: Option<Arrival>)
      requires Valid() && len < buf.Length
      modifies this`len, buf, sock
      ensures Valid() && Unconsumed(sock) == old(Unconsumed(sock))
      ensures Ending(sock.arrivals) == old(Ending(sock.arrivals))
      ensures if stop.None? then len > old(len) else len == old(len) && old(Incoming(sock.arrivals)) == []
    {
      var n;
      n, stop := sock.Read(buf, len);
      assert buf[..len + n] == buf[..len] + buf[len..len + n];
      len := len + n;
    }

    /** Reads until one whole response is in the buffer. */
    method ReadOne(sock: Socket) returns (r: ReadResult)
      requires Valid()
      modifies this`len, buf, sock
      ensures Valid()
      ensures r == Outcome(parse, old(Unconsumed(sock)), old(Ending(sock.arrivals)))
      ensures Unconsumed(sock) == old(Unconsumed(sock)) && Ending(sock.arrivals) == old(Ending(sock.arrivals))
      ensures r.Received? ==> r.frame.len <= len
    {
      while true
        invariant Valid()
        invariant Unconsumed(sock) == old(Unconsumed(sock)) && Ending(sock.arrivals) == old(Ending(sock.arrivals))
        decreases buf.Length - len
      {
        WhenToStop(parse, Held(), sock.arrivals);
        match TryParse(parse, Held()) {
          case Whole(frame) => return Received(frame);
          case BadHead => return Err;
          case NeedMore =>
        }
        if len == buf.Length {
          return Err;
        }
        if sock.arrivals != [] && sock.arrivals[0].Late? {
          return Timeout;
        }
        var stop := Fill(sock);
        if stop.Some? {
          return Err;
        }
      }
    }

    /** Drops a consumed response; any bytes beyond it move to the front. */
    method Shift(msgLen: nat)
      requires Valid() && msgLen <= len
      modifies this`len, buf
      ensures Valid() && Held() == old(Held())[msgLen..]
    {
      if len > msgLen {
        forall i | 0 <= i < len - msgLen {
          buf[i] := buf[msgLen + i];
        }
        len := len - msgLen;
      } else {
        len := 0;
      }
    }

    /** One turn of the connection: reads a response and drops it from the buffer. */
    method Next(sock: Socket) returns (r: ReadResult)
      requires Valid()
      modifies this`len, buf, sock
      ensures Valid() && Ending(sock.arrivals) == old(Ending(sock.arrivals))
      ensures r == Outcome(parse, old(Unconsumed(sock)), old(Ending(sock.arrivals)))
      ensures r.Received? ==>
                r.frame.len <= |old(Unconsumed(sock))| && Unconsumed(sock) == old(Unconsumed(sock))[r.frame.len..]
      ensures !r.Received? ==> Unconsumed(sock) == old(Unconsumed(sock))
    {
      r := ReadOne(sock);
      if r.Received? {
        Shift(r.frame.len);
      }
    }

    /** Reads responses one after the other, up to a limit or the first failure. */
    method ReadUpTo(sock: Socket, limit: nat) returns (got: seq<Frame>, last: Option<ReadResult>)
      requires Valid()
      modifies this`len, buf, sock
      ensures Valid() && |got| <= limit
      ensures Progress(parse, old(Unconsumed(sock)), got, Unconsumed(sock))
      ensures if |got| == limit then last == None
              else Framed(parse, Unconsumed(sock)) == []
                   && last == Some(Outcome(parse, Unconsumed(sock), old(Ending(sock.arrivals))))
    {
      got, last := [], None;
      ghost var stream := Unconsumed(sock);
      while |got| < limit
        invariant Valid() && |got| <= limit && last == None
        invariant Progress(parse, stream, got, Unconsumed(sock))
        invariant Ending(sock.arrivals) == old(Ending(sock.arrivals))
      {
        ghost var before := Unconsumed(sock);
        var r := Next(sock);
        if !r.Received? {
          FramedNothing(parse, before, Ending(sock.arrivals));
          return got, Some(r);
        }
        MoreProgress(parse, stream, got, before, Ending(sock.arrivals));
        got := got + [r.frame];
      }
    }
  }

  // ---- what a server writes ----

  /** A message as a server writes it: a header and exactly the body the header announces. */
  ghost predicate WellFormed(parse: Parser, m: Bytes) {
    parse(m).Complete? && parse(m).headerEnd + parse(m).resp.contentLength == |m|
  }

  function FrameOf(parse: Parser, m: Bytes): Frame
    requires parse(m).Complete?
  {
    Frame(|m|, parse(m).resp)
  }

  /** Well-formed messages, none longer than the buffer. */
  ghost predicate Fitting(parse: Parser, ms: seq<Bytes>) {
    ms != [] ==> WellFormed(parse, ms[0]) && |ms[0]| <= BUFFER && Fitting(parse, ms[1..])
  }

  ghost function FramesOf(parse: Parser, ms: seq<Bytes>): seq<Frame>
    requires Fitting(parse, ms)
  {
    if ms == [] then [] else [FrameOf(parse, ms[0])] + FramesOf(parse, ms[1..])
  }

  lemma MessageFirst(parse: Parser, m: Bytes, rest: Bytes, ending: Arrival)
    requires Stable(parse) && WellFormed(parse, m) && |m| <= BUFFER
    ensures Outcome(parse, m + rest, ending) == Received(FrameOf(parse, m))
  {
    assert (m + rest)[..|m|] == m;
    assert StableAt(parse, m + rest, |m|);
    FoundIffFits(parse, m + rest, ending, FrameOf(parse, m));
  }

  lemma FramesInFront(parse: Parser, m: Bytes, later: Bytes)
    requires Stable(parse) && WellFormed(parse, m) && |m| <= BUFFER
    ensures Framed(parse, m + later) == [FrameOf(parse, m)] + Framed(parse, later)
  {
    MessageFirst(parse, m, later, Broken);
    FramedStep(parse, m + later, Broken);
    assert (m + later)[|m|..] == later;
  }

  /** Whatever messages a server writes, each no longer than the buffer, come out one by one, and
      what follows them is framed as if it stood alone. `ReadUpTo` yields just this for any split of
      the bytes into reads. */
  lemma {:induction false} MessagesRecovered(parse: Parser, ms: seq<Bytes>, rest: Bytes)
    requires Stable(parse) && Fitting(parse, ms)
    ensures Framed(parse, Concat(ms) + rest) == FramesOf(parse, ms) + Framed(parse, rest)
  {
    if ms == [] {
      assert Concat(ms) + rest == rest;
    } else {
      var later := Concat(ms[1..]) + rest;
      assert Concat(ms) + rest == ms[0] + later;
      FramesInFront(parse, ms[0], later);
      MessagesRecovered(parse, ms[1..], rest);
    }
  }

  /** A longer message is never accepted: once its header is in, only a failure can follow. */
  lemma OversizeFails(parse: Parser, m: Bytes, rest: Bytes, ending: Arrival)
    requires Stable(parse) && WellFormed(parse, m) && |m| > BUFFER
    ensures Outcome(parse, m + rest, ending) == Err
    ensures Framed(parse, m + rest) == []
  {
    var r := Outcome(parse, m + rest, ending);
    assert (m + rest)[..|m|] == m;
    assert StableAt(parse, m + rest, |m|);
    if r.Received? {
      FoundIffFits(parse, m + rest, ending, r.frame);
    }
    FramedNothing(parse, m + rest, ending);
  }
}
