/** Server-sent events: the control plane's printer and the CLI's chunk-fed drain loop and parser.
    Section 9.2.6 of the WHATWG HTML Living Standard, as far as either side implements it. */
module EventStream {
  import opened Octets
  import opened Sequences
  import opened Utf8
  import opened Verdicts
  import opened Aggregation
  import opened FleetTotals

  // ---- the printer ----

  datatype Item = TickItem(elapsedS: nat, payload: string) | Comment(text: string)

  function Decimal(n: nat): string {
    if n < 10 then ["0123456789"[n]] else Decimal(n / 10) + ["0123456789"[n % 10]]
  }

  /** The number that a string of digits stands for. */
  function ValueOf(s: string): int {
    if s == "" then 0 else 10 * ValueOf(s[..|s| - 1]) + (s[|s| - 1] as int - '0' as int)
  }

  /** Digits that stand for n, without leading zeros. */
  ghost predicate StandsFor(s: string, n: nat) {
    && s != "" && (forall i :: 0 <= i < |s| ==> '0' <= s[i] <= '9')
    && ValueOf(s) == n && (s[0] == '0' ==> n == 0)
  }

  lemma OneDigit(n: nat)
    requires n < 10
    ensures StandsFor(["0123456789"[n]], n)
  {
    assert ["0123456789"[n]][..0] == "";
  }

  lemma AnotherDigit(s: string, m: nat, d: nat)
    requires StandsFor(s, m) && 0 < m && d < 10
    ensures StandsFor(s + ["0123456789"[d]], 10 * m + d)
  {
    Grown(s, "0123456789"[d]);
  }

  lemma {:induction false} DecimalStandsFor(n: nat)
    ensures StandsFor(Decimal(n), n)
  {
    if n < 10 {
      OneDigit(n);
    } else {
      DecimalStandsFor(n / 10);
      AnotherDigit(Decimal(n / 10), n / 10, n % 10);
    }
  }

  function Print(item: Item): string {
    match item
    case TickItem(elapsedS, payload) =>
      "event: tick" + "\n" + ("id: " + Decimal(elapsedS) + "\n" + ("data: " + payload + "\n\n"))
    case Comment(text) => ": " + text + "\n\n"
  }

  function Blocks(items: seq<Item>): seq<string> {
    seq(|items|, i requires 0 <= i < |items| => Print(items[i]))
  }

  function Text(blocks: seq<string>): string {
    if blocks == [] then "" else blocks[0] + Text(blocks[1..])
  }

  function PrintAll(items: seq<Item>): string { Text(Blocks(items)) }

  // ---- the parser ----

  datatype Event = Event(name: string, data: string)

  /** `split('\n')`: always at least one line. */
  function Lines(s: string): (ls: seq<string>)
    ensures |ls| > 0
  {
    if s == "" then [""]
    else if s[0] == '\n' then [""] + Lines(s[1..])
    else
      var later := Lines(s[1..]);
      [[s[0]] + later[0]] + later[1..]
  }

  function TrimCr(s: string): string {
    if s != "" && s[|s| - 1] == '\r' then TrimCr(s[..|s| - 1]) else s
  }

  function TrimSpaces(s: string): string {
    if s != "" && s[0] == ' ' then TrimSpaces(s[1..]) else s
  }

  function TakeLine(e: Event, raw: string): Event {
    var line := TrimCr(raw);
    if "data:" <= line then e.(data := e.data + (if e.data == "" then "" else "\n") + TrimSpaces(line[5..]))
    else if "event:" <= line then e.(name := TrimSpaces(line[6..]))
    else e
  }

  function TakeLines(lines: seq<string>): Event {
    if lines == [] then Event("message", "") else TakeLine(TakeLines(lines[..|lines| - 1]), lines[|lines| - 1])
  }

  function Parse(block: string): Option<Event> {
    var e := TakeLines(Lines(block));
    if e.data == "" then None else Some(e)
  }

  method ParseSse(block: string) returns (r: Option<Event>)
    ensures r == Parse(block)
  {
    var lines := Lines(block);
    var name, data := "message", "";
    for i := 0 to |lines|
      invariant Event(name, data) == TakeLines(lines[..i])
    {
      assert lines[..i + 1][..i] == lines[..i];
      var line := TrimCr(lines[i]);
      if "data:" <= line {
        if data != "" {
          data := data + "\n";
        }
        data := data + TrimSpaces(line[5..]);
      } else if "event:" <= line {
        name := TrimSpaces(line[6..]);
      }
    }
    assert lines[..|lines|] == lines;
    r := if data == "" then None else Some(Event(name, data));
  }

  // ---- draining the buffer ----

  /** Where the first blank line starts. */
  function FindGap(s: string): (r: Option<nat>)
    ensures r.Some? ==> r.value + 2 <= |s| && s[r.value] == '\n' == s[r.value + 1]
  {
    if |s| < 2 then None
    else if s[0] == '\n' && s[1] == '\n' then Some(0)
    else
      match FindGap(s[1..])
      case None => None
      case Some(i) => Some(i + 1)
  }

  datatype Drained = Drained(blocks: seq<string>, rest: string)

  function Drain(s: string): Drained
    decreases |s|
  {
    match FindGap(s)
    case None => Drained([], s)
    case Some(i) =>
      var later := Drain(s[i + 2..]);
      Drained([s[..i + 2]] + later.blocks, later.rest)
  }

  lemma {:induction false} GapStays(x: string, y: string)
    requires FindGap(x).Some?
    ensures FindGap(x + y) == FindGap(x)
  {
    assert (x + y)[0] == x[0] && (x + y)[1] == x[1];
    if !(x[0] == '\n' && x[1] == '\n') {
      GapStays(x[1..], y);
      assert (x + y)[1..] == x[1..] + y;
    }
  }

  lemma DrainStep(s: string, i: nat)
    requires FindGap(s) == Some(i)
    ensures Drain(s) == Drained([s[..i + 2]] + Drain(s[i + 2..]).blocks, Drain(s[i + 2..]).rest)
  {
  }

  /** Draining what has arrived and draining the rest later comes to the same. */
  lemma {:induction false} DrainIsIncremental(x: string, y: string)
    ensures Drain(x + y) == Drained(Drain(x).blocks + Drain(Drain(x).rest + y).blocks, Drain(Drain(x).rest + y).rest)
    decreases |x|
  {
    if FindGap(x).Some? {
      var i := FindGap(x).value;
      var block, later := x[..i + 2], x[i + 2..];
      GapStays(x, y);
      assert (x + y)[..i + 2] == block && (x + y)[i + 2..] == later + y;
      DrainIsIncremental(later, y);
      DrainStep(x, i);
      DrainStep(x + y, i);
      Reassociate([block], Drain(later).blocks, Drain(Drain(later).rest + y).blocks);
    } else {
      assert Drain(x) == Drained([], x);
    }
  }

  /** A block yields an event or nothing. */
  function Found(block: string): seq<Event> {
    match Parse(block)
    case None => []
    case Some(e) => [e]
  }

  function EventsIn(blocks: seq<string>): seq<Event> {
    if blocks == [] then [] else Found(blocks[0]) + EventsIn(blocks[1..])
  }

  // ---- what the CLI keeps ----

  datatype CliTick = CliTick(failStatusTotal: nat, thisTick: Tally)

  datatype Accum = Accum(
    failStatusTotal: nat, failLatencyTotal: nat, failSizeTotal: nat, failContentTypeTotal: nat,
    last: Option<CliTick>, received: nat)

  const NOTHING_SEEN := Accum(0, 0, 0, 0, None, 0)

  type Decoder = string -> Option<CliTick>

  function CountTick(a: Accum, t: CliTick): Accum {
    Accum(t.failStatusTotal,
          a.failLatencyTotal + t.thisTick.failLatency,
          a.failSizeTotal + t.thisTick.failSize,
          a.failContentTypeTotal + t.thisTick.failContentType,
          Some(t), a.received + 1)
  }

  /** Events that are not ticks, and ticks that do not decode, are skipped. */
  function Handle(decode: Decoder, a: Accum, e: Event): Accum {
    if e.name != "tick" || decode(e.data).None? then a else CountTick(a, decode(e.data).value)
  }

  function HandleAll(decode: Decoder, a: Accum, events: seq<Event>): Accum
    decreases events
  {
    if events == [] then a else HandleAll(decode, Handle(decode, a, events[0]), events[1..])
  }

  function AfterBlock(decode: Decoder, a: Accum, block: string): Accum {
    match Parse(block)
    case None => a
    case Some(e) => Handle(decode, a, e)
  }

  function AfterBlocks(decode: Decoder, a: Accum, blocks: seq<string>): Accum
    decreases blocks
  {
    if blocks == [] then a else AfterBlocks(decode, AfterBlock(decode, a, blocks[0]), blocks[1..])
  }

  lemma {:induction false} AfterBlocksAppend(decode: Decoder, a: Accum, x: seq<string>, y: seq<string>)
    ensures AfterBlocks(decode, a, x + y) == AfterBlocks(decode, AfterBlocks(decode, a, x), y)
    decreases x
  {
    if x == [] {
      assert x + y == y;
    } else {
      assert (x + y)[0] == x[0] && (x + y)[1..] == x[1..] + y;
      AfterBlocksAppend(decode, AfterBlock(decode, a, x[0]), x[1..], y);
    }
  }

  lemma HandleFirst(decode: Decoder, a: Accum, e: Event, es: seq<Event>)
    ensures HandleAll(decode, a, [e] + es) == HandleAll(decode, Handle(decode, a, e), es)
  {
    assert ([e] + es)[1..] == es;
  }

  /** Handling blocks is handling the events in them. */
  lemma {:induction false} BlocksAreEvents(decode: Decoder, a: Accum, blocks: seq<string>)
    ensures AfterBlocks(decode, a, blocks) == HandleAll(decode, a, EventsIn(blocks))
    decreases blocks
  {
    if blocks != [] {
      BlocksAreEvents(decode, AfterBlock(decode, a, blocks[0]), blocks[1..]);
      match Parse(blocks[0])
      case None =>
        assert [] + EventsIn(blocks[1..]) == EventsIn(blocks[1..]);
      case Some(e) =>
        HandleFirst(decode, a, e, EventsIn(blocks[1..]));
    }
  }

  /** What remains in the buffer once it is drained, and what the CLI then knows. */
  function Consumed(decode: Decoder, buf: string, a: Accum): (string, Accum) {
    (Drain(buf).rest, AfterBlocks(decode, a, Drain(buf).blocks))
  }

  lemma AfterBlocksFirst(decode: Decoder, a: Accum, block: string, later: seq<string>)
    ensures AfterBlocks(decode, a, [block] + later) == AfterBlocks(decode, AfterBlock(decode, a, block), later)
  {
    assert ([block] + later)[1..] == later;
  }

  lemma ConsumeBlock(decode: Decoder, buf: string, a: Accum, i: nat)
    requires FindGap(buf) == Some(i)
    ensures Consumed(decode, buf, a) == Consumed(decode, buf[i + 2..], AfterBlock(decode, a, buf[..i + 2]))
  {
    DrainStep(buf, i);
    AfterBlocksFirst(decode, a, buf[..i + 2], Drain(buf[i + 2..]).blocks);
  }

  lemma ChunkHandled(decode: Decoder, before: string, chunk: string)
    ensures var first, all := Drain(before), Drain(before + chunk);
            && all.rest == Drain(first.rest + chunk).rest
            && AfterBlocks(decode, NOTHING_SEEN, all.blocks) ==
                 AfterBlocks(decode, AfterBlocks(decode, NOTHING_SEEN, first.blocks), Drain(first.rest + chunk).blocks)
  {
    DrainIsIncremental(before, chunk);
    AfterBlocksAppend(decode, NOTHING_SEEN, Drain(before).blocks, Drain(Drain(before).rest + chunk).blocks);
  }

  class Consumer {
    const textOf: ByteDecoder
    const decode: Decoder
    var buf: string
    var accum: Accum

    constructor (textOf: ByteDecoder, decode: Decoder)
      ensures this.textOf == textOf && this.decode == decode && buf == "" && accum == NOTHING_SEEN
    {
      this.textOf, this.decode := textOf, decode;
      buf, accum := "", NOTHING_SEEN;
    }

    method TakeBlock(block: string)
      modifies this`accum
      ensures accum == AfterBlock(decode, old(accum), block)
    {
      var event := ParseSse(block);
      if event.Some? {
        accum := Handle(decode, accum, event.value);
      }
    }

    /** Takes in one chunk and drains every block it completes. */
    method Feed(chunk: string)
      modifies this
      ensures var d := Drain(old(buf) + chunk);
              buf == d.rest && accum == AfterBlocks(decode, old(accum), d.blocks)
    {
      buf := buf + chunk;
      ghost var outcome := Consumed(decode, buf, accum);
      var gap := FindGap(buf);
      while gap.Some?
        invariant gap == FindGap(buf) && Consumed(decode, buf, accum) == outcome
        decreases |buf|
      {
        ConsumeBlock(decode, buf, accum, gap.value);
        var block := buf[..gap.value + 2];
        buf := buf[gap.value + 2..];
        TakeBlock(block);
        gap := FindGap(buf);
      }
    }

    /** The whole subscription: chunks of bytes, each decoded by itself, until the stream ends. */
    method StreamTicks(chunks: seq<Bytes>)
      requires buf == "" && accum == NOTHING_SEEN
      modifies this
      ensures var d := Drain(Decoded(textOf, chunks));
              buf == d.rest && accum == HandleAll(decode, NOTHING_SEEN, EventsIn(d.blocks))
    {
      for i := 0 to |chunks|
        invariant buf == Drain(Decoded(textOf, chunks[..i])).rest
        invariant accum == AfterBlocks(decode, NOTHING_SEEN, Drain(Decoded(textOf, chunks[..i])).blocks)
      {
        PrefixMore(chunks, i);
        var text := textOf(chunks[i]);
        ChunkHandled(decode, Decoded(textOf, chunks[..i]), text);
        Feed(text);
      }
      WholePrefix(chunks);
      BlocksAreEvents(decode, NOTHING_SEEN, Drain(Decoded(textOf, chunks)).blocks);
    }
  }

  // ---- what is written is what is read ----

  predicate OneLine(s: string) { '\n' !in s }

  lemma {:induction false} LineFirst(a: string, rest: string)
    requires OneLine(a)
    ensures Lines(a + "\n" + rest) == [a] + Lines(rest)
  {
    var s := a + "\n" + rest;
    if a == "" {
      assert s[1..] == rest;
    } else {
      assert s[1..] == a[1..] + "\n" + rest;
      LineFirst(a[1..], rest);
      assert [s[0]] + a[1..] == a;
    }
  }

  /** A line and a blank line after it. */
  lemma {:induction false} GapAfterLine(a: string, rest: string)
    requires OneLine(a)
    ensures FindGap(a + "\n\n" + rest) == Some(|a|)
  {
    var s := a + "\n\n" + rest;
    if a != "" {
      assert s[0] == a[0] && s[1..] == a[1..] + "\n\n" + rest;
      GapAfterLine(a[1..], rest);
    }
  }

  /** A line followed by another that is not blank. */
  lemma {:induction false} GapBeyondLine(a: string, rest: string)
    requires OneLine(a) && rest != "" && rest[0] != '\n' && FindGap(rest).Some?
    ensures FindGap(a + "\n" + rest) == Some(|a| + 1 + FindGap(rest).value)
  {
    var s := a + "\n" + rest;
    if a == "" {
      assert s[1..] == rest;
    } else {
      assert s[0] == a[0] && s[1..] == a[1..] + "\n" + rest;
      GapBeyondLine(a[1..], rest);
    }
  }

  lemma {:induction false} DecimalIsOneLine(n: nat)
    ensures OneLine(Decimal(n))
  {
    var digits := "0123456789";
    assert forall i :: 0 <= i < |digits| ==> digits[i] != '\n';
    if n >= 10 {
      DecimalIsOneLine(n / 10);
    }
  }

  predicate Printable(item: Item) {
    match item
    case TickItem(_, payload) => OneLine(payload)
    case Comment(text) => OneLine(text)
  }

  lemma TickText(elapsedS: nat, payload: string, rest: string)
    ensures Print(TickItem(elapsedS, payload)) + rest ==
            "event: tick" + "\n" + ("id: " + Decimal(elapsedS) + "\n" + ("data: " + payload + "\n\n" + rest))
  {
  }

  /** Each printed item is one block. */
  lemma ItemIsBlock(item: Item, rest: string)
    requires Printable(item)
    ensures FindGap(Print(item) + rest) == Some(|Print(item)| - 2)
  {
    match item
    case TickItem(elapsedS, payload) =>
      var id, data := "id: " + Decimal(elapsedS), "data: " + payload;
      DecimalIsOneLine(elapsedS);
      TickText(elapsedS, payload, rest);
      GapAfterLine(data, rest);
      GapBeyondLine(id, data + "\n\n" + rest);
      GapBeyondLine("event: tick", id + "\n" + (data + "\n\n" + rest));
    case Comment(text) =>
      GapAfterLine(": " + text, rest);
  }

  /** A text that the drain loop takes out whole, whatever follows it. */
  ghost predicate IsBlock(text: string) {
    |text| >= 2 && forall rest: string :: FindGap(text + rest) == Some(|text| - 2)
  }

  lemma BlockFirst(first: string, later: string)
    requires |first| >= 2 && FindGap(first + later) == Some(|first| - 2)
    ensures Drain(first + later) == Drained([first] + Drain(later).blocks, Drain(later).rest)
  {
    var s := first + later;
    assert s[..|first|] == first && s[|first|..] == later;
    DrainStep(s, |first| - 2);
  }

  lemma {:induction false} BlocksDrain(blocks: seq<string>)
    requires forall i :: 0 <= i < |blocks| ==> IsBlock(blocks[i])
    ensures Drain(Text(blocks)) == Drained(blocks, "")
  {
    if blocks != [] {
      BlockFirst(blocks[0], Text(blocks[1..]));
      BlocksDrain(blocks[1..]);
    }
  }

  lemma ItemsAreBlocks(items: seq<Item>)
    requires forall i :: 0 <= i < |items| ==> Printable(items[i])
    ensures Drain(PrintAll(items)) == Drained(Blocks(items), "")
  {
    forall i | 0 <= i < |items|
      ensures IsBlock(Blocks(items)[i])
    {
      forall rest: string
        ensures FindGap(Print(items[i]) + rest) == Some(|Print(items[i])| - 2)
      {
        ItemIsBlock(items[i], rest);
      }
      ItemIsBlock(items[i], "");
    }
    BlocksDrain(Blocks(items));
  }

  lemma TickLines(elapsedS: nat, payload: string)
    requires OneLine(payload)
    ensures Lines(Print(TickItem(elapsedS, payload))) ==
            ["event: tick", "id: " + Decimal(elapsedS), "data: " + payload, "", ""]
  {
    var id, data := "id: " + Decimal(elapsedS), "data: " + payload;
    DecimalIsOneLine(elapsedS);
    LineFirst("event: tick", id + "\n" + (data + "\n\n"));
    LineFirst(id, data + "\n\n");
    LineFirst(data, "\n");
    assert data + "\n" + "\n" == data + "\n\n";
    LineFirst("", "");
    assert "" + "\n" + "" == "\n";
  }

  // ---- which payloads survive ----

  predicate Clean(payload: string) {
    payload != "" && payload[0] != ' ' && payload[|payload| - 1] != '\r'
  }

  lemma {:induction false} TrimCrShortens(s: string)
    ensures TrimCr(s) <= s
    ensures s != "" && s[|s| - 1] == '\r' ==> |TrimCr(s)| < |s|
  {
    if s != "" && s[|s| - 1] == '\r' {
      TrimCrShortens(s[..|s| - 1]);
    }
  }

  lemma {:induction false} TrimSpacesShortens(s: string)
    ensures |TrimSpaces(s)| <= |s|
    ensures s != "" && s[0] == ' ' ==> |TrimSpaces(s)| < |s|
  {
    if s != "" && s[0] == ' ' {
      TrimSpacesShortens(s[1..]);
    }
  }

  /** The value the parser makes of the data line of a tick. */
  function Value(payload: string): string {
    var line := TrimCr("data: " + payload);
    if "data:" <= line then TrimSpaces(line[5..]) else ""
  }

  lemma ValueIsPayload(payload: string)
    requires payload != ""
    ensures Value(payload) == payload <==> Clean(payload)
  {
    var raw := "data: " + payload;
    var line := TrimCr(raw);
    TrimCrShortens(raw);
    assert raw[|raw| - 1] == payload[|payload| - 1];
    if payload[|payload| - 1] == '\r' {
      if "data:" <= line {
        TrimSpacesShortens(line[5..]);
        assert line[5..] == "" || line[5] == raw[5] == ' ';
      }
    } else {
      assert line == raw && raw[5..] == " " + payload;
      assert (" " + payload)[1..] == payload;
      TrimSpacesShortens(payload);
    }
  }

  lemma NothingOnLine(e: Event, line: string)
    requires line == "" || line[0] == 'i' || line[0] == ':'
    ensures TakeLine(e, line) == e
  {
    TrimCrShortens(line);
  }

  lemma NameLine(e: Event)
    ensures TakeLine(e, "event: tick") == e.(name := "tick")
  {
    assert TrimCr("event: tick") == "event: tick";
    assert "event: tick"[0] == 'e';
    assert "event: tick"[6..] == " tick";
    assert TrimSpaces(" tick") == TrimSpaces("tick") == "tick";
  }

  /** A character that is not a carriage return stops the trimming. */
  lemma {:induction false} TrimCrKeeps(s: string, i: nat)
    requires i < |s| && s[i] != '\r'
    ensures i < |TrimCr(s)|
  {
    if s[|s| - 1] == '\r' {
      TrimCrKeeps(s[..|s| - 1], i);
    }
  }

  lemma DataLine(e: Event, payload: string)
    requires e.data == ""
    ensures TakeLine(e, "data: " + payload) == e.(data := Value(payload))
  {
    var raw := "data: " + payload;
    var line := TrimCr(raw);
    TrimCrShortens(raw);
    TrimCrKeeps(raw, 4);
    assert "data:" <= line;
  }

  lemma TakeMore(lines: seq<string>, line: string)
    ensures TakeLines(lines + [line]) == TakeLine(TakeLines(lines), line)
  {
    assert (lines + [line])[..|lines|] == lines;
  }

  lemma TakeFive(a: string, b: string, c: string)
    ensures TakeLines([a, b, c, "", ""]) ==
            TakeLine(TakeLine(TakeLine(TakeLine(TakeLine(Event("message", ""), a), b), c), ""), "")
  {
    TakeMore([], a);
    TakeMore([a], b);
    TakeMore([a, b], c);
    TakeMore([a, b, c], "");
    TakeMore([a, b, c, ""], "");
    FiveInARow(a, b, c, "", "");
  }

  /** A tick block yields one tick event with the trimmed payload, if anything is left of it. */
  lemma TickIsEvent(elapsedS: nat, payload: string)
    requires OneLine(payload)
    ensures Found(Print(TickItem(elapsedS, payload))) ==
            if Value(payload) == "" then [] else [Event("tick", Value(payload))]
  {
    var start := Event("message", "");
    TickLines(elapsedS, payload);
    TakeFive("event: tick", "id: " + Decimal(elapsedS), "data: " + payload);
    NameLine(start);
    NothingOnLine(Event("tick", ""), "id: " + Decimal(elapsedS));
    DataLine(Event("tick", ""), payload);
    NothingOnLine(Event("tick", Value(payload)), "");
  }

  lemma CommentLines(text: string)
    requires OneLine(text)
    ensures Lines(Print(Comment(text))) == [": " + text, "", ""]
  {
    LineFirst(": " + text, "\n");
    assert ": " + text + "\n" + "\n" == Print(Comment(text));
    LineFirst("", "");
    assert "" + "\n" + "" == "\n";
    assert [": " + text] + ["", ""] == [": " + text, "", ""];
  }

  lemma CommentIsNothing(text: string)
    requires OneLine(text)
    ensures Found(Print(Comment(text))) == []
  {
    var start := Event("message", "");
    CommentLines(text);
    TakeMore([], ": " + text);
    TakeMore([": " + text], "");
    TakeMore([": " + text, ""], "");
    assert [] + [": " + text] == [": " + text];
    assert [": " + text] + [""] == [": " + text, ""] && [": " + text, ""] + [""] == [": " + text, "", ""];
    NothingOnLine(start, ": " + text);
    NothingOnLine(start, "");
  }

  /** Exactly which one-line payloads come back as they were sent: those that are not empty, do not
      start with a space and do not end with a carriage return. */
  lemma PayloadSurvivesIffClean(elapsedS: nat, payload: string)
    requires OneLine(payload)
    ensures EventsIn(Drain(Print(TickItem(elapsedS, payload))).blocks) == [Event("tick", payload)] <==> Clean(payload)
  {
    var item := TickItem(elapsedS, payload);
    ItemsAreBlocks([item]);
    assert Blocks([item]) == [Print(item)];
    assert Text([Print(item)]) == Print(item);
    TickIsEvent(elapsedS, payload);
    assert Found(Print(item)) + [] == Found(Print(item));
    if payload != "" {
      ValueIsPayload(payload);
    }
  }

  // ---- whole streams ----

  function TickEvents(items: seq<Item>): seq<Event> {
    if items == [] then []
    else (if items[0].TickItem? then [Event("tick", items[0].payload)] else []) + TickEvents(items[1..])
  }

  /** The server's ticks and comments, one line each. */
  ghost predicate OneLiners(items: seq<Item>) { forall i :: 0 <= i < |items| ==> Printable(items[i]) }

  predicate CleanItem(item: Item) { item.TickItem? ==> Clean(item.payload) }

  ghost predicate AllClean(items: seq<Item>) { forall i :: 0 <= i < |items| ==> CleanItem(items[i]) }

  lemma AllCleanFirst(items: seq<Item>)
    requires items != []
    ensures AllClean(items) <==> CleanItem(items[0]) && AllClean(items[1..])
    ensures OneLiners(items) <==> Printable(items[0]) && OneLiners(items[1..])
  {
    assert forall i :: 0 < i < |items| ==> items[i] == items[1..][i - 1];
  }

  /** What is found of one item, and whether it is what was sent. */
  lemma FoundOfItem(item: Item)
    requires Printable(item)
    ensures item.Comment? ==> Found(Print(item)) == []
    ensures item.TickItem? ==> |Found(Print(item))| <= 1
    ensures item.TickItem? ==> (Found(Print(item)) == [Event("tick", item.payload)] <==> Clean(item.payload))
  {
    match item
    case TickItem(elapsedS, payload) =>
      TickIsEvent(elapsedS, payload);
      if payload != "" {
        ValueIsPayload(payload);
      }
    case Comment(text) =>
      CommentIsNothing(text);
  }

  /** What is found of the first item, and of the others. */
  lemma FoundFirst(items: seq<Item>) returns (found: seq<Event>)
    requires items != [] && Printable(items[0])
    ensures EventsIn(Blocks(items)) == found + EventsIn(Blocks(items[1..]))
    ensures items[0].Comment? ==> found == []
    ensures items[0].TickItem? ==> |found| <= 1 && (found == [Event("tick", items[0].payload)] <==> CleanItem(items[0]))
  {
    found := Found(Print(items[0]));
    assert Blocks(items)[1..] == Blocks(items[1..]);
    FoundOfItem(items[0]);
  }

  /** One more event in front, or fewer. */
  lemma SameEvents(found: seq<Event>, sent: Event, later: seq<Event>, ticks: seq<Event>)
    requires |found| <= 1 && |later| <= |ticks|
    ensures found + later == [sent] + ticks <==> found == [sent] && later == ticks
  {
    if found != [] {
      assert (found + later)[0] == found[0] && (found + later)[1..] == later;
      assert ([sent] + ticks)[0] == sent && ([sent] + ticks)[1..] == ticks;
    }
  }

  lemma {:induction false} TicksIffClean(items: seq<Item>)
    requires OneLiners(items)
    ensures |EventsIn(Blocks(items))| <= |TickEvents(items)|
    ensures EventsIn(Blocks(items)) == TickEvents(items) <==> AllClean(items)
  {
    if items != [] {
      AllCleanFirst(items);
      TicksIffClean(items[1..]);
      var found := FoundFirst(items);
      var later, ticks := EventsIn(Blocks(items[1..])), TickEvents(items[1..]);
      if items[0].TickItem? {
        SameEvents(found, Event("tick", items[0].payload), later, ticks);
      } else {
        NothingMore(later);
        NothingMore(ticks);
      }
    }
  }

  /** Text as the drain loop sees it: its events are the ticks, in order, if and only if every payload
      is clean, and nothing is left over. */
  lemma TextRoundTrip(items: seq<Item>)
    requires OneLiners(items)
    ensures EventsIn(Drain(PrintAll(items)).blocks) == TickEvents(items) <==> AllClean(items)
    ensures Drain(PrintAll(items)).rest == ""
  {
    ItemsAreBlocks(items);
    TicksIffClean(items);
  }

  /** Whatever ticks and comments the server writes, and however the bytes are cut into chunks that
      hold whole characters, the drain loop finds exactly the tick payloads, in order, if and only if
      they are clean, and is left with an empty buffer. */
  lemma StreamRoundTrip(f: ByteDecoder, items: seq<Item>, chunks: seq<Bytes>)
    requires Lossy(f) && OneLiners(items) && Concat(chunks) == Encode(PrintAll(items)) && AllWhole(chunks)
    ensures EventsIn(Drain(Decoded(f, chunks)).blocks) == TickEvents(items) <==> AllClean(items)
    ensures Drain(Decoded(f, chunks)).rest == ""
  {
    ChunksDecodeIffWhole(f, PrintAll(items), chunks);
    TextRoundTrip(items);
  }

  // ---- ASCII streams ----

  predicate AsciiItem(item: Item) { Ascii(if item.TickItem? then item.payload else item.text) }

  lemma AsciiAppend(a: string, b: string)
    requires Ascii(a) && Ascii(b)
    ensures Ascii(a + b)
  {
  }

  lemma {:induction false} DecimalIsAscii(n: nat)
    ensures Ascii(Decimal(n))
  {
    var digits := "0123456789";
    assert forall i :: 0 <= i < |digits| ==> digits[i] as int < 0x80;
    if n >= 10 {
      DecimalIsAscii(n / 10);
    }
  }

  lemma PrintIsAscii(item: Item)
    requires AsciiItem(item)
    ensures Ascii(Print(item))
  {
    match item
    case TickItem(elapsedS, payload) =>
      DecimalIsAscii(elapsedS);
      AsciiAppend("id: ", Decimal(elapsedS));
      AsciiAppend("id: " + Decimal(elapsedS), "\n");
      AsciiAppend("data: ", payload);
      AsciiAppend("data: " + payload, "\n\n");
      AsciiAppend("id: " + Decimal(elapsedS) + "\n", "data: " + payload + "\n\n");
      AsciiAppend("event: tick", "\n");
      AsciiAppend("event: tick" + "\n", "id: " + Decimal(elapsedS) + "\n" + ("data: " + payload + "\n\n"));
    case Comment(text) =>
      AsciiAppend(": ", text);
      AsciiAppend(": " + text, "\n\n");
  }

  lemma {:induction false} TextIsAscii(blocks: seq<string>)
    requires forall i :: 0 <= i < |blocks| ==> Ascii(blocks[i])
    ensures Ascii(Text(blocks))
  {
    if blocks != [] {
      TextIsAscii(blocks[1..]);
      AsciiAppend(blocks[0], Text(blocks[1..]));
    }
  }

  /** With ASCII payloads any chunking of the bytes will do. */
  lemma AsciiStreamRoundTrip(f: ByteDecoder, items: seq<Item>, chunks: seq<Bytes>)
    requires Lossy(f) && OneLiners(items) && Concat(chunks) == Encode(PrintAll(items))
    requires forall i :: 0 <= i < |items| ==> AsciiItem(items[i])
    ensures EventsIn(Drain(Decoded(f, chunks)).blocks) == TickEvents(items) <==> AllClean(items)
    ensures Drain(Decoded(f, chunks)).rest == ""
  {
    forall i | 0 <= i < |items|
      ensures Ascii(Blocks(items)[i])
    {
      PrintIsAscii(items[i]);
    }
    TextIsAscii(Blocks(items));
    AsciiChunksAreWhole(PrintAll(items), chunks);
    StreamRoundTrip(f, items, chunks);
  }

  // ---- streams that break off ----

  lemma {:induction false} EventsInAppend(a: seq<string>, b: seq<string>)
    ensures EventsIn(a + b) == EventsIn(a) + EventsIn(b)
  {
    if a == [] {
      NothingMore(b);
      NothingMore(EventsIn(b));
    } else {
      assert (a + b)[0] == a[0] && (a + b)[1..] == a[1..] + b;
      EventsInAppend(a[1..], b);
      Reassociate(Found(a[0]), EventsIn(a[1..]), EventsIn(b));
    }
  }

  lemma BrokenTextIsPrefix(items: seq<Item>, received: string)
    requires OneLiners(items) && AllClean(items) && received <= PrintAll(items)
    ensures EventsIn(Drain(received).blocks) <= TickEvents(items)
  {
    var missing := PrintAll(items)[|received|..];
    assert received + missing == PrintAll(items);
    DrainIsIncremental(received, missing);
    EventsInAppend(Drain(received).blocks, Drain(Drain(received).rest + missing).blocks);
    TextRoundTrip(items);
  }

  lemma {:induction false} NoGapLeft(s: string)
    ensures FindGap(Drain(s).rest).None?
    decreases |s|
  {
    if FindGap(s).Some? {
      NoGapLeft(s[FindGap(s).value + 2..]);
    }
  }

  lemma {:induction false} NoGapMore(s: string, c: char)
    requires FindGap(s).None? && c != '\n'
    ensures FindGap(s + [c]).None?
  {
    if |s| >= 2 {
      assert (s + [c])[0] == s[0] && (s + [c])[1] == s[1] && (s + [c])[1..] == s[1..] + [c];
      NoGapMore(s[1..], c);
    }
  }

  /** A mark at the end completes no block. */
  lemma MarkCompletesNothing(s: string, c: char)
    requires c != '\n'
    ensures Drain(s + [c]).blocks == Drain(s).blocks
  {
    DrainIsIncremental(s, [c]);
    NoGapLeft(s);
    NoGapMore(Drain(s).rest, c);
    NothingMore(Drain(s).blocks);
  }

  /** A connection that breaks anywhere, even inside a character, delivers the first of the ticks and
      no others. */
  lemma BrokenStreamIsPrefix(f: ByteDecoder, items: seq<Item>, init: seq<Bytes>, last: Bytes)
    requires Lossy(f) && OneLiners(items) && AllClean(items)
    requires AllWhole(init) && Concat(init) + last <= Encode(PrintAll(items))
    ensures EventsIn(Drain(Decoded(f, init + [last])).blocks) <= TickEvents(items)
  {
    var n, cut := BrokenChunksDecode(f, PrintAll(items), init, last);
    Grown(init, last);
    BrokenTextIsPrefix(items, PrintAll(items)[..n]);
    if cut {
      MarkCompletesNothing(PrintAll(items)[..n], REPLACEMENT);
    } else {
      NothingMore(PrintAll(items)[..n]);
    }
  }

  // ---- the CLI's totals ----

  lemma {:induction false} HandleLast(decode: Decoder, a: Accum, es: seq<Event>, e: Event)
    ensures HandleAll(decode, a, es + [e]) == Handle(decode, HandleAll(decode, a, es), e)
    decreases es
  {
    if es == [] {
      HandleFirst(decode, a, e, []);
      assert es + [e] == [e] + [];
    } else {
      HandleLast(decode, Handle(decode, a, es[0]), es[1..], e);
      assert es + [e] == [es[0]] + (es[1..] + [e]);
      HandleFirst(decode, a, es[0], es[1..] + [e]);
    }
  }

  /** The tick an event carries: none if it is named otherwise or does not decode. */
  function TickOf(decode: Decoder, e: Event): Option<CliTick> {
    if e.name == "tick" then decode(e.data) else None
  }

  function TicksOf(decode: Decoder, events: seq<Event>): seq<CliTick> {
    if events == [] then []
    else
      var e := TickOf(decode, events[|events| - 1]);
      TicksOf(decode, events[..|events| - 1]) + if e.Some? then [e.value] else []
  }

  function CountsOf(ticks: seq<CliTick>): seq<Tally> {
    seq(|ticks|, i requires 0 <= i < |ticks| => ticks[i].thisTick)
  }

  /** What is known of these ticks: how many there were, the last of them and its total of status
      failures, and three sums over all of them. */
  ghost predicate Knows(a: Accum, ticks: seq<CliTick>) {
    && a.received == |ticks|
    && (ticks == [] ==> a.last == None && a.failStatusTotal == 0)
    && (ticks != [] ==> a.last == Some(ticks[|ticks| - 1]) && a.failStatusTotal == ticks[|ticks| - 1].failStatusTotal)
    && a.failLatencyTotal == Sum(CountsOf(ticks), Of(FailLatency))
    && a.failSizeTotal == Sum(CountsOf(ticks), Of(FailSize))
    && a.failContentTypeTotal == Sum(CountsOf(ticks), Of(FailContentType))
  }

  lemma SumsMore(ticks: seq<CliTick>, t: CliTick, f: Field)
    ensures Sum(CountsOf(ticks + [t]), f) == Sum(CountsOf(ticks), f) + t.thisTick.Get(f)
  {
    assert CountsOf(ticks + [t]) == CountsOf(ticks) + [t.thisTick];
    Grown(CountsOf(ticks), t.thisTick);
  }

  lemma KnowsMore(a: Accum, ticks: seq<CliTick>, t: CliTick)
    requires Knows(a, ticks)
    ensures Knows(CountTick(a, t), ticks + [t])
  {
    SumsMore(ticks, t, Of(FailLatency));
    SumsMore(ticks, t, Of(FailSize));
    SumsMore(ticks, t, Of(FailContentType));
  }

  /** Whatever events arrive, the CLI ends up knowing exactly the ticks among them that decode. */
  lemma {:induction false} EventsAreKnown(decode: Decoder, events: seq<Event>)
    ensures Knows(HandleAll(decode, NOTHING_SEEN, events), TicksOf(decode, events))
  {
    if events != [] {
      var k := |events| - 1;
      var t := TickOf(decode, events[k]);
      EventsAreKnown(decode, events[..k]);
      HandleLast(decode, NOTHING_SEEN, events[..k], events[k]);
      assert events == events[..k] + [events[k]];
      if t.Some? {
        KnowsMore(HandleAll(decode, NOTHING_SEEN, events[..k]), TicksOf(decode, events[..k]), t.value);
      } else {
        NothingMore(TicksOf(decode, events[..k]));
      }
    }
  }

  /** The events carry the fleet's ticks, as the CLI reads them. */
  ghost predicate Carries(decode: Decoder, events: seq<Event>, ticks: seq<AggTick>) {
    && |events| == |ticks|
    && forall i :: 0 <= i < |ticks| ==>
         && events[i].name == "tick"
         && decode(events[i].data) == Some(CliTick(ticks[i].failStatusTotal, ticks[i].thisTick))
  }

  ghost predicate AddsUp(a: Accum, total: Tally, received: nat) {
    && a.received == received
    && a.failLatencyTotal == total.Get(Of(FailLatency))
    && a.failSizeTotal == total.Get(Of(FailSize))
    && a.failContentTypeTotal == total.Get(Of(FailContentType))
  }

  lemma OneMoreCounted(a: Accum, total: Tally, received: nat, t: CliTick)
    requires AddsUp(a, total, received)
    ensures AddsUp(CountTick(a, t), total.Plus(t.thisTick), received + 1)
  {
  }

  lemma {:induction false} TicksAddUp(decode: Decoder, events: seq<Event>, ticks: seq<AggTick>)
    requires Carries(decode, events, ticks)
    ensures var a := HandleAll(decode, NOTHING_SEEN, events);
            && AddsUp(a, EmittedCounts(ticks), |ticks|)
            && (ticks == [] ==> a.last == None && a.failStatusTotal == 0)
            && (ticks != [] ==>
                  var t := ticks[|ticks| - 1];
                  a.last == Some(CliTick(t.failStatusTotal, t.thisTick)) && a.failStatusTotal == t.failStatusTotal)
  {
    if ticks != [] {
      var k := |ticks| - 1;
      TicksAddUp(decode, events[..k], ticks[..k]);
      HandleLast(decode, NOTHING_SEEN, events[..k], events[k]);
      assert events == events[..k] + [events[k]];
      OneMoreCounted(HandleAll(decode, NOTHING_SEEN, events[..k]), EmittedCounts(ticks[..k]), k,
                     CliTick(ticks[k].failStatusTotal, ticks[k].thisTick));
    }
  }

  /** Every total the CLI ends up with, three summed tick by tick and one taken from the last tick,
      is the sum of what the aggregator has emitted. */
  lemma CliTotalsAreFleetTotals(decode: Decoder, events: seq<Event>, s: State)
    requires Totalled(s) && Carries(decode, events, s.emitted)
    ensures var a, total := HandleAll(decode, NOTHING_SEEN, events), EmittedCounts(s.emitted);
            && a.received == |s.emitted|
            && (s.emitted != [] ==>
                  a.last.Some? && a.last.value.thisTick == s.emitted[|s.emitted| - 1].thisTick)
            && a.failStatusTotal == total.failStatus && a.failLatencyTotal == total.failLatency
            && a.failSizeTotal == total.failSize && a.failContentTypeTotal == total.failContentType
  {
    TicksAddUp(decode, events, s.emitted);
  }
}
