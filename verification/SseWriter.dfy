/** The server side of an event stream, and that a client reads from it exactly the frames written. */
module SseWriter {
  import opened Decimal
  import opened EventStream
  import opened Options
  import opened Strings

  datatype Frame = Frame(id: Option<string>, event: Option<string>, data: string, retry: Option<real>)

  /** What reached the response: a frame, or a comment. */
  datatype Item = Sent(frame: Frame) | Noted(text: string)

  /** Every CRLF and every lone CR becomes LF. */
  function Normalize(s: string): string {
    if s == "" then ""
    else if s[0] == '\r' then "\n" + Normalize(if |s| > 1 && s[1] == '\n' then s[2..] else s[1..])
    else [s[0]] + Normalize(s[1..])
  }

  function Flat(s: string): string {
    if s == "" then "" else (if s[0] == '\n' then "" else [s[0]]) + Flat(s[1..])
  }

  /** The source's `field`. */
  function Field(value: string): string { Flat(Normalize(value)) }

  function Split(s: string): (lines: seq<string>)
    ensures lines != []
  {
    if s == "" then [""]
    else
      var rest := Split(s[1..]);
      if s[0] == '\n' then [""] + rest else [[s[0]] + rest[0]] + rest[1..]
  }

  function Prefixed(prefix: string, lines: seq<string>): seq<string> {
    seq(|lines|, i requires 0 <= i < |lines| => prefix + lines[i])
  }

  function Optional(prefix: string, value: Option<string>): seq<string> {
    match value case None => [] case Some(v) => [prefix + v]
  }

  function MapField(v: Option<string>): Option<string> {
    match v case None => None case Some(x) => Some(Field(x))
  }

  /** `Math.max(0, Math.trunc(retry))`. */
  function Millis(retry: real): nat { if retry < 0.0 then 0 else retry.Floor }

  function MapRetry(v: Option<real>): Option<string> {
    match v case None => None case Some(x) => Some(Dec(Millis(x)))
  }

  function HeadLines(f: Frame): seq<string> {
    Optional("id: ", MapField(f.id)) + Optional("event: ", MapField(f.event)) + Optional("retry: ", MapRetry(f.retry))
  }

  function ItemLines(item: Item): seq<string> {
    match item
    case Sent(f) => HeadLines(f) + Prefixed("data: ", Split(Normalize(f.data)))
    case Noted(text) => Prefixed(": ", Split(Normalize(text)))
  }

  function Block(item: Item): string { Join(ItemLines(item), "\n") + "\n\n" }

  function Transcript(items: seq<Item>): string {
    if items == [] then "" else Transcript(items[..|items| - 1]) + Block(items[|items| - 1])
  }

  /** The lines `write` collects. */
  method FrameLines(frame: Frame) returns (lines: seq<string>)
    ensures lines == ItemLines(Sent(frame))
  {
    hide Field, Dec, Split, Normalize, Prefixed, Millis;
    lines := [];
    if frame.id.Some? {
      lines := lines + ["id: " + Field(frame.id.value)];
    }
    assert lines == Optional("id: ", MapField(frame.id));
    if frame.event.Some? {
      lines := lines + ["event: " + Field(frame.event.value)];
    }
    assert lines == Optional("id: ", MapField(frame.id)) + Optional("event: ", MapField(frame.event));
    if frame.retry.Some? {
      lines := lines + ["retry: " + Dec(Millis(frame.retry.value))];
    }
    assert lines == HeadLines(frame);
    var pieces := Split(Normalize(frame.data));
    PrefixedNone("data: ", pieces);
    for i := 0 to |pieces|
      invariant lines == HeadLines(frame) + Prefixed("data: ", pieces[..i])
    {
      lines := lines + ["data: " + pieces[i]];
      PrefixedMore("data: ", pieces, i);
    }
    assert pieces[..|pieces|] == pieces;
  }

  /** `SseWriter`, holding the text its response has taken and how often `end` was called on it. */
  class Writer {
    var closed: bool
    var heartbeat: bool
    var listening: bool
    var aborted: bool
    var output: string
    var ended: nat
    ghost var items: seq<Item>

    ghost predicate Valid()
      reads this
    {
      && output == Transcript(items)
      && ended == (if closed then 1 else 0)
      && aborted == closed && listening == !closed
    }

    constructor ()
      ensures Valid() && !closed && !heartbeat && items == []
    {
      closed, heartbeat, listening, aborted := false, false, true, false;
      output, ended, items := "", 0, [];
    }

    /** `accepted` is the response's own answer. Once closed, nothing is written. */
    method Write(frame: Frame, accepted: bool) returns (r: bool)
      requires Valid()
      modifies `output, `items
      ensures Valid() && r == (!closed && accepted)
      ensures items == old(items) + (if closed then [] else [Sent(frame)])
    {
      if closed {
        return false;
      }
      var lines := FrameLines(frame);
      output := output + (Join(lines, "\n") + "\n\n");
      items := items + [Sent(frame)];
      r := accepted;
    }

    method Comment(text: string, accepted: bool) returns (r: bool)
      requires Valid()
      modifies `output, `items
      ensures Valid() && r == (!closed && accepted)
      ensures items == old(items) + (if closed then [] else [Noted(text)])
    {
      if closed {
        return false;
      }
      output := output + (Join(Prefixed(": ", Split(Normalize(text))), "\n") + "\n\n");
      items := items + [Noted(text)];
      r := accepted;
    }

    /** Not guarded by `closed`. */
    method StartHeartbeat()
      requires Valid()
      modifies `heartbeat
      ensures Valid() && heartbeat
    {
      StopHeartbeat();
      heartbeat := true;
    }

    /** One tick of the timer. */
    method Beat(accepted: bool)
      requires Valid() && heartbeat
      modifies `output, `items
      ensures Valid() && items == old(items) + (if closed then [] else [Noted("heartbeat")])
    {
      var _ := Comment("heartbeat", accepted);
    }

    method StopHeartbeat()
      modifies `heartbeat
      ensures !heartbeat
    {
      if heartbeat {
        heartbeat := false;
      }
    }

    method Close()
      requires Valid()
      modifies `closed, `heartbeat, `listening, `aborted, `ended
      ensures Valid() && closed && ended == 1
      ensures old(closed) ==> heartbeat == old(heartbeat)
      ensures !old(closed) ==> !heartbeat
    {
      if closed {
        return;
      }
      closed := true;
      StopHeartbeat();
      listening := false;
      aborted := true;
      ended := ended + 1;
    }
  }

  /** A timer started after close outlives every later close; its ticks write nothing. */
  method TimerOutlivesClose(w: Writer, ticks: seq<bool>)
    requires w.Valid() && w.closed
    modifies w
    ensures w.Valid() && w.closed && w.heartbeat && w.items == old(w.items) && w.ended == 1
  {
    w.StartHeartbeat();
    for n := 0 to |ticks|
      invariant w.Valid() && w.closed && w.heartbeat && w.items == old(w.items)
    {
      w.Beat(ticks[n]);
      w.Close();
    }
  }

  lemma PrefixedNone(prefix: string, lines: seq<string>)
    ensures Prefixed(prefix, lines[..0]) == []
  {}

  lemma PrefixedMore(prefix: string, lines: seq<string>, i: nat)
    requires i < |lines|
    ensures Prefixed(prefix, lines[..i + 1]) == Prefixed(prefix, lines[..i]) + [prefix + lines[i]]
  {}

  // --- line ends --------------------------------------------------------------------------

  /** The lines of a text whatever its line ends, the last one possibly empty. */
  function LinesOf(s: string): seq<string> {
    var e := FirstEnd(s);
    if e == |s| then [s] else [s[..e]] + LinesOf(s[After(s, e)..])
  }

  lemma {:induction false} LinesOfStep(s: string)
    requires s != "" && !IsEnd(s[0])
    ensures LinesOf(s) == [[s[0]] + LinesOf(s[1..])[0]] + LinesOf(s[1..])[1..]
  {
    hide After;
    var e := FirstEnd(s[1..]);
    assert FirstEnd(s) == e + 1;
    if e == |s[1..]| {
      assert s == [s[0]] + s[1..];
    } else {
      AfterStep(s, e);
      assert s[..e + 1] == [s[0]] + s[1..][..e];
    }
  }

  lemma AfterStep(s: string, e: nat)
    requires s != "" && e < |s[1..]|
    ensures After(s, e + 1) == After(s[1..], e) + 1 && s[After(s, e + 1)..] == s[1..][After(s[1..], e)..]
  {}

  /** Normalizing changes how lines end and nothing else. */
  lemma {:induction false} NormalizeKeepsLines(s: string)
    ensures Split(Normalize(s)) == LinesOf(s)
    decreases |s|
  {
    if s == "" {
    } else if IsEnd(s[0]) {
      var n := After(s, 0);
      NormalizeKeepsLines(s[n..]);
      NormalizeAtEnd(s);
      assert FirstEnd(s) == 0 && LinesOf(s) == [""] + LinesOf(s[n..]);
      SplitAtEnd(Normalize(s[n..]));
    } else {
      NormalizeKeepsLines(s[1..]);
      LinesOfStep(s);
      SplitChar(s[0], Normalize(s[1..]));
    }
  }

  lemma {:induction false} NormalizeAtEnd(s: string)
    requires s != "" && IsEnd(s[0])
    ensures Normalize(s) == "\n" + Normalize(s[After(s, 0)..])
  {}

  lemma {:induction false} SplitAtEnd(s: string)
    ensures Split("\n" + s) == [""] + Split(s)
  {
    assert ("\n" + s)[1..] == s;
  }

  lemma {:induction false} SplitChar(c: char, s: string)
    requires c != '\n'
    ensures Split([c] + s) == [[c] + Split(s)[0]] + Split(s)[1..]
  {
    assert ([c] + s)[1..] == s;
  }

  lemma {:induction false} SplitIsLines(s: string)
    requires '\r' !in s
    ensures forall i | 0 <= i < |Split(s)| :: OneLine(Split(s)[i])
  {
    if s == "" {
    } else {
      assert s[0] in s && forall c | c in s[1..] :: c in s;
      SplitIsLines(s[1..]);
      assert OneLine("");
    }
  }

  lemma {:induction false} NormalizeHasNoCR(s: string)
    ensures '\r' !in Normalize(s)
    decreases |s|
  {
    if s != "" { NormalizeHasNoCR(if s[0] == '\r' && |s| > 1 && s[1] == '\n' then s[2..] else s[1..]); }
  }

  lemma {:induction false} FlatIsLine(s: string)
    requires '\r' !in s
    ensures OneLine(Flat(s))
  {
    if s == "" {
    } else {
      assert s[0] in s && forall c | c in s[1..] :: c in s;
      FlatIsLine(s[1..]);
    }
  }

  lemma {:induction false} UnlinesCons(line: string, rest: seq<string>)
    ensures Unlines([line] + rest) == line + "\n" + Unlines(rest)
  {
    assert ([line] + rest)[1..] == rest;
  }

  lemma {:induction false} UnlinesSplit(s: string)
    ensures Unlines(Split(s)) == s + "\n"
  {
    hide Unlines;
    if s == "" {
      UnlinesCons("", []);
      assert [""] + [] == [""] == Split(s);
      assert Unlines([]) == "" by { UnlinesNone(); }
    } else {
      UnlinesSplit(s[1..]);
      var rest := Split(s[1..]);
      assert rest == [rest[0]] + rest[1..];
      UnlinesCons(rest[0], rest[1..]);
      UnlinesCons("", rest);
      UnlinesCons([s[0]] + rest[0], rest[1..]);
      assert s + "\n" == [s[0]] + (s[1..] + "\n");
      assert [s[0]] + rest[0] + "\n" + Unlines(rest[1..]) == [s[0]] + (rest[0] + "\n" + Unlines(rest[1..]));
    }
  }

  lemma UnlinesNone()
    ensures Unlines([]) == ""
  {}

  lemma {:induction false} JoinUnlines(lines: seq<string>)
    requires lines != []
    ensures Join(lines, "\n") + "\n" == Unlines(lines)
  {
    if |lines| == 1 {
      assert Unlines(lines[1..]) == "";
    } else {
      JoinUnlines(lines[1..]);
    }
  }

  // --- one block ----------------------------------------------------------------------------

  lemma BlockIsLines(item: Item)
    ensures ItemLines(item) != [] && Block(item) == Unlines(ItemLines(item) + [""])
  {
    hide Split, Normalize, HeadLines, Unlines, Join;
    var lines := ItemLines(item);
    JoinUnlines(lines);
    UnlinesConcat(lines, [""]);
    JoinUnlines([""]);
    assert Join([""], "\n") == "" by { JoinOne(); }
  }

  lemma JoinOne()
    ensures Join([""], "\n") == ""
  {}

  lemma OptionalLines(prefix: string, value: Option<string>)
    requires OneLine(prefix) && (value.Some? ==> OneLine(value.value))
    ensures forall l | l in Optional(prefix, value) :: OneLine(l)
  {}

  lemma {:induction false} DecLine(n: nat)
    ensures OneLine(Dec(n))
  {
    DecDigits(n);
  }

  lemma FieldLine(v: string)
    ensures OneLine(Field(v))
  {
    NormalizeHasNoCR(v);
    FlatIsLine(Normalize(v));
  }

  lemma HeadIsLines(f: Frame)
    ensures forall l | l in HeadLines(f) :: OneLine(l)
  {
    hide Field, Dec, Optional, Millis, OneLine;
    if f.id.Some? { FieldLine(f.id.value); }
    if f.event.Some? { FieldLine(f.event.value); }
    if f.retry.Some? { DecLine(Millis(f.retry.value)); }
    NamesAreLines();
    OptionalLines("id: ", MapField(f.id));
    OptionalLines("event: ", MapField(f.event));
    OptionalLines("retry: ", MapRetry(f.retry));
  }

  lemma NamesAreLines()
    ensures OneLine("id: ") && OneLine("event: ") && OneLine("retry: ")
    ensures OneLine("data: ") && OneLine(": ") && OneLine("")
  {}

  lemma PrefixedIsLines(prefix: string, lines: seq<string>)
    requires OneLine(prefix) && forall i | 0 <= i < |lines| :: OneLine(lines[i])
    ensures forall l | l in Prefixed(prefix, lines) :: OneLine(l)
  {}

  lemma ItemIsLines(item: Item)
    ensures forall l | l in ItemLines(item) :: OneLine(l)
  {
    hide Normalize, Split, OneLine, Prefixed, HeadLines;
    NamesAreLines();
    match item
    case Sent(f) =>
      HeadIsLines(f);
      NormalizeHasNoCR(f.data);
      SplitIsLines(Normalize(f.data));
      PrefixedIsLines("data: ", Split(Normalize(f.data)));
    case Noted(text) =>
      NormalizeHasNoCR(text);
      SplitIsLines(Normalize(text));
      PrefixedIsLines(": ", Split(Normalize(text)));
  }

  lemma {:induction false} TakeOptional(c: Client, name: string, prefix: string, value: Option<string>)
    requires name != "" && ':' !in name && prefix == name + ": "
    ensures TakeAll(c, Optional(prefix, value)) == if value.Some? then TakeField(c, name, value.value) else c
  {
    hide TakeField, TakeLine;
    if value.Some? { NamedField(c, name, value.value); }
  }

  function KindOf(f: Frame): string {
    match f.event case None => "" case Some(v) => Field(v)
  }

  /** A client ignores an id that holds a NUL. */
  function IdAfter(id: string, f: Frame): string {
    match f.id case None => id case Some(v) => if '\0' in Field(v) then id else Field(v)
  }

  function RetryAfter(retry: Option<nat>, f: Frame): Option<nat> {
    match f.retry case None => retry case Some(r) => Some(Millis(r))
  }

  function AfterHead(c: Client, f: Frame): Client {
    Client(c.data, if f.event.Some? then KindOf(f) else c.kind, IdAfter(c.id, f), RetryAfter(c.retry, f), c.events)
  }

  lemma {:induction false} TakeHead(c: Client, f: Frame)
    ensures TakeAll(c, HeadLines(f)) == AfterHead(c, f)
  {
    hide Field, Dec, Optional, Millis, TakeAll, TakeLine;
    var a, b := Optional("id: ", MapField(f.id)), Optional("event: ", MapField(f.event));
    TakeAllConcat(c, a + b, Optional("retry: ", MapRetry(f.retry)));
    TakeAllConcat(c, a, b);
    TakeOptional(c, "id", "id: ", MapField(f.id));
    var c1 := TakeAll(c, a);
    TakeOptional(c1, "event", "event: ", MapField(f.event));
    var c2 := TakeAll(c1, b);
    TakeOptional(c2, "retry", "retry: ", MapRetry(f.retry));
    if f.retry.Some? { DecDigits(Millis(f.retry.value)); }
  }

  lemma {:induction false} TakeData(c: Client, lines: seq<string>)
    ensures TakeAll(c, Prefixed("data: ", lines)) == c.(data := c.data + Unlines(lines))
    decreases lines
  {
    hide TakeLine;
    if lines == [] {
      assert c.data + "" == c.data;
    } else {
      var c1 := c.(data := c.data + lines[0] + "\n");
      NamedField(c, "data", lines[0]);
      assert Prefixed("data: ", lines)[1..] == Prefixed("data: ", lines[1..]);
      assert Prefixed("data: ", lines)[0] == "data" + ": " + lines[0];
      TakeData(c1, lines[1..]);
      assert c.data + lines[0] + "\n" + Unlines(lines[1..]) == c.data + Unlines(lines);
    }
  }

  lemma {:induction false} TakeComment(c: Client, lines: seq<string>)
    ensures TakeAll(c, Prefixed(": ", lines)) == c
  {
    if lines == [] {
    } else {
      assert Prefixed(": ", lines)[1..] == Prefixed(": ", lines[1..]);
      assert Prefixed(": ", lines)[0][0] == ':';
      TakeComment(c, lines[1..]);
    }
  }

  function Arrival(f: Frame, id: string): Event {
    Event(if KindOf(f) == "" then "message" else KindOf(f), Normalize(f.data), IdAfter(id, f))
  }

  /** What one item means to a client between frames. */
  function Receive(c: Client, item: Item): Client {
    match item
    case Noted(_) => c
    case Sent(f) => Client("", "", IdAfter(c.id, f), RetryAfter(c.retry, f), c.events + [Arrival(f, c.id)])
  }

  predicate Between(c: Client) { c.data == "" && c.kind == "" }

  lemma {:induction false} TakeItem(c: Client, item: Item)
    requires Between(c)
    ensures TakeAll(c, ItemLines(item) + [""]) == Receive(c, item)
  {
    hide Normalize, Split, Prefixed, HeadLines, Field, Millis, TakeAll, TakeLine, Unlines;
    TakeAllConcat(c, ItemLines(item), [""]);
    TakeBlank(TakeAll(c, ItemLines(item)));
    match item
    case Sent(f) =>
      var pieces := Split(Normalize(f.data));
      TakeAllConcat(c, HeadLines(f), Prefixed("data: ", pieces));
      TakeHead(c, f);
      TakeData(AfterHead(c, f), pieces);
      UnlinesSplit(Normalize(f.data));
      assert (Normalize(f.data) + "\n")[..|Normalize(f.data)|] == Normalize(f.data);
      assert "" + (Normalize(f.data) + "\n") == Normalize(f.data) + "\n";
    case Noted(text) =>
      TakeComment(c, Split(Normalize(text)));
  }

  lemma {:induction false} TakeBlank(c: Client)
    ensures TakeAll(c, [""]) == Dispatch(c)
  {
    assert [""][1..] == [];
  }

  lemma {:induction false} ReadBlock(c: Client, item: Item, rest: string)
    requires Between(c)
    ensures Read(Block(item) + rest, c) == Read(rest, Receive(c, item))
  {
    hide ItemLines, Block, Receive, Read, TakeAll, Unlines;
    BlockIsLines(item);
    ItemIsLines(item);
    NamesAreLines();
    var lines := ItemLines(item) + [""];
    assert forall i | 0 <= i < |lines| :: OneLine(lines[i]) by {
      assert forall i | 0 <= i < |ItemLines(item)| :: lines[i] == ItemLines(item)[i];
    }
    ReadLines(lines, rest, c);
    TakeItem(c, item);
  }

  // --- whole streams ----------------------------------------------------------------------

  /** The last usable id written. */
  function LastId(items: seq<Item>): string {
    if items == [] then ""
    else match items[|items| - 1]
      case Noted(_) => LastId(items[..|items| - 1])
      case Sent(f) => IdAfter(LastId(items[..|items| - 1]), f)
  }

  function LastRetry(items: seq<Item>): Option<nat> {
    if items == [] then None
    else match items[|items| - 1]
      case Noted(_) => LastRetry(items[..|items| - 1])
      case Sent(f) => RetryAfter(LastRetry(items[..|items| - 1]), f)
  }

  /** One event per frame, in order; comments are none. */
  function Arrivals(items: seq<Item>): seq<Event> {
    if items == [] then []
    else match items[|items| - 1]
      case Noted(_) => Arrivals(items[..|items| - 1])
      case Sent(f) => Arrivals(items[..|items| - 1]) + [Arrival(f, LastId(items[..|items| - 1]))]
  }

  function ClientAfter(items: seq<Item>): Client { Client("", "", LastId(items), LastRetry(items), Arrivals(items)) }

  lemma {:induction false} ReadTranscript(items: seq<Item>, rest: string)
    ensures Read(Transcript(items) + rest, FRESH) == Read(rest, ClientAfter(items))
    decreases items
  {
    hide Read, Block, Arrival, IdAfter, RetryAfter;
    if items == [] {
      assert "" + rest == rest;
    } else {
      var before, item := items[..|items| - 1], items[|items| - 1];
      ReadTranscript(before, Block(item) + rest);
      ReadBlock(ClientAfter(before), item, rest);
      assert Transcript(items) + rest == Transcript(before) + (Block(item) + rest);
    }
  }

  lemma BlockStart(item: Item)
    ensures Block(item) != "" && Block(item)[0] != '\U{FEFF}'
  {
    hide Normalize, Split, Field, Dec, Millis, Unlines, Join;
    BlockIsLines(item);
    var lines := ItemLines(item);
    assert lines[0] != "" && lines[0][0] != '\U{FEFF}';
    FirstOfUnlines(lines + [""]);
  }

  lemma {:induction false} FirstOfUnlines(lines: seq<string>)
    requires lines != [] && lines[0] != ""
    ensures Unlines(lines) != "" && Unlines(lines)[0] == lines[0][0]
  {}

  lemma {:induction false} TranscriptStart(items: seq<Item>)
    ensures Transcript(items) == "" || Transcript(items)[0] != '\U{FEFF}'
  {
    hide Block;
    if items == [] {
    } else {
      TranscriptStart(items[..|items| - 1]);
      BlockStart(items[|items| - 1]);
    }
  }

  /**
   Whatever frames and comments were written, a client that reads the response has dispatched one event
   per frame, in order, and holds the last id and reconnection time sent.
   */
  lemma {:induction false} EveryFrameArrives(items: seq<Item>)
    ensures ReadStream(Transcript(items)) == ClientAfter(items)
  {
    hide Transcript;
    TranscriptStart(items);
    ReadTranscript(items, "");
    assert Transcript(items) + "" == Transcript(items);
  }

  // --- in plain characters -----------------------------------------------------------------------

  /** A text without its line ends, all else kept. */
  function OnOneLine(s: string): string {
    if s == "" then "" else (if s[0] == '\r' || s[0] == '\n' then "" else [s[0]]) + OnOneLine(s[1..])
  }

  lemma {:induction false} FlatNormalized(s: string)
    ensures Flat(Normalize(s)) == OnOneLine(s)
    decreases |s|
  {
    if s == "" {
    } else if s[0] == '\r' {
      var rest := if |s| > 1 && s[1] == '\n' then s[2..] else s[1..];
      FlatNormalized(rest);
      FlatEnd(Normalize(rest));
      if |s| > 1 && s[1] == '\n' { assert s[1..][1..] == s[2..]; }
    } else {
      FlatNormalized(s[1..]);
      FlatCons(s[0], Normalize(s[1..]));
    }
  }

  lemma {:induction false} FlatEnd(s: string)
    ensures Flat("\n" + s) == Flat(s)
  {
    assert ("\n" + s)[1..] == s;
  }

  lemma {:induction false} FlatCons(c: char, s: string)
    ensures Flat([c] + s) == (if c == '\n' then "" else [c]) + Flat(s)
  {
    assert ([c] + s)[1..] == s;
  }

  /** Whole milliseconds, cut off towards zero and never below it. */
  predicate CutOff(retry: real, n: nat) {
    if retry < 0.0 then n == 0 else n as real <= retry < n as real + 1.0
  }

  /**
   What a frame's event is: the name with its line ends taken out, "message" if that leaves nothing; the data line by
   line; the last id, with its line ends taken out, that holds no NUL; and the reconnection time cut to whole
   milliseconds.
   */
  lemma FrameMeans(c: Client, f: Frame)
    ensures var e, r := Arrival(f, c.id), Receive(c, Sent(f));
            && e.kind
               == (if f.event.None? || OnOneLine(f.event.value) == "" then "message" else OnOneLine(f.event.value))
            && Split(e.data) == LinesOf(f.data) && '\r' !in e.data
            && e.lastId == (if f.id.None? || '\0' in OnOneLine(f.id.value) then c.id else OnOneLine(f.id.value))
            && r.id == e.lastId && r.events == c.events + [e]
            && (f.retry.None? ==> r.retry == c.retry)
            && (f.retry.Some? ==> r.retry.Some? && CutOff(f.retry.value, r.retry.value))
  {
    hide Split, LinesOf;
    if f.event.Some? { FlatNormalized(f.event.value); }
    if f.id.Some? { FlatNormalized(f.id.value); }
    NormalizeKeepsLines(f.data);
    NormalizeHasNoCR(f.data);
    hide Normalize, Flat;
  }
}
