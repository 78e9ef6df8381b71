/**
 Reading an event stream, as section 9.2.6 of the WHATWG HTML standard interprets one.
 The stream is already decoded text.
 */
module EventStream {
  import opened Decimal
  import opened Options

  datatype Event = Event(kind: string, data: string, lastId: string)

  /** The buffers of the algorithm, the reconnection time, and the events dispatched so far. */
  datatype Client = Client(data: string, kind: string, id: string, retry: Option<nat>, events: seq<Event>)

  const FRESH := Client("", "", "", None, [])

  predicate IsEnd(c: char) { c == '\n' || c == '\r' }

  /** A text without line ends. */
  predicate OneLine(s: string) { forall i | 0 <= i < |s| :: !IsEnd(s[i]) }

  function FirstEnd(s: string): (e: nat)
    ensures e <= |s| && OneLine(s[..e]) && (e < |s| ==> IsEnd(s[e]))
  {
    if s == "" || IsEnd(s[0]) then 0
    else
      var e := 1 + FirstEnd(s[1..]);
      assert forall i | 0 < i < e :: s[i] == s[1..][..e - 1][i - 1];
      e
  }

  /** Where the line after this end starts: CRLF is one end. */
  function After(s: string, e: nat): (n: nat)
    requires e < |s|
    ensures e < n <= |s|
  {
    if s[e] == '\r' && e + 1 < |s| && s[e + 1] == '\n' then e + 2 else e + 1
  }

  function FirstColon(s: string): (i: nat)
    requires ':' in s
    ensures i < |s| && s[i] == ':' && ':' !in s[..i]
  {
    if s[0] == ':' then 0
    else
      var i := 1 + FirstColon(s[1..]);
      assert s[..i] == [s[0]] + s[1..][..i - 1];
      i
  }

  function DropSpace(s: string): string { if s != "" && s[0] == ' ' then s[1..] else s }

  function TakeField(c: Client, name: string, value: string): Client {
    if name == "event" then c.(kind := value)
    else if name == "data" then c.(data := c.data + value + "\n")
    else if name == "id" then (if '\0' in value then c else c.(id := value))
    else if name == "retry" then (if value != "" && AllDigits(value) then c.(retry := Some(NatOf(value))) else c)
    else c
  }

  function Dispatch(c: Client): Client {
    if c.data == "" then c.(kind := "")
    else
      var data := if c.data[|c.data| - 1] == '\n' then c.data[..|c.data| - 1] else c.data;
      c.(data := "", kind := "", events := c.events + [Event(if c.kind == "" then "message" else c.kind, data, c.id)])
  }

  function TakeLine(c: Client, line: string): Client {
    if line == "" then Dispatch(c)
    else if line[0] == ':' then c
    else if ':' in line then
      var i := FirstColon(line);
      TakeField(c, line[..i], DropSpace(line[i + 1..]))
    else TakeField(c, line, "")
  }

  /** A last line without an end is not taken. */
  function Read(s: string, c: Client): Client
    decreases |s|
  {
    var e := FirstEnd(s);
    if e == |s| then c else Read(s[After(s, e)..], TakeLine(c, s[..e]))
  }

  function ReadStream(s: string): Client {
    Read(if s != "" && s[0] == '\U{FEFF}' then s[1..] else s, FRESH)
  }

  // --- texts made of lines ---------------------------------------------------------------

  function Unlines(lines: seq<string>): string {
    if lines == [] then "" else lines[0] + "\n" + Unlines(lines[1..])
  }

  function TakeAll(c: Client, lines: seq<string>): Client
    decreases lines
  {
    if lines == [] then c else TakeAll(TakeLine(c, lines[0]), lines[1..])
  }

  lemma {:induction false} FirstEndAt(line: string, rest: string)
    requires OneLine(line)
    ensures FirstEnd(line + "\n" + rest) == |line|
  {
    var s := line + "\n" + rest;
    var e := FirstEnd(s);
    assert s[|line|] == '\n';
    assert forall i | 0 <= i < |line| :: s[i] == line[i];
    assert forall i | 0 <= i < e :: s[i] == s[..e][i];
  }

  lemma {:induction false} ReadLine(line: string, rest: string, c: Client)
    requires OneLine(line)
    ensures Read(line + "\n" + rest, c) == Read(rest, TakeLine(c, line))
  {
    hide TakeLine, FirstEnd;
    var s := line + "\n" + rest;
    FirstEndAt(line, rest);
    assert s[|line|] == '\n' && s[|line| + 1..] == rest && s[..|line|] == line;
  }

  lemma {:induction false} ReadLines(lines: seq<string>, rest: string, c: Client)
    requires forall i | 0 <= i < |lines| :: OneLine(lines[i])
    ensures Read(Unlines(lines) + rest, c) == Read(rest, TakeAll(c, lines))
  {
    hide Read, TakeLine, OneLine;
    if lines == [] {
      assert Unlines(lines) + rest == rest;
    } else {
      var more := Unlines(lines[1..]) + rest;
      ReadLine(lines[0], more, c);
      ReadLines(lines[1..], rest, TakeLine(c, lines[0]));
      assert Unlines(lines) + rest == lines[0] + "\n" + more;
    }
  }

  lemma {:induction false} TakeAllConcat(c: Client, a: seq<string>, b: seq<string>)
    ensures TakeAll(c, a + b) == TakeAll(TakeAll(c, a), b)
    decreases a
  {
    hide TakeLine;
    if a == [] {
      assert a + b == b;
    } else {
      TakeAllConcat(TakeLine(c, a[0]), a[1..], b);
      assert (a + b)[1..] == a[1..] + b;
    }
  }

  lemma {:induction false} UnlinesConcat(a: seq<string>, b: seq<string>)
    ensures Unlines(a + b) == Unlines(a) + Unlines(b)
  {
    if a == [] {
      assert a + b == b;
    } else {
      UnlinesConcat(a[1..], b);
      assert (a + b)[1..] == a[1..] + b;
    }
  }

  /** A line `name: value`. */
  lemma NamedField(c: Client, name: string, value: string)
    requires name != "" && ':' !in name
    ensures TakeLine(c, name + ": " + value) == TakeField(c, name, value)
  {
    hide TakeField, FirstColon;
    var line := name + ": " + value;
    assert line[|name|] == ':' && line[0] == name[0] && name[0] in name;
    var i := FirstColon(line);
    assert i == |name| by {
      assert forall k | 0 <= k < |name| :: line[k] == name[k] && name[k] in name;
      assert forall k | 0 <= k < i :: line[k] == line[..i][k];
    }
    assert line[..i] == name && line[i + 1..] == " " + value;
    assert (" " + value)[1..] == value;
  }
}
