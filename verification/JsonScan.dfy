/**
 Cutting a JSON value out of a page: a scanner that counts one kind of bracket and
 skips strings. `loads` stands for the library parser the cut text is handed to.
 */
module JsonScan {
  import opened Options

  /** The bracket the value opens with. */
  datatype Kind = Braces | Brackets

  function OpenOf(k: Kind): char { if k == Braces then '{' else '[' }

  function CloseOf(k: Kind): char { if k == Braces then '}' else ']' }

  datatype Mode = Code | InString | Escaped

  /** Length up to and including the bracket that brings the count of this kind back to zero. */
  function Scan(s: string, k: Kind, depth: nat, mode: Mode): (n: Option<nat>)
    ensures n.Some? ==> 0 < n.value <= |s|
  {
    if s == "" then None
    else
      var c, rest := s[0], s[1..];
      match mode
      case Escaped => Past(1, Scan(rest, k, depth, InString))
      case InString =>
        if c == '\\' then Past(1, Scan(rest, k, depth, Escaped))
        else if c == '"' then Past(1, Scan(rest, k, depth, Code))
        else Past(1, Scan(rest, k, depth, InString))
      case Code =>
        if c == '"' then Past(1, Scan(rest, k, depth, InString))
        else if c == OpenOf(k) then Past(1, Scan(rest, k, depth + 1, Code))
        else if c == CloseOf(k) then (if depth <= 1 then Some(1) else Past(1, Scan(rest, k, depth - 1, Code)))
        else Past(1, Scan(rest, k, depth, Code))
  }

  function Past(n: nat, r: Option<nat>): Option<nat> {
    match r
    case None => None
    case Some(m) => Some(n + m)
  }

  datatype Answer<+V> = Parsed(value: V) | Nothing | IndexError | KeyError

  function KindOf(c: char): Option<Kind> {
    if c == '{' then Some(Braces) else if c == '[' then Some(Brackets) else None
  }

  /** The value cut out at `start`: nothing if unbalanced or unparsable, an exception if no bracket is there. */
  function Balanced<V>(text: string, start: nat, loads: string -> Option<V>): Answer<V> {
    if start >= |text| then IndexError
    else match KindOf(text[start])
      case None => KeyError
      case Some(k) =>
        match Scan(text[start..], k, 0, Code)
        case None => Nothing
        case Some(n) =>
          match loads(text[start..start + n])
          case None => Nothing
          case Some(v) => Parsed(v)
  }

  /** The scanning loop of `balanced_json`: how much to cut, or nothing. */
  method FindClose(text: string, start: nat, k: Kind) returns (n: Option<nat>)
    requires start < |text| && KindOf(text[start]) == Some(k)
    ensures n == Scan(text[start..], k, 0, Code)
  {
    hide Scan;
    var depth: nat, inString, escaped := 0, false, false;
    for i := start to |text|
      invariant i == start ==> depth == 0 && !inString && !escaped
      invariant i > start ==> depth >= 1
      invariant escaped ==> inString
      invariant Scan(text[start..], k, 0, Code)
             == Past(i - start, Scan(text[i..], k, depth, ModeOf(inString, escaped)))
    {
      var ch := text[i];
      Advance(text, i, k, depth, ModeOf(inString, escaped));
      if inString {
        if escaped {
          escaped := false;
        } else if ch == '\\' {
          escaped := true;
        } else if ch == '"' {
          inString := false;
        }
      } else if ch == '"' {
        inString := true;
      } else if ch == OpenOf(k) {
        depth := depth + 1;
      } else if ch == CloseOf(k) {
        depth := depth - 1;
        if depth == 0 {
          return Some(i + 1 - start);
        }
      }
    }
    assert text[|text|..] == "";
    ScanEnd(k, depth, ModeOf(inString, escaped));
    n := None;
  }

  /** `balanced_json`. */
  method BalancedJson<V>(text: string, start: nat, loads: string -> Option<V>) returns (r: Answer<V>)
    ensures r == Balanced(text, start, loads)
  {
    if start >= |text| {
      return IndexError;
    }
    if KindOf(text[start]) == None {
      return KeyError;
    }
    var n := FindClose(text, start, KindOf(text[start]).value);
    if n == None {
      return Nothing;
    }
    var parsed := loads(text[start..start + n.value]);
    r := if parsed.Some? then Parsed(parsed.value) else Nothing;
  }

  lemma {:induction false} ScanEnd(k: Kind, depth: nat, mode: Mode)
    ensures Scan("", k, depth, mode) == None
  {
  }

  /** The scanner's mode as the source's two flags hold it. */
  function ModeOf(inString: bool, escaped: bool): Mode {
    if !inString then Code else if escaped then Escaped else InString
  }

  lemma {:induction false} Advance(text: string, i: nat, k: Kind, depth: nat, mode: Mode)
    requires i < |text|
    ensures Scan(text[i..], k, depth, mode) ==
            match mode
            case Escaped => Past(1, Scan(text[i + 1..], k, depth, InString))
            case InString =>
              Past(1, Scan(text[i + 1..], k, depth,
                            if text[i] == '\\' then Escaped else if text[i] == '"' then Code else InString))
            case Code =>
              if text[i] == '"' then Past(1, Scan(text[i + 1..], k, depth, InString))
              else if text[i] == OpenOf(k) then Past(1, Scan(text[i + 1..], k, depth + 1, Code))
              else if text[i] == CloseOf(k) then
                 (if depth <= 1 then Some(1) else Past(1, Scan(text[i + 1..], k, depth - 1, Code)))
              else Past(1, Scan(text[i + 1..], k, depth, Code))
  {
    hide Scan;
    assert text[i..] == [text[i]] + text[i + 1..];
    ScanStep(text[i], text[i + 1..], k, depth, mode);
  }

  // --- JSON text (sections 2 and 7 of RFC 8259) -------------------------------------------------

  datatype Unit = Plain(c: char) | Escape(c: char)

  /** Every blank the grammar allows around brackets, commas and colons is carried along. */
  datatype Json =
    | Atom(text: string)
    | Str(units: seq<Unit>)
    | Arr(blank: string, items: Items)
    | Obj(blank: string, members: Members)

  datatype Items = NoItems | Item(before: string, value: Json, after: string, rest: Items)

  datatype Members = NoMembers
    | Member(before: string, name: seq<Unit>, mid: string, gap: string, value: Json, after: string, rest: Members)

  predicate UnitOk(u: Unit) {
    match u
    case Plain(c) => c != '"' && c != '\\' && c >= ' '
    case Escape(c) => c in "\"\\/bfnrtu"
  }

  /** Blanks, and the characters of numbers and of the three literal names. */
  predicate Inert(s: string) {
    forall i | 0 <= i < |s| :: s[i] !in "\"{}[]"
  }

  predicate Ok(v: Json) {
    match v
    case Atom(text) => text != "" && Inert(text)
    case Str(units) => forall i | 0 <= i < |units| :: UnitOk(units[i])
    case Arr(blank, items) => Inert(blank) && ItemsOk(items)
    case Obj(blank, members) => Inert(blank) && MembersOk(members)
  }

  predicate ItemsOk(items: Items) {
    match items
    case NoItems => true
    case Item(before, value, after, rest) => Inert(before) && Ok(value) && Inert(after) && ItemsOk(rest)
  }

  predicate MembersOk(members: Members) {
    match members
    case NoMembers => true
    case Member(before, name, mid, gap, value, after, rest) =>
      && Inert(before) && (forall i | 0 <= i < |name| :: UnitOk(name[i])) && Inert(mid) && Inert(gap)
      && Ok(value) && Inert(after) && MembersOk(rest)
  }

  function PrintUnits(units: seq<Unit>): string {
    if units == [] then ""
    else PrintUnit(units[0]) + PrintUnits(units[1..])
  }

  function PrintString(units: seq<Unit>): string { "\"" + (PrintUnits(units) + "\"") }

  function Print(v: Json): string {
    match v
    case Atom(text) => text
    case Str(units) => PrintString(units)
    case Arr(blank, items) => "[" + (blank + (PrintItems(items) + "]"))
    case Obj(blank, members) => "{" + (blank + (PrintMembers(members) + "}"))
  }

  function PrintItems(items: Items): string {
    match items
    case NoItems => ""
    case Item(before, value, after, rest) =>
      before + (Print(value) + (after + ((if rest == NoItems then "" else ",") + PrintItems(rest))))
  }

  function PrintMembers(members: Members): string {
    match members
    case NoMembers => ""
    case Member(before, name, mid, gap, value, after, rest) =>
      before + (PrintString(name) + (mid + (":" + (gap + (Print(value)
        + (after + ((if rest == NoMembers then "" else ",") + PrintMembers(rest))))))))
  }

  // --- scanning printed text -----------------------------------------------------------------------

  /** Reading `s` in code mode at this depth leaves the scanner where it was, whatever follows. */
  ghost predicate Skips(s: string, k: Kind, depth: nat) {
    forall rest :: Scan(s + rest, k, depth, Code) == Past(|s|, Scan(rest, k, depth, Code))
  }

  lemma SkipsNothing(k: Kind, depth: nat)
    ensures Skips("", k, depth)
  {
    forall rest: string ensures Scan("" + rest, k, depth, Code) == Past(0, Scan(rest, k, depth, Code)) {
      assert "" + rest == rest;
    }
  }

  lemma SkipsBoth(a: string, b: string, k: Kind, depth: nat)
    requires Skips(a, k, depth) && Skips(b, k, depth)
    ensures Skips(a + b, k, depth)
  {
    hide Scan;
    forall rest: string ensures Scan(a + b + rest, k, depth, Code) == Past(|a + b|, Scan(rest, k, depth, Code)) {
      SkipsThen(a, b, rest, k, depth);
    }
  }

  lemma {:induction false} SkipsThen(a: string, b: string, rest: string, k: Kind, depth: nat)
    requires Skips(a, k, depth) && Skips(b, k, depth)
    ensures Scan(a + b + rest, k, depth, Code) == Past(|a| + |b|, Scan(rest, k, depth, Code))
  {
    Regroup(a, b, rest);
    SkipsUse(a, b + rest, k, depth);
    SkipsUse(b, rest, k, depth);
  }

  lemma {:induction false} SkipsUse(s: string, rest: string, k: Kind, depth: nat)
    requires Skips(s, k, depth)
    ensures Scan(s + rest, k, depth, Code) == Past(|s|, Scan(rest, k, depth, Code))
  {
    hide Scan;
  }

  lemma Regroup(a: string, b: string, c: string)
    ensures a + b + c == a + (b + c)
  {
  }

  /** One character at a time. */
  lemma {:induction false} ScanStep(c: char, rest: string, k: Kind, depth: nat, mode: Mode)
    ensures var s := [c] + rest;
            Scan(s, k, depth, mode) ==
            match mode
            case Escaped => Past(1, Scan(rest, k, depth, InString))
            case InString =>
              Past(1, Scan(rest, k, depth, if c == '\\' then Escaped else if c == '"' then Code else InString))
            case Code =>
              if c == '"' then Past(1, Scan(rest, k, depth, InString))
              else if c == OpenOf(k) then Past(1, Scan(rest, k, depth + 1, Code))
              else if c == CloseOf(k) then (if depth <= 1 then Some(1) else Past(1, Scan(rest, k, depth - 1, Code)))
              else Past(1, Scan(rest, k, depth, Code))
  {
    assert ([c] + rest)[0] == c && ([c] + rest)[1..] == rest;
  }

  lemma SkipsChar(c: char, k: Kind, depth: nat)
    requires c !in "\"{}[]" || (k == Braces && c in "[]") || (k == Brackets && c in "{}")
    ensures Skips([c], k, depth)
  {
    forall rest: string ensures Scan([c] + rest, k, depth, Code) == Past(1, Scan(rest, k, depth, Code)) {
      assert ([c] + rest)[0] == c && ([c] + rest)[1..] == rest;
    }
  }

  lemma SkipsInert(s: string, k: Kind, depth: nat)
    requires Inert(s)
    ensures Skips(s, k, depth)
  {
    if s == "" {
      SkipsNothing(k, depth);
    } else {
      SkipsInert(s[1..], k, depth);
      SkipsChar(s[0], k, depth);
      SkipsBoth([s[0]], s[1..], k, depth);
      assert s == [s[0]] + s[1..];
    }
  }

  /** Inside a string nothing but its own closing quote matters. */
  lemma {:induction false} UnitsScan(units: seq<Unit>, k: Kind, depth: nat, rest: string)
    requires forall i | 0 <= i < |units| :: UnitOk(units[i])
    ensures Scan(PrintUnits(units) + "\"" + rest, k, depth, InString)
         == Past(|PrintUnits(units)| + 1, Scan(rest, k, depth, Code))
  {
    if units == [] {
      assert PrintUnits(units) + "\"" + rest == ['"'] + rest;
      ScanStep('"', rest, k, depth, InString);
    } else {
      UnitsScan(units[1..], k, depth, rest);
      UnitScan(units[0], PrintUnits(units[1..]), k, depth, rest);
      UnitFirst(units);
      hide Scan, PrintUnits, PrintUnit;
    }
  }

  lemma {:induction false} UnitFirst(units: seq<Unit>)
    requires units != []
    ensures PrintUnits(units) == PrintUnit(units[0]) + PrintUnits(units[1..])
  {}

  function PrintUnit(u: Unit): string {
    match u case Plain(c) => [c] case Escape(c) => ['\\', c]
  }

  lemma {:induction false} UnitScan(u: Unit, more: string, k: Kind, depth: nat, rest: string)
    requires UnitOk(u)
    ensures Scan(PrintUnit(u) + more + "\"" + rest, k, depth, InString)
         == Past(|PrintUnit(u)|, Scan(more + "\"" + rest, k, depth, InString))
  {
    hide Scan;
    var tail := more + "\"" + rest;
    match u
    case Plain(c) =>
      assert PrintUnit(u) + more + "\"" + rest == [c] + tail;
      ScanStep(c, tail, k, depth, InString);
    case Escape(c) =>
      assert PrintUnit(u) + more + "\"" + rest == ['\\'] + ([c] + tail);
      ScanStep('\\', [c] + tail, k, depth, InString);
      ScanStep(c, tail, k, depth, Escaped);
  }

  lemma SkipsString(units: seq<Unit>, k: Kind, depth: nat)
    requires forall i | 0 <= i < |units| :: UnitOk(units[i])
    ensures Skips(PrintString(units), k, depth)
  {
    var p := PrintString(units);
    hide Scan;
    forall rest: string ensures Scan(p + rest, k, depth, Code) == Past(|p|, Scan(rest, k, depth, Code)) {
      UnitsScan(units, k, depth, rest);
      assert p + rest == ['"'] + (PrintUnits(units) + "\"" + rest);
      ScanStep('"', PrintUnits(units) + "\"" + rest, k, depth, Code);
    }
  }

  /** A bracket pair of the counted kind goes one deeper and comes back. */
  lemma SkipsPair(inner: string, k: Kind, depth: nat)
    requires depth >= 1 && Skips(inner, k, depth + 1)
    ensures Skips([OpenOf(k)] + (inner + [CloseOf(k)]), k, depth)
  {
    var p := [OpenOf(k)] + (inner + [CloseOf(k)]);
    hide Scan;
    forall rest: string ensures Scan(p + rest, k, depth, Code) == Past(|p|, Scan(rest, k, depth, Code)) {
      var tail := [CloseOf(k)] + rest;
      assert p + rest == [OpenOf(k)] + (inner + tail);
      ScanStep(OpenOf(k), inner + tail, k, depth, Code);
      SkipsUse(inner, tail, k, depth + 1);
      ScanStep(CloseOf(k), rest, k, depth + 1, Code);
    }
  }

  lemma SkipsOtherPair(open: char, inner: string, close: char, k: Kind, depth: nat)
    requires Skips([open], k, depth) && Skips(inner, k, depth) && Skips([close], k, depth)
    ensures Skips([open] + (inner + [close]), k, depth)
  {
    SkipsBoth(inner, [close], k, depth);
    SkipsBoth([open], inner + [close], k, depth);
  }

  /**
   Any whole value is skipped at depth one or more: brackets inside it balance, and those inside its strings are not
   seen.
   */
  lemma {:induction false} SkipsValue(v: Json, k: Kind, depth: nat)
    requires Ok(v) && depth >= 1
    ensures Skips(Print(v), k, depth)
    decreases v
  {
    hide Skips;
    match v
    case Atom(text) => SkipsInert(text, k, depth);
    case Str(units) => SkipsString(units, k, depth);
    case Arr(blank, items) =>
      SkipsInert(blank, k, if k == Brackets then depth + 1 else depth);
      SkipsItems(items, k, if k == Brackets then depth + 1 else depth);
      SkipsEnclosed(Brackets, blank, PrintItems(items), k, depth);
    case Obj(blank, members) =>
      SkipsInert(blank, k, if k == Braces then depth + 1 else depth);
      SkipsMembers(members, k, if k == Braces then depth + 1 else depth);
      SkipsEnclosed(Braces, blank, PrintMembers(members), k, depth);
  }

  lemma SkipsEnclosed(own: Kind, blank: string, inner: string, k: Kind, depth: nat)
    requires depth >= 1
    requires Skips(blank, k, if k == own then depth + 1 else depth)
    requires Skips(inner, k, if k == own then depth + 1 else depth)
    ensures Skips([OpenOf(own)] + (blank + (inner + [CloseOf(own)])), k, depth)
  {
    hide Skips;
    SkipsBoth(blank, inner, k, if k == own then depth + 1 else depth);
    if k == own {
      SkipsPair(blank + inner, k, depth);
    } else {
      SkipsChar(OpenOf(own), k, depth);
      SkipsChar(CloseOf(own), k, depth);
      SkipsOtherPair(OpenOf(own), blank + inner, CloseOf(own), k, depth);
    }
    assert (blank + inner) + [CloseOf(own)] == blank + (inner + [CloseOf(own)]);
  }

  lemma {:induction false} SkipsItems(items: Items, k: Kind, depth: nat)
    requires ItemsOk(items) && depth >= 1
    ensures Skips(PrintItems(items), k, depth)
    decreases items
  {
    hide Skips;
    match items
    case NoItems => SkipsNothing(k, depth);
    case Item(before, value, after, rest) =>
      var sep := if rest == NoItems then "" else ",";
      SkipsInert(before, k, depth);
      SkipsValue(value, k, depth);
      SkipsInert(after, k, depth);
      SkipsInert(sep, k, depth);
      SkipsItems(rest, k, depth);
      SkipsBoth(sep, PrintItems(rest), k, depth);
      SkipsBoth(after, sep + PrintItems(rest), k, depth);
      SkipsBoth(Print(value), after + (sep + PrintItems(rest)), k, depth);
      SkipsBoth(before, Print(value) + (after + (sep + PrintItems(rest))), k, depth);
  }

  lemma {:induction false} SkipsMembers(members: Members, k: Kind, depth: nat)
    requires MembersOk(members) && depth >= 1
    ensures Skips(PrintMembers(members), k, depth)
    decreases members
  {
    hide Skips;
    match members
    case NoMembers => SkipsNothing(k, depth);
    case Member(before, name, mid, gap, value, after, rest) =>
      var sep := if rest == NoMembers then "" else ",";
      SkipsInert(before, k, depth);
      SkipsString(name, k, depth);
      SkipsInert(mid, k, depth);
      SkipsInert(":", k, depth);
      SkipsInert(gap, k, depth);
      SkipsValue(value, k, depth);
      SkipsInert(after, k, depth);
      SkipsInert(sep, k, depth);
      SkipsMembers(rest, k, depth);
      var t1 := sep + PrintMembers(rest);
      SkipsBoth(sep, PrintMembers(rest), k, depth);
      SkipsBoth(after, t1, k, depth);
      SkipsBoth(Print(value), after + t1, k, depth);
      SkipsBoth(gap, Print(value) + (after + t1), k, depth);
      SkipsBoth(":", gap + (Print(value) + (after + t1)), k, depth);
      SkipsBoth(mid, ":" + (gap + (Print(value) + (after + t1))), k, depth);
      SkipsBoth(PrintString(name), mid + (":" + (gap + (Print(value) + (after + t1)))), k, depth);
      SkipsBoth(before, PrintString(name) + (mid + (":" + (gap + (Print(value) + (after + t1))))), k, depth);
  }

  /** The outermost pair of the counted kind is where the scan stops. */
  lemma {:induction false} StopsAtOwnClose(own: Kind, inner: string, rest: string)
    requires Skips(inner, own, 1)
    ensures Scan([OpenOf(own)] + (inner + [CloseOf(own)]) + rest, own, 0, Code) == Some(|inner| + 2)
  {
    var tail := [CloseOf(own)] + rest;
    hide Scan;
    assert [OpenOf(own)] + (inner + [CloseOf(own)]) + rest == [OpenOf(own)] + (inner + tail);
    ScanStep(OpenOf(own), inner + tail, own, 0, Code);
    SkipsUse(inner, tail, own, 1);
    ScanStep(CloseOf(own), rest, own, 1, Code);
  }

  /**
   For every JSON object or array, wherever it stands and whatever follows it, exactly its own text is
   cut out and parsed.
   */
  lemma {:induction false} CutsExactlyTheValue<V>(v: Json, before: string, after: string, loads: string -> Option<V>)
    requires Ok(v) && (v.Arr? || v.Obj?)
    ensures Balanced(before + Print(v) + after, |before|, loads)
         == match loads(Print(v)) case None => Nothing case Some(x) => Parsed(x)
  {
    hide Skips, Scan, Balanced;
    if v.Arr? {
      SkipsInert(v.blank, Brackets, 1);
      SkipsItems(v.items, Brackets, 1);
      CutsPair(v, Brackets, PrintItems(v.items), before, after, loads);
    } else {
      SkipsInert(v.blank, Braces, 1);
      SkipsMembers(v.members, Braces, 1);
      CutsPair(v, Braces, PrintMembers(v.members), before, after, loads);
    }
  }

  lemma {:induction false} CutsPair<V>(
      v: Json, own: Kind, inner: string, before: string, after: string, loads: string -> Option<V>)
    requires v.Arr? || v.Obj?
    requires Print(v) == [OpenOf(own)] + (v.blank + (inner + [CloseOf(own)]))
    requires Skips(v.blank, own, 1) && Skips(inner, own, 1)
    ensures Balanced(before + Print(v) + after, |before|, loads)
         == match loads(Print(v)) case None => Nothing case Some(x) => Parsed(x)
  {
    hide Skips, Scan, Balanced;
    SkipsBoth(v.blank, inner, own, 1);
    StopsAtOwnClose(own, v.blank + inner, after);
    Regroup(v.blank, inner, [CloseOf(own)]);
    CutAt(Print(v), own, before, after, loads);
  }

  lemma {:induction false} CutAt<V>(p: string, own: Kind, before: string, after: string, loads: string -> Option<V>)
    requires p != "" && p[0] == OpenOf(own) && Scan(p + after, own, 0, Code) == Some(|p|)
    ensures Balanced(before + p + after, |before|, loads)
         == match loads(p) case None => Nothing case Some(x) => Parsed(x)
  {
    hide Scan;
    var text, start := before + p + after, |before|;
    assert text[start..] == p + after && text[start] == p[0] && text[start..start + |p|] == p;
  }

  // --- json_after --------------------------------------------------------------------------------

  predicate At(text: string, marker: string, p: nat) {
    p + |marker| <= |text| && text[p..p + |marker|] == marker
  }

  lemma AtFits(text: string, marker: string, p: nat)
    requires At(text, marker, p)
    ensures p + |marker| <= |text|
  {}

  /** `str.find`: the first place at or after `start` where the marker stands. */
  function Find(text: string, marker: string, start: nat): (i: Option<nat>)
    ensures i.Some? ==> start <= i.value && At(text, marker, i.value)
                        && forall p: nat | start <= p < i.value :: !At(text, marker, p)
    ensures i.None? ==> forall p: nat | start <= p :: !At(text, marker, p)
    decreases |text| - start
  {
    if start + |marker| > |text| then None
    else if At(text, marker, start) then Some(start)
    else Find(text, marker, start + 1)
  }

  function SkipGap(text: string, j: nat): (r: nat)
    requires j <= |text|
    ensures j <= r <= |text| && (forall p | j <= p < r :: text[p] in " :\n\t\r")
    ensures r < |text| ==> text[r] !in " :\n\t\r"
    decreases |text| - j
  {
    if j < |text| && text[j] in " :\n\t\r" then SkipGap(text, j + 1) else j
  }

  /** The value standing behind an occurrence, if the wanted bracket follows and the cut text parses. */
  function Behind<V>(text: string, marker: string, i: nat, opener: Kind, loads: string -> Option<V>): Option<V>
    requires At(text, marker, i)
  {
    var j := SkipGap(text, i + |marker|);
    if j < |text| && text[j] == OpenOf(opener) then
      match Balanced(text, j, loads)
      case Parsed(v) => Some(v)
      case _ => None
    else None
  }

  /** The occurrences a left-to-right, never overlapping search visits. */
  function Visits(text: string, marker: string, start: nat): (r: seq<nat>)
    requires marker != ""
    ensures forall n | 0 <= n < |r| :: At(text, marker, r[n])
    decreases |text| - start
  {
    match Find(text, marker, start)
    case None => []
    case Some(i) => [i] + Visits(text, marker, i + |marker|)
  }

  lemma {:induction false} VisitsApart(text: string, marker: string, start: nat)
    requires marker != ""
    ensures forall n | 0 <= n < |Visits(text, marker, start)| :: start <= Visits(text, marker, start)[n]
    ensures forall n, m | 0 <= n < m < |Visits(text, marker, start)| ::
              Visits(text, marker, start)[n] + |marker| <= Visits(text, marker, start)[m]
    decreases |text| - start
  {
    var found := Find(text, marker, start);
    if found == None {
    } else {
      VisitsApart(text, marker, found.value + |marker|);
    }
  }

  /** Every occurrence is visited, or overlaps the one visited just before it. */
  lemma NothingUnvisited(text: string, marker: string, start: nat, p: nat) returns (n: nat)
    requires marker != "" && start <= p && At(text, marker, p)
    ensures n < |Visits(text, marker, start)|
    ensures Visits(text, marker, start)[n] <= p < Visits(text, marker, start)[n] + |marker|
    decreases |text| - start
  {
    var i := Find(text, marker, start).value;
    var rest := Visits(text, marker, i + |marker|);
    assert Visits(text, marker, start) == [i] + rest;
    hide Visits, Find, At;
    if p < i + |marker| {
      n := 0;
    } else {
      var m := NothingUnvisited(text, marker, i + |marker|, p);
      n := m + 1;
    }
  }

  /** The value behind the first visited occurrence that has one. */
  function FirstBehind<V>(
      text: string, marker: string, at: seq<nat>, opener: Kind, loads: string -> Option<V>): Option<V>
    requires forall n | 0 <= n < |at| :: At(text, marker, at[n])
  {
    if at == [] then None
    else match Behind(text, marker, at[0], opener, loads)
         case Some(v) => Some(v)
         case None => FirstBehind(text, marker, at[1..], opener, loads)
  }

  lemma VisitFirst<V>(text: string, marker: string, start: nat, opener: Kind, loads: string -> Option<V>)
    requires marker != "" && Find(text, marker, start).Some?
    ensures var i := Find(text, marker, start).value;
            FirstBehind(text, marker, Visits(text, marker, start), opener, loads) ==
            match Behind(text, marker, i, opener, loads)
            case Some(v) => Some(v)
            case None => FirstBehind(text, marker, Visits(text, marker, i + |marker|), opener, loads)
  {
    hide Find, Behind;
    var i := Find(text, marker, start).value;
    var rest := Visits(text, marker, i + |marker|);
    assert Visits(text, marker, start) == [i] + rest && ([i] + rest)[1..] == rest;
  }

  lemma {:induction false} VisitNone<V>(
      text: string, marker: string, start: nat, opener: Kind, loads: string -> Option<V>)
    requires marker != "" && Find(text, marker, start) == None
    ensures FirstBehind(text, marker, Visits(text, marker, start), opener, loads) == None
  {
  }

  // --- what stands behind a marker ------------------------------------------------------------------

  /** What may stand between a key and its value: colons and blanks. */
  predicate IsGap(gap: string) { forall i | 0 <= i < |gap| :: gap[i] in [' ', ':', '\n', '\t', '\r'] }

  lemma {:induction false} GapIsSkipped(text: string, j: nat, gap: string, rest: string)
    requires j <= |text| && text[j..] == gap + rest && IsGap(gap)
    requires rest == "" || rest[0] !in [' ', ':', '\n', '\t', '\r']
    ensures SkipGap(text, j) == j + |gap|
    decreases |gap|
  {
    if gap == "" {
      assert rest != "" ==> text[j] == rest[0];
    } else {
      assert text[j] == gap[0] && text[j + 1..] == gap[1..] + rest;
      GapIsSkipped(text, j + 1, gap[1..], rest);
    }
  }

  /** The first place where the marker stands. */
  predicate FirstPlace(text: string, marker: string, p: nat) {
    p <= |text| && marker <= text[p..] && forall q: nat | q < p :: !(marker <= text[q..])
  }

  lemma StartsThere(text: string, marker: string, p: nat)
    requires p <= |text|
    ensures At(text, marker, p) <==> marker <= text[p..]
  {
    if p + |marker| <= |text| { assert text[p..][..|marker|] == text[p..p + |marker|]; }
  }

  lemma {:induction false} FirstIsFound(text: string, marker: string, start: nat, p: nat)
    requires start <= p && FirstPlace(text, marker, p)
    ensures Find(text, marker, start) == Some(p)
  {
    StartsThere(text, marker, p);
    forall q: nat | q < p ensures !At(text, marker, q) {
      StartsThere(text, marker, q);
      assert !(marker <= text[q..]);
    }
    hide At;
  }

  /** The bracket that opens a value of this kind. */
  function Bracket(opener: Kind): char { if opener == Brackets then '[' else '{' }

  lemma {:induction false} PlaceOf(before: string, marker: string, rest: string)
    ensures var text := before + marker + rest; At(text, marker, |before|) && text[|before| + |marker|..] == rest
  {
    var text := before + marker + rest;
    assert text[|before|..|before| + |marker|] == marker;
  }

  lemma {:induction false} BehindIsValue<V>(
      v: Json, before: string, marker: string, gap: string, after: string, opener: Kind, loads: string -> Option<V>)
    requires Ok(v) && (if opener == Brackets then v.Arr? else v.Obj?) && IsGap(gap)
    ensures var text := before + marker + (gap + (Print(v) + after));
            At(text, marker, |before|) && Behind(text, marker, |before|, opener, loads) == loads(Print(v))
  {
    PrintOpens(v);
    var p := Print(v);
    PlaceOf(before, marker, gap + (p + after));
    hide Print, Balanced, SkipGap, Ok, Behind, At;
    var text, front := before + marker + (gap + (p + after)), before + marker + gap;
    FourParts(before, marker, gap, p, after);
    GapIsSkipped(text, |before| + |marker|, gap, p + after);
    CutsExactlyTheValue(v, front, after, loads);
    BehindForm(text, marker, |before|, |front|, opener, loads);
  }

  lemma FourParts(before: string, marker: string, gap: string, p: string, after: string)
    requires p != ""
    ensures var text, front := before + marker + (gap + (p + after)), before + marker + gap;
            text == front + p + after && |front| < |text| && text[|front|] == p[0] && (p + after)[0] == p[0]
  {}

  lemma {:induction false} BehindForm<V>(
      text: string, marker: string, i: nat, j: nat, opener: Kind, loads: string -> Option<V>)
    requires At(text, marker, i) && SkipGap(text, i + |marker|) == j < |text| && text[j] == OpenOf(opener)
    ensures Behind(text, marker, i, opener, loads)
         == match Balanced(text, j, loads) case Parsed(v) => Some(v) case _ => None
  {
    hide Balanced, SkipGap;
  }

  lemma {:induction false} PrintOpens(v: Json)
    requires v.Arr? || v.Obj?
    ensures Print(v) != "" && Print(v)[0] == (if v.Arr? then '[' else '{')
  {}

  lemma {:induction false} BehindIsNothing<V>(
      before: string, marker: string, gap: string, rest: string, opener: Kind, loads: string -> Option<V>)
    requires IsGap(gap) && (rest == "" || rest[0] !in [' ', ':', '\n', '\t', '\r', Bracket(opener)])
    ensures var text := before + marker + (gap + rest);
            At(text, marker, |before|) && Behind(text, marker, |before|, opener, loads) == None
  {
    var text := before + marker + (gap + rest);
    PlaceOf(before, marker, gap + rest);
    GapIsSkipped(text, |before| + |marker|, gap, rest);
    hide Balanced, SkipGap;
    assert rest != "" ==> text[|before| + |marker| + |gap|] == rest[0];
  }

  /**
   The object or array of the wanted kind behind the first marker, after any colons and blanks, is what is returned:
   exactly its own text, parsed.
   */
  lemma {:induction false} FindsTheValue<V>(
      v: Json, before: string, marker: string, gap: string, after: string, opener: Kind, loads: string -> Option<V>)
    requires marker != "" && Ok(v) && (if opener == Brackets then v.Arr? else v.Obj?) && IsGap(gap)
    requires FirstPlace(before + marker + (gap + (Print(v) + after)), marker, |before|) && loads(Print(v)).Some?
    ensures var text := before + marker + (gap + (Print(v) + after));
            FirstBehind(text, marker, Visits(text, marker, 0), opener, loads) == loads(Print(v))
  {
    var text := before + marker + (gap + (Print(v) + after));
    BehindIsValue(v, before, marker, gap, after, opener, loads);
    FirstIsFound(text, marker, 0, |before|);
    hide Behind, Find, Visits;
    VisitFirst(text, marker, 0, opener, loads);
  }

  /** A first marker with anything else behind its gap gives nothing: the answer is that of the search after it. */
  lemma {:induction false} PassesOver<V>(
      before: string, marker: string, gap: string, rest: string, opener: Kind, loads: string -> Option<V>)
    requires marker != "" && IsGap(gap) && (rest == "" || rest[0] !in [' ', ':', '\n', '\t', '\r', Bracket(opener)])
    requires FirstPlace(before + marker + (gap + rest), marker, |before|)
    ensures var text := before + marker + (gap + rest);
            FirstBehind(text, marker, Visits(text, marker, 0), opener, loads)
              == FirstBehind(text, marker, Visits(text, marker, |before| + |marker|), opener, loads)
  {
    var text := before + marker + (gap + rest);
    hide Behind, Find, Visits, FirstBehind, SkipGap;
    BehindIsNothing(before, marker, gap, rest, opener, loads);
    FirstIsFound(text, marker, 0, |before|);
    VisitFirst(text, marker, 0, opener, loads);
  }

  /** No marker, no value. */
  lemma {:induction false} NoMarkerNoValue<V>(text: string, marker: string, opener: Kind, loads: string -> Option<V>)
    requires marker != "" && forall p: nat :: !At(text, marker, p)
    ensures FirstBehind(text, marker, Visits(text, marker, 0), opener, loads) == None
  {
    VisitNone(text, marker, 0, opener, loads);
  }

  /** What a search of the whole text is to answer. */
  ghost predicate Answers<V>(
      text: string, marker: string, opener: Kind, loads: string -> Option<V>, r: Option<V>)
  {
    && ((forall p: nat :: !At(text, marker, p)) ==> r == None)
    && forall v: Json, before, gap, after |
         && text == before + marker + (gap + (Print(v) + after)) && FirstPlace(text, marker, |before|)
         && IsGap(gap) && Ok(v) && (if opener == Brackets then v.Arr? else v.Obj?) && loads(Print(v)).Some? ::
           r == loads(Print(v))
  }

  lemma {:induction false} SearchAnswers<V>(text: string, marker: string, opener: Kind, loads: string -> Option<V>)
    requires marker != ""
    ensures Answers(text, marker, opener, loads, FirstBehind(text, marker, Visits(text, marker, 0), opener, loads))
  {
    hide Print, Ok, FirstBehind, Visits, IsGap;
    if forall p: nat :: !At(text, marker, p) { NoMarkerNoValue(text, marker, opener, loads); }
    forall v: Json, before, gap, after |
      && text == before + marker + (gap + (Print(v) + after)) && FirstPlace(text, marker, |before|)
      && IsGap(gap) && Ok(v) && (if opener == Brackets then v.Arr? else v.Obj?) && loads(Print(v)).Some?
      ensures FirstBehind(text, marker, Visits(text, marker, 0), opener, loads) == loads(Print(v))
    {
      FindsTheValue(v, before, marker, gap, after, opener, loads);
    }
  }

  /** `json_after`; the search moves on by the marker's length, so it ends for every non-empty marker. */
  method JsonAfter<V>(text: string, marker: string, opener: Kind, loads: string -> Option<V>) returns (r: Option<V>)
    requires marker != ""
    ensures r == FirstBehind(text, marker, Visits(text, marker, 0), opener, loads)
    ensures Answers(text, marker, opener, loads, r)
  {
    hide Find, Balanced, SkipGap, FirstBehind, Visits, Answers, At;
    SearchAnswers(text, marker, opener, loads);
    var start := 0;
    while true
      invariant FirstBehind(text, marker, Visits(text, marker, 0), opener, loads)
             == FirstBehind(text, marker, Visits(text, marker, start), opener, loads)
      decreases |text| - start
    {
      var found := Find(text, marker, start);
      if found == None {
        VisitNone(text, marker, start, opener, loads);
        return None;
      }
      var i := found.value;
      AtFits(text, marker, i);
      var j := SkipGap(text, i + |marker|);
      VisitFirst(text, marker, start, opener, loads);
      if j < |text| && text[j] == OpenOf(opener) {
        var value := BalancedJson(text, j, loads);
        if value.Parsed? {
          return Some(value.value);
        }
      }
      start := i + |marker|;
    }
  }

  /** What the result means: some visited occurrence has the value and none before it has any, or none has. */
  lemma {:induction false} FirstBehindMeans<V>(
      text: string, marker: string, at: seq<nat>, opener: Kind, loads: string -> Option<V>)
    requires forall n | 0 <= n < |at| :: At(text, marker, at[n])
    ensures match FirstBehind(text, marker, at, opener, loads)
            case None => forall n | 0 <= n < |at| :: Behind(text, marker, at[n], opener, loads) == None
            case Some(v) =>
              exists n: nat :: n < |at| && Behind(text, marker, at[n], opener, loads) == Some(v)
                && forall m | 0 <= m < n :: Behind(text, marker, at[m], opener, loads) == None
  {
    if at == [] {
    } else {
      FirstBehindMeans(text, marker, at[1..], opener, loads);
      var r := FirstBehind(text, marker, at, opener, loads);
      if Behind(text, marker, at[0], opener, loads) == None {
        if r.Some? {
          var n: nat :| n < |at[1..]| && Behind(text, marker, at[1..][n], opener, loads) == r
                        && forall m | 0 <= m < n :: Behind(text, marker, at[1..][m], opener, loads) == None;
          assert at[n + 1] == at[1..][n];
          assert forall m | 0 <= m < n + 1 :: Behind(text, marker, at[m], opener, loads) == None by {
            forall m | 0 <= m < n + 1 ensures Behind(text, marker, at[m], opener, loads) == None {
              if m > 0 { assert at[m] == at[1..][m - 1]; }
            }
          }
        } else {
          forall n | 0 <= n < |at| ensures Behind(text, marker, at[n], opener, loads) == None {
            if n > 0 { assert at[n] == at[1..][n - 1]; }
          }
        }
      }
    }
  }
}
