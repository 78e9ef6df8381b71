/** Localized price text to a number: the scanner, and that it inverts every grouped rendering of an amount. */
module ParseAmount {
  import opened Decimal
  import opened Options

  predicate IsSpace(c: char) {
    '\t' <= c <= '\r' || '\U{001C}' <= c <= ' ' || '\U{2000}' <= c <= '\U{200A}'
    || c in "\U{0085}\U{00A0}\U{1680}\U{2028}\U{2029}\U{202F}\U{205F}\U{3000}"
  }

  predicate IsDash(c: char) { c in "-\U{2212}\U{2013}" }

  predicate HasDash(s: string) { exists p :: 0 <= p < |s| && IsDash(s[p]) }

  /** What an amount may run through once its first digit is found. */
  predicate IsRun(c: char) { IsDigit(c) || c == '.' || c == ',' || IsSpace(c) }

  function FirstDigit(s: string): (i: nat)
    ensures i <= |s| && (forall p | 0 <= p < i :: !IsDigit(s[p])) && (i < |s| ==> IsDigit(s[i]))
  {
    if s == "" || IsDigit(s[0]) then 0 else 1 + FirstDigit(s[1..])
  }

  function Run(s: string): string {
    if s == "" || !IsRun(s[0]) then "" else [s[0]] + Run(s[1..])
  }

  function DropSpaces(s: string): string {
    if s == "" then "" else (if IsSpace(s[0]) then "" else [s[0]]) + DropSpaces(s[1..])
  }

  function Remove(s: string, c: char): string {
    if s == "" then "" else (if s[0] == c then "" else [s[0]]) + Remove(s[1..], c)
  }

  function Swap(s: string, c: char, d: char): string {
    if s == "" then "" else [if s[0] == c then d else s[0]] + Swap(s[1..], c, d)
  }

  function Occurs(s: string, c: char): nat {
    if s == "" then 0 else (if s[0] == c then 1 else 0) + Occurs(s[1..], c)
  }

  /** `rfind`, for a character that occurs. */
  function LastAt(s: string, c: char): (i: nat)
    requires c in s
    ensures i < |s| && s[i] == c && c !in s[i + 1..]
  {
    if s[|s| - 1] == c then |s| - 1
    else
      assert c in s[..|s| - 1];
      var i := LastAt(s[..|s| - 1], c);
      assert s[i + 1..] == s[..|s| - 1][i + 1..] + [s[|s| - 1]];
      i
  }

  function Pow10(n: nat): nat { if n == 0 then 1 else 10 * Pow10(n - 1) }

  lemma {:induction false} Pow10Positive(n: nat)
    ensures Pow10(n) > 0
  {
    if n == 0 {
    } else {
      Pow10Positive(n - 1);
    }
  }

  /** `float` on digits with at most one point; anything else is a ValueError. */
  function FloatOf(s: string): Option<real> {
    if '.' in s then
      var i := LastAt(s, '.');
      if s[..i] != "" && AllDigits(s[..i]) && AllDigits(s[i + 1..]) then
        Pow10Positive(|s| - i - 1);
        Some(NatOf(s[..i]) as real + NatOf(s[i + 1..]) as real / Pow10(|s| - i - 1) as real)
      else None
    else if s != "" && AllDigits(s) then Some(NatOf(s) as real)
    else None
  }

  /** Which of comma and dot groups, and which is the decimal point. */
  function Normalize(s: string): string {
    if ',' in s && '.' in s then
      if LastAt(s, ',') > LastAt(s, '.') then Swap(Remove(s, '.'), ',', '.') else Remove(s, ',')
    else if ',' in s then
      var i := LastAt(s, ',');
      if ',' !in s[..i] && (|s| - i - 1 == 1 || |s| - i - 1 == 2) then s[..i] + "." + s[i + 1..] else Remove(s, ',')
    else if Occurs(s, '.') > 1 || (Occurs(s, '.') == 1 && '.' in s && |s| - LastAt(s, '.') - 1 == 3) then Remove(s, '.')
    else s
  }

  /** `parse_amount`. */
  method ParseAmount(text: string) returns (r: Option<real>)
    ensures r == Amount(text)
  {
    hide IsDigit, HasDash, DropSpaces, Run, LastAt, Remove, Swap, Occurs, FloatOf;
    if text == "" {
      return None;
    }
    var i := FirstDigit(text);
    if i == |text| {
      return None;
    }
    var negative := HasDash(text[..i]);
    var s := DropSpaces(Run(text[i..]));
    if ',' in s && '.' in s {
      if LastAt(s, ',') > LastAt(s, '.') {
        s := Remove(s, '.');
        s := Swap(s, ',', '.');
      } else {
        s := Remove(s, ',');
      }
    } else if ',' in s {
      var at := LastAt(s, ',');
      var head, tail := s[..at], s[at + 1..];
      if ',' !in head && (|tail| == 1 || |tail| == 2) {
        s := head + "." + tail;
      } else {
        s := Remove(s, ',');
      }
    } else if Occurs(s, '.') > 1 || (Occurs(s, '.') == 1 && '.' in s && |s| - LastAt(s, '.') - 1 == 3) {
      s := Remove(s, '.');
    }
    var value := FloatOf(s);
    r := if value == None then None else Some(if negative then -value.value else value.value);
  }

  function Amount(text: string): Option<real> {
    var i := FirstDigit(text);
    if i == |text| then None
    else match FloatOf(Normalize(DropSpaces(Run(text[i..]))))
         case None => None
         case Some(v) => Some(if HasDash(text[..i]) then -v else v)
  }

  // --- how amounts are written ----------------------------------------------------------------

  function Pad3(n: nat): string
    requires n < 1000
  {
    [Digit(n / 100), Digit(n / 10 % 10), Digit(n % 10)]
  }

  function Pad2(n: nat): string
    requires n < 100
  {
    [Digit(n / 10), Digit(n % 10)]
  }

  function Grouped(n: nat, sep: char): string {
    if n < 1000 then Dec(n) else Grouped(n / 1000, sep) + [sep] + Pad3(n % 1000)
  }

  datatype Style = CommaDot | DotComma | Spaced(space: char, point: char)

  predicate StyleOk(style: Style) {
    style.Spaced? ==> IsSpace(style.space) && (style.point == '.' || style.point == ',')
  }

  function Sep(style: Style): char {
    match style case CommaDot => ',' case DotComma => '.' case Spaced(space, _) => space
  }

  function Point(style: Style): char {
    match style case CommaDot => '.' case DotComma => ',' case Spaced(_, point) => point
  }

  function Tail(cents: nat, style: Style, decimals: bool): string {
    if decimals then [Point(style)] + Pad2(cents % 100) else ""
  }

  /** Whole units only, or units and two-digit cents. */
  function Written(cents: nat, style: Style, decimals: bool): string {
    Grouped(cents / 100, Sep(style)) + Tail(cents, style, decimals)
  }

  // --- digits ---------------------------------------------------------------------------------

  lemma {:induction false} DecStep(n: nat)
    requires n >= 10
    ensures Dec(n) == Dec(n / 10) + [Digit(n % 10)]
  {
    hide Digit;
  }

  lemma ThousandsDigits(n: nat)
    requires n >= 1000
    ensures var a, b := n / 10, n / 100;
            && a / 10 == b && b / 10 == n / 1000 && b >= 10
            && n % 1000 / 100 == b % 10 && n % 1000 / 10 % 10 == a % 10 && n % 1000 % 10 == n % 10
  {}

  lemma OneByOne(s: string, x: char, y: char, z: char)
    ensures s + [x] + [y] + [z] == s + [x, y, z]
  {}

  lemma {:induction false} DecThousands(n: nat)
    requires n >= 1000
    ensures Dec(n) == Dec(n / 1000) + Pad3(n % 1000)
  {
    hide Dec, Digit;
    ThousandsDigits(n);
    DecStep(n);
    DecStep(n / 10);
    DecStep(n / 100);
    OneByOne(Dec(n / 1000), Digit(n / 100 % 10), Digit(n / 10 % 10), Digit(n % 10));
  }

  lemma {:induction false} RemoveConcat(a: string, b: string, c: char)
    ensures Remove(a + b, c) == Remove(a, c) + Remove(b, c)
  {
    if a == "" {
      assert a + b == b;
    } else {
      RemoveConcat(a[1..], b, c);
      assert a + b == [a[0]] + (a[1..] + b) && a == [a[0]] + a[1..];
      RemoveCons(a[0], a[1..] + b, c);
      RemoveCons(a[0], a[1..], c);
      hide Remove;
    }
  }

  lemma {:induction false} RemoveCons(x: char, s: string, c: char)
    ensures Remove([x] + s, c) == (if x == c then "" else [x]) + Remove(s, c)
  {
    assert ([x] + s)[1..] == s;
  }

  lemma {:induction false} RemoveAbsent(s: string, c: char)
    requires c !in s
    ensures Remove(s, c) == s
  {
    if s == "" {
    } else {
      assert s[0] in s && forall x | x in s[1..] :: x in s;
      RemoveAbsent(s[1..], c);
    }
  }

  predicate Separates(c: char) { !IsDigit(c) }

  /** A grouped number is digits and separators, and starts with a digit. */
  lemma {:induction false} GroupedShape(n: nat, sep: char)
    ensures var g := Grouped(n, sep);
            g != "" && IsDigit(g[0]) && forall i | 0 <= i < |g| :: IsDigit(g[i]) || g[i] == sep
  {
    hide Pad3;
    DecDigits(n);
    if n < 1000 {
    } else {
      GroupedShape(n / 1000, sep);
      PadDigits(n % 1000);
    }
  }

  lemma PadDigits(n: nat)
    requires n < 1000
    ensures |Pad3(n)| == 3 && AllDigits(Pad3(n))
  {}

  /** Without its separators it is the number's digits. */
  lemma {:induction false} GroupedRemove(n: nat, sep: char)
    requires Separates(sep)
    ensures Remove(Grouped(n, sep), sep) == Dec(n)
  {
    hide Pad3, Remove, Dec;
    DecDigits(n);
    if n < 1000 {
      RemoveAbsent(Dec(n), sep);
    } else {
      var head, tail := Grouped(n / 1000, sep), Pad3(n % 1000);
      GroupedRemove(n / 1000, sep);
      DecThousands(n);
      PadDigits(n % 1000);
      RemoveConcat(head + [sep], tail, sep);
      RemoveConcat(head, [sep], sep);
      RemoveAbsent(tail, sep);
      RemoveOne(sep);
      assert Dec(n / 1000) + "" == Dec(n / 1000);
    }
  }

  lemma {:induction false} RemoveOne(c: char)
    ensures Remove([c], c) == ""
  {
    assert Remove([c], c) == "" + Remove([c][1..], c);
  }

  /** The last separator, if there is one, stands before three digits. */
  lemma {:induction false} GroupedLast(n: nat, sep: char)
    requires Separates(sep)
    ensures sep in Grouped(n, sep) <==> n >= 1000
    ensures n >= 1000 ==> LastAt(Grouped(n, sep), sep) == |Grouped(n, sep)| - 4
  {
    hide Pad3, LastAt, Dec;
    DecDigits(n);
    if n >= 1000 {
      var head, tail := Grouped(n / 1000, sep), Pad3(n % 1000);
      PadDigits(n % 1000);
      LastInMiddle(head, sep, tail);
      assert Grouped(n, sep) == head + [sep] + tail;
    }
  }

  lemma {:induction false} LastInMiddle(head: string, c: char, tail: string)
    requires c !in tail
    ensures var s := head + [c] + tail; c in s && LastAt(s, c) == |head|
  {
    var s := head + [c] + tail;
    assert s[|head|] == c && s[|head| + 1..] == tail;
    LastIs(s, c, |head|);
  }

  lemma {:induction false} LastIs(s: string, c: char, i: nat)
    requires i < |s| && s[i] == c && c !in s[i + 1..]
    ensures c in s && LastAt(s, c) == i
  {
    var j := LastAt(s, c);
    assert forall p | i < p < |s| :: s[p] == s[i + 1..][p - i - 1];
    assert forall p | j < p < |s| :: s[p] == s[j + 1..][p - j - 1];
  }

  // --- the run and its blanks -------------------------------------------------------------------

  lemma {:induction false} RunTakes(s: string, rest: string)
    requires forall i | 0 <= i < |s| :: IsRun(s[i])
    requires rest == "" || !IsRun(rest[0])
    ensures Run(s + rest) == s
  {
    if s == "" {
      assert s + rest == rest;
    } else {
      RunTakes(s[1..], rest);
      assert (s + rest)[1..] == s[1..] + rest;
    }
  }

  lemma {:induction false} DropSpacesConcat(a: string, b: string)
    ensures DropSpaces(a + b) == DropSpaces(a) + DropSpaces(b)
  {
    if a == "" {
      assert a + b == b;
    } else {
      DropSpacesConcat(a[1..], b);
      assert a + b == [a[0]] + (a[1..] + b);
      DropSpacesCons(a[0], a[1..] + b);
      DropSpacesCons(a[0], a[1..]);
      assert a == [a[0]] + a[1..];
      hide DropSpaces, IsSpace;
    }
  }

  lemma {:induction false} DropSpacesCons(c: char, s: string)
    ensures DropSpaces([c] + s) == (if IsSpace(c) then "" else [c]) + DropSpaces(s)
  {
    hide IsSpace;
    assert ([c] + s)[1..] == s;
  }

  lemma {:induction false} DropSpacesOf(s: string)
    ensures (forall i | 0 <= i < |s| :: !IsSpace(s[i])) ==> DropSpaces(s) == s
    ensures (forall i | 0 <= i < |s| :: IsSpace(s[i])) ==> DropSpaces(s) == ""
  {
    if s == "" {
    } else {
      DropSpacesOf(s[1..]);
    }
  }

  /** When the separator is a blank, dropping blanks is removing the separator. */
  lemma {:induction false} DropIsRemove(s: string, space: char)
    requires IsSpace(space) && forall i | 0 <= i < |s| :: IsDigit(s[i]) || s[i] == space
    ensures DropSpaces(s) == Remove(s, space)
  {
    if s == "" {
    } else {
      DropIsRemove(s[1..], space);
    }
  }

  // --- the branches --------------------------------------------------------------------------------

  /** What is left of a written amount once blanks are gone. */
  function Squeezed(cents: nat, style: Style, decimals: bool): string {
    (if style.Spaced? then Dec(cents / 100) else Grouped(cents / 100, Sep(style))) + Tail(cents, style, decimals)
  }

  lemma SqueezeWritten(cents: nat, style: Style, decimals: bool)
    requires StyleOk(style)
    ensures DropSpaces(Written(cents, style, decimals)) == Squeezed(cents, style, decimals)
  {
    hide DropSpaces, Grouped, Dec, Pad2, IsSpace;
    var g, t := Grouped(cents / 100, Sep(style)), Tail(cents, style, decimals);
    DropSpacesConcat(g, t);
    TailHasNoSpace(cents, style, decimals);
    DropSpacesOf(t);
    SqueezeGrouped(cents / 100, style);
  }

  lemma TailHasNoSpace(cents: nat, style: Style, decimals: bool)
    requires StyleOk(style)
    ensures forall i | 0 <= i < |Tail(cents, style, decimals)| :: !IsSpace(Tail(cents, style, decimals)[i])
  {}

  lemma {:induction false} SqueezeGrouped(n: nat, style: Style)
    requires StyleOk(style)
    ensures DropSpaces(Grouped(n, Sep(style))) == if style.Spaced? then Dec(n) else Grouped(n, Sep(style))
  {
    hide DropSpaces, Grouped, Dec;
    var g := Grouped(n, Sep(style));
    GroupedShape(n, Sep(style));
    if style.Spaced? {
      SpaceSeparates(style.space);
      DropIsRemove(g, style.space);
      GroupedRemove(n, style.space);
    } else {
      DropSpacesOf(g);
    }
  }

  lemma SpaceSeparates(c: char)
    ensures IsSpace(c) ==> Separates(c)
  {}

  /** The plain form every branch arrives at. */
  function PlainForm(cents: nat, decimals: bool): string {
    Dec(cents / 100) + (if decimals then "." + Pad2(cents % 100) else "")
  }

  lemma {:induction false} OccursAbsent(s: string, c: char)
    ensures c !in s ==> Occurs(s, c) == 0
    ensures c in s ==> Occurs(s, c) >= 1
  {
    if s == "" {
    } else {
      OccursAbsent(s[1..], c);
      assert s == [s[0]] + s[1..];
    }
  }

  lemma {:induction false} OccursConcat(a: string, b: string, c: char)
    ensures Occurs(a + b, c) == Occurs(a, c) + Occurs(b, c)
  {
    if a == "" {
      assert a + b == b;
    } else {
      OccursConcat(a[1..], b, c);
      assert (a + b)[1..] == a[1..] + b;
    }
  }

  lemma {:induction false} SwapConcat(a: string, b: string, c: char, d: char)
    ensures Swap(a + b, c, d) == Swap(a, c, d) + Swap(b, c, d)
  {
    if a == "" {
      assert a + b == b;
    } else {
      SwapConcat(a[1..], b, c, d);
      assert (a + b)[1..] == a[1..] + b;
    }
  }

  lemma {:induction false} SwapAbsent(s: string, c: char, d: char)
    requires c !in s
    ensures Swap(s, c, d) == s
  {
    if s == "" {
    } else {
      assert s[0] in s && forall x | x in s[1..] :: x in s;
      SwapAbsent(s[1..], c, d);
    }
  }

  /** A number without decimals: one kind of separator at most, and a group of three after its last. */
  lemma {:induction false} NormalizeWhole(n: nat, sep: char)
    requires sep == ',' || sep == '.'
    ensures Normalize(Grouped(n, sep)) == Dec(n)
  {
    hide Grouped, Remove, Dec, LastAt, Swap, Occurs;
    var g := Grouped(n, sep);
    GroupedShape(n, sep);
    GroupedLast(n, sep);
    GroupedRemove(n, sep);
    OccursAbsent(g, '.');
    assert (if sep == ',' then '.' else ',') !in g;
    if n < 1000 { RemoveAbsent(g, sep); }
  }

  /** Separator and point both present, the point last: what the branch sees. */
  lemma {:induction false} BothPresent(n: nat, sep: char, point: char, tail: string)
    requires n >= 1000 && Separates(sep) && point != sep && AllDigits(tail)
    ensures var s := Grouped(n, sep) + ([point] + tail);
            && sep in s && point in s && LastAt(s, point) > LastAt(s, sep)
            && Remove(s, sep) == Dec(n) + ([point] + tail)
  {
    hide Grouped, Remove, LastAt, Dec;
    var g := Grouped(n, sep);
    var s := g + ([point] + tail);
    GroupedLast(n, sep);
    GroupedRemove(n, sep);
    RemoveConcat(g, [point] + tail, sep);
    RemoveAbsent([point] + tail, sep);
    PointIsLater(g, sep, [point] + tail);
    assert s[|g|] == point;
  }

  lemma {:induction false} PointIsLater(g: string, sep: char, rest: string)
    requires sep in g && sep !in rest && rest != ""
    ensures rest[0] !in rest[1..] ==> LastAt(g + rest, sep) < LastAt(g + rest, rest[0])
  {
    var s, at := g + rest, LastAt(g, sep);
    assert s[at + 1..] == g[at + 1..] + rest;
    LastIs(s, sep, at);
    if rest[0] !in rest[1..] {
      assert s[|g|] == rest[0] && s[|g| + 1..] == rest[1..];
      LastIs(s, rest[0], |g|);
    }
  }

  lemma {:induction false} SwapPoint(digits: string, tail: string)
    requires AllDigits(digits) && AllDigits(tail)
    ensures Swap(digits + ([','] + tail), ',', '.') == digits + ("." + tail)
  {
    hide Swap;
    SwapConcat(digits, [','] + tail, ',', '.');
    SwapAbsent(digits, ',', '.');
    SwapConcat([','], tail, ',', '.');
    SwapAbsent(tail, ',', '.');
    SwapOne(',', '.');
  }

  lemma {:induction false} SwapOne(c: char, d: char)
    ensures Swap([c], c, d) == [d]
  {
    assert Swap([c], c, d) == [d] + Swap([c][1..], c, d);
  }

  lemma {:induction false} NormalizeBoth(n: nat, sep: char, point: char, tail: string)
    requires n >= 1000 && ((sep == ',' && point == '.') || (sep == '.' && point == ','))
    requires AllDigits(tail)
    ensures Normalize(Grouped(n, sep) + ([point] + tail)) == Dec(n) + ("." + tail)
  {
    hide Grouped, Remove, LastAt, Dec, Swap, Occurs;
    BothPresent(n, sep, point, tail);
    DecDigits(n);
    SwapPoint(Dec(n), tail);
  }

  /** Digits, a point of either kind, and two digits. */
  lemma NormalizePlain(digits: string, point: char, tail: string)
    requires digits != "" && AllDigits(digits) && AllDigits(tail) && |tail| == 2 && (point == '.' || point == ',')
    ensures Normalize(digits + ([point] + tail)) == digits + ("." + tail)
  {
    hide LastAt, Occurs, Remove, Swap;
    var s := digits + ([point] + tail);
    assert s == digits + [point] + tail;
    LastInMiddle(digits, point, tail);
    assert s[|digits| + 1..] == tail && s[..|digits|] == digits;
    assert (if point == ',' then '.' else ',') !in s && point !in digits;
    if point == ',' {
      assert digits + "." + tail == digits + ("." + tail);
    } else {
      OneDot(digits, tail);
    }
  }

  lemma {:induction false} OneDot(digits: string, tail: string)
    requires AllDigits(digits) && AllDigits(tail)
    ensures Occurs(digits + (['.'] + tail), '.') == 1
  {
    hide Occurs;
    OccursConcat(digits, ['.'] + tail, '.');
    OccursAbsent(digits, '.');
    OccursConcat(['.'], tail, '.');
    OccursAbsent(tail, '.');
    OccursOne('.');
  }

  lemma {:induction false} OccursOne(c: char)
    ensures Occurs([c], c) == 1
  {
    assert Occurs([c], c) == 1 + Occurs([c][1..], c);
  }

  lemma NormalizeWritten(cents: nat, style: Style, decimals: bool)
    requires StyleOk(style)
    ensures Normalize(Squeezed(cents, style, decimals)) == PlainForm(cents, decimals)
  {
    hide Normalize, Dec, Grouped, Pad2;
    var n, tail := cents / 100, Pad2(cents % 100);
    DecDigits(n);
    TailValue(cents % 100);
    if !decimals {
      NormalizeUnits(n, style);
    } else if style.Spaced? || n < 1000 {
      GroupedSmall(n, Sep(style));
      NormalizePlain(Dec(n), Point(style), tail);
    } else {
      NormalizeBoth(n, Sep(style), Point(style), tail);
    }
  }

  lemma {:induction false} GroupedSmall(n: nat, sep: char)
    ensures n < 1000 ==> Grouped(n, sep) == Dec(n)
  {}

  lemma {:induction false} NormalizeUnits(n: nat, style: Style)
    requires StyleOk(style)
    ensures Normalize((if style.Spaced? then Dec(n) else Grouped(n, Sep(style))) + "") == Dec(n) + ""
  {
    hide Dec, Grouped, LastAt, Remove, Swap;
    DecDigits(n);
    assert Dec(n) + "" == Dec(n);
    if style.Spaced? {
      OccursAbsent(Dec(n), '.');
    } else {
      hide Normalize;
      NormalizeWhole(n, Sep(style));
      assert Grouped(n, Sep(style)) + "" == Grouped(n, Sep(style));
    }
  }

  lemma FloatOfPlain(cents: nat, decimals: bool)
    requires decimals || cents % 100 == 0
    ensures FloatOf(PlainForm(cents, decimals)) == Some(cents as real / 100.0)
  {
    hide Dec, NatOf, Pow10, LastAt, Pad2;
    var n, tail := cents / 100, Pad2(cents % 100);
    var s := PlainForm(cents, decimals);
    DecDigits(n);
    TailValue(cents % 100);
    assert cents == 100 * n + cents % 100;
    if decimals {
      assert s == Dec(n) + ['.'] + tail;
      LastInMiddle(Dec(n), '.', tail);
      assert s[|Dec(n)| + 1..] == tail && s[..|Dec(n)|] == Dec(n);
    } else {
      assert s == Dec(n);
    }
  }

  lemma TailValue(c: nat)
    requires c < 100
    ensures AllDigits(Pad2(c)) && |Pad2(c)| == 2 && NatOf(Pad2(c)) == c && Pow10(2) == 100
  {
    var s := Pad2(c);
    assert s[..1] == [Digit(c / 10)] && s[..1][..0] == "";
    assert NatOf(s[..1]) == c / 10;
    assert Pow10(2) == 10 * Pow10(1) && Pow10(1) == 10 * Pow10(0);
  }

  predicate DigitFree(s: string) { forall i | 0 <= i < |s| :: !IsDigit(s[i]) }

  predicate Blank(s: string) { forall i | 0 <= i < |s| :: IsSpace(s[i]) }

  predicate AllRun(s: string) { forall i | 0 <= i < |s| :: IsRun(s[i]) }

  /** What stands after a number does not go on like one. */
  predicate Ends(after: string) { after == "" || !IsRun(after[0]) }

  lemma {:induction false} FirstDigitAfter(before: string, rest: string)
    requires DigitFree(before) && rest != "" && IsDigit(rest[0])
    ensures FirstDigit(before + rest) == |before|
  {
    hide FirstDigit, IsDigit;
    var text := before + rest;
    assert forall p | 0 <= p < |before| :: text[p] == before[p];
    assert text[|before|] == rest[0];
  }

  function Signed(value: Option<real>, negative: bool): Option<real> {
    match value case None => None case Some(v) => Some(if negative then -v else v)
  }

  /** Digit-free text, then a run that starts with a digit, then the end of it. */
  lemma {:induction false} AmountOfRun(before: string, run: string, after: string)
    requires DigitFree(before) && run != "" && IsDigit(run[0]) && AllRun(run) && Ends(after)
    ensures Amount(before + (run + after)) == Signed(FloatOf(Normalize(DropSpaces(run))), HasDash(before))
  {
    hide Normalize, FloatOf, DropSpaces, Run, FirstDigit, IsDigit, IsDash, IsRun;
    var text := before + (run + after);
    FirstDigitAfter(before, run + after);
    assert text[|before|..] == run + after && text[..|before|] == before;
    RunTakes(run, after);
  }

  lemma WrittenShape(cents: nat, style: Style, decimals: bool)
    requires StyleOk(style)
    ensures var w := Written(cents, style, decimals); w != "" && IsDigit(w[0]) && AllRun(w)
  {
    hide Grouped, IsSpace;
    GroupedShape(cents / 100, Sep(style));
  }

  /**
   Every amount in cents comes back exactly from every way it is written: grouped by commas, dots or blanks,
   with or without two decimals, after any digit-free text (a dash there makes it negative) and before any
   blanks and text that does not go on like a number.
   */
  lemma AmountRecovered(cents: nat, style: Style, decimals: bool, before: string, blanks: string, after: string)
    requires StyleOk(style) && (decimals || cents % 100 == 0)
    requires DigitFree(before) && Blank(blanks) && Ends(after)
    ensures Amount(before + (Written(cents, style, decimals) + blanks + after))
         == Some(if HasDash(before) then -(cents as real / 100.0) else cents as real / 100.0)
  {
    hide Amount, Normalize, FloatOf, DropSpaces, Written, Squeezed, IsDigit, IsSpace, PlainForm, DigitFree, HasDash;
    var w := Written(cents, style, decimals);
    WrittenShape(cents, style, decimals);
    SqueezeWritten(cents, style, decimals);
    DropSpacesConcat(w, blanks);
    DropSpacesOf(blanks);
    assert Squeezed(cents, style, decimals) + "" == Squeezed(cents, style, decimals);
    NormalizeWritten(cents, style, decimals);
    FloatOfPlain(cents, decimals);
    AmountOfRun(before, w + blanks, after);
  }

  // --- the characters themselves ---------------------------------------------------------------

  /** An amount is negative exactly after a hyphen, a minus sign or an en dash. */
  lemma DashIsOneOfThree(before: string)
    ensures HasDash(before) <==> '-' in before || '\U{2212}' in before || '\U{2013}' in before
  {
    if '-' in before || '\U{2212}' in before || '\U{2013}' in before {
      var p :| 0 <= p < |before| && before[p] in ['-', '\U{2212}', '\U{2013}'];
      assert IsDash(before[p]);
    }
    if HasDash(before) {
      var p :| 0 <= p < |before| && IsDash(before[p]);
      assert before[p] in before;
    }
  }

  /** Blanks, no-break spaces and thin spaces group digits; letters, signs and digits are none of them. */
  lemma GroupingSpaces(c: char)
    ensures c in [' ', '\U{00A0}', '\U{202F}', '\U{2009}', '\t'] ==> IsSpace(c)
    ensures '!' <= c <= '~' ==> !IsSpace(c)
  {
  }
}
