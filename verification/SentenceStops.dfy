/**
 A price at the end of a sentence or clause: a full stop or comma right after it belongs to what the price parser
 reads. The amount survives exactly when it is written without decimals or is zero.
 */
module SentenceStops {
  import opened Decimal
  import opened Options
  import opened ParseAmount

  // --- a trailing stop, branch by branch -------------------------------------------------------

  /** With a comma before it the stop counts as the decimal point. */
  lemma {:induction false} StopAfterComma(t: string)
    requires ',' in t
    ensures Normalize(t + ".") == Remove(t, ',') + "."
  {
    hide LastAt, Remove, Swap, Occurs;
    var s, at := t + ".", LastAt(t, ',');
    assert s[at + 1..] == t[at + 1..] + ".";
    LastIs(s, ',', at);
    assert s[|t|] == '.' && s[|t| + 1..] == "";
    LastIs(s, '.', |t|);
    RemoveConcat(t, ".", ',');
    RemoveAbsent(".", ',');
  }

  /** Without a comma it is one grouping dot more, or the only dot. */
  lemma {:induction false} StopWithoutComma(t: string)
    requires ',' !in t
    ensures Normalize(t + ".") == if '.' in t then Remove(t, '.') else t + "."
  {
    hide LastAt, Remove, Swap, Occurs;
    var s := t + ".";
    assert s[|t|] == '.' && s[|t| + 1..] == "";
    LastIs(s, '.', |t|);
    OccursConcat(t, ".", '.');
    OccursOne('.');
    OccursAbsent(t, '.');
    RemoveConcat(t, ".", '.');
    RemoveOne('.');
    assert Remove(t, '.') + "" == Remove(t, '.');
    assert ',' !in s;
  }

  /** A comma after a dot counts as the decimal point, and so do all commas. */
  lemma {:induction false} CommaAfterDot(t: string)
    requires '.' in t
    ensures Normalize(t + ",") == Swap(Remove(t, '.'), ',', '.') + "."
  {
    hide LastAt, Remove, Swap, Occurs;
    var s, at := t + ",", LastAt(t, '.');
    assert s[at + 1..] == t[at + 1..] + ",";
    LastIs(s, '.', at);
    assert s[|t|] == ',' && s[|t| + 1..] == "";
    LastIs(s, ',', |t|);
    RemoveConcat(t, ",", '.');
    RemoveAbsent(",", '.');
    SwapConcat(Remove(t, '.'), ",", ',', '.');
    SwapOne(',', '.');
  }

  /** Without a dot it is dropped, with all the others. */
  lemma {:induction false} CommaWithoutDot(t: string)
    requires '.' !in t
    ensures Normalize(t + ",") == Remove(t, ',')
  {
    hide LastAt, Remove, Swap, Occurs;
    var s := t + ",";
    assert s[|t|] == ',' && s[|t| + 1..] == "";
    LastIs(s, ',', |t|);
    RemoveConcat(t, ",", ',');
    RemoveOne(',');
    assert Remove(t, ',') + "" == Remove(t, ',');
    assert '.' !in s;
  }

  lemma {:induction false} SwapAt(s: string, c: char, d: char, i: nat)
    requires i < |s| && s[i] == c
    ensures d in Swap(s, c, d)
  {
    hide Swap;
    assert s == s[..i] + ([c] + s[i + 1..]);
    SwapConcat(s[..i], [c] + s[i + 1..], c, d);
    SwapConcat([c], s[i + 1..], c, d);
    SwapOne(c, d);
    assert Swap(s, c, d)[|Swap(s[..i], c, d)|] == d;
  }

  /** A number may end with its decimal point. */
  lemma {:induction false} FloatOfStop(d: string)
    ensures FloatOf(d + ".") == if d != "" && AllDigits(d) then Some(NatOf(d) as real) else None
  {
    hide NatOf, LastAt;
    var s := d + ".";
    assert s[|d|] == '.' && s[|d| + 1..] == "" && s[..|d|] == d;
    LastIs(s, '.', |d|);
    assert Pow10(0) == 1 && NatOf("") == 0 by { ReadsNothing(); }
  }

  lemma ReadsNothing()
    ensures Pow10(0) == 1 && NatOf("") == 0
  {}

  lemma {:induction false} TwoMoreDigits(n: nat, c: nat)
    requires c < 100
    ensures AllDigits(Dec(n) + Pad2(c)) && NatOf(Dec(n) + Pad2(c)) == 100 * n + c
  {
    DecDigits(n);
    hide Dec;
    var d := Dec(n);
    var s, t := d + Pad2(c), d + [Digit(c / 10)];
    assert s[..|s| - 1] == t && t[..|t| - 1] == d;
    assert NatOf(t) == 10 * n + c / 10;
  }

  // --- amounts --------------------------------------------------------------------------------

  predicate IsMark(c: char) { c == '.' || c == ',' }

  /** What is read when a full stop or comma follows a written amount. */
  function Stopped(cents: nat, style: Style, decimals: bool, mark: char): Option<real> {
    FloatOf(Normalize(Squeezed(cents, style, decimals) + [mark]))
  }

  /** The separator that survives the dropping of blanks, if the number is long enough to have one. */
  function Body(n: nat, style: Style): string { if style.Spaced? then Dec(n) else Grouped(n, Sep(style)) }

  lemma {:induction false} BodyFacts(n: nat, style: Style)
    requires StyleOk(style)
    ensures var b := Body(n, style);
            && ((style.Spaced? || n < 1000) ==> b == Dec(n) && AllDigits(b) && b != "")
            && (!style.Spaced? && n >= 1000 ==> Sep(style) in b && Remove(b, Sep(style)) == Dec(n))
            && (',' in b ==> style.CommaDot? && n >= 1000) && ('.' in b ==> style.DotComma? && n >= 1000)
  {
    hide Grouped, Dec, Remove;
    DecDigits(n);
    if !style.Spaced? {
      GroupedShape(n, Sep(style));
      GroupedSmall(n, Sep(style));
      GroupedLast(n, Sep(style));
      GroupedRemove(n, Sep(style));
    }
  }

  /** Without decimals the whole amount is read, whatever the style. */
  lemma StoppedWhole(cents: nat, style: Style, mark: char)
    requires StyleOk(style) && IsMark(mark)
    ensures Stopped(cents, style, false, mark) == Some((cents / 100) as real)
  {
    hide Normalize, FloatOf, Remove, Swap, Dec, Grouped, NatOf, Body;
    var n := cents / 100;
    var b := Body(n, style);
    assert Squeezed(cents, style, false) == b by { BodyIsSqueezed(cents, style); }
    BodyFacts(n, style);
    DecDigits(n);
    FloatOfStop(Dec(n));
    FloatOfDigits(n);
    assert [mark] == "." || [mark] == ",";
    if mark == '.' {
      if ',' in b { StopAfterComma(b); } else { StopWithoutComma(b); }
    } else if '.' in b {
      CommaAfterDot(b);
      SwapAbsent(Dec(n), ',', '.');
    } else {
      CommaWithoutDot(b);
      if ',' !in b { RemoveAbsent(b, ','); }
    }
  }

  lemma BodyIsSqueezed(cents: nat, style: Style)
    ensures Squeezed(cents, style, false) == Body(cents / 100, style)
    ensures Squeezed(cents, style, true) == Body(cents / 100, style) + ([Point(style)] + Pad2(cents % 100))
  {
    hide Dec, Grouped, Pad2;
    assert Body(cents / 100, style) + "" == Body(cents / 100, style);
  }

  lemma {:induction false} FloatOfDigits(n: nat)
    ensures FloatOf(Dec(n)) == Some(n as real)
  {
    DecDigits(n);
    hide Dec, NatOf, LastAt;
  }

  /** With decimals the points are lost: a hundredfold amount is read, or with separators in it none. */
  lemma StoppedDecimals(cents: nat, style: Style, mark: char)
    requires StyleOk(style) && IsMark(mark)
    ensures Stopped(cents, style, true, mark) == if style.Spaced? || cents < 100_000 then Some(cents as real) else None
  {
    hide Normalize, FloatOf, Remove, Dec, Grouped, NatOf, Body, Pad2;
    var n, tail := cents / 100, Pad2(cents % 100);
    var b := Body(n, style);
    BodyIsSqueezed(cents, style);
    BodyFacts(n, style);
    TailValue(cents % 100);
    if style.Spaced? || n < 1000 {
      StoppedShort(n, Point(style), cents % 100, mark);
    } else {
      if mark == '.' {
        StoppedLong(b, Sep(style), Point(style), tail, n);
      } else {
        StoppedLongComma(b, Sep(style), Point(style), tail, n);
      }
      assert [mark] == "." || [mark] == ",";
    }
  }

  lemma {:induction false} StoppedShort(n: nat, point: char, c: nat, mark: char)
    requires c < 100 && IsMark(point) && IsMark(mark)
    ensures FloatOf(Normalize(Dec(n) + ([point] + Pad2(c)) + [mark])) == Some((100 * n + c) as real)
  {
    hide Normalize, FloatOf, Remove, Swap, Dec, NatOf, Pad2;
    var d, tail := Dec(n), Pad2(c);
    DecDigits(n);
    TailValue(c);
    TwoMoreDigits(n, c);
    var t := d + ([point] + tail);
    assert t[|d|] == point;
    RemoveConcat(d, [point] + tail, point);
    RemoveConcat([point], tail, point);
    RemoveAbsent(d, point);
    RemoveAbsent(tail, point);
    RemoveOne(point);
    assert "" + tail == tail;
    FloatOfStop(d + tail);
    FloatOfAll(d + tail);
    if mark == '.' {
      if point == ',' { StopAfterComma(t); } else { StopWithoutComma(t); }
    } else if point == '.' {
      CommaAfterDot(t);
      SwapAbsent(d + tail, ',', '.');
    } else {
      CommaWithoutDot(t);
    }
  }

  lemma {:induction false} FloatOfAll(s: string)
    requires s != "" && AllDigits(s)
    ensures FloatOf(s) == Some(NatOf(s) as real)
  {
    hide NatOf, LastAt;
  }

  lemma {:induction false} StoppedLong(b: string, sep: char, point: char, tail: string, n: nat)
    requires (sep == ',' && point == '.') || (sep == '.' && point == ',')
    requires sep in b && point !in b && Remove(b, sep) == Dec(n) && AllDigits(tail)
    ensures FloatOf(Normalize(b + ([point] + tail) + ".")) == None
  {
    hide Normalize, FloatOf, Remove, Dec;
    var t := b + ([point] + tail);
    assert t[|b|] == point;
    var at :| 0 <= at < |b| && b[at] == sep;
    assert t[at] == sep;
    StopAfterComma(t);
    RemoveConcat(b, [point] + tail, ',');
    FloatOfStop(Remove(t, ','));
    if sep == ',' {
      RemoveAbsent([point] + tail, ',');
      assert Remove(t, ',')[|Dec(n)|] == '.';
    } else {
      RemoveAbsent(b, ',');
      assert Remove(t, ',')[at] == '.';
    }
  }

  lemma {:induction false} StoppedLongComma(b: string, sep: char, point: char, tail: string, n: nat)
    requires (sep == ',' && point == '.') || (sep == '.' && point == ',')
    requires sep in b && point !in b && Remove(b, sep) == Dec(n) && AllDigits(tail)
    ensures FloatOf(Normalize(b + ([point] + tail) + ",")) == None
  {
    hide Normalize, FloatOf, Remove, Swap, Dec;
    var t := b + ([point] + tail);
    assert t[|b|] == point;
    var at :| 0 <= at < |b| && b[at] == sep;
    assert t[at] == sep;
    CommaAfterDot(t);
    RemoveConcat(b, [point] + tail, '.');
    if sep == ',' {
      RemoveAbsent(b, '.');
      assert Remove(t, '.')[at] == ',';
      SwapAt(Remove(t, '.'), ',', '.', at);
    } else {
      RemoveAbsent([point] + tail, '.');
      assert Remove(t, '.')[|Dec(n)|] == ',';
      SwapAt(Remove(t, '.'), ',', '.', |Dec(n)|);
    }
    FloatOfStop(Swap(Remove(t, '.'), ',', '.'));
  }

  /**
   A full stop or comma after an amount, with any blanks around it: the amount comes back if and only if it has no
   decimals or is zero. This holds in every style, after any digit-free text.
   */
  lemma StopRecoversExactly(
      cents: nat, style: Style, decimals: bool, before: string, blanks: string, mark: char, more: string,
      after: string)
    requires StyleOk(style) && (decimals || cents % 100 == 0) && IsMark(mark)
    requires DigitFree(before) && Blank(blanks) && Blank(more) && Ends(after)
    ensures var value := cents as real / 100.0;
            Amount(before + (Written(cents, style, decimals) + blanks + [mark] + more + after))
              == Some(if HasDash(before) then -value else value)
            <==> !decimals || cents == 0
  {
    hide Amount, Normalize, FloatOf, DropSpaces, Written, Squeezed, Stopped;
    hide IsDigit, IsSpace, IsRun, DigitFree, HasDash, Blank, AllRun, Ends, StyleOk;
    var run := Written(cents, style, decimals) + blanks + [mark] + more;
    StoppedRun(cents, style, decimals, blanks, mark, more);
    AmountOfRun(before, run, after);
    if decimals { StoppedDecimals(cents, style, mark); } else { StoppedWhole(cents, style, mark); }
    assert !decimals ==> (cents / 100) as real == cents as real / 100.0;
  }

  lemma StoppedRun(cents: nat, style: Style, decimals: bool, blanks: string, mark: char, more: string)
    requires IsMark(mark) && StyleOk(style) && Blank(blanks) && Blank(more)
    ensures var run := Written(cents, style, decimals) + blanks + [mark] + more;
            && run != "" && IsDigit(run[0]) && AllRun(run)
            && FloatOf(Normalize(DropSpaces(run))) == Stopped(cents, style, decimals, mark)
  {
    hide Normalize, FloatOf, DropSpaces, Written, Squeezed, IsDigit, IsSpace;
    var w := Written(cents, style, decimals);
    WrittenShape(cents, style, decimals);
    SqueezeWritten(cents, style, decimals);
    DropSpacesConcat(w + blanks + [mark], more);
    DropSpacesConcat(w + blanks, [mark]);
    DropSpacesConcat(w, blanks);
    DropSpacesOf(blanks);
    DropSpacesOf(more);
    MarkStays(mark);
    var q := Squeezed(cents, style, decimals);
    assert q + "" + [mark] + "" == q + [mark];
    assert (w + blanks + [mark] + more)[0] == w[0];
  }

  lemma MarkStays(mark: char)
    requires IsMark(mark)
    ensures DropSpaces([mark]) == [mark]
  {
    DropSpacesOf([mark]);
  }

  /** For example, "12.34." and "12.34," are read as 1234. */
  lemma SentenceDotMisread(mark: char)
    requires IsMark(mark)
    ensures Amount("12.34" + [mark]) == Some(1234.0)
  {
    hide Amount, Normalize, FloatOf, DropSpaces, Written, Squeezed, IsSpace, HasDash, Stopped, Pad2, Dec;
    var w := Written(1234, CommaDot, true);
    StoppedRun(1234, CommaDot, true, "", mark, "");
    AmountOfRun("", w + "" + [mark] + "", "");
    StoppedDecimals(1234, CommaDot, mark);
    TwelveThirtyFour();
    assert "" + (w + "" + [mark] + "" + "") == "12.34" + [mark];
    assert !HasDash("") by { NoDash(); }
  }

  lemma NoDash()
    ensures !HasDash("")
  {}

  lemma TwelveThirtyFour()
    ensures Written(1234, CommaDot, true) == "12.34"
  {
    assert Dec(12) == Dec(1) + "2" && Dec(1) == "1";
    assert Tail(1234, CommaDot, true) == "." + Pad2(34);
  }
}
