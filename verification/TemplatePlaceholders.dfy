/**
 When the last stripping pass leaves a placeholder behind: exactly when one was wrapped
 around the placeholders that the pass removes, on every string whatever.
 */
module TemplatePlaceholders {
  import opened ListingTemplate
  import opened Strings

  /** `{{[^{}]*}}` at the start: its length, or 0. */
  function Placeholder(s: string): (n: nat)
    ensures n <= |s|
  {
    BracedLength(s, "{{", "}}")
  }

  ghost predicate HasPlaceholder(s: string) {
    exists i | 0 <= i <= |s| :: Placeholder(s[i..]) > 0
  }

  /** What follows the whole placeholders at the start. */
  function PastPlaceholders(s: string): (t: string)
    ensures |t| <= |s|
  {
    if Placeholder(s) > 0 then PastPlaceholders(s[Placeholder(s)..]) else s
  }

  /** What follows the whole placeholders and the characters other than braces at the start. */
  function PastInside(s: string): (t: string)
    ensures |t| <= |s|
  {
    if Placeholder(s) > 0 then PastInside(s[Placeholder(s)..])
    else if s != "" && s[0] != '{' && s[0] != '}' then PastInside(s[1..])
    else s
  }

  predicate StartsWith(s: string, c: char) { s != "" && s[0] == c }

  /**
   No placeholder starts here, but the braces of one do, once the whole placeholders between and inside them are
   passed over.
   */
  predicate Wrapper(s: string) {
    && Placeholder(s) == 0
    && StartsWith(s, '{')
    && var a := PastPlaceholders(s[1..]);
    && StartsWith(a, '{')
    && var b := PastInside(a[1..]);
    && StartsWith(b, '}')
    && StartsWith(PastPlaceholders(b[1..]), '}')
  }

  ghost predicate HasWrapper(s: string) {
    exists i | 0 <= i <= |s| :: Wrapper(s[i..])
  }

  // --- how a wrapper is written -----------------------------------------------------------------

  predicate OnlyPlaceholders(s: string) { PastPlaceholders(s) == "" }

  predicate OnlyInside(s: string) { PastInside(s) == "" }

  /** The four braces of a wrapper with what stands between them; some placeholder is among it. */
  ghost predicate Parts(s: string, w: string, m: string, v: string, rest: string) {
    && s == "{" + (w + ("{" + (m + ("}" + (v + ("}" + rest))))))
    && OnlyPlaceholders(w) && OnlyInside(m) && OnlyPlaceholders(v)
    && !(w == "" && v == "" && BraceFreeRun(m) == |m|)
  }

  // --- what the pass does -------------------------------------------------------------------------

  const DOUBLE: Pattern := Braced("{{", "}}")

  function Erased(s: string): string {
    if s == "" then ""
    else if Placeholder(s) > 0 then Erased(s[Placeholder(s)..])
    else [s[0]] + Erased(s[1..])
  }

  lemma {:induction false} PassErases(before: string, s: string)
    ensures ReplaceAll(before, s, DOUBLE, Literal("")) == Erased(s)
    decreases |s|
  {
    hide BracedLength;
    if s == "" {
    } else if Placeholder(s) > 0 {
      var n := Placeholder(s);
      PassErases(before + s[..n], s[n..]);
    } else {
      PassErases(before + [s[0]], s[1..]);
    }
  }

  /** Nothing erased at the start: the first character stays. */
  lemma {:induction false} HeadStays(s: string)
    requires Placeholder(s) == 0
    ensures s == "" ==> Erased(s) == ""
    ensures s != "" ==> Erased(s) == [s[0]] + Erased(s[1..]) && Erased(s)[1..] == Erased(s[1..])
    ensures forall c :: StartsWith(Erased(s), c) <==> StartsWith(s, c)
  {
    hide BracedLength;
  }

  lemma {:induction false} ChainErases(s: string)
    ensures Erased(s) == Erased(PastPlaceholders(s)) && Placeholder(PastPlaceholders(s)) == 0
  {
    hide BracedLength;
    if Placeholder(s) > 0 {
      ChainErases(s[Placeholder(s)..]);
      assert s != "" by { EmptyHasNone(); }
    }
  }

  lemma EmptyHasNone()
    ensures Placeholder("") == 0
  {}

  lemma {:induction false} InsideErases(s: string)
    ensures var t, e := PastInside(s), Erased(s);
            Placeholder(t) == 0 && (t == "" || t[0] == '{' || t[0] == '}') && e[BraceFreeRun(e)..] == Erased(t)
  {
    hide BracedLength;
    EmptyHasNone();
    if Placeholder(s) > 0 {
      InsideErases(s[Placeholder(s)..]);
    } else if s != "" && s[0] != '{' && s[0] != '}' {
      InsideErases(s[1..]);
      HeadStays(s);
    } else {
      HeadStays(s);
    }
  }

  /** Where none started before the pass, one starts after it if and only if the pass laid it bare. */
  lemma {:induction false} LaidBare(s: string)
    requires Placeholder(s) == 0
    ensures Placeholder(Erased(s)) > 0 <==> Wrapper(s)
  {
    hide BracedLength, PastPlaceholders, PastInside, Erased;
    HeadStays(s);
    StartsIff(Erased(s));
    if StartsWith(s, '{') {
      var a := PastPlaceholders(s[1..]);
      ChainErases(s[1..]);
      HeadStays(a);
      if StartsWith(a, '{') {
        assert Erased(s)[2..] == Erased(a)[1..] == Erased(a[1..]);
        InsideErases(a[1..]);
        var b := PastInside(a[1..]);
        HeadStays(b);
        if StartsWith(b, '}') {
          ChainErases(b[1..]);
          HeadStays(PastPlaceholders(b[1..]));
        }
      }
    }
  }

  /** A placeholder, brace by brace. */
  lemma StartsIff(s: string)
    ensures Placeholder(s) > 0 <==>
              && StartsWith(s, '{') && StartsWith(s[1..], '{')
              && var t := s[2..][BraceFreeRun(s[2..])..];
                 StartsWith(t, '}') && StartsWith(t[1..], '}')
  {
    if StartsWith(s, '{') && StartsWith(s[1..], '{') {
      assert "{{" <= s;
      var n := 2 + BraceFreeRun(s[2..]);
      assert s[n..] == s[2..][BraceFreeRun(s[2..])..];
      assert |s[n..]| >= 2 ==> s[n..][1] == s[n..][1..][0];
    } else {
      assert !("{{" <= s);
    }
  }

  lemma {:induction false} RunIsFree(s: string)
    ensures forall j | 0 <= j < BraceFreeRun(s) :: s[j] != '{' && s[j] != '}'
  {
    if s == "" || s[0] == '{' || s[0] == '}' {
    } else {
      RunIsFree(s[1..]);
      assert forall j | 0 < j < BraceFreeRun(s) :: s[j] == s[1..][j - 1];
    }
  }

  /** Placeholders never overlap, and no wrapper starts inside one. */
  lemma {:induction false} NothingInside(s: string, i: nat)
    requires i < Placeholder(s)
    ensures !Wrapper(s[i..]) && (i > 0 ==> Placeholder(s[i..]) == 0)
  {
    var k := BraceFreeRun(s[2..]);
    RunIsFree(s[2..]);
    assert forall j | 2 <= j < 2 + k :: s[j] == s[2..][j - 2] && s[j] != '{';
    assert s[2 + k] == '}' && s[2 + k + 1] == '}';
    hide BracedLength, PastInside;
    assert s[2] != '{';
    StartsIff(s[i..]);
    if i == 1 {
      assert s[i..][1..] == s[2..];
      StartsIff(s[2..]);
    } else if i > 1 {
      assert s[i..][0] != '{';
    }
  }

  // --- the theorem ----------------------------------------------------------------------------------

  lemma HereOrLater(s: string)
    requires s != ""
    ensures HasPlaceholder(s) <==> Placeholder(s) > 0 || HasPlaceholder(s[1..])
    ensures HasWrapper(s) <==> Wrapper(s) || HasWrapper(s[1..])
  {
    hide Placeholder, Wrapper;
    assert s[0..] == s;
    assert forall i | 0 <= i <= |s[1..]| :: s[1..][i..] == s[i + 1..];
    if HasPlaceholder(s) {
      var i :| 0 <= i <= |s| && Placeholder(s[i..]) > 0;
      if i > 0 { assert s[1..][i - 1..] == s[i..]; }
    }
    if HasWrapper(s) {
      var i :| 0 <= i <= |s| && Wrapper(s[i..]);
      if i > 0 { assert s[1..][i - 1..] == s[i..]; }
    }
  }

  /** Past a placeholder no wrapper is lost. */
  lemma WrapperPast(s: string)
    requires Placeholder(s) > 0
    ensures HasWrapper(s) <==> HasWrapper(s[Placeholder(s)..])
  {
    hide BracedLength, Wrapper;
    var n := Placeholder(s);
    assert forall j | 0 <= j <= |s[n..]| :: s[n..][j..] == s[j + n..];
    if HasWrapper(s) {
      var i :| 0 <= i <= |s| && Wrapper(s[i..]);
      if i < n { NothingInside(s, i); }
      assert s[n..][i - n..] == s[i..];
    }
  }

  lemma NothingInNothing()
    ensures !HasPlaceholder("") && !HasWrapper("")
  {
    assert ""[0..] == "";
  }

  /** A pass that erases every placeholder leaves one if and only if the string had a wrapper. */
  lemma {:induction false} ErasedLeaves(s: string)
    ensures HasPlaceholder(Erased(s)) <==> HasWrapper(s)
  {
    hide HasPlaceholder, HasWrapper, Wrapper, BracedLength;
    if s == "" {
      NothingInNothing();
    } else if Placeholder(s) > 0 {
      ErasedLeaves(s[Placeholder(s)..]);
      WrapperPast(s);
    } else {
      ErasedLeaves(s[1..]);
      HeadStays(s);
      LaidBare(s);
      HereOrLater(s);
      HereOrLater(Erased(s));
    }
  }

  // --- wrappers, as written -------------------------------------------------------------------------

  lemma {:induction false} RunBefore(s: string, rest: string)
    ensures BraceFreeRun(s) < |s| ==> BraceFreeRun(s + rest) == BraceFreeRun(s)
    ensures BraceFreeRun(s) == |s| ==> BraceFreeRun(s + rest) == |s| + BraceFreeRun(rest)
  {
    if s == "" {
      assert s + rest == rest;
    } else {
      RunBefore(s[1..], rest);
      assert (s + rest)[1..] == s[1..] + rest;
    }
  }

  /** A placeholder is the same whatever follows it. */
  lemma WhateverFollows(s: string, rest: string)
    requires Placeholder(s) > 0
    ensures Placeholder(s + rest) == Placeholder(s)
  {
    var n := 2 + BraceFreeRun(s[2..]);
    RunBefore(s[2..], rest);
    assert (s + rest)[2..] == s[2..] + rest;
    assert (s + rest)[n..] == s[n..] + rest;
    assert s[n] == '}' && s[n + 1] == '}';
  }

  lemma {:induction false} ChainSkips(w: string, rest: string)
    requires OnlyPlaceholders(w)
    ensures PastPlaceholders(w + rest) == PastPlaceholders(rest)
    decreases |w|
  {
    hide BracedLength;
    if Placeholder(w) > 0 {
      var n := Placeholder(w);
      WhateverFollows(w, rest);
      assert (w + rest)[n..] == w[n..] + rest;
      ChainSkips(w[n..], rest);
    } else {
      assert w + rest == rest;
    }
  }

  lemma {:induction false} InsideSkips(m: string, rest: string)
    requires OnlyInside(m)
    ensures PastInside(m + rest) == PastInside(rest)
    decreases |m|
  {
    hide BracedLength;
    if Placeholder(m) > 0 {
      var n := Placeholder(m);
      WhateverFollows(m, rest);
      assert (m + rest)[n..] == m[n..] + rest;
      InsideSkips(m[n..], rest);
    } else if m == "" {
      assert m + rest == rest;
    } else {
      StartsIff(m + rest);
      assert (m + rest)[1..] == m[1..] + rest;
      InsideSkips(m[1..], rest);
    }
  }

  /** A placeholder cut off right behind it. */
  lemma CutBehind(s: string)
    requires Placeholder(s) > 0
    ensures Placeholder(s[..Placeholder(s)]) == Placeholder(s)
  {
    var n, k := Placeholder(s), BraceFreeRun(s[2..]);
    var p := s[..n];
    RunIsFree(s[2..]);
    assert p[2..][..k] == s[2..][..k];
    FreeRun(s[2..][..k]);
    RunBefore(s[2..][..k], "}}");
    assert s[2 + k..][0] == '}' && s[2 + k..][1] == '}';
    assert p[2..] == s[2..][..k] + "}}";
    assert BraceFreeRun("}}") == 0;
    assert p[2 + k..] == "}}";
  }

  lemma {:induction false} FreeRun(s: string)
    requires forall j | 0 <= j < |s| :: s[j] != '{' && s[j] != '}'
    ensures BraceFreeRun(s) == |s|
  {
    if s == "" {
    } else {
      FreeRun(s[1..]);
    }
  }

  lemma {:induction false} OneMore(p: string, more: string)
    requires Placeholder(p) == |p| > 0
    ensures PastPlaceholders(p + more) == PastPlaceholders(more) && PastInside(p + more) == PastInside(more)
  {
    WhateverFollows(p, more);
    assert (p + more)[|p|..] == more;
    hide BracedLength;
  }

  /** The first of the placeholders at the start, and what follows it. */
  lemma {:induction false} FirstWhole(s: string) returns (p: string, tail: string)
    requires Placeholder(s) > 0
    ensures s == p + tail && p != "" && Placeholder(p) == |p|
    ensures PastPlaceholders(s) == PastPlaceholders(tail) && PastInside(s) == PastInside(tail)
  {
    var n := Placeholder(s);
    p, tail := s[..n], s[n..];
    CutBehind(s);
    hide BracedLength;
    assert s == p + tail;
  }

  lemma {:induction false} ChainSplit(s: string) returns (w: string)
    ensures s == w + PastPlaceholders(s) && OnlyPlaceholders(w)
    decreases |s|
  {
    EmptyHasNone();
    if Placeholder(s) > 0 {
      var p, tail := FirstWhole(s);
      hide Placeholder, PastPlaceholders;
      var more := ChainSplit(tail);
      OneMore(p, more);
      w := p + more;
    } else {
      w := "";
      hide Placeholder;
    }
  }

  lemma {:induction false} InsideSplit(s: string) returns (m: string)
    ensures s == m + PastInside(s) && OnlyInside(m)
    decreases |s|
  {
    hide BracedLength;
    EmptyHasNone();
    if Placeholder(s) > 0 {
      var p, tail := FirstWhole(s);
      hide PastInside;
      var more := InsideSplit(tail);
      OneMore(p, more);
      m := p + more;
    } else if s != "" && s[0] != '{' && s[0] != '}' {
      var more := InsideSplit(s[1..]);
      m := [s[0]] + more;
      StartsIff(m);
      assert m[1..] == more;
    } else {
      m := "";
    }
  }

  /** The first brace among what may stand inside opens a placeholder. */
  lemma {:induction false} InsideOpens(m: string)
    requires OnlyInside(m)
    ensures var n := BraceFreeRun(m); n < |m| ==> m[n] == '{'
  {
    hide BracedLength;
    StartsIff(m);
    if m != "" && m[0] != '{' {
      InsideOpens(m[1..]);
    }
  }

  lemma PartsStart(m: string, rest: string)
    requires OnlyInside(m)
    ensures Placeholder("{" + (m + ("}" + rest))) == 0
  {
    hide BracedLength;
    var s := "{" + (m + ("}" + rest));
    StartsIff(s);
    StartsIff(m);
    assert s[1..] == m + ("}" + rest);
    if m != "" && m[0] == '{' {
      assert s[2..][0] == m[1] == '{';
    }
  }

  lemma PartsAreNoPlaceholder(s: string, w: string, m: string, v: string, rest: string)
    requires Parts(s, w, m, v, rest)
    ensures Placeholder(s) == 0
  {
    hide BracedLength;
    StartsIff(s);
    if w != "" {
      StartsIff(w);
      assert s[2] == w[1] == '{';
    } else {
      var tail := "}" + (v + ("}" + rest));
      assert s[2..] == m + tail;
      RunBefore(m, tail);
      InsideOpens(m);
      if BraceFreeRun(m) == |m| {
        StartsIff(v);
        assert (m + tail)[|m|..] == tail && tail[1] == v[0] == '{';
      }
    }
  }

  lemma {:induction false} StuckAtClose(t: string)
    requires StartsWith(t, '}')
    ensures Placeholder(t) == 0 && PastInside(t) == t && PastPlaceholders(t) == t
  {
    StartsIff(t);
    hide BracedLength;
  }

  lemma Behind(a: string, b: string)
    ensures |a| == 1 ==> (a + b)[1..] == b
  {}

  lemma WrapperForm(s: string, a: string, b: string, c: string)
    requires Placeholder(s) == 0 && StartsWith(s, '{') && a == PastPlaceholders(s[1..]) && StartsWith(a, '{')
    requires b == PastInside(a[1..]) && StartsWith(b, '}') && c == PastPlaceholders(b[1..]) && StartsWith(c, '}')
    ensures Wrapper(s)
  {
    hide Placeholder, PastPlaceholders, PastInside;
  }

  lemma {:induction false} NoneAtStart(s: string)
    requires Placeholder(s) == 0
    ensures PastPlaceholders(s) == s
  {}

  lemma PartsWrap(s: string, w: string, m: string, v: string, rest: string)
    requires Parts(s, w, m, v, rest)
    ensures Wrapper(s)
  {
    PartsAreNoPlaceholder(s, w, m, v, rest);
    hide Placeholder, PastPlaceholders, PastInside, Wrapper, BraceFreeRun, OnlyInside, OnlyPlaceholders;
    var c := "}" + rest;
    var b := "}" + (v + c);
    var a := "{" + (m + b);
    assert s[1..] == w + a by { Behind("{", w + a); }
    assert a[1..] == m + b by { Behind("{", m + b); }
    assert b[1..] == v + c by { Behind("}", v + c); }
    ChainSkips(w, a);
    PartsStart(m, v + c);
    NoneAtStart(a);
    InsideSkips(m, b);
    StuckAtClose(b);
    ChainSkips(v, c);
    StuckAtClose(c);
    WrapperForm(s, a, b, c);
  }

  lemma WrapperParts(s: string) returns (w: string, m: string, v: string, rest: string)
    requires Wrapper(s)
    ensures Parts(s, w, m, v, rest)
  {
    hide BracedLength, PastPlaceholders, PastInside;
    w := ChainSplit(s[1..]);
    var a := PastPlaceholders(s[1..]);
    m := InsideSplit(a[1..]);
    var b := PastInside(a[1..]);
    v := ChainSplit(b[1..]);
    var c := PastPlaceholders(b[1..]);
    rest := c[1..];
    assert c == "}" + rest;
    assert b == "}" + (v + c);
    assert a == "{" + (m + b);
    assert s == "{" + (w + a);
    if w == "" && v == "" && BraceFreeRun(m) == |m| {
      assert s == "{" + ("{" + (m + ("}" + ("}" + rest)))) by { assert w + a == a && v + c == c; }
      var tail := "}" + ("}" + rest);
      assert s[2..] == m + tail;
      RunBefore(m, tail);
      assert (m + tail)[|m|..] == tail && tail[1..] == "}" + rest;
      StartsIff(s);
      assert false;
    }
  }

  /** A wrapper is four braces, with whole placeholders between them and some placeholder inside. */
  lemma WrapperIsParts(s: string)
    ensures Wrapper(s) <==> exists w, m, v, rest :: Parts(s, w, m, v, rest)
  {
    hide Parts, Wrapper;
    if Wrapper(s) {
      var w, m, v, rest := WrapperParts(s);
    }
    if w, m, v, rest :| Parts(s, w, m, v, rest) {
      PartsWrap(s, w, m, v, rest);
    }
  }

  // --- what a wrapper becomes -----------------------------------------------------------------------

  lemma {:induction false} ChainVanishes(w: string, rest: string)
    requires OnlyPlaceholders(w)
    ensures Erased(w + rest) == Erased(rest)
  {
    hide BracedLength, PastPlaceholders, Erased;
    ChainSkips(w, rest);
    ChainErases(w + rest);
    ChainErases(rest);
  }

  lemma {:induction false} InsideKeepsText(m: string, rest: string)
    requires OnlyInside(m)
    ensures Erased(m + rest) == Erased(m) + Erased(rest)
    ensures BraceFreeRun(Erased(m)) == |Erased(m)|
    decreases |m|
  {
    hide BracedLength;
    EmptyHasNone();
    if Placeholder(m) > 0 {
      var n := Placeholder(m);
      WhateverFollows(m, rest);
      assert (m + rest)[n..] == m[n..] + rest;
      InsideKeepsText(m[n..], rest);
    } else if m == "" {
      assert m + rest == rest;
    } else {
      StartsIff(m + rest);
      assert (m + rest)[1..] == m[1..] + rest;
      InsideKeepsText(m[1..], rest);
    }
  }

  /** The placeholder laid bare, and what it holds: the text that stood inside. */
  lemma {:induction false} WrapperBecomes(s: string, w: string, m: string, v: string, rest: string)
    requires Parts(s, w, m, v, rest)
    ensures Erased(s) == "{" + ("{" + (Erased(m) + ("}" + ("}" + Erased(rest)))))
    ensures BraceFreeRun(Erased(m)) == |Erased(m)|
  {
    PartsAreNoPlaceholder(s, w, m, v, rest);
    hide BracedLength, PastPlaceholders, PastInside, Erased;
    var c := "}" + rest;
    var b := "}" + (v + c);
    var a := "{" + (m + b);
    assert s[1..] == w + a && a[1..] == m + b && b[1..] == v + c && c[1..] == rest;
    HeadStays(s);
    ChainVanishes(w, a);
    PartsStart(m, v + c);
    HeadStays(a);
    InsideKeepsText(m, b);
    StartsIff(b);
    HeadStays(b);
    ChainVanishes(v, c);
    StartsIff(c);
    HeadStays(c);
  }

  lemma InsideNothing()
    ensures OnlyPlaceholders("") && OnlyInside("") && Erased("") == ""
  {
    EmptyHasNone();
  }

  lemma {:induction false} InsideChar(c: char, m: string)
    requires c != '{' && c != '}'
    ensures (OnlyInside(m) ==> OnlyInside([c] + m)) && Erased([c] + m) == [c] + Erased(m)
  {
    hide BracedLength;
    StartsIff([c] + m);
    assert ([c] + m)[1..] == m;
  }

  lemma {:induction false} RunTail(q: string)
    requires q != "" && BraceFreeRun(q) == |q|
    ensures q[0] != '{' && q[0] != '}' && BraceFreeRun(q[1..]) == |q[1..]|
  {}

  lemma {:induction false} InsideText(q: string, m: string)
    requires BraceFreeRun(q) == |q| && OnlyInside(m)
    ensures OnlyInside(q + m) && Erased(q + m) == q + Erased(m)
  {
    hide OnlyInside, Erased, BraceFreeRun;
    if q == "" {
      assert q + m == m && "" + Erased(m) == Erased(m);
    } else {
      RunTail(q);
      InsideText(q[1..], m);
      InsideChar(q[0], q[1..] + m);
      assert q + m == [q[0]] + (q[1..] + m) && q == [q[0]] + q[1..];
    }
  }

  lemma {:induction false} WholeIs(run: string, m: string)
    requires BraceFreeRun(run) == |run|
    ensures var s := "{{" + (run + ("}}" + m)); Placeholder(s) == |run| + 4 && s[|run| + 4..] == m
  {
    var s, tail := "{{" + (run + ("}}" + m)), "}}" + m;
    assert s[2..] == run + tail;
    RunBefore(run, tail);
    assert s[2 + |run|..] == tail;
  }

  lemma {:induction false} InsideWhole(run: string, m: string)
    requires BraceFreeRun(run) == |run|
    ensures var s := "{{" + (run + ("}}" + m));
            (OnlyInside(m) ==> OnlyInside(s)) && (OnlyPlaceholders(m) ==> OnlyPlaceholders(s)) && Erased(s) == Erased(m)
  {
    WholeIs(run, m);
    hide BracedLength;
    PastWhole("{{" + (run + ("}}" + m)), |run| + 4);
  }

  lemma {:induction false} PastWhole(s: string, n: nat)
    requires Placeholder(s) == n > 0
    ensures PastPlaceholders(s) == PastPlaceholders(s[n..]) && PastInside(s) == PastInside(s[n..])
    ensures Erased(s) == Erased(s[n..])
  {
    hide BracedLength;
    EmptyHasNone();
  }

  // --- stripping, and the page ----------------------------------------------------------------------

  /** The string as the last pass finds it. */
  function BeforeLastPass(s: string): string {
    var a := ReplaceAll("", s, Leftover, Literal(""));
    var b := ReplaceAll("", a, Closer, Literal(""));
    ReplaceAll("", b, Braced("{{{", "}}}"), Literal(""))
  }

  /** Stripping leaves a placeholder if and only if its last pass finds a wrapper. */
  lemma StripLeaves(s: string)
    ensures HasPlaceholder(Strip(s)) <==> HasWrapper(BeforeLastPass(s))
  {
    hide ReplaceAll, HasPlaceholder, HasWrapper;
    PassErases("", BeforeLastPass(s));
    ErasedLeaves(BeforeLastPass(s));
  }

  /** What stripping is given when a template is rendered. */
  function Unstripped(template: string, ctx: Context, keys: seq<string>): string {
    Variables(SectionsTurns(template, ctx, GUARD), ctx, keys)
  }

  /** Any page, of any template, context and key order, shows a placeholder exactly then. */
  lemma PageLeaves(template: string, ctx: Context, keys: seq<string>)
    ensures HasPlaceholder(Render(template, ctx, keys)) <==>
            Trim(template) != "" && HasWrapper(BeforeLastPass(Unstripped(template, ctx, keys)))
  {
    hide Strip, HasPlaceholder, HasWrapper, BeforeLastPass, Trim, Variables, SectionsTurns;
    NothingInNothing();
    StripLeaves(Unstripped(template, ctx, keys));
    TrimLeaves(Strip(Unstripped(template, ctx, keys)));
  }

  lemma {:induction false} TrimStartLeaves(s: string)
    ensures HasPlaceholder(TrimStart(s)) <==> HasPlaceholder(s)
  {
    hide HasPlaceholder, BracedLength;
    if s != "" && IsSpace(s[0]) {
      TrimStartLeaves(s[1..]);
      HereOrLater(s);
      StartsIff(s);
    }
  }

  lemma {:induction false} TrimEndLeaves(s: string)
    ensures HasPlaceholder(TrimEnd(s)) <==> HasPlaceholder(s)
  {
    hide HasPlaceholder, BracedLength;
    if s != "" && IsSpace(s[|s| - 1]) {
      TrimEndLeaves(s[..|s| - 1]);
      BlankBehind(s[..|s| - 1], s[|s| - 1]);
      assert s == s[..|s| - 1] + [s[|s| - 1]];
    }
  }

  /** A blank behind a string completes no placeholder. */
  lemma BlankBehind(s: string, c: char)
    requires IsSpace(c)
    ensures HasPlaceholder(s + [c]) <==> HasPlaceholder(s)
  {
    hide BracedLength;
    assert c != '}' && c != '{';
    if HasPlaceholder(s) {
      var i :| 0 <= i <= |s| && Placeholder(s[i..]) > 0;
      WhateverFollows(s[i..], [c]);
      assert (s + [c])[i..] == s[i..] + [c];
    }
    if HasPlaceholder(s + [c]) {
      var i :| 0 <= i <= |s + [c]| && Placeholder((s + [c])[i..]) > 0;
      var t := (s + [c])[i..];
      CutBehind(t);
      LastIsBrace(t);
      assert Placeholder(t) <= |s| - i;
      assert s[i..][..Placeholder(t)] == t[..Placeholder(t)];
      assert s[i..] == t[..Placeholder(t)] + s[i..][Placeholder(t)..];
      WhateverFollows(t[..Placeholder(t)], s[i..][Placeholder(t)..]);
    }
  }

  lemma LastIsBrace(s: string)
    requires Placeholder(s) > 0
    ensures s[Placeholder(s) - 1] == '}'
  {
    var n := 2 + BraceFreeRun(s[2..]);
    assert s[n..][1] == s[n + 1];
  }

  lemma TrimLeaves(s: string)
    ensures HasPlaceholder(Trim(s)) <==> HasPlaceholder(s)
  {
    TrimStartLeaves(s);
    TrimEndLeaves(TrimStart(s));
  }
}
