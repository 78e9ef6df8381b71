/**
 Why the conditions are there: families of pages on which the engine does not do what its
 documentation promises.
 */
module TemplateLimits {
  import opened ListingTemplate
  import opened Options
  import opened Strings
  import opened TemplateMeaning
  import opened TemplatePlaceholders
  import opened TemplateRefines
  import opened TemplateScan
  import opened TemplateSearch
  import opened TemplateSections
  import opened TemplateTokens

  // --- braces inside a placeholder -------------------------------------------------------------

  predicate NoMarks(s: string) { forall i | 0 <= i < |s| :: s[i] !in "#^/" }

  lemma NoMarksHere(s: string)
    requires NoMarks(s)
    ensures Nothing(s)
  {
    if |s| >= 3 { NothingAfterBraces(s); } else { TooShort(s); }
  }

  lemma TooShort(s: string)
    requires |s| < 3
    ensures Nothing(s)
  {
    NotThere("{{#", s, 2);
    NotThere("{{^", s, 2);
    NotThere("{{/", s, 2);
  }

  lemma {:induction false} NoMarksNoSection(s: string)
    requires NoMarks(s)
    ensures ExecSection(s) == NotFound
  {
    hide SectionHere, Opener, NamedTag, OpenerStarts, KeyedLength;
    NoMarksHere(s);
    NoOpenerNoSection(s);
    if s == "" {
    } else {
      NoMarksNoSection(s[1..]);
    }
  }

  lemma {:induction false} NoMarksUntouched(before: string, s: string, p: Pattern)
    requires NoMarks(s) && (p == Leftover || p == Closer)
    ensures ReplaceAll(before, s, p, NONE) == s
    decreases s
  {
    hide Opener, NamedTag, OpenerStarts, KeyedLength, ThroughCloser;
    NoMarksHere(s);
    if s == "" {
    } else {
      NoMarksUntouched(before + [s[0]], s[1..], p);
    }
  }

  lemma {:induction false} NothingResolves(s: string, keys: seq<string>)
    ensures Variables(s, map[], keys) == s
  {
    hide VariablesOnce;
    if keys == [] {
    } else {
      NothingResolves(s, keys[1..]);
    }
  }

  predicate TripleAt(s: string, i: nat)
    requires i < |s|
  {
    i + 2 < |s| && s[i] == '}' && s[i + 1] == '}' && s[i + 2] == '}'
  }

  predicate NoTripleClose(s: string) { forall i | 0 <= i < |s| :: !TripleAt(s, i) }

  lemma NoTripleHere(s: string)
    requires NoTripleClose(s)
    ensures Length(s, Braced("{{{", "}}}")) == 0
  {
    if "{{{" <= s {
      var n := 3 + BraceFreeRun(s[3..]);
      assert n < |s| ==> !TripleAt(s, n);
      assert |s[n..]| > 2 ==> s[n..][0] == s[n] && s[n..][1] == s[n + 1] && s[n..][2] == s[n + 2];
    }
  }

  lemma {:induction false} TriplePassIdles(before: string, s: string)
    requires NoTripleClose(s)
    ensures ReplaceAll(before, s, Braced("{{{", "}}}"), NONE) == s
    decreases s
  {
    if s == "" {
    } else {
      NoTripleHere(s);
      hide Length;
      assert NoTripleClose(s[1..]) by {
        forall i | 0 <= i < |s[1..]| ensures !TripleAt(s[1..], i) { assert !TripleAt(s, i + 1); }
      }
      TriplePassIdles(before + [s[0]], s[1..]);
    }
  }

  /** Without sections, values and triple braces only the last pass changes anything. */
  lemma {:induction false} OnlyLastPass(s: string, keys: seq<string>)
    requires NoMarks(s) && NoTripleClose(s) && KeySet(map[], keys)
    ensures BeforeLastPass(Unstripped(s, map[], keys)) == s && Strip(Unstripped(s, map[], keys)) == Erased(s)
  {
    hide ReplaceAll, ExecSection;
    NoMarksNoSection(s);
    NoSectionsLeft(s, map[], GUARD);
    NothingResolves(s, keys);
    NoMarksUntouched("", s, Leftover);
    NoMarksUntouched("", s, Closer);
    TriplePassIdles("", s);
    PassErases("", s);
  }

  /** Text that is no brace and marks no section. */
  predicate Inert(s: string) { forall i | 0 <= i < |s| :: s[i] !in "{}#^/" }

  lemma {:induction false} InertRun(s: string)
    requires Inert(s)
    ensures BraceFreeRun(s) == |s|
  {
    FreeRun(s);
  }

  /** Stripping such a page leaves what its wrapper becomes. */
  lemma {:induction false} WrapperSurvives(s: string, w: string, m: string, v: string, keys: seq<string>)
    requires Parts(s, w, m, v, "") && NoMarks(s) && NoTripleClose(s) && KeySet(map[], keys)
    ensures var page := Render(s, map[], keys);
            page == "{" + ("{" + (Erased(m) + ("}" + ("}" + "")))) && HasPlaceholder(page)
  {
    hide TrimStart, TrimEnd, Strip, Wrapper, KeySet, Erased, HasPlaceholder, HasWrapper;
    hide SectionsTurns, Variables, BeforeLastPass, OnlyInside, OnlyPlaceholders, NoMarks, NoTripleClose, BraceFreeRun;
    WrapperBecomes(s, w, m, v, "");
    InsideNothing();
    TrimKeeps(s);
    OnlyLastPass(s, keys);
    TrimKeeps(Erased(s));
    PartsWrap(s, w, m, v, "");
    WrapperFound(s);
    PageLeaves(s, map[], keys);
  }

  lemma WrapperFound(s: string)
    requires Wrapper(s)
    ensures HasWrapper(s)
  {
    assert s[0..] == s;
  }

  function Nested(x: string, y: string, z: string): string { "{{" + x + "{{" + y + "}}" + z + "}}" }

  function Split(x: string, y: string): string { "{" + "{{" + x + "}}" + "{" + y + "}}" }

  lemma NestedParts(x: string, y: string, z: string)
    requires Inert(x) && Inert(y) && Inert(z)
    ensures var m := x + ("{{" + (y + ("}}" + z))); Parts(Nested(x, y, z), "", m, "", "") && Erased(m) == x + z
  {
    InertRun(x);
    InertRun(y);
    InertRun(z);
    var inner := "{{" + (y + ("}}" + z));
    var m := x + inner;
    assert Nested(x, y, z) == "{" + ("" + ("{" + (m + ("}" + ("" + ("}" + ""))))));
    RunBefore(x, inner);
    assert BraceFreeRun(inner) == 0;
    hide BracedLength, PastPlaceholders, PastInside, Erased, OnlyInside, OnlyPlaceholders;
    InsideNothing();
    InsideText(z, "");
    assert z + "" == z;
    InsideWhole(y, z);
    InsideText(x, inner);
  }

  lemma {:induction false} SplitParts(x: string, y: string)
    requires Inert(x) && Inert(y)
    ensures var w := "{{" + (x + ("}}" + "")); Parts(Split(x, y), w, y, "", "") && Erased(y) == y
  {
    InertRun(x);
    InertRun(y);
    var w := "{{" + (x + ("}}" + ""));
    assert Split(x, y) == "{" + (w + ("{" + (y + ("}" + ("" + ("}" + ""))))));
    hide BracedLength, PastPlaceholders, PastInside, Erased, OnlyInside, OnlyPlaceholders;
    InsideNothing();
    InsideText(y, "");
    assert y + "" == y;
    InsideWhole(x, "");
  }

  lemma NestedIsClear(x: string, y: string, z: string)
    requires Inert(x) && Inert(y) && Inert(z) && z != ""
    ensures NoMarks(Nested(x, y, z)) && NoTripleClose(Nested(x, y, z))
  {
    var s, p := Nested(x, y, z), |x| + 4 + |y|;
    assert s[p + 2] == z[0];
    forall i | 0 <= i < |s| ensures s[i] !in "#^/" && (s[i] == '}' ==> i == p || i == p + 1 || i >= |s| - 2) {
      if 2 <= i < 2 + |x| { assert s[i] == x[i - 2]; }
      if |x| + 4 <= i < p { assert s[i] == y[i - |x| - 4]; }
      if p + 2 <= i < |s| - 2 { assert s[i] == z[i - p - 2]; }
    }
  }

  lemma SplitIsClear(x: string, y: string)
    requires Inert(x) && Inert(y)
    ensures NoMarks(Split(x, y)) && NoTripleClose(Split(x, y))
  {
    var s, p := Split(x, y), 3 + |x|;
    assert s[p + 2] == '{';
    forall i | 0 <= i < |s| ensures s[i] !in "#^/" && (s[i] == '}' ==> i == p || i == p + 1 || i >= |s| - 2) {
      if 3 <= i < p { assert s[i] == x[i - 3]; }
      if p + 3 <= i < |s| - 2 { assert s[i] == y[i - p - 3]; }
    }
  }

  /** A placeholder inside another: the outer one is published. */
  lemma NestedSurvives(x: string, y: string, z: string, keys: seq<string>)
    requires Inert(x) && Inert(y) && Inert(z) && z != "" && KeySet(map[], keys)
    ensures Render("{{" + x + "{{" + y + "}}" + z + "}}", map[], keys) == "{{" + x + z + "}}"
    ensures HasPlaceholder(Render("{{" + x + "{{" + y + "}}" + z + "}}", map[], keys))
  {
    hide Render, HasPlaceholder, KeySet, Inert, Parts, NoMarks, NoTripleClose, Erased;
    NestedParts(x, y, z);
    NestedIsClear(x, y, z);
    WrapperSurvives(Nested(x, y, z), "", x + ("{{" + (y + ("}}" + z))), "", keys);
    assert "{" + ("{" + (x + z + ("}" + ("}" + "")))) == "{{" + x + z + "}}";
  }

  /** A placeholder between the opening braces of another: that one is published. */
  lemma SplitSurvives(x: string, y: string, keys: seq<string>)
    requires Inert(x) && Inert(y) && KeySet(map[], keys)
    ensures Render("{" + "{{" + x + "}}" + "{" + y + "}}", map[], keys) == "{{" + y + "}}"
    ensures HasPlaceholder(Render("{" + "{{" + x + "}}" + "{" + y + "}}", map[], keys))
  {
    hide Render, HasPlaceholder, KeySet, Inert, Parts, NoMarks, NoTripleClose, Erased;
    SplitParts(x, y);
    SplitIsClear(x, y);
    WrapperSurvives(Split(x, y), "{{" + (x + ("}}" + "")), y, "", keys);
    assert "{" + ("{" + (y + ("}" + ("}" + "")))) == "{{" + y + "}}";
  }

  lemma TrimKeeps(s: string)
    requires s != "" && !IsSpace(s[0]) && !IsSpace(s[|s| - 1])
    ensures Trim(s) == s
  {}

  // --- a dollar sign in an item -----------------------------------------------------------------

  const DOLLARS: Context := map["a" := List(["$&"])]

  /** `{{#a}}{{.}}{{/a}}`. */
  function OneItem(): Tree { Section(false, "a", Leaf(DOT, Done), "a", Done) }

  const DOT := Var(".")

  lemma ShortNames()
    ensures Trim("a") == "a" && Trim(".") == "." && Key(DOT) == "."
    ensures IsName("a") && IsWord(".") && Plain(Open(false, "a")) && Plain(DOT) && Plain(Close("a"))
  {}

  lemma OneItemTokens()
    ensures Print(OneItem()) == [Open(false, "a"), DOT, Close("a")] && AllPlain(Print(OneItem()))
    ensures FindSection(Print(OneItem())) == Match([], Open(false, "a"), [DOT], Close("a"), [])
  {
    ShortNames();
    hide Trim, IsWord, Plain;
    assert Print(Leaf(DOT, Done)) == [DOT];
    FindHere(Open(false, "a"), [DOT], Close("a"), []);
    assert [Open(false, "a")] + ([DOT] + [Close("a")] + []) == [Open(false, "a"), DOT, Close("a")];
  }

  lemma EscapedDollars()
    ensures EscapeHtml("$&") == "$&amp;" && JsExpand("$&amp;", "{{.}}", "", "") == "{{.}}amp;"
  {
    assert "$&"[1..] == "&" && "&"[1..] == "";
    assert EscapeHtml("&") == "&amp;" + EscapeHtml("");
    assert EscapeHtml("$&") == "$" + EscapeHtml("&");
    assert "$&amp;"[2..] == "amp;" && "amp;"[1..] == "mp;" && "mp;"[1..] == "p;" && "p;"[1..] == ";";
    assert JsExpand("p;", "{{.}}", "", "") == "p" + JsExpand(";", "{{.}}", "", "");
    assert JsExpand("mp;", "{{.}}", "", "") == "m" + JsExpand("p;", "{{.}}", "", "");
    assert JsExpand("amp;", "{{.}}", "", "") == "a" + JsExpand("mp;", "{{.}}", "", "");
  }

  /** The item brings the placeholder back. */
  lemma ItemBringsBackTheDot()
    ensures SectionItem("{{.}}", "$&") == "{{.}}amp;"
  {
    hide ReplaceAll, JsExpand, EscapeHtml, Length;
    var p, q := Keyed("{{{", ".", "}}}"), Keyed("{{", ".", "}}");
    EscapedDollars();
    ShortNames();
    assert Braces(false, ".", "") == "{{.}}";
    DoubleLength(DOT, "", p);
    DoubleLength(DOT, "", q);
    CopyDouble("", ".", "", p, Expanded("$&"));
    NothingLeftOver("" + "{{.}}", p, Expanded("$&"));
    assert "{{.}}" + "" == "{{.}}";
    ReplaceHit("", "{{.}}", "", q, Expanded("$&amp;"));
    NothingLeftOver("" + "{{.}}", q, Expanded("$&amp;"));
    assert "{{.}}amp;" + "" == "{{.}}amp;";
  }

  lemma {:induction false} NothingLeftOver(before: string, p: Pattern, f: Filler)
    ensures ReplaceAll(before, "", p, f) == ""
  {}

  function Leftovers(): seq<Token> { [DOT, Text("amp;")] }

  lemma FirstTurn()
    ensures SectionsOnce(Flatten(Print(OneItem())), DOLLARS) == Flatten(Leftovers())
  {
    hide ExecSection, SectionItem, Written, Plain, FindSection;
    ShortNames();
    hide Trim;
    var ts := Print(OneItem());
    OneItemTokens();
    ExecIsFind(ts);
    ItemBringsBackTheDot();
    FlattenOne(DOT);
    FlattenOne(Close("a"));
    FlattenOne(Open(false, "a"));
    OneItemLengths();
    var s := Flatten(ts);
    assert SectionItems("{{.}}", ["$&"]) == ["{{.}}amp;"];
    assert s[..0] == "" && s[|s|..] == "";
  }

  lemma OneItemTags()
    ensures Written(Open(false, "a")) == "{{#a}}" && Written(DOT) == "{{.}}" && Written(Close("a")) == "{{/a}}"
    ensures "{{#a}}" + "{{.}}" + "{{/a}}" == "{{#a}}{{.}}{{/a}}" && "{{.}}" + "amp;" == "{{.}}amp;"
  {}

  lemma OneItemLengths()
    ensures Written(DOT) == "{{.}}" && Flatten(Print(OneItem())) == "{{#a}}{{.}}{{/a}}"
    ensures Flatten(Leftovers()) == "{{.}}amp;" && |Flatten([Open(false, "a")])| == 6
    ensures Flatten([DOT]) == "{{.}}" && Flatten([]) == ""
  {
    hide Plain, Trim, FindSection, Written;
    OneItemTokens();
    OneItemTags();
    FlattenOne(Open(false, "a"));
    FlattenOne(DOT);
    FlattenOne(Close("a"));
    FlattenConcat([Open(false, "a")], [DOT]);
    FlattenConcat([Open(false, "a")] + [DOT], [Close("a")]);
    assert [Open(false, "a")] + [DOT] + [Close("a")] == [Open(false, "a"), DOT, Close("a")];
    TextIsWritten("amp;");
    FlattenOne(Text("amp;"));
    FlattenConcat([DOT], [Text("amp;")]);
    assert [DOT] + [Text("amp;")] == Leftovers();
    assert Flatten([]) == "";
    hide Flatten;
  }

  lemma {:induction false} LeftoversRender(keys: seq<string>)
    requires KeySet(DOLLARS, keys)
    ensures AllTame(Leftovers(), DOLLARS) && NamedContext(DOLLARS)
    ensures Rewrite(Leftovers(), DOLLARS, GUARD - 1) == Leftovers() && ExpansionsSafe(Leftovers(), DOLLARS, GUARD - 1)
    ensures Strip(Variables(Flatten(Leftovers()), DOLLARS, keys)) == "amp;"
  {
    var ts := Leftovers();
    FlatNoMatch(ts);
    NothingLeft(ts, DOLLARS, GUARD - 1);
    GoodOpenersSafe(ts, DOLLARS, GUARD - 1);
    assert IsName("a");
    AliasesAreNames();
    LeftoversTame();
    hide IsName, AllTame, Variables, Strip, ReplaceAll, Rewrite, FindSection, ExpansionsSafe;
    VariablesRefine(ts, DOLLARS, keys);
    AllKeysAtOnce(ts, DOLLARS, keys);
    LeftoversStrip();
    assert SubstituteAll(ts, DOLLARS) == ts by { LeftoversStay(); }
    AllTameIsPlain(ts, DOLLARS);
    StripRefines(ts);
  }

  lemma LeftoversTame()
    ensures AllTame(Leftovers(), DOLLARS)
  {}

  lemma LeftoversStay()
    ensures SubstituteAll(Leftovers(), DOLLARS) == Leftovers()
  {
    SubstituteAllAt(Leftovers(), DOLLARS);
  }

  lemma LeftoversStrip()
    ensures Flatten(StripTokens(Leftovers())) == "amp;"
  {
    var ts := Leftovers();
    StripLeavesText(ts);
    StripSectionsFlat(ts);
    assert ts[1..] == [Text("amp;")] && ts[1..][1..] == [];
    assert TextOf(ts) == "" + TextOf(ts[1..]);
    assert TextOf(ts[1..]) == "amp;" + TextOf([]);
  }

  /** An item that is not dollar-safe: the page loses the text the template means. */
  lemma UnsafeItemLosesText(keys: seq<string>)
    requires KeySet(DOLLARS, keys)
    ensures Render(Flatten(Print(OneItem())), DOLLARS, keys) == "amp;"
    ensures Trim(Eval(OneItem(), DOLLARS, None)) == "$&amp;"
  {
    hide Strip, Variables, Trim, Print, Flatten, Eval, OneItem, Leftovers, EscapeHtml, JsExpand, AllTame, NamedContext;
    hide SectionsTurns, SectionsOnce, Rewrite, KeySet, ExpansionsSafe;
    OneItemLengths();
    EscapedDollars();
    FirstTurn();
    LeftoversRender(keys);
    TurnsRefine(Leftovers(), DOLLARS, GUARD - 1);
    OneTurn(Flatten(Print(OneItem())), DOLLARS);
    TrimKeeps("{{#a}}{{.}}{{/a}}");
    TrimKeeps("amp;");
    TrimKeeps("$&amp;");
    MeantText();
  }

  lemma {:induction false} OneTurn(s: string, ctx: Context)
    ensures SectionsTurns(s, ctx, GUARD) == SectionsTurns(SectionsOnce(s, ctx), ctx, GUARD - 1)
  {
    hide SectionsOnce;
  }

  lemma MeantText()
    ensures Eval(OneItem(), DOLLARS, None) == EscapeHtml("$&")
  {
    hide EscapeHtml, IsSpace;
    ShortNames();
    hide Trim, IsWord, Plain;
    var leaf := Leaf(DOT, Done);
    assert Eval(leaf, DOLLARS, Some("$&")) == EscapeHtml("$&") + Eval(Done, DOLLARS, Some("$&"));
    assert EvalItems(leaf, DOLLARS, ["$&"]) == Eval(leaf, DOLLARS, Some("$&"));
    assert Resolve(DOLLARS, "a") == List(["$&"]);
    assert EvalSection(false, List(["$&"]), leaf, DOLLARS, None) == EvalItems(leaf, DOLLARS, ["$&"]);
    assert Eval(OneItem(), DOLLARS, None)
        == EvalSection(false, List(["$&"]), leaf, DOLLARS, None) + Eval(Done, DOLLARS, None);
  }
}
