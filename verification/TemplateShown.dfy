/**
 What a reader of the page sees: a value in a placeholder is text, never markup, and it
 decodes to the value itself; lists are bulleted; sections repeat, show or hide.
 */
module TemplateShown {
  import opened DollarSafety
  import opened ListingTemplate
  import opened Options
  import opened Strings
  import opened TemplateMeaning
  import opened TemplateRefines
  import opened TemplateScan
  import opened TemplateSearch
  import opened TemplateSections
  import opened TemplateTokens

  // --- a reader of HTML text ------------------------------------------------------------------

  /** A character reference at the start: its length, or 0. */
  function Reference(s: string): (n: nat)
    ensures n <= |s|
  {
    if "&amp;" <= s then 5
    else if "&lt;" <= s || "&gt;" <= s then 4
    else if "&quot;" <= s || "&#x27;" <= s then 6
    else 0
  }

  /** The character a reference stands for. */
  function Referred(s: string): char
    requires Reference(s) > 0
  {
    match s[1]
    case 'a' => '&'
    case 'l' => '<'
    case 'g' => '>'
    case 'q' => '"'
    case _ => '\''
  }

  /** Section 13.2.5.72 of the WHATWG HTML standard, for these five references. */
  function Decode(s: string): string {
    if s == "" then ""
    else if Reference(s) > 0 then [Referred(s)] + Decode(s[Reference(s)..])
    else [s[0]] + Decode(s[1..])
  }

  /** No tag can open in it, no attribute value can end in it, and every ampersand starts a reference. */
  predicate OnlyText(s: string) {
    forall i | 0 <= i < |s| :: s[i] != '<' && s[i] != '>' && s[i] != '"' && s[i] != '\''
                               && (s[i] == '&' ==> Reference(s[i..]) > 0)
  }

  /** This text shows that one. */
  predicate Shows(html: string, s: string) { OnlyText(html) && Decode(html) == s }

  lemma ReferenceBefore(r: string, rest: string)
    requires r in ["&amp;", "&lt;", "&gt;", "&quot;", "&#x27;"]
    ensures Reference(r + rest) == |r| && Referred(r + rest) == Referred(r) && (r + rest)[|r|..] == rest
  {
    var s := r + rest;
    assert s[1] == r[1];
    assert "&amp;" <= s ==> s[1] == 'a';
    assert "&lt;" <= s ==> s[1] == 'l';
    assert "&gt;" <= s ==> s[1] == 'g';
    assert "&quot;" <= s ==> s[1] == 'q';
  }

  lemma OneReferenceMore(c: char, r: string, html: string, s: string)
    requires r in ["&amp;", "&lt;", "&gt;", "&quot;", "&#x27;"] && Referred(r) == c && Shows(html, s)
    ensures Shows(r + html, [c] + s)
  {
    ReferenceBefore(r, html);
    var t := r + html;
    forall i | 0 <= i < |t|
      ensures t[i] != '<' && t[i] != '>' && t[i] != '"' && t[i] != '\'' && (t[i] == '&' ==> Reference(t[i..]) > 0)
    {
      if i >= |r| {
        assert t[i] == html[i - |r|] && t[i..] == html[i - |r|..];
      } else {
        assert t[i] == r[i];
        assert i == 0 ==> t[i..] == t;
      }
    }
  }

  lemma OnePlainMore(c: char, html: string, s: string)
    requires c !in "&<>\"'" && Shows(html, s)
    ensures Shows([c] + html, [c] + s)
  {
    var t := [c] + html;
    forall i | 0 <= i < |t|
      ensures t[i] != '<' && t[i] != '>' && t[i] != '"' && t[i] != '\'' && (t[i] == '&' ==> Reference(t[i..]) > 0)
    {
      if i > 0 { assert t[i] == html[i - 1] && t[i..] == html[i - 1..]; }
    }
    assert t[1..] == html;
  }

  lemma CharIsEscaped(c: char)
    ensures if c in "&<>\"'" then EscapeChar(c) in ["&amp;", "&lt;", "&gt;", "&quot;", "&#x27;"]
                                  && Reference(EscapeChar(c)) > 0 && Referred(EscapeChar(c)) == c
            else EscapeChar(c) == [c]
  {}

  lemma NothingShows()
    ensures Shows(EscapeHtml(""), "")
  {}

  /** Escaped text shows the text: no character of it can be markup, and none is lost. */
  lemma {:induction false} EscapedShows(s: string)
    ensures Shows(EscapeHtml(s), s)
  {
    hide Shows, EscapeHtml, EscapeChar;
    if s == "" {
      NothingShows();
    } else {
      EscapedShows(s[1..]);
      assert s == [s[0]] + s[1..];
      EscapedIs(s);
      CharIsEscaped(s[0]);
      if s[0] in "&<>\"'" {
        OneReferenceMore(s[0], EscapeChar(s[0]), EscapeHtml(s[1..]), s[1..]);
      } else {
        OnePlainMore(s[0], EscapeHtml(s[1..]), s[1..]);
      }
    }
  }

  lemma {:induction false} EscapedIs(s: string)
    requires s != ""
    ensures EscapeHtml(s) == EscapeChar(s[0]) + EscapeHtml(s[1..])
  {
    hide EscapeChar;
  }

  // --- what a value shows ----------------------------------------------------------------------

  function Bullets(texts: seq<string>): string {
    if texts == [] then "" else "<li>" + texts[0] + "</li>" + Bullets(texts[1..])
  }

  /** One text per item, each showing its item. */
  predicate ShowsEach(texts: seq<string>, items: seq<string>) {
    |texts| == |items| && forall i | 0 <= i < |items| :: Shows(texts[i], items[i])
  }

  /** What `{{key}}` is to show for a value. */
  ghost predicate ShowsValue(html: string, v: Value) {
    match v
    case Undefined => html == ""
    case Null => html == ""
    case Str(s) => Shows(html, s)
    case Num(text, _) => Shows(html, text)
    case List(items) =>
      if items == [] then html == ""
      else exists texts :: ShowsEach(texts, items) && html == "<ul>" + Bullets(texts) + "</ul>"
  }

  lemma {:induction false} ItemsShow(items: seq<string>) returns (texts: seq<string>)
    ensures ShowsEach(texts, items) && ListItems(items) == Bullets(texts)
  {
    hide Shows, EscapeHtml;
    if items == [] {
      texts := [];
    } else {
      var rest := ItemsShow(items[1..]);
      EscapedShows(items[0]);
      texts := [EscapeHtml(items[0])] + rest;
      assert texts[1..] == rest;
    }
  }

  lemma {:induction false} VarShowsValue(v: Value)
    ensures ShowsValue(VarText(v), v)
  {
    hide Shows, EscapeHtml;
    match v
    case Undefined => EscapedNothing();
    case Null => EscapedNothing();
    case Str(s) => EscapedShows(s);
    case Num(text, _) => EscapedShows(text);
    case List(items) => if items != [] { var texts := ItemsShow(items); }
  }

  lemma {:induction false} EscapedNothing()
    ensures EscapeHtml("") == ""
  {}

  // --- what raw placeholders and section items show -----------------------------------------------

  /** One after another, each on a line of its own. */
  function Lines(parts: seq<string>): string {
    if parts == [] then "" else if |parts| == 1 then parts[0] else parts[0] + "\n" + Lines(parts[1..])
  }

  lemma {:induction false} JoinIsLines(parts: seq<string>)
    ensures Join(parts, "\n") == Lines(parts)
  {
    if |parts| <= 1 {
    } else {
      JoinIsLines(parts[1..]);
    }
  }

  /** What `{{{key}}}` is to show: the value itself, a list line by line. */
  predicate ShowsRaw(html: string, v: Value) {
    match v
    case Undefined => html == ""
    case Null => html == ""
    case Str(s) => html == s
    case Num(text, _) => html == text
    case List(items) => html == Lines(items)
  }

  lemma RawShows(v: Value)
    ensures ShowsRaw(RawText(v), v)
  {
    if v.List? { JoinIsLines(v.items); }
  }

  /** Nothing to show: no value, only blanks, not a number, no items. */
  predicate Missing(v: Value) {
    match v
    case Undefined => true
    case Null => true
    case Str(s) => forall i | 0 <= i < |s| :: IsSpace(s[i])
    case Num(_, isNaN) => isNaN
    case List(items) => |items| == 0
  }

  lemma EmptyIsMissing(v: Value)
    ensures IsEmpty(v) <==> Missing(v)
  {}

  // --- pages -------------------------------------------------------------------------------------------

  /** The engine's page is the tree's meaning, if nothing in it is read again. */
  predicate Readable(t: Tree, ctx: Context) {
    WellNested(t) && Sections(t) <= 100 && AllTame(Print(t), ctx) && SafeTree(t, ctx) && NamedContext(ctx)
  }

  lemma {:induction false} PageIsMeaning(t: Tree, ctx: Context, keys: seq<string>)
    requires Readable(t, ctx) && KeySet(ctx, keys)
    ensures Render(Flatten(Print(t)), ctx, keys) == Trim(Eval(t, ctx, None))
  {
    RenderIsEval(t, ctx, keys);
  }

  lemma OneTokenPage(tok: Token, ctx: Context, keys: seq<string>)
    requires (tok.Var? || tok.Raw?) && Plain(tok) && CleanValue(Resolve(ctx, Key(tok)))
    requires NamedContext(ctx) && KeySet(ctx, keys)
    ensures Render(Written(tok), ctx, keys) == Trim(EvalToken(tok, ctx, None))
  {
    var t := Leaf(tok, Done);
    assert Print(t) == [tok];
    FlattenOne(tok);
    assert AllTame([tok], ctx) && Sections(t) == 0;
    assert Eval(t, ctx, None) == EvalToken(tok, ctx, None) + Eval(Done, ctx, None);
    assert EvalToken(tok, ctx, None) + "" == EvalToken(tok, ctx, None);
    hide Trim, EvalToken, AllTame, Plain;
    PageIsMeaning(t, ctx, keys);
  }

  lemma {:induction false} TrimStartEscaped(s: string)
    ensures TrimStart(EscapeHtml(s)) == EscapeHtml(TrimStart(s))
  {
    if s == "" {
    } else {
      hide TrimStart;
      EscapedIs(s);
      EscapeKeepsBlanks(s[0]);
      hide EscapeHtml, EscapeChar, IsSpace;
      var e := EscapeChar(s[0]);
      TrimOne(s);
      if IsSpace(s[0]) {
        TrimOne(e + EscapeHtml(s[1..]));
        assert (e + EscapeHtml(s[1..]))[1..] == EscapeHtml(s[1..]);
        TrimStartEscaped(s[1..]);
      } else {
        TrimOne(e + EscapeHtml(s[1..]));
      }
    }
  }

  lemma {:induction false} TrimOne(s: string)
    requires s != ""
    ensures TrimStart(s) == if IsSpace(s[0]) then TrimStart(s[1..]) else s
    ensures TrimEnd(s) == if IsSpace(s[|s| - 1]) then TrimEnd(s[..|s| - 1]) else s
  {
    hide IsSpace;
  }

  lemma EscapeKeepsBlanks(c: char)
    ensures var e := EscapeChar(c);
            e != "" && if IsSpace(c) then e == [c] else !IsSpace(e[0]) && !IsSpace(e[|e| - 1])
  {}

  lemma {:induction false} TrimEndEscaped(s: string)
    ensures TrimEnd(EscapeHtml(s)) == EscapeHtml(TrimEnd(s))
  {
    if s == "" {
    } else {
      var a, c := s[..|s| - 1], s[|s| - 1];
      assert s == a + [c];
      EscapeConcat(a, [c]);
      EscapedIs([c]);
      assert [c][1..] == "" && EscapeHtml("") == "";
      hide EscapeHtml, TrimEnd;
      EscapeKeepsBlanks(c);
      hide EscapeChar, IsSpace;
      var e := EscapeChar(c);
      var t := EscapeHtml(a) + e;
      assert e + "" == e;
      assert t[|t| - 1] == e[|e| - 1];
      TrimOne(s);
      TrimOne(t);
      if IsSpace(c) {
        assert t[..|t| - 1] == EscapeHtml(a);
        TrimEndEscaped(a);
      }
    }
  }

  lemma {:induction false} TrimmedShows(s: string)
    ensures Shows(Trim(EscapeHtml(s)), Trim(s))
  {
    TrimStartEscaped(s);
    TrimEndEscaped(TrimStart(s));
    EscapedShows(Trim(s));
  }

  /** Text between a solid start and a solid end is not trimmed. */
  lemma NotTrimmed(s: string)
    requires s != "" && !IsSpace(s[0]) && !IsSpace(s[|s| - 1])
    ensures Trim(s) == s
  {}

  /** What a page that is one placeholder shows: the value as text, trimmed; a list as bullets; nothing for none. */
  ghost predicate PageShows(page: string, v: Value) {
    match v
    case Str(s) => Shows(page, Trim(s))
    case Num(text, _) => Shows(page, Trim(text))
    case _ => ShowsValue(page, v)
  }

  lemma TrimmedValueShows(v: Value)
    ensures PageShows(Trim(VarText(v)), v)
  {
    VarShowsValue(v);
    match v
    case Str(s) => TrimmedShows(s);
    case Num(text, _) => TrimmedShows(text);
    case List(items) =>
      if items != [] {
        var html := VarText(v);
        assert html[0] == '<' && html[|html| - 1] == '>';
        NotTrimmed(html);
      } else {
        assert Trim("") == "";
      }
    case _ =>
      EscapedNothing();
      assert Trim("") == "";
  }

  /** The page of `{{key}}`, blanks around the key or not. */
  lemma VariablePage(inner: string, ctx: Context, keys: seq<string>)
    requires Unmarked(inner) && IsName(Trim(inner)) && Trim(inner) in ctx && CleanValue(ctx[Trim(inner)])
    requires NamedContext(ctx) && KeySet(ctx, keys)
    ensures PageShows(Render("{{" + inner + "}}", ctx, keys), ctx[Trim(inner)])
  {
    var tok := Var(inner);
    OneTokenPage(tok, ctx, keys);
    assert Written(tok) == "{{" + inner + "}}";
    assert EvalToken(tok, ctx, None) == VarText(ctx[Trim(inner)]);
    TrimmedValueShows(ctx[Trim(inner)]);
  }

  /** The page of `{{{key}}}`: the value itself, trimmed. */
  lemma RawPage(inner: string, ctx: Context, keys: seq<string>) returns (html: string)
    requires Unmarked(inner) && IsName(Trim(inner)) && Trim(inner) in ctx && CleanValue(ctx[Trim(inner)])
    requires NamedContext(ctx) && KeySet(ctx, keys)
    ensures ShowsRaw(html, ctx[Trim(inner)]) && Render("{{{" + inner + "}}}", ctx, keys) == Trim(html)
  {
    var tok := Raw(inner);
    OneTokenPage(tok, ctx, keys);
    assert Written(tok) == "{{{" + inner + "}}}";
    html := RawText(ctx[Trim(inner)]);
    assert EvalToken(tok, ctx, None) == html;
    RawShows(ctx[Trim(inner)]);
  }

  /** The old names still work: where only the new one has a value, they show it. */
  lemma AliasPage(old': string, new': string, ctx: Context, keys: seq<string>)
    requires (old', new') in [("description", "product_description"), ("product_title", "title"),
                              ("features", "feature_bullets"), ("specs", "product_details"),
                              ("image", "main_image"), ("main_image_url", "main_image")]
    requires old' !in ctx && new' in ctx && CleanValue(ctx[new']) && NamedContext(ctx) && KeySet(ctx, keys)
    ensures PageShows(Render("{{" + old' + "}}", ctx, keys), ctx[new'])
  {
    var tok := Var(old');
    AliasTrims(old', new');
    OneTokenPage(tok, ctx, keys);
    assert Written(tok) == "{{" + old' + "}}";
    assert EvalToken(tok, ctx, None) == VarText(ctx[new']);
    TrimmedValueShows(ctx[new']);
  }

  lemma AliasEnds(old': string, new': string)
    requires (old', new') in [("description", "product_description"), ("product_title", "title"),
                              ("features", "feature_bullets"), ("specs", "product_details"),
                              ("image", "main_image"), ("main_image_url", "main_image")]
    ensures old' != "" && !IsSpace(old'[0]) && !IsSpace(old'[|old'| - 1])
  {
    assert 'a' <= old'[0] <= 'z' && 'a' <= old'[|old'| - 1] <= 'z';
  }

  lemma AliasTrims(old': string, new': string)
    requires (old', new') in [("description", "product_description"), ("product_title", "title"),
                              ("features", "feature_bullets"), ("specs", "product_details"),
                              ("image", "main_image"), ("main_image_url", "main_image")]
    ensures Trim(old') == old' && old' != "." && Unmarked(old') && old' in ALIASES && ALIASES[old'] == new'
  {
    AliasEnds(old', new');
    hide IsSpace;
    NotTrimmed(old');
  }

  /** A name that stands for nothing shows nothing. */
  lemma UnknownPage(inner: string, ctx: Context, keys: seq<string>)
    requires Unmarked(inner) && Trim(inner) !in ctx && Trim(inner) != "."
    requires Trim(inner) !in ["description", "product_title", "features", "specs", "image", "main_image_url"]
    requires NamedContext(ctx) && KeySet(ctx, keys)
    ensures Render("{{" + inner + "}}", ctx, keys) == "" == Render("{{{" + inner + "}}}", ctx, keys)
  {
    OneTokenPage(Var(inner), ctx, keys);
    OneTokenPage(Raw(inner), ctx, keys);
    assert Written(Var(inner)) == "{{" + inner + "}}" && Written(Raw(inner)) == "{{{" + inner + "}}}";
    EscapedNothing();
    assert Trim("") == "";
  }

  // --- sections ------------------------------------------------------------------------------------------

  /** A section around a dot, with text before and after it. */
  function DotSection(inverted: bool, key: string, x: string, y: string): Tree {
    Section(inverted, key, Leaf(Text(x), Leaf(Var("."), Leaf(Text(y), Done))), key, Done)
  }

  lemma DotTokens(inverted: bool, key: string, x: string, y: string)
    ensures Print(DotSection(inverted, key, x, y))
         == [Open(inverted, key)] + ([Text(x)] + ([Var(".")] + [Text(y)])) + [Close(key)]
  {
    var l1 := Leaf(Text(y), Done);
    var l2 := Leaf(Var("."), l1);
    assert Print(l1) == [Text(y)] && Print(l2) == [Var(".")] + Print(l1);
    assert Print(Leaf(Text(x), l2)) == [Text(x)] + Print(l2);
    assert Print(DotSection(inverted, key, x, y))
        == [Open(inverted, key)] + Print(Leaf(Text(x), l2)) + [Close(key)] + Print(Done);
  }

  /** Its text. */
  lemma DotSectionText(inverted: bool, key: string, x: string, y: string)
    ensures Flatten(Print(DotSection(inverted, key, x, y)))
         == ((if inverted then "{{^" else "{{#") + key + "}}") + (x + ("{{.}}" + y)) + ("{{/" + key + "}}")
  {
    DotTokens(inverted, key, x, y);
    var open, close := Open(inverted, key), Close(key);
    var body := [Text(x)] + ([Var(".")] + [Text(y)]);
    assert Written(Var(".")) == "{{.}}" && Written(Text(x)) == x && Written(Text(y)) == y;
    assert Written(open) == (if inverted then "{{^" else "{{#") + key + "}}" && Written(close) == "{{/" + key + "}}";
    hide Flatten, Written, Print;
    FlattenConcat([open] + body, [close]);
    FlattenConcat([open], body);
    FlattenConcat([Text(x)], [Var(".")] + [Text(y)]);
    FlattenConcat([Var(".")], [Text(y)]);
    FlattenOne(open);
    FlattenOne(close);
    FlattenOne(Text(x));
    FlattenOne(Var("."));
    FlattenOne(Text(y));
  }

  /** One part per item: the text around the dot, and in its place a text that shows the item. */
  predicate ShowsItems(parts: seq<string>, x: string, y: string, items: seq<string>) {
    |parts| == |items| && forall i | 0 <= i < |items| :: ShowsItem(parts[i], x, y, items[i])
  }

  predicate ShowsItem(part: string, x: string, y: string, item: string) {
    |part| >= |x| + |y| && part[..|x|] == x && part[|part| - |y|..] == y && Shows(part[|x|..|part| - |y|], item)
  }

  lemma AroundText(x: string, e: string, y: string)
    ensures var part := x + (e + y); part[..|x|] == x && part[|part| - |y|..] == y && part[|x|..|part| - |y|] == e
  {}

  lemma {:induction false} DotEval(x: string, y: string, ctx: Context, item: string)
    ensures ShowsItem(Eval(Leaf(Text(x), Leaf(Var("."), Leaf(Text(y), Done))), ctx, Some(item)), x, y, item)
  {
    var e := EscapeHtml(item);
    EscapedShows(item);
    hide EscapeHtml, Shows;
    assert Key(Var(".")) == ".";
    hide Trim;
    var l1 := Leaf(Text(y), Done);
    var l2 := Leaf(Var("."), l1);
    assert Eval(l1, ctx, Some(item)) == y + Eval(Done, ctx, Some(item)) == y;
    assert Eval(l2, ctx, Some(item)) == e + y;
    assert Eval(Leaf(Text(x), l2), ctx, Some(item)) == x + (e + y);
    hide Eval;
    AroundText(x, e, y);
  }

  lemma {:induction false} ItemsEval(x: string, y: string, ctx: Context, items: seq<string>)
    returns (parts: seq<string>)
    ensures ShowsItems(parts, x, y, items)
    ensures EvalItems(Leaf(Text(x), Leaf(Var("."), Leaf(Text(y), Done))), ctx, items) == Lines(parts)
  {
    hide ShowsItem, Eval;
    if items == [] {
      parts := [];
    } else {
      var body := Leaf(Text(x), Leaf(Var("."), Leaf(Text(y), Done)));
      DotEval(x, y, ctx, items[0]);
      var rest := ItemsEval(x, y, ctx, items[1..]);
      parts := [Eval(body, ctx, Some(items[0]))] + rest;
      assert parts[1..] == rest;
    }
  }

  /** A section over a list repeats its body once per item, one per line, with the item shown at the dot. */
  lemma ListSectionPage(key: string, x: string, y: string, ctx: Context, keys: seq<string>) returns (parts: seq<string>)
    requires IsName(key) && Trim(key) == key && key in ctx && ctx[key].List?
    requires Readable(DotSection(false, key, x, y), ctx) && KeySet(ctx, keys)
    ensures ShowsItems(parts, x, y, ctx[key].items)
    ensures Render(Flatten(Print(DotSection(false, key, x, y))), ctx, keys) == Trim(Lines(parts))
  {
    hide Readable, Shows;
    PageIsMeaning(DotSection(false, key, x, y), ctx, keys);
    parts := ItemsEval(x, y, ctx, ctx[key].items);
    SectionMeaning(false, key, x, y, ctx);
    hide EvalItems, Trim;
    if ctx[key].items == [] { assert parts == []; }
  }

  lemma {:induction false} SectionMeaning(inverted: bool, key: string, x: string, y: string, ctx: Context)
    requires key in ctx && Trim(key) == key
    ensures var v, body := ctx[key], Leaf(Text(x), Leaf(Var("."), Leaf(Text(y), Done)));
            Eval(DotSection(inverted, key, x, y), ctx, None) ==
            if inverted then (if Missing(v) then Eval(body, ctx, None) else "")
            else if Missing(v) then ""
            else if v.List? then EvalItems(body, ctx, v.items)
            else Eval(body, ctx, Some(Display(v)))
  {
    var v, body := ctx[key], Leaf(Text(x), Leaf(Var("."), Leaf(Text(y), Done)));
    EmptyIsMissing(v);
    assert Resolve(ctx, key) == v;
    hide IsEmpty, Missing, Display;
    var out := EvalSection(inverted, v, body, ctx, None);
    assert Eval(DotSection(inverted, key, x, y), ctx, None) == out + Eval(Done, ctx, None) == out;
  }

  /** A section over a text shows its body once, with the text at the dot; over nothing to show, no body. */
  lemma ScalarSectionPage(key: string, x: string, y: string, s: string, ctx: Context, keys: seq<string>)
    returns (part: string)
    requires IsName(key) && Trim(key) == key && key in ctx && ctx[key] == Str(s)
    requires Readable(DotSection(false, key, x, y), ctx) && KeySet(ctx, keys)
    ensures ShowsItem(part, x, y, s)
    ensures Render(Flatten(Print(DotSection(false, key, x, y))), ctx, keys)
         == if forall i | 0 <= i < |s| :: IsSpace(s[i]) then "" else Trim(part)
  {
    hide Readable, ShowsItem;
    PageIsMeaning(DotSection(false, key, x, y), ctx, keys);
    SectionMeaning(false, key, x, y, ctx);
    DotEval(x, y, ctx, s);
    part := Eval(Leaf(Text(x), Leaf(Var("."), Leaf(Text(y), Done))), ctx, Some(s));
    hide Eval;
    assert Trim("") == "";
  }

  /** An inverted section shows its body, without the dot, exactly when there is nothing to show. */
  lemma InvertedSectionPage(key: string, x: string, y: string, ctx: Context, keys: seq<string>)
    requires IsName(key) && Trim(key) == key && key in ctx
    requires Readable(DotSection(true, key, x, y), ctx) && KeySet(ctx, keys)
    ensures Render(Flatten(Print(DotSection(true, key, x, y))), ctx, keys)
         == if Missing(ctx[key]) then Trim(x + y) else ""
  {
    hide Readable;
    PageIsMeaning(DotSection(true, key, x, y), ctx, keys);
    SectionMeaning(true, key, x, y, ctx);
    NoDotEval(x, y, ctx);
    hide Eval, Missing;
    assert Trim("") == "";
  }

  lemma {:induction false} NoDotEval(x: string, y: string, ctx: Context)
    ensures Eval(Leaf(Text(x), Leaf(Var("."), Leaf(Text(y), Done))), ctx, None) == x + y
  {
    assert Key(Var(".")) == ".";
    var l1 := Leaf(Text(y), Done);
    var l2 := Leaf(Var("."), l1);
    assert Eval(l1, ctx, None) == y + Eval(Done, ctx, None) == y;
    assert Eval(l2, ctx, None) == "" + y == y;
  }
}
