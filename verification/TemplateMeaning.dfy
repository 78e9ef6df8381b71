/**
 What a well-nested template means, read as a tree with an environment, and the proof
 that rendering its text computes it; and, for every written template however badly
 nested, that no placeholder survives and that the order of keys does not matter.
 */
module TemplateMeaning {
  import opened ListingTemplate
  import opened Options
  import opened Strings
  import opened TemplatePlaceholders
  import opened TemplateRefines
  import opened TemplateScan
  import opened TemplateSearch
  import opened TemplateSections
  import opened TemplateTokens

  datatype Tree =
    | Done
    | Leaf(tok: Token, rest: Tree)
    | Section(inverted: bool, inner: string, body: Tree, closing: string, rest: Tree)

  /** Placeholders and text as leaves; the two tags of a section have the same name. */
  predicate WellNested(t: Tree) {
    match t
    case Done => true
    case Leaf(tok, rest) => !tok.Open? && !tok.Close? && WellNested(rest)
    case Section(_, inner, body, closing, rest) => Trim(inner) == Trim(closing) && WellNested(body) && WellNested(rest)
  }

  function Print(t: Tree): seq<Token> {
    match t
    case Done => []
    case Leaf(tok, rest) => [tok] + Print(rest)
    case Section(inverted, inner, body, closing, rest) =>
      [Open(inverted, inner)] + Print(body) + [Close(closing)] + Print(rest)
  }

  function Sections(t: Tree): nat {
    match t
    case Done => 0
    case Leaf(_, rest) => Sections(rest)
    case Section(_, _, body, _, rest) => 1 + Sections(body) + Sections(rest)
  }

  // --- the reference meaning ------------------------------------------------------------

  /** A dot is the innermost item in scope; a name that resolves to nothing is empty. */
  function EvalToken(t: Token, ctx: Context, dot: Option<string>): string {
    match t
    case Text(s) => s
    case Var(_) =>
      if Key(t) != "." then VarText(Resolve(ctx, Key(t))) else if dot.Some? then EscapeHtml(dot.value) else ""
    case Raw(_) => if Key(t) != "." then RawText(Resolve(ctx, Key(t))) else if dot.Some? then dot.value else ""
    case _ => ""
  }

  function Eval(t: Tree, ctx: Context, dot: Option<string>): string
    decreases t, 0
  {
    match t
    case Done => ""
    case Leaf(tok, rest) => EvalToken(tok, ctx, dot) + Eval(rest, ctx, dot)
    case Section(inverted, inner, body, _, rest) =>
      EvalSection(inverted, Resolve(ctx, Trim(inner)), body, ctx, dot) + Eval(rest, ctx, dot)
  }

  /** Inverted: the body when the value is empty. Otherwise nothing when empty, once per item, or once. */
  function EvalSection(inverted: bool, v: Value, body: Tree, ctx: Context, dot: Option<string>): string
    decreases body, 1 + if v.List? then |v.items| else 0
  {
    if inverted then (if IsEmpty(v) then Eval(body, ctx, dot) else "")
    else if IsEmpty(v) then ""
    else if v.List? then EvalItems(body, ctx, v.items)
    else Eval(body, ctx, Some(Display(v)))
  }

  /** One rendering per item, separated by newlines. */
  function EvalItems(body: Tree, ctx: Context, items: seq<string>): string
    decreases body, |items|
  {
    if items == [] then ""
    else if |items| == 1 then Eval(body, ctx, Some(items[0]))
    else Eval(body, ctx, Some(items[0])) + "\n" + EvalItems(body, ctx, items[1..])
  }

  // --- section-free token lists -----------------------------------------------------------

  function EvalTokens(ts: seq<Token>, ctx: Context, dot: Option<string>): string {
    if ts == [] then "" else EvalToken(ts[0], ctx, dot) + EvalTokens(ts[1..], ctx, dot)
  }

  lemma {:induction false} EvalTokensConcat(a: seq<Token>, b: seq<Token>, ctx: Context, dot: Option<string>)
    ensures EvalTokens(a + b, ctx, dot) == EvalTokens(a, ctx, dot) + EvalTokens(b, ctx, dot)
  {
    hide EvalToken;
    if a == [] {
      assert a + b == b;
    } else {
      EvalTokensConcat(a[1..], b, ctx, dot);
      assert (a + b)[0] == a[0] && (a + b)[1..] == a[1..] + b;
      Unfold(a, ctx, dot);
      Unfold(a + b, ctx, dot);
      hide EvalTokens;
      RegroupText(EvalToken(a[0], ctx, dot), EvalTokens(a[1..], ctx, dot), EvalTokens(b, ctx, dot));
    }
  }

  lemma {:induction false} Unfold(ts: seq<Token>, ctx: Context, dot: Option<string>)
    requires ts != []
    ensures EvalTokens(ts, ctx, dot) == EvalToken(ts[0], ctx, dot) + EvalTokens(ts[1..], ctx, dot)
  {
    hide EvalToken;
  }

  lemma RegroupText(a: string, b: string, c: string)
    ensures (a + b) + c == a + (b + c)
  {
  }

  /** Substituting the dot is the same as having it in scope. */
  lemma {:induction false} BindDotEval(ts: seq<Token>, item: string, ctx: Context, dot: Option<string>)
    ensures EvalTokens(BindDot(ts, item), ctx, dot) == EvalTokens(ts, ctx, Some(item))
  {
    if ts == [] {
    } else {
      BindDotEval(ts[1..], item, ctx, dot);
      assert BindDot(ts, item)[1..] == BindDot(ts[1..], item);
    }
  }

  lemma {:induction false} FlatEval(t: Tree, ctx: Context, dot: Option<string>)
    requires Sections(t) == 0
    ensures EvalTokens(Print(t), ctx, dot) == Eval(t, ctx, dot)
  {
    if t.Done? {
    } else {
      FlatEval(t.rest, ctx, dot);
      assert Print(t)[1..] == Print(t.rest);
    }
  }

  lemma {:induction false} BindEachEval(t: Tree, items: seq<string>, ctx: Context, dot: Option<string>)
    requires Sections(t) == 0
    ensures EvalTokens(BindEach(Print(t), items), ctx, dot) == EvalItems(t, ctx, items)
  {
    if items == [] {
    } else {
      var first := BindDot(Print(t), items[0]);
      BindDotEval(Print(t), items[0], ctx, dot);
      FlatEval(t, ctx, Some(items[0]));
      if |items| > 1 {
        var rest := BindEach(Print(t), items[1..]);
        BindEachEval(t, items[1..], ctx, dot);
        ConcatThree(first, rest, ctx, dot);
      }
    }
  }

  lemma {:induction false} ConcatThree(a: seq<Token>, b: seq<Token>, ctx: Context, dot: Option<string>)
    ensures EvalTokens(a + [Text("\n")] + b, ctx, dot) == EvalTokens(a, ctx, dot) + "\n" + EvalTokens(b, ctx, dot)
  {
    EvalTokensConcat(a + [Text("\n")], b, ctx, dot);
    EvalTokensConcat(a, [Text("\n")], ctx, dot);
    assert EvalTokens([Text("\n")], ctx, dot) == "\n" + EvalTokens([], ctx, dot) == "\n";
  }

  // --- one turn, on the tree ----------------------------------------------------------------

  /** No opener and no closer. */
  predicate Flat(ts: seq<Token>) {
    forall i | 0 <= i < |ts| :: !ts[i].Open? && !ts[i].Close?
  }

  function Splice(ts: seq<Token>, rest: Tree): Tree {
    if ts == [] then rest else Leaf(ts[0], Splice(ts[1..], rest))
  }

  lemma {:induction false} SplicePrint(ts: seq<Token>, rest: Tree)
    ensures Print(Splice(ts, rest)) == ts + Print(rest)
  {
    if ts == [] {
      assert ts + Print(rest) == Print(rest);
    } else {
      SplicePrint(ts[1..], rest);
      assert ts + Print(rest) == [ts[0]] + (ts[1..] + Print(rest));
    }
  }

  /** Tokens that are no tags add no section and break no nesting. */
  lemma {:induction false} SpliceNests(ts: seq<Token>, rest: Tree)
    requires Flat(ts) && WellNested(rest)
    ensures WellNested(Splice(ts, rest)) && Sections(Splice(ts, rest)) == Sections(rest)
  {
    hide Trim;
    if ts == [] {
    } else {
      SpliceNests(ts[1..], rest);
    }
  }

  lemma {:induction false} SpliceEval(ts: seq<Token>, rest: Tree, ctx: Context, dot: Option<string>)
    ensures Eval(Splice(ts, rest), ctx, dot) == EvalTokens(ts, ctx, dot) + Eval(rest, ctx, dot)
  {
    hide EvalToken;
    if ts == [] {
    } else {
      SpliceEval(ts[1..], rest, ctx, dot);
    }
  }

  /** The tree with its first innermost section replaced by what it expands to. */
  function Expand(t: Tree, ctx: Context): Tree
    requires Sections(t) > 0
  {
    match t
    case Leaf(tok, rest) => Leaf(tok, Expand(rest, ctx))
    case Section(inverted, inner, body, closing, rest) =>
      if Sections(body) > 0 then Section(inverted, inner, Expand(body, ctx), closing, rest)
      else Splice(Replacement(inverted, Resolve(ctx, Trim(inner)), Print(body)), rest)
  }

  lemma {:induction false} PrintFlat(t: Tree)
    requires WellNested(t) && Sections(t) == 0
    ensures Flat(Print(t))
  {
    if t.Done? {
    } else {
      PrintFlat(t.rest);
    }
  }

  lemma {:induction false} BindDotFlat(ts: seq<Token>, item: string)
    requires Flat(ts)
    ensures Flat(BindDot(ts, item))
  {
    if ts == [] {
    } else {
      BindDotFlat(ts[1..], item);
    }
  }

  lemma {:induction false} BindEachFlat(ts: seq<Token>, items: seq<string>)
    requires Flat(ts)
    ensures Flat(BindEach(ts, items))
  {
    if items == [] {
    } else {
      BindDotFlat(ts, items[0]);
      BindEachFlat(ts, items[1..]);
    }
  }

  lemma {:induction false} ReplacementFacts(inverted: bool, key: string, body: Tree, ctx: Context, dot: Option<string>)
    requires WellNested(body) && Sections(body) == 0
    ensures var r := Replacement(inverted, Resolve(ctx, key), Print(body));
            Flat(r) && EvalTokens(r, ctx, dot) == EvalSection(inverted, Resolve(ctx, key), body, ctx, dot)
  {
    var v := Resolve(ctx, key);
    PrintFlat(body);
    if v.List? { BindEachFlat(Print(body), v.items); }
    BindDotFlat(Print(body), Display(v));
    FlatEval(body, ctx, dot);
    BindDotEval(Print(body), Display(v), ctx, dot);
    FlatEval(body, ctx, Some(Display(v)));
    if v.List? { BindEachEval(body, v.items, ctx, dot); }
  }

  /** Expanding one section keeps the meaning in every environment and uses up exactly one section. */
  lemma {:induction false} ExpandKeepsMeaning(t: Tree, ctx: Context, dot: Option<string>)
    requires WellNested(t) && Sections(t) > 0
    ensures WellNested(Expand(t, ctx)) && Sections(Expand(t, ctx)) + 1 == Sections(t)
    ensures Eval(Expand(t, ctx), ctx, dot) == Eval(t, ctx, dot)
    decreases t, 0
  {
    match t
    case Leaf(tok, rest) => ExpandKeepsMeaning(rest, ctx, dot);
    case Section(_, inner, body, _, rest) =>
      if Sections(body) > 0 {
        var v := Resolve(ctx, Trim(inner));
        ExpandKeepsMeaning(body, ctx, dot);
        ExpandKeepsMeaning(body, ctx, Some(Display(v)));
        if v.List? { ExpandItems(body, ctx, v.items); }
      } else {
        ExpandHere(t, ctx, dot);
      }
  }

  lemma {:induction false} ExpandHere(t: Tree, ctx: Context, dot: Option<string>)
    requires WellNested(t) && t.Section? && Sections(t.body) == 0
    ensures WellNested(Expand(t, ctx)) && Sections(Expand(t, ctx)) + 1 == Sections(t)
    ensures Eval(Expand(t, ctx), ctx, dot) == Eval(t, ctx, dot)
  {
    hide Replacement, EvalSection, Resolve, Print, EvalTokens;
    ReplacementFacts(t.inverted, Trim(t.inner), t.body, ctx, dot);
    var r := Replacement(t.inverted, Resolve(ctx, Trim(t.inner)), Print(t.body));
    SpliceNests(r, t.rest);
    SpliceEval(r, t.rest, ctx, dot);
  }

  lemma {:induction false} ExpandItems(body: Tree, ctx: Context, items: seq<string>)
    requires WellNested(body) && Sections(body) > 0
    ensures EvalItems(Expand(body, ctx), ctx, items) == EvalItems(body, ctx, items)
    decreases body, |items| + 1
  {
    if items == [] {
    } else {
      ExpandKeepsMeaning(body, ctx, Some(items[0]));
      ExpandItems(body, ctx, items[1..]);
    }
  }

  // --- one turn, on the tokens: the engine finds that very section -------------------------------

  /**
   Before a tree's first opener there is no closer of any key, so a scan for one that starts outside never passes
   it.
   */
  lemma {:induction false} NoCloserPastOpener(t: Tree, suffix: seq<Token>, key: string)
    requires WellNested(t) && Sections(t) > 0
    ensures CloserOf(Print(t) + suffix, key) == None
  {
    hide Key, Trim;
    if t.Leaf? {
      NoCloserPastOpener(t.rest, suffix, key);
      assert Print(t) + suffix == [t.tok] + (Print(t.rest) + suffix);
      hide Print;
      CloserPast(t.tok, Print(t.rest) + suffix, key);
    } else {
      PrintSection(t, suffix);
    }
  }

  lemma {:induction false} CloserPast(t: Token, rest: seq<Token>, key: string)
    requires !t.Open? && !t.Close? && CloserOf(rest, key) == None
    ensures CloserOf([t] + rest, key) == None
  {
    hide Key;
    assert ([t] + rest)[1..] == rest;
  }

  lemma {:induction false} CloserAfterFlat(ts: seq<Token>, close: Token, suffix: seq<Token>)
    requires Flat(ts) && close.Close?
    ensures CloserOf(ts + [close] + suffix, Key(close)) == Some(|ts|)
  {
    hide Key;
    if ts == [] {
      assert ts + [close] + suffix == [close] + suffix;
    } else {
      CloserAfterFlat(ts[1..], close, suffix);
      assert (ts + [close] + suffix)[1..] == ts[1..] + [close] + suffix;
    }
  }

  /** The section pattern, run on a printed tree followed by anything, rewrites exactly what `Expand` expands. */
  lemma {:induction false} TurnIsExpand(t: Tree, suffix: seq<Token>, ctx: Context)
    requires WellNested(t) && Sections(t) > 0
    ensures FindSection(Print(t) + suffix).Match?
    ensures RewriteOnce(Print(t) + suffix, ctx) == Print(Expand(t, ctx)) + suffix
  {
    hide Trim, FindSection, RewriteOnce, CloserOf;
    match t
    case Leaf(tok, rest) =>
      TurnIsExpand(rest, suffix, ctx);
      TurnPast(tok, Print(rest) + suffix, Print(t) + suffix, ctx);
      Reassociate(tok, [], Print(Expand(rest, ctx)), suffix);
      assert [tok] + [] == [tok] && [] + Print(Expand(rest, ctx)) == Print(Expand(rest, ctx));
    case Section(_, _, body, closing, rest) =>
      if Sections(body) > 0 {
        TurnIsExpand(body, [Close(closing)] + Print(rest) + suffix, ctx);
        TurnInside(t, suffix, ctx);
      } else {
        TurnHere(t, suffix, ctx);
      }
  }

  /** A turn inside the body of a section is a turn on the section. */
  lemma {:induction false} TurnInside(t: Tree, suffix: seq<Token>, ctx: Context)
    requires t.Section? && WellNested(t) && Sections(t.body) > 0
    requires var tail := [Close(t.closing)] + Print(t.rest) + suffix;
             && FindSection(Print(t.body) + tail).Match?
             && RewriteOnce(Print(t.body) + tail, ctx) == Print(Expand(t.body, ctx)) + tail
    ensures FindSection(Print(t) + suffix).Match?
    ensures RewriteOnce(Print(t) + suffix, ctx) == Print(Expand(t, ctx)) + suffix
  {
    hide Trim, FindSection, RewriteOnce, CloserOf;
    var tail := [Close(t.closing)] + Print(t.rest) + suffix;
    var open := Open(t.inverted, t.inner);
    NoCloserPastOpener(t.body, tail, Key(open));
    PrintSection(t, suffix);
    PrintSection(t.(body := Expand(t.body, ctx)), suffix);
    hide Print;
    TurnPast(open, Print(t.body) + tail, Print(t) + suffix, ctx);
  }

  lemma {:induction false} PrintSection(t: Tree, suffix: seq<Token>)
    requires t.Section?
    ensures Print(t) + suffix
         == [Open(t.inverted, t.inner)] + (Print(t.body) + ([Close(t.closing)] + Print(t.rest) + suffix))
  {
  }

  lemma {:induction false} TurnPast(tok: Token, tail: seq<Token>, ts: seq<Token>, ctx: Context)
    requires ts == [tok] + tail && (tok.Open? ==> CloserOf(tail, Key(tok)) == None) && FindSection(tail).Match?
    ensures FindSection(ts).Match? && RewriteOnce(ts, ctx) == [tok] + RewriteOnce(tail, ctx)
  {
    hide FindSection, RewriteOnce, CloserOf;
    assert ts[0] == tok && ts[1..] == tail;
    Shift(ts, ctx);
  }

  lemma {:induction false} FindHere(open: Token, body: seq<Token>, close: Token, after: seq<Token>)
    requires Flat(body) && open.Open? && close.Close? && Key(open) == Key(close)
    ensures FindSection([open] + (body + [close] + after)) == Match([], open, body, close, after)
  {
    hide Key;
    CloserAfterFlat(body, close, after);
    var tail := body + [close] + after;
    assert ([open] + tail)[1..] == tail;
    assert tail[..|body|] == body && tail[|body| + 1..] == after && tail[|body|] == close;
  }

  lemma {:induction false} TurnHere(t: Tree, suffix: seq<Token>, ctx: Context)
    requires WellNested(t) && t.Section? && Sections(t.body) == 0
    ensures FindSection(Print(t) + suffix).Match?
    ensures RewriteOnce(Print(t) + suffix, ctx) == Print(Expand(t, ctx)) + suffix
  {
    var body, after := Print(t.body), Print(t.rest) + suffix;
    var open, close := Open(t.inverted, t.inner), Close(t.closing);
    var r := Replacement(t.inverted, Resolve(ctx, Key(open)), body);
    PrintFlat(t.body);
    ReplacementFacts(t.inverted, Key(open), t.body, ctx, None);
    SplicePrint(r, t.rest);
    SpliceNests(r, t.rest);
    FindHere(open, body, close, after);
    SectionTokens(t, suffix);
    hide Replacement, Resolve, Flat, EvalTokens, EvalSection, FindSection, Splice, Print;
    hide RewriteOnce, Sections, WellNested;
    RewriteHere(Print(t) + suffix, open, body, close, after, ctx);
    Regroup(r, Print(t.rest), suffix);
  }

  lemma {:induction false} RewriteHere(
      ts: seq<Token>, open: Token, body: seq<Token>, close: Token, after: seq<Token>, ctx: Context)
    requires FindSection(ts) == Match([], open, body, close, after) && open.Open?
    ensures RewriteOnce(ts, ctx) == Replacement(open.inverted, Resolve(ctx, Key(open)), body) + after
  {
    hide FindSection, Replacement, Resolve, Key;
    var r := Replacement(open.inverted, Resolve(ctx, Key(open)), body);
    assert [] + r == r;
  }

  lemma Regroup(a: seq<Token>, b: seq<Token>, c: seq<Token>)
    ensures (a + b) + c == a + (b + c)
  {
  }

  lemma {:induction false} SectionTokens(t: Tree, suffix: seq<Token>)
    requires t.Section?
    ensures Print(t) + suffix
         == [Open(t.inverted, t.inner)] + (Print(t.body) + [Close(t.closing)] + (Print(t.rest) + suffix))
  {
    PrintSection(t, suffix);
    hide Print;
    Regroup([Close(t.closing)], Print(t.rest), suffix);
    Regroup(Print(t.body), [Close(t.closing)], Print(t.rest) + suffix);
  }

  /** If nothing starts at the first token, the turn happens in the rest. */
  lemma {:induction false} Shift(ts: seq<Token>, ctx: Context)
    requires ts != [] && (ts[0].Open? ==> CloserOf(ts[1..], Key(ts[0])) == None)
    requires FindSection(ts[1..]).Match?
    ensures FindSection(ts).Match? && RewriteOnce(ts, ctx) == [ts[0]] + RewriteOnce(ts[1..], ctx)
  {
    var m := FindSection(ts[1..]);
    assert FindSection(ts) == m.(before := [ts[0]] + m.before);
    hide FindSection, Replacement, Key;
    var r := Replacement(m.open.Open? && m.open.inverted, Resolve(ctx, Key(m.open)), m.body);
    Reassociate(ts[0], m.before, r, m.after);
  }

  lemma Reassociate(x: Token, a: seq<Token>, b: seq<Token>, c: seq<Token>)
    ensures ([x] + a) + b + c == [x] + (a + b + c)
  {
  }

  lemma {:induction false} FlatNoMatch(ts: seq<Token>)
    requires Flat(ts)
    ensures FindSection(ts) == NoMatch
  {
    if ts == [] {
    } else {
      FlatNoMatch(ts[1..]);
    }
  }

  /** As many turns as there are sections leave a section-free template that means the same. */
  lemma {:induction false} RewriteMeans(t: Tree, ctx: Context, turns: nat)
    requires WellNested(t) && Sections(t) <= turns
    ensures var ts := Rewrite(Print(t), ctx, turns);
            Flat(ts) && EvalTokens(ts, ctx, None) == Eval(t, ctx, None)
    decreases turns
  {
    hide Replacement, FindSection, Trim, EvalTokens, Eval, WellNested, Flat, RewriteOnce;
    if Sections(t) == 0 {
      PrintFlat(t);
      FlatNoMatch(Print(t));
      NothingLeft(Print(t), ctx, turns);
      FlatEval(t, ctx, None);
    } else {
      TurnIsExpand(t, [], ctx);
      assert Print(t) + [] == Print(t) && Print(Expand(t, ctx)) + [] == Print(Expand(t, ctx));
      ExpandKeepsMeaning(t, ctx, None);
      RewriteMeans(Expand(t, ctx), ctx, turns - 1);
    }
  }

  // --- variables and stripping ---------------------------------------------------------------------

  lemma {:induction false} StripSectionsFlat(ts: seq<Token>)
    requires Flat(ts)
    ensures StripSections(ts) == ts
  {
    if ts == [] {
    } else {
      StripSectionsFlat(ts[1..]);
    }
  }

  /** The text left when everything that is not text is dropped. */
  function TextOf(ts: seq<Token>): string {
    if ts == [] then "" else (if ts[0].Text? then ts[0].s else "") + TextOf(ts[1..])
  }

  lemma {:induction false} DropKeepsText(ts: seq<Token>, gone: Token -> bool)
    requires forall t: Token :: gone(t) ==> !t.Text?
    ensures TextOf(Drop(ts, gone)) == TextOf(ts)
    ensures (forall t: Token :: t.Text? || gone(t)) ==> Flatten(Drop(ts, gone)) == TextOf(ts)
    ensures forall t | t in Drop(ts, gone) :: t in ts && !gone(t)
  {
    if ts == [] {
    } else {
      DropKeepsText(ts[1..], gone);
      var rest := Drop(ts[1..], gone);
      if !gone(ts[0]) {
        assert Drop(ts, gone)[1..] == rest;
      } else {
        assert Drop(ts, gone) == rest;
      }
    }
  }

  /** Whatever the token list, stripping leaves text only, and exactly the text outside the leftover sections. */
  lemma {:induction false} StripLeavesText(ts: seq<Token>)
    ensures forall t | t in StripTokens(ts) :: t.Text?
    ensures Flatten(StripTokens(ts)) == TextOf(StripSections(ts))
  {
    var a := StripSections(ts);
    var b := Drop(a, IsClose);
    var c := Drop(b, IsRaw);
    DropKeepsText(a, IsClose);
    DropKeepsText(b, IsRaw);
    DropKeepsText(c, IsPlaceholder);
  }

  lemma {:induction false} SubstituteEval(ts: seq<Token>, ctx: Context)
    requires Flat(ts)
    ensures Flat(SubstituteAll(ts, ctx)) && TextOf(SubstituteAll(ts, ctx)) == EvalTokens(ts, ctx, None)
  {
    if ts == [] {
    } else {
      SubstituteEval(ts[1..], ctx);
      assert SubstituteAll(ts, ctx)[1..] == SubstituteAll(ts[1..], ctx);
    }
  }

  lemma {:induction false} SectionShows(t: Tree)
    requires t.Section?
    ensures !BlankTemplate(Print(t))
  {
    assert Print(t)[0] == Open(t.inverted, t.inner) && Print(t)[0] in Print(t);
  }

  lemma {:induction false} BlankEval(t: Tree, ctx: Context, dot: Option<string>)
    requires BlankTemplate(Print(t))
    ensures IsBlank(Eval(t, ctx, dot))
  {
    if t.Section? {
      SectionShows(t);
    } else if t.Leaf? {
      assert t.tok in Print(t) && forall x | x in Print(t.rest) :: x in Print(t);
      BlankEval(t.rest, ctx, dot);
    }
  }

  lemma {:induction false} RenderTokensIsEval(t: Tree, ctx: Context)
    requires WellNested(t) && Sections(t) <= GUARD
    ensures RenderTokens(Print(t), ctx) == Trim(Eval(t, ctx, None))
  {
    if BlankTemplate(Print(t)) {
      BlankEval(t, ctx, None);
      TrimStartBlank(Eval(t, ctx, None));
    } else {
      RewriteMeans(t, ctx, GUARD);
      var ts := Rewrite(Print(t), ctx, GUARD);
      SubstituteEval(ts, ctx);
      StripLeavesText(SubstituteAll(ts, ctx));
      StripSectionsFlat(SubstituteAll(ts, ctx));
    }
  }

  // --- which trees are safe to expand ----------------------------------------------------------------

  /** A dot that is still there when the sections inside have been expanded. */
  predicate LooseDot(t: Tree) {
    match t
    case Done => false
    case Leaf(tok, rest) => IsDot(tok) || LooseDot(rest)
    case Section(inverted, _, body, _, rest) => (inverted && LooseDot(body)) || LooseDot(rest)
  }

  /** Every section with a dot of its own is over a value with good items. */
  predicate SafeTree(t: Tree, ctx: Context) {
    match t
    case Done => true
    case Leaf(_, rest) => SafeTree(rest, ctx)
    case Section(inverted, inner, body, _, rest) =>
      && (inverted || !LooseDot(body) || GoodItems(Resolve(ctx, Trim(inner))))
      && SafeTree(body, ctx) && SafeTree(rest, ctx)
  }

  lemma DotHereOrLater(ts: seq<Token>)
    requires ts != []
    ensures HasDot(ts) <==> IsDot(ts[0]) || HasDot(ts[1..])
  {
    hide Names;
    MentionsTail(ts, true, ".");
    MentionsTail(ts, false, ".");
    assert ts == [ts[0]] + ts[1..];
    if i :| 0 <= i < |ts| && Names(ts[i], true, ".") { assert i > 0 ==> ts[1..][i - 1] == ts[i]; }
    if i :| 0 <= i < |ts| && Names(ts[i], false, ".") { assert i > 0 ==> ts[1..][i - 1] == ts[i]; }
  }

  lemma {:induction false} FlatDots(t: Tree)
    requires Sections(t) == 0
    ensures HasDot(Print(t)) <==> LooseDot(t)
  {
    hide HasDot, IsDot;
    if t.Leaf? {
      FlatDots(t.rest);
      DotHereOrLater(Print(t));
      assert Print(t)[1..] == Print(t.rest);
    } else {
      assert !HasDot([]) by { NoDotsInNothing(); }
    }
  }

  lemma NoDotsInNothing()
    ensures !HasDot([])
  {}

  lemma {:induction false} SpliceSafe(ts: seq<Token>, rest: Tree, ctx: Context)
    ensures LooseDot(Splice(ts, rest)) <==> HasDot(ts) || LooseDot(rest)
    ensures SafeTree(Splice(ts, rest), ctx) <==> SafeTree(rest, ctx)
  {
    hide HasDot, IsDot, GoodItems;
    if ts == [] {
      NoDotsInNothing();
    } else {
      SpliceSafe(ts[1..], rest, ctx);
      DotHereOrLater(ts);
    }
  }

  lemma {:induction false} BindDotNoDots(ts: seq<Token>, item: string)
    ensures !HasDot(BindDot(ts, item))
  {
    hide HasDot, Key;
    if ts == [] {
      NoDotsInNothing();
    } else {
      BindDotNoDots(ts[1..], item);
      DotHereOrLater(BindDot(ts, item));
    }
  }

  lemma {:induction false} BindEachNoDots(ts: seq<Token>, items: seq<string>)
    ensures !HasDot(BindEach(ts, items))
  {
    hide HasDot, BindDot, Key;
    if items == [] {
      NoDotsInNothing();
    } else {
      BindDotNoDots(ts, items[0]);
      BindEachNoDots(ts, items[1..]);
      NoDotsBetween(BindDot(ts, items[0]), BindEach(ts, items[1..]));
    }
  }

  lemma NoDotsBetween(a: seq<Token>, b: seq<Token>)
    requires !HasDot(a) && !HasDot(b)
    ensures !HasDot(a + [Text("\n")] + b)
  {
    hide Key;
    var c := a + [Text("\n")] + b;
    forall i | 0 <= i < |c| ensures !Names(c[i], true, ".") && !Names(c[i], false, ".") {
      if i < |a| { assert c[i] == a[i]; }
      if i > |a| { assert c[i] == b[i - |a| - 1]; }
    }
  }

  /** What a section leaves behind has a dot only if it is inverted and had one. */
  lemma ReplacementDots(inverted: bool, v: Value, body: seq<Token>)
    ensures HasDot(Replacement(inverted, v, body)) ==> inverted && HasDot(body)
  {
    hide HasDot, BindDot, BindEach, IsEmpty;
    NoDotsInNothing();
    if v.List? { BindEachNoDots(body, v.items); }
    BindDotNoDots(body, Display(v));
  }

  /** Expanding keeps a tree safe and loosens no dot. */
  lemma {:induction false} ExpandSafe(t: Tree, ctx: Context)
    requires Sections(t) > 0 && SafeTree(t, ctx)
    ensures SafeTree(Expand(t, ctx), ctx) && (LooseDot(Expand(t, ctx)) ==> LooseDot(t))
  {
    hide HasDot, IsDot, GoodItems, Trim, Replacement;
    match t
    case Leaf(_, rest) => ExpandSafe(rest, ctx);
    case Section(inverted, inner, body, _, rest) =>
      if Sections(body) > 0 {
        ExpandSafe(body, ctx);
      } else {
        var v := Resolve(ctx, Trim(inner));
        SpliceSafe(Replacement(inverted, v, Print(body)), rest, ctx);
        ReplacementDots(inverted, v, Print(body));
        FlatDots(body);
      }
  }

  lemma {:induction false} StepPast(tok: Token, tail: seq<Token>, ts: seq<Token>, ctx: Context)
    requires ts == [tok] + tail && (tok.Open? ==> CloserOf(tail, Key(tok)) == None) && StepSafe(tail, ctx)
    ensures StepSafe(ts, ctx)
  {
    hide SafeSection, Key, Resolve;
    assert ts[0] == tok && ts[1..] == tail;
    hide CloserOf;
  }

  /** The section that is found in a safe tree's text is safe to expand, whatever follows. */
  lemma {:induction false} TreeStepSafe(t: Tree, suffix: seq<Token>, ctx: Context)
    requires WellNested(t) && Sections(t) > 0 && SafeTree(t, ctx)
    ensures StepSafe(Print(t) + suffix, ctx)
  {
    hide Trim, FindSection, CloserOf, GoodItems, HasDot, StepSafe;
    match t
    case Leaf(tok, rest) =>
      TreeStepSafe(rest, suffix, ctx);
      assert Print(t) + suffix == [tok] + (Print(rest) + suffix);
      StepPast(tok, Print(rest) + suffix, Print(t) + suffix, ctx);
    case Section(inverted, inner, body, closing, rest) =>
      if Sections(body) > 0 {
        var tail := [Close(closing)] + Print(rest) + suffix;
        TreeStepSafe(body, tail, ctx);
        NoCloserPastOpener(body, tail, Trim(inner));
        PrintSection(t, suffix);
        StepPast(Open(inverted, inner), Print(body) + tail, Print(t) + suffix, ctx);
      } else {
        StepHereSafe(t, suffix, ctx);
      }
  }

  lemma {:induction false} StepHereSafe(t: Tree, suffix: seq<Token>, ctx: Context)
    requires WellNested(t) && t.Section? && Sections(t.body) == 0 && SafeTree(t, ctx)
    ensures StepSafe(Print(t) + suffix, ctx)
  {
    hide Trim, FindSection, CloserOf, GoodItems, HasDot;
    PrintFlat(t.body);
    FindHere(Open(t.inverted, t.inner), Print(t.body), Close(t.closing), Print(t.rest) + suffix);
    SectionTokens(t, suffix);
    FlatDots(t.body);
  }

  /** Every expansion in a safe tree is safe, however many turns. */
  lemma {:induction false} SafeTreeRuns(t: Tree, ctx: Context, turns: nat)
    requires WellNested(t) && SafeTree(t, ctx)
    ensures ExpansionsSafe(Print(t), ctx, turns)
    decreases turns
  {
    if turns == 0 {
    } else {
      hide FindSection, RewriteOnce, StepSafe, Print, SafeTree, WellNested;
      if Sections(t) == 0 {
        NoSectionSafe(t, ctx, turns);
      } else {
        assert Print(t) + [] == Print(t);
        TreeStepSafe(t, [], ctx);
        TurnIsExpand(t, [], ctx);
        assert Print(Expand(t, ctx)) + [] == Print(Expand(t, ctx));
        ExpandKeepsMeaning(t, ctx, None);
        ExpandSafe(t, ctx);
        SafeTreeRuns(Expand(t, ctx), ctx, turns - 1);
      }
    }
  }

  lemma {:induction false} NoSectionSafe(t: Tree, ctx: Context, turns: nat)
    requires WellNested(t) && Sections(t) == 0
    ensures ExpansionsSafe(Print(t), ctx, turns)
    decreases turns
  {
    hide FindSection, SafeSection;
    PrintFlat(t);
    FlatNoMatch(Print(t));
    if turns == 0 {
    } else {
      NoSectionSafe(t, ctx, turns - 1);
    }
  }

  // --- the page -------------------------------------------------------------------------------

  /**
   The engine computes the meaning: for every well-nested template of at most a hundred sections, rendering its
   text is evaluating its tree, up to the final trim, if nothing it inserts reads as something else.
   */
  lemma {:induction false} RenderIsEval(t: Tree, ctx: Context, keys: seq<string>)
    requires WellNested(t) && Sections(t) <= 100
    requires AllTame(Print(t), ctx) && SafeTree(t, ctx) && NamedContext(ctx) && KeySet(ctx, keys)
    ensures Render(Flatten(Print(t)), ctx, keys) == Trim(Eval(t, ctx, None))
  {
    SafeTreeRuns(t, ctx, GUARD);
    PageRefines(Print(t), ctx, keys);
    RenderTokensIsEval(t, ctx);
  }

  /** One turn on the text of a tree, followed by anything, is the expansion of its first innermost section. */
  lemma {:induction false} PageTurnIsExpand(t: Tree, suffix: seq<Token>, ctx: Context)
    requires WellNested(t) && Sections(t) > 0 && AllTame(Print(t) + suffix, ctx) && SafeTree(t, ctx)
    ensures SectionsOnce(Flatten(Print(t) + suffix), ctx) == Flatten(Print(Expand(t, ctx)) + suffix)
  {
    hide AllTame, Flatten, Print, Expand, SectionsOnce, RewriteOnce, WellNested, Sections, StepSafe, SafeTree;
    TurnIsExpand(t, suffix, ctx);
    TreeStepSafe(t, suffix, ctx);
    TurnRefines(Print(t) + suffix, ctx);
  }

  lemma {:induction false} TurnsUseUpOpeners(ts: seq<Token>, ctx: Context, turns: nat)
    requires Openers(ts) <= turns
    ensures FindSection(Rewrite(ts, ctx, turns)) == NoMatch
    decreases turns
  {
    hide FindSection, Replacement;
    if FindSection(ts) == NoMatch {
      NothingLeft(ts, ctx, turns);
    } else {
      TurnRemovesOneOpener(ts, ctx);
      TurnsUseUpOpeners(RewriteOnce(ts, ctx), ctx, turns - 1);
    }
  }

  lemma {:induction false} TurnsTakeOneEach(ts: seq<Token>, ctx: Context, turns: nat)
    ensures Openers(Rewrite(ts, ctx, turns)) + turns >= Openers(ts)
    decreases turns
  {
    hide FindSection, Replacement;
    if FindSection(ts) == NoMatch {
      NothingLeft(ts, ctx, turns);
    } else if turns > 0 {
      TurnRemovesOneOpener(ts, ctx);
      TurnsTakeOneEach(RewriteOnce(ts, ctx), ctx, turns - 1);
    }
  }

  /** Of a template with more than a hundred openers the loop leaves all but a hundred. */
  lemma {:induction false} GuardCutsShort(ts: seq<Token>, ctx: Context) returns (left: seq<Token>)
    requires AllTame(ts, ctx) && ExpansionsSafe(ts, ctx, GUARD)
    ensures SectionsTurns(Flatten(ts), ctx, GUARD) == Flatten(left) && Openers(left) >= Openers(ts) - 100
  {
    hide SectionsTurns, Rewrite, AllTame, Flatten, ExpansionsSafe;
    TurnsRefine(ts, ctx, GUARD);
    TurnsTakeOneEach(ts, ctx, GUARD);
    left := Rewrite(ts, ctx, GUARD);
  }

  /** The guard never cuts short a template with no more than a hundred openers. */
  lemma {:induction false} GuardSuffices(ts: seq<Token>, ctx: Context)
    requires AllTame(ts, ctx) && ExpansionsSafe(ts, ctx, GUARD) && Openers(ts) <= 100
    ensures ExecSection(SectionsTurns(Flatten(ts), ctx, GUARD)) == NotFound
  {
    hide ExecSection, SectionsTurns, FindSection, Rewrite, AllTame, AllPlain, Flatten, ExpansionsSafe;
    TurnsRefine(ts, ctx, GUARD);
    TurnsUseUpOpeners(ts, ctx, GUARD);
    AllTameIsPlain(Rewrite(ts, ctx, GUARD), ctx);
    ExecIsFind(Rewrite(ts, ctx, GUARD));
  }

  /** Whatever order the keys are walked in, the page is the same. */
  lemma {:induction false} KeyOrderIsFree(ts: seq<Token>, ctx: Context, keys: seq<string>, others: seq<string>)
    requires AllTame(ts, ctx) && ExpansionsSafe(ts, ctx, GUARD) && NamedContext(ctx)
    requires KeySet(ctx, keys) && KeySet(ctx, others)
    ensures Render(Flatten(ts), ctx, keys) == Render(Flatten(ts), ctx, others)
  {
    hide AllTame, ExpansionsSafe, NamedContext, KeySet, Render, RenderTokens;
    PageRefines(ts, ctx, keys);
    PageRefines(ts, ctx, others);
  }

  lemma {:induction false} TextOfQuiet(ts: seq<Token>)
    requires AllPlain(ts)
    ensures Quiet(TextOf(ts))
  {
    hide Quiet;
    EmptyIsQuiet();
    if ts == [] {
    } else {
      assert Plain(ts[0]);
      TextOfQuiet(ts[1..]);
      QuietConcat(if ts[0].Text? then ts[0].s else "", TextOf(ts[1..]));
    }
  }

  /** Nowhere two opening braces in a row, so nowhere a placeholder, a section or a closer. */
  predicate NoBracePair(s: string) { forall i | 0 <= i <= |s| :: !TwoBraces(s[i..]) }

  lemma QuietHasNoPair(s: string)
    requires Quiet(s)
    ensures NoBracePair(s)
  {
    forall i | 0 <= i <= |s| ensures !TwoBraces(s[i..]) {
      if i < |s| { assert !OpensAt(s, i); }
    }
  }

  lemma {:induction false} TrimStartNoPair(s: string)
    requires NoBracePair(s)
    ensures NoBracePair(TrimStart(s))
  {
    hide TwoBraces;
    if s != "" && IsSpace(s[0]) {
      assert forall i | 0 <= i <= |s[1..]| :: s[1..][i..] == s[i + 1..];
      TrimStartNoPair(s[1..]);
    }
  }

  lemma TrimNoPair(s: string)
    requires NoBracePair(s)
    ensures NoBracePair(Trim(s))
  {
    TrimStartNoPair(s);
    var u, t := TrimStart(s), Trim(s);
    TrimEndEnds(u);
    forall i | 0 <= i <= |t| ensures !TwoBraces(t[i..]) {
      assert !TwoBraces(u[i..]);
    }
  }

  lemma NoPairNoPlaceholder(s: string)
    requires NoBracePair(s)
    ensures !HasPlaceholder(s)
  {
    hide BracedLength;
    forall i | 0 <= i <= |s| ensures Placeholder(s[i..]) == 0 {
      assert !TwoBraces(s[i..]);
      StartsIff(s[i..]);
    }
  }

  /** Well nested or not, of any size: the rendered page has no brace pair left, let alone a placeholder. */
  lemma {:induction false} RenderedHasNoPlaceholder(ts: seq<Token>, ctx: Context, keys: seq<string>)
    requires AllTame(ts, ctx) && ExpansionsSafe(ts, ctx, GUARD) && NamedContext(ctx) && KeySet(ctx, keys)
    ensures NoBracePair(Render(Flatten(ts), ctx, keys)) && !HasPlaceholder(Render(Flatten(ts), ctx, keys))
  {
    hide AllTame, ExpansionsSafe, Rewrite, StripTokens, Trim, Render, Flatten, SubstituteAll;
    hide NoBracePair, HasPlaceholder, Quiet;
    PageRefines(ts, ctx, keys);
    var done := SubstituteAll(Rewrite(ts, ctx, GUARD), ctx);
    TurnsRefine(ts, ctx, GUARD);
    SubstitutedTame(Rewrite(ts, ctx, GUARD), ctx, keys);
    StripLeavesText(done);
    StripSectionsPlain(done);
    TextOfQuiet(StripSections(done));
    QuietHasNoPair(Flatten(StripTokens(done)));
    TrimNoPair(Flatten(StripTokens(done)));
    EmptyIsQuiet();
    QuietHasNoPair("");
    NoPairNoPlaceholder(Render(Flatten(ts), ctx, keys));
  }

  lemma {:induction false} SubstitutedTame(ts: seq<Token>, ctx: Context, keys: seq<string>)
    requires AllTame(ts, ctx) && NamedContext(ctx) && KeySet(ctx, keys)
    ensures AllPlain(SubstituteAll(ts, ctx))
  {
    hide AllTame, Variables, IsName, Flatten, AllPlain;
    NoDotKey(ctx, keys);
    AliasesAreNames();
    VariablesRefine(ts, ctx, keys);
    AllKeysAtOnce(ts, ctx, keys);
    AllTameIsPlain(SubstituteAll(ts, ctx), ctx);
  }
}
