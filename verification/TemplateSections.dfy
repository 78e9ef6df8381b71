/**
 The section loop on written templates: it finds the section the token engine finds and
 puts the same text there, provided what it inserts is quiet and has no special dollars.
 */
module TemplateSections {
  import opened DollarSafety
  import opened ListingTemplate
  import opened Options
  import opened Strings
  import opened TemplateScan
  import opened TemplateTokens

  // --- what may be inserted -------------------------------------------------------------------

  predicate CleanValue(v: Value) {
    match v
    case Str(s) => Quiet(s)
    case Num(text, _) => Quiet(text)
    case List(items) => forall i | 0 <= i < |items| :: Quiet(items[i])
    case _ => true
  }

  /** Everything a section over this value passes to `replace` stands for itself there. */
  predicate SafeItems(v: Value) {
    match v
    case List(items) => forall i | 0 <= i < |items| :: DollarSafe(items[i])
    case _ => DollarSafe(Display(v))
  }

  predicate GoodItems(v: Value) { CleanValue(v) && SafeItems(v) }

  predicate IsDot(t: Token) { Names(t, true, ".") || Names(t, false, ".") }

  predicate HasDot(ts: seq<Token>) { Mentions(ts, true, ".") || Mentions(ts, false, ".") }

  /** Expanding this section brings nothing into the page that would read as something else: what has no dot can't. */
  predicate SafeSection(inverted: bool, v: Value, body: seq<Token>) { inverted || GoodItems(v) || !HasDot(body) }

  /** A token that reads as itself and brings nothing into the page that would read as something else. */
  predicate Tame(t: Token, ctx: Context) {
    Plain(t) &&
    match t
    case Var(_) => CleanValue(Resolve(ctx, Key(t)))
    case Raw(_) => CleanValue(Resolve(ctx, Key(t)))
    case _ => true
  }

  predicate AllTame(ts: seq<Token>, ctx: Context) { forall i | 0 <= i < |ts| :: Tame(ts[i], ctx) }

  lemma {:induction false} EscapeQuiet(s: string)
    requires Quiet(s)
    ensures Quiet(EscapeHtml(s))
    ensures s != "" ==> EscapeHtml(s) != "" && (EscapeHtml(s)[0] == '{' ==> s[0] == '{')
  {
    if s == "" {
    } else {
      QuietTail(s);
      EscapeQuiet(s[1..]);
      assert !OpensAt(s, 0);
      EscapeCharKind(s[0]);
      hide EscapeChar;
      FrontIsQuiet(EscapeChar(s[0]), EscapeHtml(s[1..]));
    }
  }

  lemma EscapeCharKind(c: char)
    ensures EscapeChar(c) == [c] || (Quiet(EscapeChar(c)) && EscapeChar(c)[0] == '&')
  {}

  /** A quiet text, or one character, before a quiet text that does not make it start something. */
  lemma FrontIsQuiet(e: string, rest: string)
    requires Quiet(rest) && (Quiet(e) || (|e| == 1 && (e[0] == '{' ==> rest != "" && rest[0] != '{')))
    ensures Quiet(e + rest)
  {
    if Quiet(e) {
      QuietConcat(e, rest);
    } else {
      forall i | 0 <= i < |e + rest| ensures !OpensAt(e + rest, i) {
        if i > 0 { assert !OpensAt(rest, i - 1); }
      }
    }
  }

  lemma {:induction false} JoinQuiet(parts: seq<string>, sep: string)
    requires Quiet(sep) && forall i | 0 <= i < |parts| :: Quiet(parts[i])
    ensures Quiet(Join(parts, sep))
  {
    hide Quiet;
    if |parts| <= 1 {
      assert Quiet("") by { EmptyIsQuiet(); }
    } else {
      JoinQuiet(parts[1..], sep);
      QuietConcat(parts[0], sep);
      QuietConcat(parts[0] + sep, Join(parts[1..], sep));
    }
  }

  lemma EmptyIsQuiet()
    ensures Quiet("") && Quiet("<li>") && Quiet("</li>") && Quiet("<ul>") && Quiet("</ul>")
    ensures Quiet("\n") && Quiet(", ")
  {}

  lemma {:induction false} ListItemsQuiet(items: seq<string>)
    requires forall i | 0 <= i < |items| :: Quiet(items[i])
    ensures Quiet(ListItems(items))
  {
    hide Quiet, EscapeHtml;
    EmptyIsQuiet();
    if items == [] {
    } else {
      EscapeQuiet(items[0]);
      ListItemsQuiet(items[1..]);
      QuietConcat("<li>", EscapeHtml(items[0]));
      QuietConcat("<li>" + EscapeHtml(items[0]), "</li>");
      QuietConcat("<li>" + EscapeHtml(items[0]) + "</li>", ListItems(items[1..]));
    }
  }

  lemma {:induction false} ValueClean(v: Value)
    requires CleanValue(v)
    ensures Quiet(Display(v)) && Quiet(VarText(v)) && Quiet(RawText(v))
  {
    hide Quiet, EscapeHtml, Join;
    EmptyIsQuiet();
    if v.List? {
      JoinQuiet(v.items, ", ");
      JoinQuiet(v.items, "\n");
      ListItemsQuiet(v.items);
      QuietConcat("<ul>", ListItems(v.items));
      QuietConcat("<ul>" + ListItems(v.items), "</ul>");
    }
    EscapeQuiet(Display(v));
  }

  // --- flattening -----------------------------------------------------------------------------

  lemma {:induction false} FlattenCons(ts: seq<Token>)
    requires ts != []
    ensures Flatten(ts) == Written(ts[0]) + Flatten(ts[1..])
  {
    hide Written;
  }

  lemma {:induction false} FlattenConcat(a: seq<Token>, b: seq<Token>)
    ensures Flatten(a + b) == Flatten(a) + Flatten(b)
  {
    hide Written;
    if a == [] {
      assert a + b == b && Flatten(a) + Flatten(b) == Flatten(b);
    } else {
      FlattenConcat(a[1..], b);
      FlattenCons(a);
      FlattenCons(a + b);
      hide Flatten;
      assert (a + b)[0] == a[0] && (a + b)[1..] == a[1..] + b;
      ThreeParts(Written(a[0]), Flatten(a[1..]), Flatten(b));
    }
  }

  lemma FlattenOne(t: Token)
    ensures Flatten([t]) == Written(t)
  {
    hide Written;
    assert [t][1..] == [];
    assert Written(t) + "" == Written(t);
  }

  // --- replacing one kind of token ----------------------------------------------------------------

  function KeyedPattern(raw: bool, key: string): Pattern {
    if raw then Keyed("{{{", key, "}}}") else Keyed("{{", key, "}}")
  }

  /** Every placeholder of this name and kind replaced by a text. */
  function Put(ts: seq<Token>, raw: bool, key: string, text: string): seq<Token> {
    if ts == [] then [] else [if Names(ts[0], raw, key) then Text(text) else ts[0]] + Put(ts[1..], raw, key, text)
  }

  predicate Mentions(ts: seq<Token>, raw: bool, key: string) {
    exists i | 0 <= i < |ts| :: Names(ts[i], raw, key)
  }

  lemma HitsItsToken(t: Token, raw: bool, key: string)
    requires IsWord(key)
    ensures ForTokens(KeyedPattern(raw, key))
    ensures Hits(KeyedPattern(raw, key), t) <==> Names(t, raw, key)
    ensures Blocked(KeyedPattern(raw, key), t) <==> !raw && Names(t, true, key)
  {}

  lemma {:induction false} FilledIsPut(ts: seq<Token>, raw: bool, key: string, text: string)
    requires IsWord(key)
    ensures Filled(ts, KeyedPattern(raw, key), text) == Flatten(Put(ts, raw, key, text))
  {
    hide Hits, Written, Names, IsWord;
    if ts == [] {
    } else {
      FilledIsPut(ts[1..], raw, key, text);
      HitsItsToken(ts[0], raw, key);
      FlattenCons(Put(ts, raw, key, text));
      assert Put(ts, raw, key, text)[1..] == Put(ts[1..], raw, key, text);
      assert Written(Text(text)) == text by { TextIsWritten(text); }
    }
  }

  lemma TextIsWritten(text: string)
    ensures Written(Text(text)) == text
  {}

  /** One pass over the page replaces exactly the placeholders with this name and kind. */
  lemma {:induction false} KeyedPass(ts: seq<Token>, raw: bool, key: string, f: Filler, text: string)
    requires AllPlain(ts) && IsWord(key) && Steady(f, text) && (raw || !Mentions(ts, true, key))
    ensures ReplaceAll("", Flatten(ts), KeyedPattern(raw, key), f) == Flatten(Put(ts, raw, key, text))
  {
    hide Hits, Plain, IsWord, Blocked, ForTokens, ReplaceAll, Fill, Names;
    var p := KeyedPattern(raw, key);
    forall i | 0 <= i < |ts| ensures !Blocked(p, ts[i]) { HitsItsToken(ts[i], raw, key); }
    PatternFits(raw, key);
    PassReplacesTokens("", ts, p, f, text);
    FilledIsPut(ts, raw, key, text);
  }

  lemma PatternFits(raw: bool, key: string)
    requires IsWord(key)
    ensures ForTokens(KeyedPattern(raw, key))
  {}

  lemma {:induction false} PutPlain(ts: seq<Token>, raw: bool, key: string, text: string)
    requires AllPlain(ts) && (Mentions(ts, raw, key) ==> Quiet(text))
    ensures AllPlain(Put(ts, raw, key, text)) && !Mentions(Put(ts, raw, key, text), raw, key)
  {
    hide Plain, Names, Quiet;
    if ts == [] {
    } else {
      MentionsTail(ts, raw, key);
      PutPlain(ts[1..], raw, key, text);
      TextIsPlain(text);
      TextHasNoName(text, raw, key);
    }
  }

  lemma MentionsTail(ts: seq<Token>, raw: bool, key: string)
    requires ts != []
    ensures Names(ts[0], raw, key) || Mentions(ts[1..], raw, key) ==> Mentions(ts, raw, key)
  {
    hide Names;
    if Mentions(ts[1..], raw, key) {
      var i :| 0 <= i < |ts[1..]| && Names(ts[1..][i], raw, key);
      assert ts[1..][i] == ts[i + 1];
    }
  }

  lemma TextHasNoName(text: string, raw: bool, key: string)
    ensures !Names(Text(text), raw, key)
  {}

  lemma TextIsPlain(text: string)
    ensures Quiet(text) ==> Plain(Text(text))
  {}

  /** A name that does not stand there: nothing happens. */
  lemma {:induction false} NoNamePass(ts: seq<Token>, raw: bool, key: string, f: Filler)
    requires AllPlain(ts) && IsWord(key) && !Mentions(ts, true, key) && !Mentions(ts, false, key)
    ensures ReplaceAll("", Flatten(ts), KeyedPattern(raw, key), f) == Flatten(ts)
  {
    hide Hits, Plain, IsWord, Blocked, ForTokens, ReplaceAll, Fill, Names;
    var p := KeyedPattern(raw, key);
    forall i | 0 <= i < |ts| ensures !Blocked(p, ts[i]) && !Hits(p, ts[i]) { HitsItsToken(ts[i], raw, key); }
    PatternFits(raw, key);
    PassIdles("", ts, p, f);
  }

  function PutBoth(ts: seq<Token>, key: string, rawText: string, text: string): seq<Token> {
    Put(Put(ts, true, key, rawText), false, key, text)
  }

  /** The triple-brace pass, then the double-brace pass. */
  lemma {:induction false} BothPasses(ts: seq<Token>, key: string, f: Filler, rawText: string, g: Filler, text: string)
    requires AllPlain(ts) && IsWord(key) && Steady(f, rawText) && Steady(g, text)
    requires Mentions(ts, true, key) ==> Quiet(rawText)
    ensures ReplaceAll("", ReplaceAll("", Flatten(ts), KeyedPattern(true, key), f), KeyedPattern(false, key), g)
         == Flatten(PutBoth(ts, key, rawText, text))
  {
    hide Plain, IsWord, Steady, ReplaceAll, Put, Mentions, Quiet;
    KeyedPass(ts, true, key, f, rawText);
    PutPlain(ts, true, key, rawText);
    KeyedPass(Put(ts, true, key, rawText), false, key, g, text);
  }

  // --- section items ------------------------------------------------------------------------------

  lemma {:induction false} PutBothCons(ts: seq<Token>, key: string, rawText: string, text: string)
    requires ts != []
    ensures PutBoth(ts, key, rawText, text)
         == [Bound(ts[0], key, rawText, text)] + PutBoth(ts[1..], key, rawText, text)
  {
    hide Key;
    assert Put(ts, true, key, rawText)[1..] == Put(ts[1..], true, key, rawText);
  }

  lemma {:induction false} PutBothIsBindDot(ts: seq<Token>, item: string)
    ensures PutBoth(ts, ".", item, EscapeHtml(item)) == BindDot(ts, item)
  {
    if ts == [] {
    } else {
      PutBothIsBindDot(ts[1..], item);
      PutBothCons(ts, ".", item, EscapeHtml(item));
      hide PutBoth, Bound;
    }
  }

  lemma {:induction false} ItemIsSteady(item: string)
    requires DollarSafe(item)
    ensures Steady(Expanded(item), item) && Steady(Expanded(EscapeHtml(item)), EscapeHtml(item))
  {
    hide JsExpand, DollarSafe;
    ItemIsLiteral(item);
    forall matched, before, after
      ensures Fill(Expanded(item), matched, before, after) == item
      ensures Fill(Expanded(EscapeHtml(item)), matched, before, after) == EscapeHtml(item)
    {
      assert JsExpand(item, matched, before, after) == item;
      assert JsExpand(EscapeHtml(item), matched, before, after) == EscapeHtml(item);
    }
  }

  /** A quiet section item with no special dollars lands where the dots were, and nowhere else. */
  lemma {:induction false} DotsRefine(body: seq<Token>, item: string)
    requires AllPlain(body) && Quiet(item) && DollarSafe(item)
    ensures SectionItem(Flatten(body), item) == Flatten(BindDot(body, item)) && AllPlain(BindDot(body, item))
  {
    hide Plain, Steady, DollarSafe, ReplaceAll, Put, BindDot, Mentions, Quiet;
    assert IsWord(".");
    ItemIsSteady(item);
    EscapeQuiet(item);
    BothPasses(body, ".", Expanded(item), item, Expanded(EscapeHtml(item)), EscapeHtml(item));
    PutBothIsBindDot(body, item);
    PutPlain(body, true, ".", item);
    PutPlain(Put(body, true, ".", item), false, ".", EscapeHtml(item));
  }

  lemma {:induction false} NoDotNoChange(body: seq<Token>, item: string)
    requires !HasDot(body)
    ensures BindDot(body, item) == body
  {
    hide Key;
    if body == [] {
    } else {
      MentionsTail(body, true, ".");
      MentionsTail(body, false, ".");
      NoDotNoChange(body[1..], item);
      assert body == [body[0]] + body[1..];
    }
  }

  /** So does any item at all where there are no dots. */
  lemma {:induction false} ItemRefines(body: seq<Token>, item: string)
    requires AllPlain(body) && (HasDot(body) ==> Quiet(item) && DollarSafe(item))
    ensures SectionItem(Flatten(body), item) == Flatten(BindDot(body, item)) && AllPlain(BindDot(body, item))
  {
    if HasDot(body) {
      DotsRefine(body, item);
    } else {
      assert IsWord(".");
      NoNamePass(body, true, ".", Expanded(item));
      NoNamePass(body, false, ".", Expanded(EscapeHtml(item)));
      NoDotNoChange(body, item);
    }
  }

  lemma {:induction false} ItemsRefine(body: seq<Token>, items: seq<string>)
    requires AllPlain(body) && (HasDot(body) ==> forall i | 0 <= i < |items| :: Quiet(items[i]) && DollarSafe(items[i]))
    ensures Join(SectionItems(Flatten(body), items), "\n") == Flatten(BindEach(body, items))
    ensures AllPlain(BindEach(body, items))
  {
    hide Plain, DollarSafe, SectionItem, BindDot, Quiet, HasDot;
    var parts := SectionItems(Flatten(body), items);
    if items == [] {
    } else {
      ItemRefines(body, items[0]);
      assert parts[1..] == SectionItems(Flatten(body), items[1..]);
      if |items| > 1 {
        ItemsRefine(body, items[1..]);
        NewlineBetween(BindDot(body, items[0]), BindEach(body, items[1..]));
      }
    }
  }

  lemma {:induction false} NewlineBetween(a: seq<Token>, b: seq<Token>)
    ensures Flatten(a + [Text("\n")] + b) == Flatten(a) + "\n" + Flatten(b)
    ensures AllPlain(a) && AllPlain(b) ==> AllPlain(a + [Text("\n")] + b)
  {
    hide Flatten;
    FlattenConcat(a + [Text("\n")], b);
    FlattenConcat(a, [Text("\n")]);
    FlattenOne(Text("\n"));
  }

  /** What replaces a section on the page is what replaces it in the list. */
  lemma {:induction false} SectionRefines(inverted: bool, v: Value, body: seq<Token>)
    requires AllPlain(body) && SafeSection(inverted, v, body)
    ensures SectionText(inverted, v, Flatten(body)) == Flatten(Replacement(inverted, v, body))
    ensures AllPlain(Replacement(inverted, v, body))
  {
    hide Plain, DollarSafe, SectionItem, BindDot, BindEach, SectionItems, Join, IsEmpty, HasDot;
    if !inverted {
      if v.List? {
        ItemsRefine(body, v.items);
      } else {
        if HasDot(body) { ValueClean(v); }
        ItemRefines(body, Display(v));
      }
    }
  }
}
