/**
 Templates as lists of tokens: how a token is written, and what the engine is meant to
 do to such a list, section by section, then all variables at once, then the leftovers.
 */
module TemplateTokens {
  import opened ListingTemplate
  import opened Options
  import opened Strings

  /** A placeholder keeps what stands between its braces, without the mark of a section tag. */
  datatype Token =
    | Text(s: string)
    | Var(inner: string)
    | Raw(inner: string)
    | Open(inverted: bool, inner: string)
    | Close(inner: string)

  /** How a token is written in a template. */
  function Written(t: Token): string {
    match t
    case Text(s) => s
    case Var(inner) => "{{" + inner + "}}"
    case Raw(inner) => "{{{" + inner + "}}}"
    case Open(inverted, inner) => (if inverted then "{{^" else "{{#") + inner + "}}"
    case Close(inner) => "{{/" + inner + "}}"
  }

  /** The name in a placeholder: blanks around it do not count. */
  function Key(t: Token): string { if t.Text? then "" else Trim(t.inner) }

  function Flatten(ts: seq<Token>): string {
    if ts == [] then "" else Written(ts[0]) + Flatten(ts[1..])
  }

  predicate BraceFree(s: string) {
    forall c | c in s :: c != '{' && c != '}'
  }

  /** An opening brace with another after it, or with nothing. */
  predicate OpensAt(s: string, i: nat)
    requires i < |s|
  {
    s[i] == '{' && (i + 1 == |s| || s[i + 1] == '{')
  }

  /** Nothing can start in it, or at its end: lone braces are welcome, as in a style sheet. */
  predicate Quiet(s: string) { forall i | 0 <= i < |s| :: !OpensAt(s, i) }

  /** What `[\w.]+` can be. */
  predicate IsWord(key: string) {
    key != "" && forall i | 0 <= i < |key| :: IsNameChar(key[i])
  }

  /** A word other than the dot that stands for an item. */
  predicate IsName(key: string) { IsWord(key) && key != "." }

  /** Between braces: anything that is no brace and does not read as a section tag. */
  predicate Unmarked(inner: string) { BraceFree(inner) && (inner == "" || inner[0] !in "#^/") }

  /** A token that reads as itself: quiet text, a section tag with a word, any other placeholder without a brace. */
  predicate Plain(t: Token) {
    match t
    case Text(s) => Quiet(s)
    case Var(inner) => Unmarked(inner)
    case Raw(inner) => Unmarked(inner)
    case Open(_, inner) => BraceFree(inner) && IsWord(Trim(inner))
    case Close(inner) => BraceFree(inner) && IsWord(Trim(inner))
  }

  predicate AllPlain(ts: seq<Token>) { forall i | 0 <= i < |ts| :: Plain(ts[i]) }

  // --- sections ---------------------------------------------------------------------------

  predicate Names(t: Token, raw: bool, key: string) { (if raw then t.Raw? else t.Var?) && Key(t) == key }

  /** A placeholder of this name, raw or not, gives way to its text. */
  function Bound(t: Token, key: string, rawText: string, text: string): Token {
    if Names(t, true, key) then Text(rawText) else if Names(t, false, key) then Text(text) else t
  }

  /** Both dot forms replaced by one item. */
  function BindDot(body: seq<Token>, item: string): seq<Token> {
    if body == [] then [] else [Bound(body[0], ".", item, EscapeHtml(item))] + BindDot(body[1..], item)
  }

  function BindEach(body: seq<Token>, items: seq<string>): seq<Token> {
    if items == [] then []
    else if |items| == 1 then BindDot(body, items[0])
    else BindDot(body, items[0]) + [Text("\n")] + BindEach(body, items[1..])
  }

  function Replacement(inverted: bool, v: Value, body: seq<Token>): seq<Token> {
    if inverted then (if IsEmpty(v) then body else [])
    else if IsEmpty(v) then []
    else if v.List? then BindEach(body, v.items)
    else BindDot(body, Display(v))
  }

  /** Offset of the first closer of `key` if no opener comes before it. */
  function CloserOf(ts: seq<Token>, key: string): (j: Option<nat>)
    ensures j.Some? ==> j.value < |ts|
  {
    if ts == [] || ts[0].Open? then None
    else if ts[0].Close? && Key(ts[0]) == key then Some(0)
    else match CloserOf(ts[1..], key)
         case None => None
         case Some(j) => Some(j + 1)
  }

  datatype Match =
    | NoMatch
    | Match(before: seq<Token>, open: Token, body: seq<Token>, close: Token, after: seq<Token>)

  /** The section pattern: the leftmost opener whose own closer comes before any other opener. */
  function FindSection(ts: seq<Token>): Match {
    if ts == [] then NoMatch
    else
      var here := if ts[0].Open? then CloserOf(ts[1..], Key(ts[0])) else None;
      if here.Some? then
        var rest, j := ts[1..], here.value;
        Match([], ts[0], rest[..j], rest[j], rest[j + 1..])
      else match FindSection(ts[1..])
           case NoMatch => NoMatch
           case Match(b, o, body, c, a) => Match([ts[0]] + b, o, body, c, a)
  }

  function RewriteOnce(ts: seq<Token>, ctx: Context): seq<Token> {
    match FindSection(ts)
    case NoMatch => ts
    case Match(before, open, body, _, after) =>
      before + Replacement(open.Open? && open.inverted, Resolve(ctx, Key(open)), body) + after
  }

  function Rewrite(ts: seq<Token>, ctx: Context, turns: nat): seq<Token>
    decreases turns
  {
    if turns == 0 then ts else Rewrite(RewriteOnce(ts, ctx), ctx, turns - 1)
  }

  // --- variables --------------------------------------------------------------------------

  function SubstituteKey(ts: seq<Token>, key: string, v: Value): seq<Token> {
    if ts == [] then [] else [Bound(ts[0], key, RawText(v), VarText(v))] + SubstituteKey(ts[1..], key, v)
  }

  predicate IsVariable(t: Token) { (t.Raw? || t.Var?) && Key(t) != "." }

  /** What every variable becomes at once: its text if it resolves, itself if not. */
  function Substituted(t: Token, ctx: Context): Token {
    var v := Resolve(ctx, Key(t));
    if IsVariable(t) && v != Undefined then Text(if t.Raw? then RawText(v) else VarText(v)) else t
  }

  function SubstituteAll(ts: seq<Token>, ctx: Context): seq<Token> {
    if ts == [] then [] else [Substituted(ts[0], ctx)] + SubstituteAll(ts[1..], ctx)
  }

  // --- leftovers --------------------------------------------------------------------------

  /** Offset of the first closer of any key. */
  function AnyCloser(ts: seq<Token>): (j: Option<nat>)
    ensures j.Some? ==> j.value < |ts|
  {
    if ts == [] then None
    else if ts[0].Close? then Some(0)
    else match AnyCloser(ts[1..])
         case None => None
         case Some(j) => Some(j + 1)
  }

  /** First stripping pass: each leftover opener goes, with everything up to the next closer. */
  function StripSections(ts: seq<Token>): seq<Token>
    decreases |ts|
  {
    if ts == [] then []
    else
      var j := if ts[0].Open? then AnyCloser(ts[1..]) else None;
      if j.Some? then StripSections(ts[1..][j.value + 1..])
      else [ts[0]] + StripSections(ts[1..])
  }

  function Drop(ts: seq<Token>, gone: Token -> bool): seq<Token> {
    if ts == [] then [] else (if gone(ts[0]) then [] else [ts[0]]) + Drop(ts[1..], gone)
  }

  /** Leftover sections, closers, triple-brace tokens, then every remaining double-brace token. */
  function StripTokens(ts: seq<Token>): seq<Token> {
    Drop(Drop(Drop(StripSections(ts), IsClose), IsRaw), IsPlaceholder)
  }

  predicate IsClose(t: Token) { t.Close? }

  predicate IsRaw(t: Token) { t.Raw? }

  predicate IsPlaceholder(t: Token) { !t.Text? }

  predicate BlankTemplate(ts: seq<Token>) {
    forall t | t in ts :: t.Text? && IsBlank(t.s)
  }

  /** What the page should be. */
  function RenderTokens(template: seq<Token>, ctx: Context): string {
    if BlankTemplate(template) then ""
    else Trim(Flatten(StripTokens(SubstituteAll(Rewrite(template, ctx, GUARD), ctx))))
  }

  lemma {:induction false} SubstituteKeyAt(ts: seq<Token>, key: string, v: Value)
    ensures |SubstituteKey(ts, key, v)| == |ts|
    ensures forall i | 0 <= i < |ts| ::
              SubstituteKey(ts, key, v)[i] == Bound(ts[i], key, RawText(v), VarText(v))
  {
    if ts == [] {
    } else {
      SubstituteKeyAt(ts[1..], key, v);
    }
  }

  lemma {:induction false} SubstituteAllAt(ts: seq<Token>, ctx: Context)
    ensures |SubstituteAll(ts, ctx)| == |ts|
    ensures forall i | 0 <= i < |ts| :: SubstituteAll(ts, ctx)[i] == Substituted(ts[i], ctx)
  {
    if ts == [] {
    } else {
      SubstituteAllAt(ts[1..], ctx);
    }
  }

  // --- each turn removes exactly one opener ---------------------------------------------------

  function Openers(ts: seq<Token>): nat {
    if ts == [] then 0 else (if ts[0].Open? then 1 else 0) + Openers(ts[1..])
  }

  lemma {:induction false} OpenersConcat(a: seq<Token>, b: seq<Token>)
    ensures Openers(a + b) == Openers(a) + Openers(b)
  {
    if a == [] {
      assert a + b == b;
    } else {
      OpenersConcat(a[1..], b);
      assert (a + b)[1..] == a[1..] + b;
    }
  }

  lemma {:induction false} BindDotOpeners(body: seq<Token>, item: string)
    ensures Openers(BindDot(body, item)) == Openers(body)
  {
    if body == [] {
    } else {
      BindDotOpeners(body[1..], item);
      assert BindDot(body, item)[1..] == BindDot(body[1..], item);
    }
  }

  lemma {:induction false} BindEachOpeners(body: seq<Token>, items: seq<string>)
    requires Openers(body) == 0
    ensures Openers(BindEach(body, items)) == 0
  {
    if items == [] {
    } else {
      BindDotOpeners(body, items[0]);
      BindEachOpeners(body, items[1..]);
      OpenersConcat(BindDot(body, items[0]), [Text("\n")]);
      OpenersConcat(BindDot(body, items[0]) + [Text("\n")], BindEach(body, items[1..]));
    }
  }

  lemma {:induction false} CloserBounds(ts: seq<Token>, key: string)
    ensures CloserOf(ts, key).Some? ==>
              var j := CloserOf(ts, key).value;
              j < |ts| && ts[j].Close? && Key(ts[j]) == key && Openers(ts[..j]) == 0
  {
    if ts == [] || ts[0].Open? || (ts[0].Close? && Key(ts[0]) == key) {
    } else {
      CloserBounds(ts[1..], key);
      if CloserOf(ts, key).Some? {
        var j := CloserOf(ts, key).value;
        assert ts[..j][1..] == ts[1..][..j - 1];
      }
    }
  }

  predicate SplitsAt(ts: seq<Token>, m: Match)
    requires m.Match?
  {
    && ts == m.before + [m.open] + m.body + [m.close] + m.after
    && m.open.Open? && m.close.Close? && Key(m.open) == Key(m.close)
  }

  /** A match splits the template at tags of one name, and its body holds no opener. */
  lemma {:induction false} MatchSplits(ts: seq<Token>)
    ensures var m := FindSection(ts); m.Match? ==> SplitsAt(ts, m) && Openers(m.body) == 0
  {
    if ts == [] {
    } else {
      var here := if ts[0].Open? then CloserOf(ts[1..], Key(ts[0])) else None;
      if here.Some? {
        MatchHere(ts, here.value);
      } else {
        MatchSplits(ts[1..]);
        MatchLater(ts);
      }
    }
  }

  lemma {:induction false} MatchHere(ts: seq<Token>, j: nat)
    requires ts != [] && ts[0].Open? && CloserOf(ts[1..], Key(ts[0])) == Some(j)
    ensures var m := FindSection(ts); m.Match? && SplitsAt(ts, m) && Openers(m.body) == 0
  {
    hide Key;
    var tail := ts[1..];
    CloserBounds(tail, Key(ts[0]));
    hide CloserOf;
    assert FindSection(ts) == Match([], ts[0], tail[..j], tail[j], tail[j + 1..]);
    hide FindSection, Openers;
    assert tail == tail[..j] + [tail[j]] + tail[j + 1..];
    assert ts == [ts[0]] + tail;
  }

  lemma {:induction false} MatchLater(ts: seq<Token>)
    requires ts != [] && (ts[0].Open? ==> CloserOf(ts[1..], Key(ts[0])) == None)
    ensures var m, n := FindSection(ts[1..]), FindSection(ts);
            && (m == NoMatch ==> n == NoMatch)
            && (m.Match? ==> n == m.(before := [ts[0]] + m.before))
            && (m.Match? && SplitsAt(ts[1..], m) ==> SplitsAt(ts, n))
  {
    hide Key;
    var m := FindSection(ts[1..]);
    assert m.Match? ==> FindSection(ts) == m.(before := [ts[0]] + m.before);
    hide FindSection, CloserOf;
    assert ts == [ts[0]] + ts[1..];
    if m.Match? { FiveParts(ts[0], m.before, [m.open], m.body, [m.close], m.after); }
  }

  lemma FiveParts(x: Token, a: seq<Token>, b: seq<Token>, c: seq<Token>, d: seq<Token>, e: seq<Token>)
    ensures [x] + (a + b + c + d + e) == ([x] + a) + b + c + d + e
  {}

  lemma {:induction false} TurnRemovesOneOpener(ts: seq<Token>, ctx: Context)
    requires FindSection(ts).Match?
    ensures Openers(RewriteOnce(ts, ctx)) + 1 == Openers(ts)
  {
    MatchSplits(ts);
    var m := FindSection(ts);
    hide Key, Resolve;
    var v := Resolve(ctx, Key(m.open));
    var r := Replacement(m.open.inverted, v, m.body);
    if v.List? { BindEachOpeners(m.body, v.items); }
    BindDotOpeners(m.body, Display(v));
    assert Openers(r) == 0;
    var open, close := [m.open], [m.close];
    OpenersConcat(m.before, open);
    OpenersConcat(m.before + open, m.body);
    OpenersConcat(m.before + open + m.body, close);
    OpenersConcat(m.before + open + m.body + close, m.after);
    OpenersConcat(m.before, r);
    OpenersConcat(m.before + r, m.after);
  }

  lemma {:induction false} NothingLeft(ts: seq<Token>, ctx: Context, turns: nat)
    requires FindSection(ts) == NoMatch
    ensures Rewrite(ts, ctx, turns) == ts
  {
    if turns == 0 {
    } else {
      NothingLeft(ts, ctx, turns - 1);
    }
  }
}
