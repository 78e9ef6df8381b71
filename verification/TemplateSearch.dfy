/**
 The scanners that run over several tokens: the section pattern and the search for a
 closer. On a written list of tokens they stop at token boundaries, and where the token
 engine stops.
 */
module TemplateSearch {
  import opened ListingTemplate
  import opened Options
  import opened Strings
  import opened TemplateScan
  import opened TemplateSections
  import opened TemplateTokens

  // --- where nothing starts ---------------------------------------------------------------

  /** Neither an opener nor a closer starts here. */
  ghost predicate Nothing(s: string) {
    && Opener(s) == None && !OpenerStarts(s) && NamedTag(s, "{{/") == None
    && forall key :: KeyedLength(s, "{{/", key, "}}") == 0
  }

  lemma NothingWithoutBraces(s: string)
    requires !TwoBraces(s)
    ensures Nothing(s)
  {
    QuietStart(s, Closer);
    forall key ensures KeyedLength(s, "{{/", key, "}}") == 0 {
      QuietStart(s, Keyed("{{/", key, "}}"));
    }
  }

  /** Two braces and something that marks no section. */
  lemma NothingAfterBraces(s: string)
    requires |s| >= 3 && s[2] !in "#^/"
    ensures Nothing(s)
  {
    NotThere("{{#", s, 2);
    NotThere("{{^", s, 2);
    NotThere("{{/", s, 2);
  }

  predicate IsMark(t: Token) { t.Open? || t.Close? }

  lemma NothingAtToken(t: Token, rest: string)
    requires Plain(t) && !t.Text? && !IsMark(t)
    ensures Nothing(Braces(IsRaw(t), Inner(t), rest))
    ensures IsRaw(t) ==> Nothing(Braces(false, Inner(t), "}" + rest))
  {
    BracesThird(Inner(t), rest);
    NothingAfterBraces(Braces(IsRaw(t), Inner(t), rest));
    if IsRaw(t) { NothingAfterBraces(Braces(false, Inner(t), "}" + rest)); }
  }

  /** A closer is no opener, and closes only its own name. */
  lemma AtClose(t: Token, rest: string, key: string)
    requires Plain(t) && t.Close? && IsWord(key)
    ensures var s := Braces(false, Inner(t), rest);
            && Opener(s) == None && !OpenerStarts(s)
            && KeyedLength(s, "{{/", key, "}}") == if Key(t) == key then |t.inner| + 5 else 0
  {
    hide KeyedLength, NamedTag, Trim, IsNameChar, IsSpace;
    var s := Braces(false, Inner(t), rest);
    assert s == "{{/" + (t.inner + ("}}" + rest));
    NoTag("{{#", s, 2);
    NoTag("{{^", s, 2);
    WordIsSolid(key);
    KeyedHit("{{/", t.inner, "}}", rest, key);
  }

  lemma AtOpen(t: Token, rest: string)
    requires Plain(t) && t.Open?
    ensures var s := Braces(false, Inner(t), rest);
            && Opener(s) == Some(Tag(|Written(t)|, Key(t))) && OpenerStarts(s) && ("{{^" <= s <==> t.inverted)
            && NamedTag(s, "{{/") == None && forall key :: KeyedLength(s, "{{/", key, "}}") == 0
  {
    hide KeyedLength, NamedTag, Trim, IsNameChar, IsSpace;
    var s := Braces(false, Inner(t), rest);
    WrittenBraces(t, rest);
    NoTag("{{/", s, 2);
    if t.inverted {
      assert s == "{{^" + (t.inner + ("}}" + rest));
      NoTag("{{#", s, 2);
      NamedHit("{{^", t.inner, rest);
    } else {
      assert s == "{{#" + (t.inner + ("}}" + rest));
      NoTag("{{^", s, 2);
      NamedHit("{{#", t.inner, rest);
    }
  }

  // --- the body of a section ------------------------------------------------------------------

  function Shift(n: nat, r: Option<nat>): Option<nat> {
    match r case None => None case Some(m) => Some(n + m)
  }

  lemma {:induction false} BodyPastChar(c: char, rest: string, key: string)
    requires !OpenerStarts([c] + rest) && KeyedLength([c] + rest, "{{/", key, "}}") == 0
    ensures BodyLength([c] + rest, key) == Shift(1, BodyLength(rest, key))
  {
    hide KeyedLength;
    assert ([c] + rest)[1..] == rest;
  }

  lemma {:induction false} BodyPastQuiet(q: string, rest: string, key: string)
    requires Quiet(q)
    ensures BodyLength(q + rest, key) == Shift(|q|, BodyLength(rest, key))
    decreases q
  {
    hide BodyLength, KeyedLength, Opener, NamedTag, OpenerStarts;
    if q == "" {
      assert q + rest == rest;
    } else {
      assert q + rest == [q[0]] + (q[1..] + rest);
      QuietHead(q, rest);
      QuietTail(q);
      NothingWithoutBraces(q + rest);
      BodyPastChar(q[0], q[1..] + rest, key);
      BodyPastQuiet(q[1..], rest, key);
    }
  }

  lemma {:induction false} BodyPastDouble(inner: string, rest: string, key: string)
    requires BraceFree(inner) && !OpenerStarts(Braces(false, inner, rest))
    requires KeyedLength(Braces(false, inner, rest), "{{/", key, "}}") == 0
    ensures BodyLength(Braces(false, inner, rest), key) == Shift(|inner| + 4, BodyLength(rest, key))
  {
    hide BodyLength, KeyedLength, Opener, NamedTag, OpenerStarts;
    TwoOpen(inner, rest);
    var q := inner + "}}";
    InnerIsQuiet(inner);
    BodyPastChar('{', ['{'] + (q + rest), key);
    assert q + rest == inner + "}}" + rest;
    assert (['{'] + (q + rest))[1] == (q + rest)[0];
    NothingWithoutBraces(['{'] + (q + rest));
    BodyPastChar('{', q + rest, key);
    BodyPastQuiet(q, rest, key);
  }

  lemma {:induction false} BodyPastToken(t: Token, rest: string, key: string)
    requires Plain(t) && !t.Open? && !(t.Close? && Key(t) == key) && IsWord(key)
    ensures BodyLength(Written(t) + rest, key) == Shift(|Written(t)|, BodyLength(rest, key))
  {
    hide BodyLength, KeyedLength, Opener, NamedTag, OpenerStarts;
    if t.Text? {
      BodyPastQuiet(t.s, rest, key);
    } else {
      InnerIsFree(t);
      WrittenBraces(t, rest);
      if t.Close? { AtClose(t, rest, key); } else { NothingAtToken(t, rest); }
      hide Written;
      if IsRaw(t) {
        BodyPastTriple(Inner(t), rest, key);
      } else {
        BodyPastDouble(Inner(t), rest, key);
      }
    }
  }

  lemma {:induction false} BodyPastTriple(inner: string, rest: string, key: string)
    requires BraceFree(inner) && Nothing(Braces(true, inner, rest)) && Nothing(Braces(false, inner, "}" + rest))
    ensures BodyLength(Braces(true, inner, rest), key) == Shift(|inner| + 6, BodyLength(rest, key))
  {
    hide BodyLength, KeyedLength, Opener, NamedTag, OpenerStarts;
    OuterBraces(inner, rest);
    BodyPastChar('{', Braces(false, inner, "}" + rest), key);
    BodyPastDouble(inner, "}" + rest, key);
    InnerIsQuiet(inner);
    BodyPastQuiet("}", rest, key);
  }

  /** The length of the body, in characters: up to the closer the token engine finds. */
  lemma {:induction false} BodyIsCloserOf(ts: seq<Token>, key: string)
    requires AllPlain(ts) && IsWord(key)
    ensures BodyLength(Flatten(ts), key)
         == match CloserOf(ts, key) case None => None case Some(j) => Some(|Flatten(ts[..j])|)
  {
    hide KeyedLength, Opener, NamedTag, OpenerStarts, Written, Plain, IsWord, Key;
    if ts == [] {
      NothingWithoutBraces("");
    } else {
      var rest := Flatten(ts[1..]);
      if ts[0].Open? {
        OpenEndsBody(ts[0], rest, key);
      } else if ts[0].Close? && Key(ts[0]) == key {
        CloseEndsBody(ts[0], rest, key);
        assert Flatten(ts[..0]) == "";
      } else {
        hide BodyLength;
        BodyIsCloserOf(ts[1..], key);
        BodyPastToken(ts[0], rest, key);
        PrefixLength(ts, CloserOf(ts[1..], key));
      }
    }
  }

  lemma PrefixLength(ts: seq<Token>, r: Option<nat>)
    requires ts != [] && (r.Some? ==> r.value <= |ts| - 1)
    ensures r.Some? ==> |Flatten(ts[..r.value + 1])| == |Written(ts[0])| + |Flatten(ts[1..][..r.value])|
  {
    hide Written;
    if r.Some? {
      FlattenCons(ts[..r.value + 1]);
      assert ts[..r.value + 1][1..] == ts[1..][..r.value];
    }
  }

  lemma {:induction false} OpenEndsBody(t: Token, rest: string, key: string)
    requires Plain(t) && t.Open?
    ensures BodyLength(Written(t) + rest, key) == None
  {
    hide KeyedLength, Opener, NamedTag, OpenerStarts;
    WrittenBraces(t, rest);
    AtOpen(t, rest);
  }

  lemma {:induction false} CloseEndsBody(t: Token, rest: string, key: string)
    requires Plain(t) && t.Close? && Key(t) == key
    ensures BodyLength(Written(t) + rest, key) == Some(0)
    ensures KeyedLength(Written(t) + rest, "{{/", key, "}}") == |Written(t)|
  {
    hide KeyedLength, Opener, NamedTag, OpenerStarts;
    WrittenBraces(t, rest);
    AtClose(t, rest, key);
  }

  // --- the leftmost section ---------------------------------------------------------------------

  function Later(n: nat, f: Found): Found {
    match f
    case NotFound => NotFound
    case Found(index, length, inverted, key, body) => Found(index + n, length, inverted, key, body)
  }

  lemma {:induction false} ExecPastChar(c: char, rest: string)
    requires SectionHere([c] + rest) == NotFound
    ensures ExecSection([c] + rest) == Later(1, ExecSection(rest))
  {
    hide SectionHere;
    assert ([c] + rest)[1..] == rest;
  }

  lemma NoOpenerNoSection(s: string)
    requires Opener(s) == None
    ensures SectionHere(s) == NotFound
  {}

  lemma {:induction false} ExecPastQuiet(q: string, rest: string)
    requires Quiet(q)
    ensures ExecSection(q + rest) == Later(|q|, ExecSection(rest))
    decreases q
  {
    hide ExecSection, SectionHere, Opener, NamedTag, OpenerStarts;
    if q == "" {
      assert q + rest == rest;
    } else {
      assert q + rest == [q[0]] + (q[1..] + rest);
      QuietHead(q, rest);
      QuietTail(q);
      NothingWithoutBraces(q + rest);
      NoOpenerNoSection(q + rest);
      ExecPastChar(q[0], q[1..] + rest);
      ExecPastQuiet(q[1..], rest);
    }
  }

  lemma {:induction false} ExecPastDouble(inner: string, rest: string)
    requires BraceFree(inner) && SectionHere(Braces(false, inner, rest)) == NotFound
    ensures ExecSection(Braces(false, inner, rest)) == Later(|inner| + 4, ExecSection(rest))
  {
    hide ExecSection, SectionHere, Opener, NamedTag, OpenerStarts;
    TwoOpen(inner, rest);
    var q := inner + "}}";
    InnerIsQuiet(inner);
    ExecPastChar('{', ['{'] + (q + rest));
    assert q + rest == inner + "}}" + rest;
    assert (['{'] + (q + rest))[1] == (q + rest)[0];
    NothingWithoutBraces(['{'] + (q + rest));
    NoOpenerNoSection(['{'] + (q + rest));
    ExecPastChar('{', q + rest);
    ExecPastQuiet(q, rest);
  }

  lemma {:induction false} ExecPastTriple(inner: string, rest: string)
    requires BraceFree(inner) && Nothing(Braces(true, inner, rest)) && Nothing(Braces(false, inner, "}" + rest))
    ensures ExecSection(Braces(true, inner, rest)) == Later(|inner| + 6, ExecSection(rest))
  {
    hide ExecSection, SectionHere, Opener, NamedTag, OpenerStarts;
    OuterBraces(inner, rest);
    NoOpenerNoSection(Braces(true, inner, rest));
    NoOpenerNoSection(Braces(false, inner, "}" + rest));
    ExecPastChar('{', Braces(false, inner, "}" + rest));
    ExecPastDouble(inner, "}" + rest);
    InnerIsQuiet(inner);
    ExecPastQuiet("}", rest);
  }

  /** A token that starts no section is passed. */
  lemma {:induction false} ExecPastToken(t: Token, rest: string)
    requires Plain(t) && (t.Open? ==> SectionHere(Written(t) + rest) == NotFound)
    ensures ExecSection(Written(t) + rest) == Later(|Written(t)|, ExecSection(rest))
  {
    hide ExecSection, SectionHere, Opener, NamedTag, OpenerStarts;
    if t.Text? {
      ExecPastQuiet(t.s, rest);
    } else {
      InnerIsFree(t);
      WrittenBraces(t, rest);
      if t.Close? {
        AtClose(t, rest, Key(t));
        NoOpenerNoSection(Braces(false, Inner(t), rest));
      } else if !t.Open? {
        NothingAtToken(t, rest);
        NoOpenerNoSection(Braces(IsRaw(t), Inner(t), rest));
      }
      hide Written;
      if IsRaw(t) { ExecPastTriple(Inner(t), rest); } else { ExecPastDouble(Inner(t), rest); }
    }
  }

  lemma {:induction false} FlattenAt(ts: seq<Token>, j: nat)
    requires j <= |ts|
    ensures Flatten(ts) == Flatten(ts[..j]) + Flatten(ts[j..])
  {
    hide Flatten;
    FlattenConcat(ts[..j], ts[j..]);
    assert ts[..j] + ts[j..] == ts;
  }

  /** An opener, the length of the body behind it, and the closer there. */
  lemma {:induction false} SectionForm(w: string, body: string, tail: string, name: string)
    requires Opener(w + (body + tail)) == Some(Tag(|w|, name))
    ensures var s, b := w + (body + tail), BodyLength(body + tail, name);
            && (b == None ==> SectionHere(s) == NotFound)
            && (b == Some(|body|) ==>
                  var end := |w| + |body| + KeyedLength(tail, "{{/", name, "}}");
                  SectionHere(s) == Found(0, end, "{{^" <= s, name, body))
  {
    hide Opener, BodyLength, KeyedLength;
    var s := w + (body + tail);
    assert s[|w|..] == body + tail;
    assert s[|w| + |body|..] == tail;
    assert s[|w|..|w| + |body|] == body;
  }

  /** At an opener: a section if the token engine finds its closer, with that body and length. */
  lemma {:induction false} HereIsCloserOf(t: Token, ts: seq<Token>)
    requires Plain(t) && t.Open? && AllPlain(ts)
    ensures SectionHere(Written(t) + Flatten(ts))
         == match CloserOf(ts, Key(t))
            case None => NotFound
            case Some(j) =>
              var body := Flatten(ts[..j]);
              Found(0, |Written(t)| + |body| + |Written(ts[j])|, t.inverted, Key(t), body)
  {
    hide KeyedLength, Opener, NamedTag, OpenerStarts, BodyLength, CloserOf, Flatten, Key, IsWord, SectionHere, Written;
    hide Plain;
    assert IsWord(Key(t)) by { TagIsWord(t); }
    var w, rest := Written(t), Flatten(ts);
    WrittenBraces(t, rest);
    AtOpen(t, rest);
    BodyIsCloserOf(ts, Key(t));
    if CloserOf(ts, Key(t)).Some? {
      var j := CloserOf(ts, Key(t)).value;
      CloserBounds(ts, Key(t));
      FlattenAt(ts, j);
      SectionForm(w, Flatten(ts[..j]), Flatten(ts[j..]), Key(t));
      FlattenCons(ts[j..]);
      CloseEndsBody(ts[j], Flatten(ts[j..][1..]), Key(t));
    } else {
      assert "" + rest == rest;
      SectionForm(w, "", rest, Key(t));
    }
  }

  lemma TagIsWord(t: Token)
    requires Plain(t) && IsMark(t)
    ensures IsWord(Key(t))
  {}

  /** A find on the page and a match in the list of tokens are the same section. */
  predicate SameSection(f: Found, m: Match) {
    match m
    case NoMatch => f == NotFound
    case Match(before, open, body, close, after) =>
      f == Found(|Flatten(before)|, |Written(open)| + |Flatten(body)| + |Written(close)|,
                 open.Open? && open.inverted, Key(open), Flatten(body))
  }

  lemma {:induction false} ExecIsFind(ts: seq<Token>)
    requires AllPlain(ts)
    ensures SameSection(ExecSection(Flatten(ts)), FindSection(ts))
  {
    hide SectionHere, Opener, Written, Plain, CloserOf, Key;
    if ts == [] {
      NoSectionInNothing();
    } else {
      var rest := ts[1..];
      var here := if ts[0].Open? then CloserOf(rest, Key(ts[0])) else None;
      ExecIsFind(rest);
      if ts[0].Open? { HereIsCloserOf(ts[0], rest); }
      FlattenCons(ts);
      if here.Some? {
        FoundHere(Flatten(ts));
        assert Flatten([]) == "";
      } else {
        ExecPastToken(ts[0], Flatten(rest));
        hide ExecSection, Flatten;
        MovesOn(ts, ExecSection(Flatten(rest)));
      }
    }
  }

  lemma NoSectionInNothing()
    ensures ExecSection("") == NotFound
  {
    NothingWithoutBraces("");
    NoOpenerNoSection("");
  }

  lemma {:induction false} FoundHere(s: string)
    ensures SectionHere(s).Found? ==> ExecSection(s) == SectionHere(s)
  {}

  lemma {:induction false} MovesOn(ts: seq<Token>, f: Found)
    requires ts != [] && (ts[0].Open? ==> CloserOf(ts[1..], Key(ts[0])) == None)
    requires SameSection(f, FindSection(ts[1..]))
    ensures SameSection(Later(|Written(ts[0])|, f), FindSection(ts))
  {
    hide Flatten, Written, Key;
    var m := FindSection(ts[1..]);
    if m.Match? {
      FlattenConcat([ts[0]], m.before);
      FlattenOne(ts[0]);
    }
  }

  // --- turns ------------------------------------------------------------------------------------

  /** The section that is next, if any, is safe to expand. */
  predicate StepSafe(ts: seq<Token>, ctx: Context) {
    var m := FindSection(ts);
    m.Match? ==> SafeSection(m.open.Open? && m.open.inverted, Resolve(ctx, Key(m.open)), m.body)
  }

  /** So is every section that is expanded in so many turns. */
  predicate ExpansionsSafe(ts: seq<Token>, ctx: Context, turns: nat)
    decreases turns
  {
    turns > 0 ==> StepSafe(ts, ctx) && ExpansionsSafe(RewriteOnce(ts, ctx), ctx, turns - 1)
  }

  /** One turn of the loop on the page is one turn on the list of tokens. */
  lemma {:induction false} TurnRefines(ts: seq<Token>, ctx: Context)
    requires AllTame(ts, ctx) && StepSafe(ts, ctx)
    ensures SectionsOnce(Flatten(ts), ctx) == Flatten(RewriteOnce(ts, ctx)) && AllTame(RewriteOnce(ts, ctx), ctx)
  {
    hide ExecSection, FindSection, SectionText, Replacement, Flatten, Resolve, SafeSection, Written, Key, Plain;
    AllTameIsPlain(ts, ctx);
    ExecIsFind(ts);
    MatchSplits(ts);
    var m := FindSection(ts);
    if m.Match? {
      var v := Resolve(ctx, Key(m.open));
      PartsTame(ts, ctx, m.before, [m.open], m.body, [m.close], m.after);
      assert [m.open][0] == m.open;
      SectionRefines(m.open.inverted, v, m.body);
      var r := Replacement(m.open.inverted, v, m.body);
      FlattenParts(m.before, [m.open], m.body, [m.close], m.after);
      FlattenOne(m.open);
      FlattenOne(m.close);
      FlattenConcat(m.before + r, m.after);
      FlattenConcat(m.before, r);
      ReplacementTame(m.open.inverted, v, m.body, ctx);
      var s, i := Flatten(ts), |Flatten(m.before)|;
      var n := |Written(m.open)| + |Flatten(m.body)| + |Written(m.close)|;
      assert s[..i] == Flatten(m.before) && s[i + n..] == Flatten(m.after);
    }
  }

  lemma AllTameIsPlain(ts: seq<Token>, ctx: Context)
    requires AllTame(ts, ctx)
    ensures AllPlain(ts)
  {
    hide Tame, Plain;
    forall i | 0 <= i < |ts| ensures Plain(ts[i]) { TameIsPlain(ts[i], ctx); }
  }

  lemma PartsTame(ts: seq<Token>, ctx: Context,
                  a: seq<Token>, b: seq<Token>, c: seq<Token>, d: seq<Token>, e: seq<Token>)
    requires AllTame(ts, ctx) && ts == a + b + c + d + e
    ensures AllTame(a, ctx) && AllTame(b, ctx) && AllTame(c, ctx) && AllTame(e, ctx) && AllPlain(c)
  {
    hide Tame;
    assert forall i | 0 <= i < |a| :: a[i] == ts[i];
    assert forall i | 0 <= i < |b| :: b[i] == ts[|a| + i];
    assert forall i | 0 <= i < |c| :: c[i] == ts[|a| + |b| + i];
    assert forall i | 0 <= i < |e| :: e[i] == ts[|a| + |b| + |c| + |d| + i];
    forall i | 0 <= i < |c| ensures Plain(c[i]) { TameIsPlain(c[i], ctx); }
  }

  lemma TameIsPlain(t: Token, ctx: Context)
    requires Tame(t, ctx)
    ensures Plain(t)
  {}

  lemma {:induction false} FlattenParts(a: seq<Token>, b: seq<Token>, c: seq<Token>, d: seq<Token>, e: seq<Token>)
    ensures Flatten(a + b + c + d + e) == Flatten(a) + (Flatten(b) + Flatten(c) + Flatten(d)) + Flatten(e)
  {
    hide Flatten;
    FlattenConcat(a + b + c + d, e);
    FlattenConcat(a + b + c, d);
    FlattenConcat(a + b, c);
    FlattenConcat(a, b);
  }

  /** What a section leaves behind are tokens of its body and quiet texts. */
  lemma ReplacementTame(inverted: bool, v: Value, body: seq<Token>, ctx: Context)
    requires AllTame(body, ctx) && SafeSection(inverted, v, body)
    ensures AllTame(Replacement(inverted, v, body), ctx)
  {
    hide Tame, BindDot, BindEach, IsEmpty, HasDot;
    if !inverted {
      if v.List? {
        BindEachTame(body, v.items, ctx);
      } else {
        if HasDot(body) { ValueClean(v); }
        BindDotTame(body, Display(v), ctx);
      }
    }
  }

  lemma TextIsTame(text: string, ctx: Context)
    requires Quiet(text)
    ensures Tame(Text(text), ctx)
  {}

  lemma {:induction false} BindDotTame(body: seq<Token>, item: string, ctx: Context)
    requires AllTame(body, ctx) && (HasDot(body) ==> Quiet(item))
    ensures AllTame(BindDot(body, item), ctx)
  {
    hide Tame, HasDot, Bound;
    if HasDot(body) {
      QuietItemTame(body, item, ctx);
    } else {
      NoDotNoChange(body, item);
    }
  }

  lemma {:induction false} QuietItemTame(body: seq<Token>, item: string, ctx: Context)
    requires AllTame(body, ctx) && Quiet(item)
    ensures AllTame(BindDot(body, item), ctx)
  {
    hide Tame, Quiet, Names;
    if body == [] {
    } else {
      EscapeQuiet(item);
      TextIsTame(item, ctx);
      TextIsTame(EscapeHtml(item), ctx);
      QuietItemTame(body[1..], item, ctx);
    }
  }

  lemma {:induction false} BindEachTame(body: seq<Token>, items: seq<string>, ctx: Context)
    requires AllTame(body, ctx) && (HasDot(body) ==> forall i | 0 <= i < |items| :: Quiet(items[i]))
    ensures AllTame(BindEach(body, items), ctx)
  {
    hide Tame, BindDot, HasDot;
    if items == [] {
    } else {
      BindDotTame(body, items[0], ctx);
      TextIsTame("\n", ctx);
      BindEachTame(body, items[1..], ctx);
    }
  }

  /** All turns of the loop. */
  lemma {:induction false} TurnsRefine(ts: seq<Token>, ctx: Context, turns: nat)
    requires AllTame(ts, ctx) && ExpansionsSafe(ts, ctx, turns)
    ensures SectionsTurns(Flatten(ts), ctx, turns) == Flatten(Rewrite(ts, ctx, turns))
    ensures AllTame(Rewrite(ts, ctx, turns), ctx)
    decreases turns
  {
    hide SectionsOnce, RewriteOnce, Flatten, AllTame, StepSafe;
    if turns == 0 {
    } else {
      TurnRefines(ts, ctx);
      TurnsRefine(RewriteOnce(ts, ctx), ctx, turns - 1);
    }
  }

  // --- enough for every expansion to be safe -------------------------------------------------------

  /** Every section tag that is not inverted stands for a value with good items. */
  predicate GoodOpeners(ts: seq<Token>, ctx: Context) {
    forall t | t in ts && t.Open? && !t.inverted :: GoodItems(Resolve(ctx, Key(t)))
  }

  lemma {:induction false} BindDotBrings(body: seq<Token>, item: string)
    ensures forall t | t in BindDot(body, item) :: t in body || t.Text?
  {
    hide Key;
    if body == [] {
    } else {
      BindDotBrings(body[1..], item);
      assert body == [body[0]] + body[1..];
    }
  }

  lemma {:induction false} BindEachBrings(body: seq<Token>, items: seq<string>)
    ensures forall t | t in BindEach(body, items) :: t in body || t.Text?
  {
    hide BindDot;
    if items == [] {
    } else {
      BindDotBrings(body, items[0]);
      BindEachBrings(body, items[1..]);
    }
  }

  lemma {:induction false} TurnBrings(ts: seq<Token>, ctx: Context)
    ensures forall t | t in RewriteOnce(ts, ctx) :: t in ts || t.Text?
  {
    hide FindSection, BindDot, BindEach, IsEmpty, Key, Resolve;
    MatchSplits(ts);
    var m := FindSection(ts);
    if m.Match? {
      var v := Resolve(ctx, Key(m.open));
      if v.List? { BindEachBrings(m.body, v.items); }
      BindDotBrings(m.body, Display(v));
    }
  }

  lemma {:induction false} GoodOpenersSafe(ts: seq<Token>, ctx: Context, turns: nat)
    requires GoodOpeners(ts, ctx)
    ensures ExpansionsSafe(ts, ctx, turns)
    decreases turns
  {
    hide FindSection, RewriteOnce, GoodItems, HasDot, Key, Resolve;
    if turns == 0 {
    } else {
      TurnBrings(ts, ctx);
      GoodOpenersSafe(RewriteOnce(ts, ctx), ctx, turns - 1);
      MatchSplits(ts);
    }
  }
}
