/**
 How the engine's patterns see a written token: a pattern for one kind of token matches
 such a token whole, and nowhere else. So a global replace over a written list of tokens
 is a replacement of tokens.
 */
module TemplateScan {
  import opened ListingTemplate
  import opened Options
  import opened Strings
  import opened TemplateTokens

  /** Something without braces or blanks. */
  predicate Solid(s: string) {
    s != "" && forall i | 0 <= i < |s| :: s[i] != '{' && s[i] != '}' && !IsSpace(s[i])
  }

  lemma WordIsSolid(key: string)
    requires IsWord(key)
    ensures Solid(key) && key[0] !in "#^/"
  {}

  /** What stands between the braces of a placeholder. */
  function Inner(t: Token): string {
    match t
    case Text(_) => ""
    case Var(inner) => inner
    case Raw(inner) => inner
    case Open(inverted, inner) => (if inverted then "^" else "#") + inner
    case Close(inner) => "/" + inner
  }

  lemma InnerIsFree(t: Token)
    requires Plain(t) && !t.Text?
    ensures BraceFree(Inner(t))
  {}

  /** A placeholder between double or triple braces. */
  function Braces(raw: bool, inner: string, rest: string): string {
    if raw then "{{{" + (inner + ("}}}" + rest)) else "{{" + (inner + ("}}" + rest))
  }

  lemma WrittenBraces(t: Token, rest: string)
    requires !t.Text?
    ensures Written(t) + rest == Braces(IsRaw(t), Inner(t), rest)
    ensures Written(t) == Braces(IsRaw(t), Inner(t), "")
    ensures |Written(t)| == |Inner(t)| + (if IsRaw(t) then 6 else 4)
  {
    WrittenIs(t);
    hide Written, Inner;
    BracesSplit(IsRaw(t), Inner(t), rest);
  }

  lemma BracesSplit(raw: bool, inner: string, rest: string)
    ensures Braces(raw, inner, rest) == Braces(raw, inner, "") + rest
  {}

  lemma WrittenIs(t: Token)
    requires !t.Text?
    ensures Written(t) == Braces(IsRaw(t), Inner(t), "")
  {
    if t.Open? || t.Close? { MarkedIs(t); } else { NamedIs(t); }
  }

  lemma MarkedIs(t: Token)
    requires t.Open? || t.Close?
    ensures Written(t) == Braces(false, Inner(t), "")
  {
    assert Written(t) == "{{" + (Inner(t) + "}}");
  }

  lemma NamedIs(t: Token)
    requires t.Var? || t.Raw?
    ensures Written(t) == Braces(IsRaw(t), Inner(t), "")
  {
    match t
    case Var(inner) => assert Written(t) == "{{" + (inner + "}}");
    case Raw(inner) => assert Written(t) == "{{{" + (inner + "}}}");
  }

  // --- one pattern at one place ------------------------------------------------------------

  lemma {:induction false} NoSpaces(s: string)
    requires s == "" || !IsSpace(s[0])
    ensures Spaces(s) == 0
  {}

  lemma {:induction false} TrimStartSuffix(s: string)
    ensures var u := TrimStart(s); |u| <= |s| && s[|s| - |u|..] == u && (u == "" || !IsSpace(u[0]))
  {
    hide IsSpace;
    if s != "" && IsSpace(s[0]) {
      TrimStartSuffix(s[1..]);
    }
  }

  /** `\s*` in front of a placeholder's text takes its leading blanks. */
  lemma {:induction false} SpacesTrim(inner: string, tail: string)
    requires tail != "" && !IsSpace(tail[0])
    ensures Spaces(inner + tail) == |inner| - |TrimStart(inner)|
  {
    hide IsSpace;
    if inner == "" || !IsSpace(inner[0]) {
      assert (inner + tail)[0] == if inner == "" then tail[0] else inner[0];
      NoSpaces(inner + tail);
    } else {
      SpacesTrim(inner[1..], tail);
      assert (inner + tail)[1..] == inner[1..] + tail;
    }
  }

  lemma BlankTail(u: string, key: string)
    requires key < u
    ensures key <= u[..|u| - 1]
    ensures TrimStart(u[|key|..]) == "" <==> TrimStart(u[..|u| - 1][|key|..]) == "" && IsSpace(u[|u| - 1])
  {
    hide IsSpace;
    var n := |u| - 1;
    var v := u[..n][|key|..];
    assert u[|key|..] == v + [u[n]];
    BlankIff(v);
    BlankIff(u[|key|..]);
    assert (v + [u[n]])[|v|] == u[n];
    assert forall i | 0 <= i < |v| :: (v + [u[n]])[i] == v[i];
  }

  /** What trimming the end leaves of a text: the part before its trailing blanks. */
  lemma {:induction false} TrimEndIff(u: string, key: string)
    requires key != "" && !IsSpace(key[|key| - 1])
    ensures TrimEnd(u) == key <==> key <= u && TrimStart(u[|key|..]) == ""
  {
    hide IsSpace;
    if u == "" {
    } else {
      var n := |u| - 1;
      if IsSpace(u[n]) { TrimEndIff(u[..n], key); }
      if key < u {
        BlankTail(u, key);
      } else if key == u {
        assert u[|key|..] == "";
      }
      hide TrimStart;
      assert key <= u[..n] ==> key < u;
    }
  }

  lemma {:induction false} BlankIff(s: string)
    ensures TrimStart(s) == "" <==> IsBlank(s)
  {
    if s == "" {
    } else {
      BlankIff(s[1..]);
      assert s == [s[0]] + s[1..];
    }
  }

  lemma DropInside(a: string, b: string, n: nat)
    requires n <= |a|
    ensures (a + b)[n..] == a[n..] + b
  {}

  lemma BraceIsNoSpace()
    ensures !IsSpace('}') && !IsSpace('{')
  {}

  /** Blanks, then the rest of the text, then the tail. */
  lemma {:induction false} PastSpaces(inner: string, tail: string)
    requires tail != "" && tail[0] == '}'
    ensures var t, u := inner + tail, TrimStart(inner);
            && |u| <= |inner| && Spaces(t) == |inner| - |u| && t[Spaces(t)..] == u + tail
            && (u == "" || !IsSpace(u[0])) && forall c | c in u :: c in inner
  {
    BraceIsNoSpace();
    SpacesTrim(inner, tail);
    TrimStartSuffix(inner);
    var cut := |inner| - |TrimStart(inner)|;
    assert forall i | 0 <= i < |inner[cut..]| :: inner[cut..][i] == inner[cut + i];
    hide Spaces, TrimStart, IsSpace;
    DropInside(inner, tail, |inner| - |TrimStart(inner)|);
  }

  /** Right after its opening braces a keyed pattern matches exactly the text that trims to the key. */
  lemma KeyedHit(open: string, inner: string, close: string, rest: string, key: string)
    requires BraceFree(inner) && Solid(key) && close != "" && close[0] == '}'
    ensures KeyedLength(open + (inner + (close + rest)), open, key, close)
         == if Trim(inner) == key then |open| + |inner| + |close| else 0
  {
    hide Spaces, TrimStart, TrimEnd, IsSpace;
    var tail := close + rest;
    var t := inner + tail;
    var u := TrimStart(inner);
    assert (open + t)[|open|..] == t && open <= open + t;
    PastSpaces(inner, tail);
    TrimEndIff(u, key);
    if key <= u + tail {
      KeyIsShort(u, tail, key);
      var v := u[|key|..];
      DropInside(u, tail, |key|);
      PastSpaces(v, tail);
      assert forall c | c in v :: c in u;
      CloseComes(TrimStart(v), close, rest, inner);
    } else {
      assert !(key <= u);
    }
  }

  lemma CloseComes(w: string, close: string, rest: string, inner: string)
    requires (w != "" ==> w[0] in inner) && BraceFree(inner) && close != "" && close[0] == '}'
    ensures close <= w + (close + rest) <==> w == ""
  {
    if w == "" {
      assert w + (close + rest) == close + rest;
    } else {
      NotThere(close, w + (close + rest), 0);
    }
  }

  /** A solid key that starts a text and a closing brace is within the text. */
  lemma KeyIsShort(u: string, tail: string, key: string)
    requires Solid(key) && key <= u + tail && tail != "" && tail[0] == '}'
    ensures key <= u
  {
    var t := u + tail;
    assert forall i | 0 <= i < |key| :: key[i] == t[i] && key[i] != '}';
    assert t[|u|] == '}' && forall i | 0 <= i < |u| :: t[i] == u[i];
  }

  lemma KeyedOnBrace(open: string, rest: string, key: string, close: string)
    requires Solid(key) && rest != "" && rest[0] == '{'
    ensures KeyedLength(open + rest, open, key, close) == 0
  {
    assert (open + rest)[|open|..] == rest;
    NoSpaces(rest);
  }

  lemma {:induction false} NameRunIs(name: string, rest: string)
    requires (forall i | 0 <= i < |name| :: IsNameChar(name[i])) && (rest == "" || !IsNameChar(rest[0]))
    ensures NameRun(name + rest) == |name|
  {
    if name == "" {
      assert name + rest == rest;
    } else {
      NameRunIs(name[1..], rest);
      assert (name + rest)[1..] == name[1..] + rest;
    }
  }

  lemma SpaceIsNoNameChar(c: char)
    requires IsSpace(c)
    ensures !IsNameChar(c)
  {}

  lemma {:induction false} NamedForm(open: string, t: string, n: nat, k: nat, m: nat)
    requires n == Spaces(t) && k == NameRun(t[n..]) > 0 && m == Spaces(t[n..][k..]) && "}}" <= t[n..][k..][m..]
    ensures NamedTag(open + t, open) == Some(Tag(|open| + n + k + m + 2, t[n..][..k]))
  {
    hide Spaces, NameRun;
    assert (open + t)[|open|..] == t && open <= open + t;
  }

  lemma NameAndBlanks(inner: string) returns (v: string)
    requires IsWord(Trim(inner))
    ensures TrimStart(inner) == Trim(inner) + v && TrimStart(v) == ""
  {
    var u, name := TrimStart(inner), Trim(inner);
    WordIsSolid(name);
    hide TrimStart, IsSpace, IsWord;
    TrimEndIff(u, name);
    hide TrimEnd;
    v := u[|name|..];
  }

  /** The steps of the named scan on a text and a tail. */
  lemma {:induction false} NamedSteps(inner: string, name: string, v: string, tail: string)
    requires TrimStart(inner) == name + v && TrimStart(v) == "" && IsWord(name) && tail != "" && tail[0] == '}'
    ensures var t, n := inner + tail, |inner| - |name + v|;
            && n == Spaces(t) && |name| == NameRun(t[n..]) && t[n..][..|name|] == name
            && |v| == Spaces(t[n..][|name|..]) && t[n..][|name|..][|v|..] == tail
  {
    hide Spaces, TrimStart, IsSpace, NameRun, IsWord;
    PastSpaces(inner, tail);
    NameFirst(name, v, tail);
    WordEnds(name, v, tail);
    PastSpaces(v, tail);
    assert "" + tail == tail;
  }

  /** A section tag is matched whole, and read without its blanks. */
  lemma NamedHit(open: string, inner: string, rest: string)
    requires IsWord(Trim(inner))
    ensures NamedTag(open + (inner + ("}}" + rest)), open) == Some(Tag(|open| + |inner| + 2, Trim(inner)))
  {
    hide NamedTag, Spaces, TrimStart, Trim, IsSpace, NameRun;
    var tail, name := "}}" + rest, Trim(inner);
    var v := NameAndBlanks(inner);
    NamedSteps(inner, name, v, tail);
    NamedForm(open, inner + tail, |inner| - |name + v|, |name|, |v|);
  }

  lemma NameFirst(name: string, v: string, tail: string)
    ensures (name + v) + tail == name + (v + tail)
    ensures (name + (v + tail))[..|name|] == name && (name + (v + tail))[|name|..] == v + tail
  {}

  /** A word and blanks in front of a closing brace: the run of name characters is the word. */
  lemma {:induction false} WordEnds(name: string, v: string, tail: string)
    requires IsWord(name) && TrimStart(v) == "" && tail != "" && tail[0] == '}'
    ensures NameRun(name + (v + tail)) == |name|
  {
    if v != "" {
      BlankIff(v);
      SpaceIsNoNameChar(v[0]);
    }
    assert (v + tail)[0] == if v == "" then '}' else v[0];
    NameRunIs(name, v + tail);
  }

  lemma {:induction false} RunStopsAtBrace(run: string, rest: string)
    requires BraceFree(run) && (rest == "" || rest[0] == '{' || rest[0] == '}')
    ensures BraceFreeRun(run + rest) == |run|
  {
    if run == "" {
      assert run + rest == rest;
    } else {
      assert run[0] in run && forall c | c in run[1..] :: c in run;
      RunStopsAtBrace(run[1..], rest);
      assert (run + rest)[1..] == run[1..] + rest;
    }
  }

  lemma BracedHit(open: string, run: string, close: string, rest: string)
    requires BraceFree(run) && close != "" && close[0] == '}'
    ensures BracedLength(open + (run + (close + rest)), open, close) == |open| + |run| + |close|
  {
    var s, tail := open + (run + (close + rest)), close + rest;
    assert s[|open|..] == run + tail;
    RunStopsAtBrace(run, tail);
    assert s[|open| + |run|..] == tail;
  }

  /** Every pattern starts with two braces. */
  predicate StartsBraced(p: Pattern) {
    match p
    case Keyed(open, _, _) => "{{" <= open
    case Braced(open, _) => "{{" <= open
    case _ => true
  }

  /** Two braces at the start: the only place anything can match. */
  predicate TwoBraces(s: string) { |s| >= 2 && s[0] == '{' && s[1] == '{' }

  lemma NotThere(open: string, s: string, k: nat)
    requires k < |open| && (k >= |s| || open[k] != s[k])
    ensures !(open <= s)
  {}

  lemma QuietStart(s: string, p: Pattern)
    requires !TwoBraces(s) && StartsBraced(p)
    ensures Length(s, p) == 0 && Opener(s) == None && NamedTag(s, "{{/") == None && !OpenerStarts(s)
  {
    var k := if |s| == 0 || s[0] != '{' then 0 else 1;
    NotThere("{{/", s, k);
    NotThere("{{#", s, k);
    NotThere("{{^", s, k);
    if p.Keyed? {
      assert p.open[0] == '{' && p.open[1] == '{';
      NotThere(p.open, s, k);
    } else if p.Braced? {
      assert p.open[0] == '{' && p.open[1] == '{';
      NotThere(p.open, s, k);
    }
  }

  // --- copying and replacing ------------------------------------------------------------------

  lemma {:induction false} CopyChar(before: string, c: char, rest: string, p: Pattern, f: Filler)
    requires Length([c] + rest, p) == 0
    ensures ReplaceAll(before, [c] + rest, p, f) == [c] + ReplaceAll(before + [c], rest, p, f)
  {
    hide Length;
    assert ([c] + rest)[1..] == rest;
  }

  lemma QuietTail(q: string)
    requires Quiet(q) && q != ""
    ensures Quiet(q[1..])
  {
    forall i | 0 <= i < |q[1..]| ensures !OpensAt(q[1..], i) { assert !OpensAt(q, i + 1); }
  }

  lemma QuietHead(q: string, rest: string)
    requires Quiet(q) && q != ""
    ensures !TwoBraces(q + rest)
  {
    assert !OpensAt(q, 0);
    assert |q| > 1 ==> (q + rest)[1] == q[1];
  }

  lemma QuietConcat(a: string, b: string)
    requires Quiet(a) && Quiet(b)
    ensures Quiet(a + b)
  {
    forall i | 0 <= i < |a + b| ensures !OpensAt(a + b, i) {
      if i < |a| { assert !OpensAt(a, i); } else { assert !OpensAt(b, i - |a|); }
    }
  }

  /** What follows a placeholder's opening braces is quiet. */
  lemma InnerIsQuiet(inner: string)
    requires BraceFree(inner)
    ensures Quiet(inner + "}}") && Quiet("}") && forall rest :: (inner + "}}" + rest)[0] != '{'
  {
    forall rest ensures (inner + "}}" + rest)[0] != '{' {
      assert (inner + "}}" + rest)[0] == if inner == "" then '}' else inner[0];
      assert inner != "" ==> inner[0] in inner;
    }
    assert forall i | 0 <= i < |inner| :: inner[i] in inner;
    assert forall i | 0 <= i < |inner + "}}"| :: (inner + "}}")[i] != '{';
  }

  /** Quiet text is copied. */
  lemma {:induction false} CopyQuiet(before: string, q: string, rest: string, p: Pattern, f: Filler)
    requires StartsBraced(p) && Quiet(q)
    ensures ReplaceAll(before, q + rest, p, f) == q + ReplaceAll(before + q, rest, p, f)
    decreases q
  {
    hide ReplaceAll, Length;
    if q == "" {
      assert q + rest == rest && before + q == before;
      assert q + ReplaceAll(before, rest, p, f) == ReplaceAll(before, rest, p, f);
    } else {
      var more := q[1..] + rest;
      assert q + rest == [q[0]] + more && q == [q[0]] + q[1..];
      QuietHead(q, rest);
      QuietTail(q);
      QuietStart(q + rest, p);
      CopyChar(before, q[0], more, p, f);
      CopyQuiet(before + [q[0]], q[1..], rest, p, f);
      assert before + [q[0]] + q[1..] == before + q;
      ThreeParts([q[0]], q[1..], ReplaceAll(before + q, rest, p, f));
    }
  }

  lemma ThreeParts(a: string, b: string, c: string)
    ensures a + (b + c) == (a + b) + c
  {}

  /** A placeholder no brace of which starts a match is copied. */
  lemma {:induction false} CopyBraces(before: string, raw: bool, inner: string, rest: string, p: Pattern, f: Filler)
    requires StartsBraced(p) && BraceFree(inner) && Length(Braces(raw, inner, rest), p) == 0
    requires raw ==> Length(Braces(false, inner, "}" + rest), p) == 0
    ensures ReplaceAll(before, Braces(raw, inner, rest), p, f)
         == Braces(raw, inner, "") + ReplaceAll(before + Braces(raw, inner, ""), rest, p, f)
  {
    hide ReplaceAll, Length;
    if raw { CopyTriple(before, inner, rest, p, f); } else { CopyDouble(before, inner, rest, p, f); }
  }

  lemma {:induction false} CopyTriple(before: string, inner: string, rest: string, p: Pattern, f: Filler)
    requires StartsBraced(p) && BraceFree(inner) && Length(Braces(true, inner, rest), p) == 0
    requires Length(Braces(false, inner, "}" + rest), p) == 0
    ensures ReplaceAll(before, Braces(true, inner, rest), p, f)
         == Braces(true, inner, "") + ReplaceAll(before + Braces(true, inner, ""), rest, p, f)
  {
    hide ReplaceAll, Length;
    var two := Braces(false, inner, "}" + rest);
    OuterBraces(inner, rest);
    CopyChar(before, '{', two, p, f);
    CopyDouble(before + "{", inner, "}" + rest, p, f);
    var w := before + "{" + Braces(false, inner, "");
    InnerIsQuiet(inner);
    CopyQuiet(w, "}", rest, p, f);
    OuterBraces(inner, "");
    hide Braces;
    assert w + "}" == before + Braces(true, inner, "");
    ThreeParts(Braces(false, inner, ""), "}", ReplaceAll(w + "}", rest, p, f));
    ThreeParts(['{'], Braces(false, inner, "") + "}", ReplaceAll(w + "}", rest, p, f));
  }

  lemma OuterBraces(inner: string, rest: string)
    ensures Braces(true, inner, rest) == ['{'] + Braces(false, inner, "}" + rest)
    ensures Braces(true, inner, "") == ['{'] + (Braces(false, inner, "") + "}")
  {}

  lemma {:induction false} CopyDouble(before: string, inner: string, rest: string, p: Pattern, f: Filler)
    requires StartsBraced(p) && BraceFree(inner) && Length(Braces(false, inner, rest), p) == 0
    ensures ReplaceAll(before, Braces(false, inner, rest), p, f)
         == Braces(false, inner, "") + ReplaceAll(before + Braces(false, inner, ""), rest, p, f)
  {
    hide ReplaceAll, Length;
    var q := inner + "}}";
    InnerIsQuiet(inner);
    TwoOpen(inner, rest);
    TwoOpen(inner, "");
    CopyChar(before, '{', ['{'] + (q + rest), p, f);
    assert q + rest == inner + "}}" + rest;
    assert (['{'] + (q + rest))[1] == (q + rest)[0];
    QuietStart(['{'] + (q + rest), p);
    CopyChar(before + ['{'], '{', q + rest, p, f);
    CopyQuiet(before + ['{'] + ['{'], q, rest, p, f);
    hide Braces;
    var out := ReplaceAll(before + ['{'] + ['{'] + q, rest, p, f);
    assert before + ['{'] + ['{'] + q == before + Braces(false, inner, "");
    ThreeParts(['{'], q, out);
    ThreeParts(['{'], ['{'] + q, out);
  }

  lemma TwoOpen(inner: string, rest: string)
    ensures Braces(false, inner, rest) == ['{'] + (['{'] + (inner + "}}" + rest))
    ensures Braces(false, inner, "") == ['{'] + (['{'] + (inner + "}}"))
  {}

  lemma {:induction false} ReplaceHit(before: string, w: string, rest: string, p: Pattern, f: Filler)
    ensures w != "" && Length(w + rest, p) == |w| ==>
              ReplaceAll(before, w + rest, p, f) == Fill(f, w, before, rest) + ReplaceAll(before + w, rest, p, f)
  {
    hide Length, Fill;
    assert (w + rest)[..|w|] == w && (w + rest)[|w|..] == rest;
  }

  // --- one token ---------------------------------------------------------------------------------

  /** The patterns meant for one kind of token. */
  predicate ForTokens(p: Pattern) {
    match p
    case Keyed(open, key, close) =>
      IsWord(key) && ((open == "{{" && close == "}}") || (open == "{{{" && close == "}}}"))
    case Braced(open, close) => (open == "{{" && close == "}}") || (open == "{{{" && close == "}}}")
    case Closer => true
    case Leftover => false
  }

  /** Whether the pattern is meant for this token. */
  predicate Hits(p: Pattern, t: Token) {
    match p
    case Keyed(open, key, _) => Names(t, open == "{{{", key)
    case Braced(open, _) => !t.Text? && IsRaw(t) == (open == "{{{")
    case Closer => t.Close?
    case Leftover => false
  }

  /** A double-brace pattern would also see the inside of a raw token, so those have to be gone. */
  predicate Blocked(p: Pattern, t: Token) {
    match p
    case Keyed(open, key, _) => open == "{{" && Names(t, true, key)
    case Braced(open, _) => open == "{{" && IsRaw(t)
    case _ => false
  }

  /** A section tag trims to something that starts with its mark, so it has no key's name. */
  lemma MarkStays(c: char, inner: string)
    requires !IsSpace(c)
    ensures var k := Trim([c] + inner); k != "" && k[0] == c
  {
    var s := [c] + inner;
    TrimEndEnds(s);
    if TrimEnd(s) == "" {
      TrimEndIff(s, [c]);
      TrimEndHead(s);
    }
  }

  lemma {:induction false} TrimEndHead(s: string)
    requires s != "" && !IsSpace(s[0])
    ensures TrimEnd(s) != ""
  {
    if |s| > 1 && IsSpace(s[|s| - 1]) {
      TrimEndHead(s[..|s| - 1]);
    }
  }

  lemma DoubleLength(t: Token, rest: string, p: Pattern)
    requires Plain(t) && !t.Text? && !IsRaw(t) && ForTokens(p)
    ensures Length(Braces(false, Inner(t), rest), p) == if Hits(p, t) then |Written(t)| else 0
  {
    InnerIsFree(t);
    WrittenBraces(t, rest);
    var inner := Inner(t);
    var s := Braces(false, inner, rest);
    BracesThird(inner, rest);
    match p
    case Keyed(open, key, close) =>
      if open == "{{" { KeyedDouble(t, rest, key); } else { NoKey("{{{", s, key, "}}}"); }
    case Braced(open, close) =>
      if open == "{{" {
        BracedHit("{{", inner, "}}", rest);
      } else {
        NotThere("{{{", s, 2);
      }
    case Closer => CloserLength(t, rest);
  }

  lemma KeyedDouble(t: Token, rest: string, key: string)
    requires Plain(t) && !t.Text? && !IsRaw(t) && IsWord(key)
    ensures KeyedLength(Braces(false, Inner(t), rest), "{{", key, "}}")
         == if Names(t, false, key) then |Inner(t)| + 4 else 0
  {
    hide KeyedLength, Trim, IsNameChar, IsSpace;
    WordIsSolid(key);
    InnerIsFree(t);
    KeyedHit("{{", Inner(t), "}}", rest, key);
    if t.Open? || t.Close? { TagHasNoName(t); }
  }

  lemma TagHasNoName(t: Token)
    requires t.Open? || t.Close?
    ensures Trim(Inner(t)) != "" && Trim(Inner(t))[0] in "#^/"
  {
    var c := Inner(t)[0];
    MarkStays(c, t.inner);
  }

  /** Nothing with this opening starts here. */
  lemma NoTag(open: string, s: string, k: nat)
    requires k < |open| && (k >= |s| || open[k] != s[k])
    ensures NamedTag(s, open) == None && !(open <= s) && forall key, close :: KeyedLength(s, open, key, close) == 0
  {
    NotThere(open, s, k);
  }

  lemma CloserLength(t: Token, rest: string)
    requires Plain(t) && !t.Text? && !IsRaw(t)
    ensures NamedTag(Braces(false, Inner(t), rest), "{{/")
         == if t.Close? then Some(Tag(|Written(t)|, Key(t))) else None
  {
    hide NamedTag, Trim;
    var s := Braces(false, Inner(t), rest);
    if t.Close? {
      WrittenBraces(t, rest);
      assert s == "{{/" + (t.inner + ("}}" + rest));
      NamedHit("{{/", t.inner, rest);
    } else {
      assert s[2] == if Inner(t) == "" then '}' else Inner(t)[0];
      NoTag("{{/", s, 2);
    }
  }

  /** At its first brace, and then at its second. */
  lemma TripleLength(t: Token, rest: string, p: Pattern)
    requires Plain(t) && IsRaw(t) && ForTokens(p) && !Blocked(p, t)
    ensures Length(Braces(true, Inner(t), rest), p) == if Hits(p, t) then |Written(t)| else 0
    ensures Length(Braces(false, Inner(t), "}" + rest), p) == 0
  {
    InnerIsFree(t);
    WrittenBraces(t, rest);
    var inner := Inner(t);
    var s, s' := Braces(true, inner, rest), Braces(false, inner, "}" + rest);
    BracesThird(inner, rest);
    match p
    case Keyed(open, key, close) => TripleKeyed(t, rest, key, open == "{{{");
    case Braced(open, close) =>
      NotThere("{{{", s', 2);
      BracedHit("{{{", inner, "}}}", rest);
    case Closer =>
      NotThere("{{/", s, 2);
      NotThere("{{/", s', 2);
  }

  /** The third character: a brace, or what cannot be one, nor a mark. */
  lemma BracesThird(inner: string, rest: string)
    requires BraceFree(inner)
    ensures Braces(true, inner, rest)[2] == '{'
    ensures var c := Braces(false, inner, rest)[2]; c == (if inner == "" then '}' else inner[0]) && c != '{'
    ensures Braces(false, inner, "}" + rest)[2] == Braces(false, inner, rest)[2]
  {
    assert inner != "" ==> inner[0] in inner;
  }

  lemma TripleKeyed(t: Token, rest: string, key: string, raw: bool)
    requires Plain(t) && IsRaw(t) && IsWord(key) && (!raw ==> Key(t) != key)
    ensures var s, s' := Braces(true, Inner(t), rest), Braces(false, Inner(t), "}" + rest);
            && (raw ==> KeyedLength(s, "{{{", key, "}}}") == if Key(t) == key then |t.inner| + 6 else 0)
            && (raw ==> KeyedLength(s', "{{{", key, "}}}") == 0)
            && (!raw ==> KeyedLength(s, "{{", key, "}}") == 0 == KeyedLength(s', "{{", key, "}}"))
  {
    hide KeyedLength, Trim, IsSpace;
    InnerIsFree(t);
    WordIsSolid(key);
    var inner := t.inner;
    BracesThird(inner, rest);
    if raw {
      KeyedHit("{{{", inner, "}}}", rest, key);
      NoKey("{{{", Braces(false, inner, "}" + rest), key, "}}}");
    } else {
      var more := "{" + (inner + ("}}}" + rest));
      assert Braces(true, inner, rest) == "{{" + more;
      KeyedOnBrace("{{", more, key, "}}");
      KeyedHit("{{", inner, "}}", "}" + rest, key);
    }
  }

  lemma NoKey(open: string, s: string, key: string, close: string)
    requires |open| > 2 && |s| > 2 && s[2] != open[2]
    ensures KeyedLength(s, open, key, close) == 0
  {}

  /** The pattern replaces its tokens and copies the others. */
  lemma {:induction false} TokenStep(before: string, t: Token, rest: string, p: Pattern, f: Filler)
    requires Plain(t) && ForTokens(p) && !Blocked(p, t)
    ensures ReplaceAll(before, Written(t) + rest, p, f)
         == (if Hits(p, t) then Fill(f, Written(t), before, rest) else Written(t))
            + ReplaceAll(before + Written(t), rest, p, f)
  {
    hide ReplaceAll, Length, Fill;
    if t.Text? {
      CopyQuiet(before, t.s, rest, p, f);
    } else {
      InnerIsFree(t);
      WrittenBraces(t, rest);
      WrittenBraces(t, "");
      if IsRaw(t) { TripleLength(t, rest, p); } else { DoubleLength(t, rest, p); }
      assert Written(t) + "" == Written(t);
      hide Written, Hits;
      if Hits(p, t) {
        ReplaceHit(before, Written(t), rest, p, f);
      } else {
        CopyBraces(before, IsRaw(t), Inner(t), rest, p, f);
      }
    }
  }

  // --- a list of tokens ----------------------------------------------------------------------------

  /** The filler puts the same text everywhere. */
  ghost predicate Steady(f: Filler, text: string) {
    forall matched, before, after :: Fill(f, matched, before, after) == text
  }

  function Filled(ts: seq<Token>, p: Pattern, text: string): string {
    if ts == [] then "" else (if Hits(p, ts[0]) then text else Written(ts[0])) + Filled(ts[1..], p, text)
  }

  /** A global replace over written tokens replaces the tokens it is meant for. */
  lemma {:induction false} PassReplacesTokens(before: string, ts: seq<Token>, p: Pattern, f: Filler, text: string)
    requires AllPlain(ts) && ForTokens(p) && Steady(f, text)
    requires forall i | 0 <= i < |ts| :: !Blocked(p, ts[i])
    ensures ReplaceAll(before, Flatten(ts), p, f) == Filled(ts, p, text)
    decreases ts
  {
    hide Fill, Written, Hits, Blocked, Plain;
    if ts == [] {
    } else {
      TokenStep(before, ts[0], Flatten(ts[1..]), p, f);
      PassReplacesTokens(before + Written(ts[0]), ts[1..], p, f, text);
      hide ReplaceAll;
    }
  }

  /** A pass that is meant for none of the tokens changes nothing, whatever it would put in. */
  lemma {:induction false} PassIdles(before: string, ts: seq<Token>, p: Pattern, f: Filler)
    requires AllPlain(ts) && ForTokens(p) && forall i | 0 <= i < |ts| :: !Hits(p, ts[i]) && !Blocked(p, ts[i])
    ensures ReplaceAll(before, Flatten(ts), p, f) == Flatten(ts)
    decreases ts
  {
    hide Fill, Written, Hits, Blocked, Plain;
    if ts == [] {
    } else {
      TokenStep(before, ts[0], Flatten(ts[1..]), p, f);
      PassIdles(before + Written(ts[0]), ts[1..], p, f);
      hide ReplaceAll;
    }
  }
}
