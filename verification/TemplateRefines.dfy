/**
 The rest of the engine on written templates: variables in whatever order of keys, the
 four stripping passes, and the page as a whole.
 */
module TemplateRefines {
  import opened ListingTemplate
  import opened Options
  import opened Strings
  import opened TemplateScan
  import opened TemplateSearch
  import opened TemplateSections
  import opened TemplateTokens

  // --- variables ------------------------------------------------------------------------------

  /** Key by key, as the source goes. */
  function SubstituteKeys(ts: seq<Token>, ctx: Context, keys: seq<string>): seq<Token>
    decreases keys
  {
    if keys == [] then ts
    else
      var v := Resolve(ctx, keys[0]);
      SubstituteKeys(if v == Undefined then ts else SubstituteKey(ts, keys[0], v), ctx, keys[1..])
  }

  lemma {:induction false} PutBothIsSubstitute(ts: seq<Token>, key: string, v: Value)
    ensures PutBoth(ts, key, RawText(v), VarText(v)) == SubstituteKey(ts, key, v)
  {
    hide RawText, VarText, Bound;
    if ts == [] {
    } else {
      PutBothIsSubstitute(ts[1..], key, v);
      PutBothCons(ts, key, RawText(v), VarText(v));
      hide PutBoth;
    }
  }

  /** Where a name stands, its value is clean. */
  lemma UsedIsClean(ts: seq<Token>, ctx: Context, raw: bool, key: string)
    requires AllTame(ts, ctx) && Mentions(ts, raw, key)
    ensures CleanValue(Resolve(ctx, key))
  {
    hide Resolve, CleanValue;
    var i :| 0 <= i < |ts| && Names(ts[i], raw, key);
    assert Tame(ts[i], ctx);
  }

  /** Both passes for one key. */
  lemma {:induction false} KeyRefines(ts: seq<Token>, ctx: Context, key: string)
    requires AllTame(ts, ctx) && IsName(key)
    ensures var v := Resolve(ctx, key);
            VariablesOnce(Flatten(ts), key, v) == Flatten(SubstituteKey(ts, key, v))
            && AllTame(SubstituteKey(ts, key, v), ctx)
  {
    hide IsWord, Put, ReplaceAll, Resolve, CleanValue, RawText, VarText, SubstituteKey, Flatten, Mentions, Quiet;
    var v := Resolve(ctx, key);
    AllTameIsPlain(ts, ctx);
    if Mentions(ts, true, key) {
      UsedIsClean(ts, ctx, true, key);
      ValueClean(v);
    }
    LiteralsAreSteady(RawText(v));
    LiteralsAreSteady(VarText(v));
    BothPasses(ts, key, Literal(RawText(v)), RawText(v), Literal(VarText(v)), VarText(v));
    PutBothIsSubstitute(ts, key, v);
    SubstituteTame(ts, ctx, key);
  }

  lemma LiteralsAreSteady(text: string)
    ensures Steady(Literal(text), text)
  {}

  lemma {:induction false} SubstituteTame(ts: seq<Token>, ctx: Context, key: string)
    requires AllTame(ts, ctx)
    ensures AllTame(SubstituteKey(ts, key, Resolve(ctx, key)), ctx)
  {
    hide Resolve, CleanValue, RawText, VarText, SubstituteKey;
    var v := Resolve(ctx, key);
    SubstituteKeyAt(ts, key, v);
    forall i | 0 <= i < |ts|
      ensures Tame(SubstituteKey(ts, key, v)[i], ctx)
    {
      assert Tame(ts[i], ctx);
      if Names(ts[i], true, key) || Names(ts[i], false, key) { ValueClean(v); }
    }
  }

  ghost predicate AllNames(keys: seq<string>) { forall k | k in keys :: IsName(k) }

  /** All keys, in the order given. */
  lemma {:induction false} VariablesRefine(ts: seq<Token>, ctx: Context, keys: seq<string>)
    requires AllTame(ts, ctx) && AllNames(keys)
    ensures Variables(Flatten(ts), ctx, keys) == Flatten(SubstituteKeys(ts, ctx, keys))
    ensures AllTame(SubstituteKeys(ts, ctx, keys), ctx)
    decreases keys
  {
    hide IsName, Resolve, VariablesOnce, SubstituteKey, AllTame, Flatten;
    if keys == [] {
    } else {
      assert keys[0] in keys && forall k | k in keys[1..] :: k in keys;
      var v := Resolve(ctx, keys[0]);
      KeyRefines(ts, ctx, keys[0]);
      VariablesRefine(if v == Undefined then ts else SubstituteKey(ts, keys[0], v), ctx, keys[1..]);
    }
  }

  /** A token after the keys: its text if its name was among them, itself otherwise. */
  function AfterKeys(t: Token, ctx: Context, keys: seq<string>): Token {
    if Key(t) in keys then Substituted(t, ctx) else t
  }

  lemma BoundIsSubstituted(t: Token, ctx: Context, key: string)
    requires key != "." && Resolve(ctx, key) != Undefined
    ensures var v := Resolve(ctx, key);
            Bound(t, key, RawText(v), VarText(v)) == if Key(t) == key then Substituted(t, ctx) else t
  {
    hide Trim, Resolve, RawText, VarText;
  }

  lemma {:induction false} KeysAt(ts: seq<Token>, ctx: Context, keys: seq<string>)
    requires "." !in keys
    ensures |SubstituteKeys(ts, ctx, keys)| == |ts|
    ensures forall i | 0 <= i < |ts| :: SubstituteKeys(ts, ctx, keys)[i] == AfterKeys(ts[i], ctx, keys)
    decreases keys
  {
    hide Resolve, RawText, VarText, SubstituteKey, Key, Bound;
    if keys == [] {
    } else {
      var key := keys[0];
      var v := Resolve(ctx, key);
      var next := if v == Undefined then ts else SubstituteKey(ts, key, v);
      if v != Undefined { SubstituteKeyAt(ts, key, v); }
      assert keys == [key] + keys[1..];
      KeysAt(next, ctx, keys[1..]);
      forall i | 0 <= i < |ts| ensures AfterKeys(next[i], ctx, keys[1..]) == AfterKeys(ts[i], ctx, keys) {
        OneKeyMore(ts[i], next[i], ctx, keys);
      }
    }
  }

  lemma OneKeyMore(t: Token, next: Token, ctx: Context, keys: seq<string>)
    requires keys != [] && "." !in keys
    requires var v := Resolve(ctx, keys[0]);
             next == if v == Undefined then t else Bound(t, keys[0], RawText(v), VarText(v))
    ensures AfterKeys(next, ctx, keys[1..]) == AfterKeys(t, ctx, keys)
  {
    hide Resolve, RawText, VarText, Trim;
    assert keys == [keys[0]] + keys[1..] && keys[0] in keys;
    if Resolve(ctx, keys[0]) != Undefined { BoundIsSubstituted(t, ctx, keys[0]); }
  }

  /** With the whole key set, in any order, all variables are substituted at once. */
  lemma {:induction false} AllKeysAtOnce(ts: seq<Token>, ctx: Context, keys: seq<string>)
    requires KeySet(ctx, keys) && "." !in keys
    ensures SubstituteKeys(ts, ctx, keys) == SubstituteAll(ts, ctx)
  {
    hide Key;
    KeysAt(ts, ctx, keys);
    SubstituteAllAt(ts, ctx);
  }

  // --- leftovers ------------------------------------------------------------------------------

  lemma {:induction false} ThroughPastChar(c: char, rest: string)
    requires NamedTag([c] + rest, "{{/") == None
    ensures ThroughCloser([c] + rest) == if ThroughCloser(rest) == 0 then 0 else 1 + ThroughCloser(rest)
  {
    hide NamedTag;
    assert ([c] + rest)[1..] == rest;
  }

  function Add(n: nat, m: nat): nat { if m == 0 then 0 else n + m }

  lemma {:induction false} ThroughPastQuiet(q: string, rest: string)
    requires Quiet(q)
    ensures ThroughCloser(q + rest) == Add(|q|, ThroughCloser(rest))
    decreases q
  {
    hide ThroughCloser, NamedTag, Opener, OpenerStarts, KeyedLength;
    if q == "" {
      assert q + rest == rest;
    } else {
      assert q + rest == [q[0]] + (q[1..] + rest);
      QuietHead(q, rest);
      QuietTail(q);
      NothingWithoutBraces(q + rest);
      ThroughPastChar(q[0], q[1..] + rest);
      ThroughPastQuiet(q[1..], rest);
    }
  }

  lemma {:induction false} ThroughPastDouble(inner: string, rest: string)
    requires BraceFree(inner) && NamedTag(Braces(false, inner, rest), "{{/") == None
    ensures ThroughCloser(Braces(false, inner, rest)) == Add(|inner| + 4, ThroughCloser(rest))
  {
    hide ThroughCloser, NamedTag, Opener, OpenerStarts, KeyedLength;
    TwoOpen(inner, rest);
    var q := inner + "}}";
    InnerIsQuiet(inner);
    ThroughPastChar('{', ['{'] + (q + rest));
    assert q + rest == inner + "}}" + rest;
    assert (['{'] + (q + rest))[1] == (q + rest)[0];
    NothingWithoutBraces(['{'] + (q + rest));
    ThroughPastChar('{', q + rest);
    ThroughPastQuiet(q, rest);
  }

  lemma {:induction false} ThroughPastToken(t: Token, rest: string)
    requires Plain(t) && !t.Close?
    ensures ThroughCloser(Written(t) + rest) == Add(|Written(t)|, ThroughCloser(rest))
  {
    hide ThroughCloser, NamedTag, Opener, OpenerStarts, KeyedLength;
    if t.Text? {
      ThroughPastQuiet(t.s, rest);
    } else {
      InnerIsFree(t);
      WrittenBraces(t, rest);
      if t.Open? { AtOpen(t, rest); } else { NothingAtToken(t, rest); }
      hide Written;
      if IsRaw(t) {
        OuterBraces(Inner(t), rest);
        ThroughPastChar('{', Braces(false, Inner(t), "}" + rest));
        ThroughPastDouble(Inner(t), "}" + rest);
        InnerIsQuiet(Inner(t));
        ThroughPastQuiet("}", rest);
      } else {
        ThroughPastDouble(Inner(t), rest);
      }
    }
  }

  /** The search for a closer stops after the token engine's closer. */
  lemma {:induction false} ThroughIsAnyCloser(ts: seq<Token>)
    requires AllPlain(ts)
    ensures ThroughCloser(Flatten(ts))
         == match AnyCloser(ts) case None => 0 case Some(j) => |Flatten(ts[..j + 1])|
  {
    hide ThroughCloser, NamedTag, Opener, OpenerStarts, KeyedLength, Written, Plain;
    if ts == [] {
      NothingToClose();
    } else {
      var rest := Flatten(ts[1..]);
      if ts[0].Close? {
        CloserIsHere(ts[0], rest);
        assert ts[..1] == [ts[0]];
        FlattenOne(ts[0]);
      } else {
        ThroughIsAnyCloser(ts[1..]);
        ThroughPastToken(ts[0], rest);
        PrefixLength(ts, AfterCloser(ts[1..]));
        SomeCloserHasLength(ts[1..]);
      }
    }
  }

  function AfterCloser(ts: seq<Token>): Option<nat> {
    match AnyCloser(ts) case None => None case Some(j) => Some(j + 1)
  }

  lemma {:induction false} SomeCloserHasLength(ts: seq<Token>)
    ensures AnyCloser(ts).Some? ==> |Flatten(ts[..AnyCloser(ts).value + 1])| > 0
  {
    if AnyCloser(ts).Some? {
      var j := AnyCloser(ts).value;
      CloserIsClose(ts);
      FlattenAt(ts[..j + 1], j);
      assert ts[..j + 1][j..] == [ts[j]];
      FlattenOne(ts[j]);
    }
  }

  lemma {:induction false} CloserIsClose(ts: seq<Token>)
    ensures AnyCloser(ts).Some? ==> ts[AnyCloser(ts).value].Close?
  {
    if ts == [] || ts[0].Close? {
    } else {
      CloserIsClose(ts[1..]);
    }
  }

  lemma NothingToClose()
    ensures ThroughCloser("") == 0
  {
    NothingWithoutBraces("");
  }

  lemma {:induction false} CloserIsHere(t: Token, rest: string)
    requires Plain(t) && t.Close?
    ensures ThroughCloser(Written(t) + rest) == |Written(t)|
  {
    hide NamedTag;
    WrittenBraces(t, rest);
    CloserLength(t, rest);
  }

  const NONE: Filler := Literal("")

  lemma {:induction false} LeftoverAt(t: Token, rest: string)
    requires Plain(t) && t.Open?
    ensures Length(Written(t) + rest, Leftover) == Add(|Written(t)|, ThroughCloser(rest))
  {
    hide ThroughCloser, NamedTag, Opener, OpenerStarts, KeyedLength;
    WrittenBraces(t, rest);
    AtOpen(t, rest);
    assert (Written(t) + rest)[|Written(t)|..] == rest;
  }

  /** A token where no leftover section starts is copied. */
  lemma {:induction false} LeftoverCopies(before: string, t: Token, rest: string)
    requires Plain(t) && (t.Open? ==> ThroughCloser(rest) == 0)
    ensures ReplaceAll(before, Written(t) + rest, Leftover, NONE)
         == Written(t) + ReplaceAll(before + Written(t), rest, Leftover, NONE)
  {
    hide ReplaceAll, Length, ThroughCloser, NamedTag, Opener, OpenerStarts, KeyedLength;
    if t.Text? {
      CopyQuiet(before, t.s, rest, Leftover, NONE);
    } else {
      InnerIsFree(t);
      WrittenBraces(t, rest);
      if t.Open? {
        LeftoverAt(t, rest);
      } else {
        NoLeftover(t, rest);
      }
      hide Written;
      CopyBraces(before, IsRaw(t), Inner(t), rest, Leftover, NONE);
    }
  }

  lemma NoLeftover(t: Token, rest: string)
    requires Plain(t) && !t.Text? && !t.Open?
    ensures Length(Braces(IsRaw(t), Inner(t), rest), Leftover) == 0
    ensures IsRaw(t) ==> Length(Braces(false, Inner(t), "}" + rest), Leftover) == 0
  {
    hide ThroughCloser, NamedTag, Opener, OpenerStarts, KeyedLength;
    if t.Close? {
      TagIsWord(t);
      AtClose(t, rest, Key(t));
    } else {
      NothingAtToken(t, rest);
    }
  }

  /** First pass: each leftover opener goes with everything up to the next closer. */
  lemma {:induction false} LeftoverPass(before: string, ts: seq<Token>)
    requires AllPlain(ts)
    ensures ReplaceAll(before, Flatten(ts), Leftover, NONE) == Flatten(StripSections(ts))
    decreases |ts|
  {
    hide ReplaceAll, Length, ThroughCloser, Written, Plain, AnyCloser;
    if ts == [] {
      ReplaceNothing(before, Leftover);
    } else {
      var rest := ts[1..];
      ThroughIsAnyCloser(rest);
      FlattenCons(ts);
      if ts[0].Open? && AnyCloser(rest).Some? {
        LeftoverGoes(before, ts);
        var j := AnyCloser(rest).value;
        LeftoverPass(before + Written(ts[0]) + Flatten(rest[..j + 1]), rest[j + 1..]);
      } else {
        LeftoverCopies(before, ts[0], Flatten(rest));
        LeftoverPass(before + Written(ts[0]), rest);
        FlattenCons(StripSections(ts));
      }
    }
  }

  lemma {:induction false} ReplaceNothing(before: string, p: Pattern)
    ensures ReplaceAll(before, "", p, NONE) == ""
  {}

  lemma LeftoverGoes(before: string, ts: seq<Token>)
    requires AllPlain(ts) && ts != [] && ts[0].Open? && AnyCloser(ts[1..]).Some?
    ensures var rest, j := ts[1..], AnyCloser(ts[1..]).value;
            ReplaceAll(before, Flatten(ts), Leftover, NONE)
              == ReplaceAll(before + Written(ts[0]) + Flatten(rest[..j + 1]), Flatten(rest[j + 1..]), Leftover, NONE)
  {
    hide ReplaceAll, Length, ThroughCloser, Flatten, Written, AnyCloser, Plain;
    var rest, j := ts[1..], AnyCloser(ts[1..]).value;
    ThroughIsAnyCloser(rest);
    SomeCloserHasLength(rest);
    LeftoverAt(ts[0], Flatten(rest));
    FlattenAt(rest, j + 1);
    FlattenCons(ts);
    var w, tail := Written(ts[0]) + Flatten(rest[..j + 1]), Flatten(rest[j + 1..]);
    assert Written(ts[0]) + Flatten(rest) == w + tail;
    ReplaceHit(before, w, tail, Leftover, NONE);
    assert before + w == before + Written(ts[0]) + Flatten(rest[..j + 1]);
    assert Fill(NONE, w, before, tail) == "";
    assert "" + ReplaceAll(before + w, tail, Leftover, NONE) == ReplaceAll(before + w, tail, Leftover, NONE);
  }

  /** The other passes: the tokens they are meant for go. */
  lemma {:induction false} FilledIsDrop(ts: seq<Token>, p: Pattern, gone: Token -> bool)
    requires forall i | 0 <= i < |ts| :: Hits(p, ts[i]) <==> gone(ts[i])
    ensures Filled(ts, p, "") == Flatten(Drop(ts, gone))
  {
    hide Hits, Written;
    if ts == [] {
    } else {
      FilledIsDrop(ts[1..], p, gone);
      assert !gone(ts[0]) ==> Drop(ts, gone)[0] == ts[0] && Drop(ts, gone)[1..] == Drop(ts[1..], gone);
      assert gone(ts[0]) ==> Drop(ts, gone) == Drop(ts[1..], gone);
    }
  }

  lemma {:induction false} DropPlain(ts: seq<Token>, gone: Token -> bool)
    requires AllPlain(ts)
    ensures AllPlain(Drop(ts, gone)) && forall i | 0 <= i < |Drop(ts, gone)| :: !gone(Drop(ts, gone)[i])
  {
    hide Plain;
    if ts == [] {
    } else {
      DropPlain(ts[1..], gone);
    }
  }

  lemma {:induction false} DropPass(ts: seq<Token>, p: Pattern, gone: Token -> bool)
    requires AllPlain(ts) && ForTokens(p)
    requires forall i | 0 <= i < |ts| :: (Hits(p, ts[i]) <==> gone(ts[i])) && !Blocked(p, ts[i])
    ensures ReplaceAll("", Flatten(ts), p, NONE) == Flatten(Drop(ts, gone)) && AllPlain(Drop(ts, gone))
    ensures forall i | 0 <= i < |Drop(ts, gone)| :: !gone(Drop(ts, gone)[i])
  {
    hide Hits, Blocked, ReplaceAll, Plain, Flatten, Drop, Filled;
    LiteralsAreSteady("");
    PassReplacesTokens("", ts, p, NONE, "");
    FilledIsDrop(ts, p, gone);
    DropPlain(ts, gone);
  }

  lemma {:induction false} StripSectionsPlain(ts: seq<Token>)
    requires AllPlain(ts)
    ensures AllPlain(StripSections(ts))
    decreases |ts|
  {
    hide Plain, AnyCloser;
    if ts == [] {
    } else {
      var j := if ts[0].Open? then AnyCloser(ts[1..]) else None;
      if j.Some? {
        StripSectionsPlain(ts[1..][j.value + 1..]);
      } else {
        StripSectionsPlain(ts[1..]);
      }
    }
  }

  /** The four passes over characters are the four passes over tokens. */
  lemma {:induction false} StripRefines(ts: seq<Token>)
    requires AllPlain(ts)
    ensures Strip(Flatten(ts)) == Flatten(StripTokens(ts))
  {
    hide Plain, ReplaceAll, Flatten, Drop, StripSections;
    var a := StripSections(ts);
    LeftoverPass("", ts);
    StripSectionsPlain(ts);
    DropPass(a, Closer, IsClose);
    var b := Drop(a, IsClose);
    DropPass(b, Braced("{{{", "}}}"), IsRaw);
    var c := Drop(b, IsRaw);
    DropPass(c, Braced("{{", "}}"), IsPlaceholder);
  }

  // --- the page -------------------------------------------------------------------------------

  lemma {:induction false} TrimStartIs(s: string)
    ensures TrimStart(s) == "" <==> IsBlank(s)
  {
    if s == "" {
    } else {
      TrimStartIs(s[1..]);
      assert s == [s[0]] + s[1..];
    }
  }

  lemma {:induction false} TrimEndIs(s: string)
    ensures TrimEnd(s) == "" <==> IsBlank(s)
  {
    if s == "" {
    } else {
      TrimEndIs(s[..|s| - 1]);
      assert s == s[..|s| - 1] + [s[|s| - 1]];
    }
  }

  lemma TrimIsEmpty(s: string)
    ensures Trim(s) == "" <==> IsBlank(s)
  {
    hide IsSpace;
    TrimStartIs(s);
    TrimStartEnds(s);
    TrimEndIs(TrimStart(s));
    if TrimStart(s) != "" { assert !IsSpace(TrimStart(s)[0]); }
  }

  lemma {:induction false} BlankIsBlank(ts: seq<Token>)
    ensures IsBlank(Flatten(ts)) <==> BlankTemplate(ts)
  {
    hide IsSpace, Written;
    if ts == [] {
    } else {
      BlankIsBlank(ts[1..]);
      BlankToken(ts[0]);
      BlankConcat(Written(ts[0]), Flatten(ts[1..]));
      assert ts == [ts[0]] + ts[1..];
    }
  }

  lemma BlankConcat(a: string, b: string)
    ensures IsBlank(a + b) <==> IsBlank(a) && IsBlank(b)
  {
    hide IsSpace;
    assert forall i | 0 <= i < |a| :: (a + b)[i] == a[i];
    assert forall i | 0 <= i < |b| :: (a + b)[|a| + i] == b[i];
  }

  lemma BlankToken(t: Token)
    ensures IsBlank(Written(t)) <==> t.Text? && IsBlank(t.s)
  {
    if !t.Text? {
      assert Written(t)[0] == '{';
    }
  }

  predicate NamedContext(ctx: Context) { forall k | k in ctx :: IsName(k) }

  lemma AliasesAreNames()
    ensures forall k | k in ALIASES :: IsName(k)
  {
    hide IsName;
    assert IsName("description") && IsName("product_title") && IsName("features") by { SomeNames(); }
    assert IsName("specs") && IsName("image") && IsName("main_image_url") by { OtherNames(); }
  }

  lemma SomeNames()
    ensures IsName("description") && IsName("product_title") && IsName("features")
  {}

  lemma OtherNames()
    ensures IsName("specs") && IsName("image") && IsName("main_image_url")
  {}

  lemma NoDotKey(ctx: Context, keys: seq<string>)
    requires NamedContext(ctx) && KeySet(ctx, keys)
    ensures "." !in keys
  {
    AliasesAreNames();
  }

  /**
   On every written template, well nested or not and of any size, the string engine does what the token engine says.
   */
  lemma {:induction false} PageRefines(ts: seq<Token>, ctx: Context, keys: seq<string>)
    requires AllTame(ts, ctx) && ExpansionsSafe(ts, ctx, GUARD) && NamedContext(ctx) && KeySet(ctx, keys)
    ensures Render(Flatten(ts), ctx, keys) == RenderTokens(ts, ctx)
  {
    hide AllTame, Flatten, Strip, Trim, IsBlank, BlankTemplate, StripTokens, Variables, SectionsTurns, Rewrite, IsName;
    hide ExpansionsSafe;
    TrimIsEmpty(Flatten(ts));
    BlankIsBlank(ts);
    AliasesAreNames();
    TurnsRefine(ts, ctx, GUARD);
    var done := Rewrite(ts, ctx, GUARD);
    VariablesRefine(done, ctx, keys);
    NoDotKey(ctx, keys);
    AllKeysAtOnce(done, ctx, keys);
    AllTameIsPlain(SubstituteAll(done, ctx), ctx);
    StripRefines(SubstituteAll(done, ctx));
  }
}
