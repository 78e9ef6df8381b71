/**
 Section items are passed to `replace` as replacement strings: which items stand for
 themselves there.
 */
module DollarSafety {
  import opened ListingTemplate

  /**
   No dollar sign is followed by a character that is special after it, or that escapes to something starting with
   `&`.
   */
  predicate DollarSafe(s: string) {
    forall i | 0 <= i < |s| - 1 && s[i] == '$' :: s[i + 1] !in "$&`'<>\""
  }

  /** A dollar sign with a character that is special after it. */
  predicate SpecialPair(s: string) {
    exists i :: 0 <= i < |s| - 1 && s[i] == '$' && s[i + 1] in "$&`'"
  }

  lemma {:induction false} SafeExpandsToItself(r: string, matched: string, before: string, after: string)
    requires forall i | 0 <= i < |r| - 1 && r[i] == '$' :: r[i + 1] !in "$&`'"
    ensures JsExpand(r, matched, before, after) == r
  {
    if |r| < 2 {
    } else {
      assert r == [r[0]] + r[1..];
      assert forall i | 0 <= i < |r[1..]| - 1 && r[1..][i] == '$' :: r[1..][i + 1] == r[i + 1 + 1];
      SafeExpandsToItself(r[1..], matched, before, after);
    }
  }

  lemma {:induction false} EscapeStaysSafe(s: string)
    requires DollarSafe(s)
    ensures forall i | 0 <= i < |EscapeHtml(s)| - 1 && EscapeHtml(s)[i] == '$' :: EscapeHtml(s)[i + 1] !in "$&`'"
    ensures s != "" ==> EscapeHtml(s) != ""
    ensures s != "" ==> EscapeHtml(s)[0] == s[0] || (s[0] in "&<>\"'" && EscapeHtml(s)[0] == '&')
  {
    if s == "" {
    } else {
      var e, rest := EscapeChar(s[0]), EscapeHtml(s[1..]);
      assert DollarSafe(s[1..]) by {
        forall i | 0 <= i < |s[1..]| - 1 && s[1..][i] == '$' ensures s[1..][i + 1] !in "$&`'<>\"" {
          assert s[i + 1] == '$';
        }
      }
      EscapeStaysSafe(s[1..]);
      forall i | 0 <= i < |e + rest| - 1 && (e + rest)[i] == '$' ensures (e + rest)[i + 1] !in "$&`'" {
        if i >= |e| {
          assert (e + rest)[i] == rest[i - |e|] && (e + rest)[i + 1] == rest[i - |e| + 1];
        } else {
          assert |e| == 1 && i == 0 && rest != "";
        }
      }
    }
  }

  /** Expanded against nothing, every special pair is lost. */
  lemma {:induction false} PairsAreLost(r: string)
    ensures |JsExpand(r, "", "", "")| <= |r|
    ensures SpecialPair(r) ==> |JsExpand(r, "", "", "")| < |r|
  {
    if |r| < 2 {
    } else {
      PairsAreLost(r[1..]);
      PairsAreLost(r[2..]);
      if r[0] != '$' || r[1] !in "$&`'" {
        PairMovesUp(r);
      }
    }
  }

  lemma PairMovesUp(r: string)
    requires |r| >= 2 && !(r[0] == '$' && r[1] in "$&`'")
    ensures SpecialPair(r) ==> SpecialPair(r[1..])
  {
    if SpecialPair(r) {
      var i :| 0 <= i < |r| - 1 && r[i] == '$' && r[i + 1] in "$&`'";
      assert r[1..][i - 1] == '$' && r[1..][i] == r[i + 1];
    }
  }

  lemma {:induction false} EscapeConcat(a: string, b: string)
    ensures EscapeHtml(a + b) == EscapeHtml(a) + EscapeHtml(b)
  {
    hide EscapeChar;
    if a == "" {
      assert a + b == b;
    } else {
      EscapeConcat(a[1..], b);
      assert a + b == [a[0]] + (a[1..] + b) && a == [a[0]] + a[1..];
      EscapeCons(a[0], a[1..] + b);
      EscapeCons(a[0], a[1..]);
      hide EscapeHtml;
    }
  }

  lemma {:induction false} EscapeCons(c: char, s: string)
    ensures EscapeHtml([c] + s) == EscapeChar(c) + EscapeHtml(s)
  {
    hide EscapeChar;
    assert ([c] + s)[1..] == s;
  }

  /** Escaping turns a quote or bracket after a dollar sign into the special `$&`. */
  lemma {:induction false} EscapedPair(s: string, i: nat)
    requires i < |s| - 1 && s[i] == '$' && s[i + 1] in "<>\""
    ensures SpecialPair(EscapeHtml(s))
  {
    var a, b := s[..i], s[i + 2..];
    assert s == a + (['$', s[i + 1]] + b);
    EscapeConcat(a, ['$', s[i + 1]] + b);
    EscapeTwo(s[i + 1], b);
    var r := EscapeHtml(s);
    assert r[|EscapeHtml(a)|] == '$' && r[|EscapeHtml(a)| + 1] == '&';
  }

  lemma {:induction false} EscapeTwo(c: char, b: string)
    requires c in "<>\""
    ensures var r := EscapeHtml(['$', c] + b); |r| >= 2 && r[0] == '$' && r[1] == '&'
  {
    var s := ['$', c] + b;
    assert s[1..] == [c] + b && ([c] + b)[1..] == b;
    assert EscapeHtml(s) == "$" + EscapeHtml([c] + b);
    assert EscapeHtml([c] + b) == EscapeChar(c) + EscapeHtml(b);
  }

  /** An item stands for itself, raw and escaped, wherever it is substituted, if and only if it is dollar-safe. */
  lemma {:induction false} ItemIsLiteral(item: string)
    ensures DollarSafe(item) <==>
            forall matched, before, after ::
              && JsExpand(item, matched, before, after) == item
              && JsExpand(EscapeHtml(item), matched, before, after) == EscapeHtml(item)
  {
    if DollarSafe(item) {
      forall matched, before, after
        ensures JsExpand(item, matched, before, after) == item
        ensures JsExpand(EscapeHtml(item), matched, before, after) == EscapeHtml(item)
      {
        SafeIsLiteral(item, matched, before, after);
      }
    } else {
      UnsafeIsNot(item);
    }
  }

  lemma {:induction false} SafeIsLiteral(item: string, matched: string, before: string, after: string)
    requires DollarSafe(item)
    ensures JsExpand(item, matched, before, after) == item
    ensures JsExpand(EscapeHtml(item), matched, before, after) == EscapeHtml(item)
  {
    EscapeStaysSafe(item);
    SafeExpandsToItself(item, matched, before, after);
    SafeExpandsToItself(EscapeHtml(item), matched, before, after);
  }

  lemma {:induction false} UnsafeIsNot(item: string)
    requires !DollarSafe(item)
    ensures JsExpand(item, "", "", "") != item || JsExpand(EscapeHtml(item), "", "", "") != EscapeHtml(item)
  {
    var i :| 0 <= i < |item| - 1 && item[i] == '$' && item[i + 1] in "$&`'<>\"";
    PairsAreLost(item);
    PairsAreLost(EscapeHtml(item));
    if item[i + 1] in "<>\"" { EscapedPair(item, i); }
  }
}
