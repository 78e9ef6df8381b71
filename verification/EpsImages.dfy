/** The pixel size eBay writes into a picture URL, and the gallery that leaves small pictures out. */
module EpsImages {
  import opened Base64
  import opened Decimal
  import opened Numbers
  import opened Options

  const EPS_HOST := "https://i.ebayimg.com/"

  const EBAY_MIN_IMAGE_LONGEST_SIDE := 500

  predicate IsEpsImageUrl(url: string) { EPS_HOST <= url }

  /** A character of the encoded path segment: a letter of the alphabet, but a slash ends the segment. */
  predicate InSegment(c: char) { IsLetter(c) && c != '/' }

  function LetterRun(s: string): (n: nat)
    ensures n <= |s|
  {
    if s == "" || !InSegment(s[0]) then 0 else 1 + LetterRun(s[1..])
  }

  function PadRun(s: string): (n: nat)
    ensures n <= |s|
  {
    if s == "" || s[0] != '=' then 0 else 1 + PadRun(s[1..])
  }

  const MARK := "/00/s/"

  /** The encoded segment, if its mark stands here. */
  function SegmentHere(s: string): Option<string> {
    if !(MARK <= s) then None
    else
      var t := s[|MARK|..];
      var n := LetterRun(t);
      var e := PadRun(t[n..]);
      if n > 0 && e <= 2 && n + e < |t| && t[n + e] == '/' then Some(t[..n + e]) else None
  }

  /** The first one in the text. */
  function Segment(s: string): Option<string> {
    if SegmentHere(s).Some? then SegmentHere(s) else if s == "" then None else Segment(s[1..])
  }

  predicate IsSide(s: string) { 1 <= |s| <= 5 && AllDigits(s) }

  function FirstX(s: string): (i: nat)
    ensures i <= |s| && (i < |s| ==> s[i] == 'X') && forall p | 0 <= p < i :: s[p] != 'X'
  {
    if s == "" || s[0] == 'X' then 0 else 1 + FirstX(s[1..])
  }

  /** Two sides of one to five digits around the first X. */
  function ReadSize(s: string): Option<(nat, nat)> {
    var i := FirstX(s);
    if i < |s| && IsSide(s[..i]) && IsSide(s[i + 1..]) then Some((NatOf(s[..i]), NatOf(s[i + 1..]))) else None
  }

  /** Width and height, or nothing for any other URL. */
  function ReadEpsImageDimensions(url: string): Option<(nat, nat)> {
    if !IsEpsImageUrl(url) then None
    else
      match Segment(url)
      case None => None
      case Some(encoded) =>
        match Decode(encoded)
        case None => None
        case Some(decoded) => ReadSize(decoded)
  }

  predicate IsBelowPicturePolicy(url: string) {
    match ReadEpsImageDimensions(url)
    case None => false
    case Some((w, h)) => MaxInt(w, h) < EBAY_MIN_IMAGE_LONGEST_SIDE
  }

  function Large(urls: seq<string>): seq<string> {
    if urls == [] then []
    else (if IsBelowPicturePolicy(urls[0]) then [] else [urls[0]]) + Large(urls[1..])
  }

  function Gallery(sources: seq<string>, eps: map<string, string>): seq<string> {
    seq(|sources|, i requires 0 <= i < |sources| => if sources[i] in eps then eps[sources[i]] else sources[i])
  }

  function ResolveGalleryUrls(sources: seq<string>, eps: map<string, string>): seq<string> {
    var gallery := Gallery(sources, eps);
    if Large(gallery) != [] then Large(gallery) else gallery
  }

  // --- the size comes back -----------------------------------------------------------------

  /** What a size is written with. */
  predicate SizeChar(c: char) { IsDigit(c) || c == 'X' }

  /** Digits and X encode without plus and slash, so the segment holds their whole encoding. */
  lemma {:induction false} SizeSextets(s: string)
    requires forall i | 0 <= i < |s| :: SizeChar(s[i])
    ensures IsBytes(s) && forall x | x in ToSextets(s) :: x < 62
  {
    if |s| == 0 {
    } else {
      SizeByte(s[0]);
    }
    if |s| > 1 { SizeByte(s[1]); }
    if |s| > 2 {
      SizeByte(s[2]);
      SizeSextets(s[3..]);
    }
  }

  lemma SizeByte(c: char)
    requires SizeChar(c)
    ensures var b := c as int;
            48 <= b < 89 && b / 4 < 62 && b / 16 <= 5 && b % 16 <= 9 && b / 64 <= 1 && b % 64 < 58
  {}

  lemma SpelledInSegment(ix: seq<nat>)
    requires Sextets(ix) && forall x | x in ix :: x < 62
    ensures forall i | 0 <= i < |ix| :: InSegment(Spell(ix)[i])
  {
    hide Letter;
    forall i | 0 <= i < |ix|
      ensures InSegment(Spell(ix)[i])
    {
      assert ix[i] in ix && Indices(Spell(ix))[i] == ix[i];
      IndexOfSlash(Spell(ix)[i]);
    }
  }

  lemma IndexOfSlash(c: char)
    requires IsLetter(c) && Index(c) < 62
    ensures InSegment(c)
  {}

  lemma {:induction false} LetterRunIs(s: string, rest: string)
    requires (forall i | 0 <= i < |s| :: InSegment(s[i])) && (rest == "" || !InSegment(rest[0]))
    ensures LetterRun(s + rest) == |s|
  {
    hide InSegment;
    if s == "" {
      assert s + rest == rest;
    } else {
      assert (s + rest)[1..] == s[1..] + rest;
      LetterRunIs(s[1..], rest);
    }
  }

  lemma {:induction false} PadRunIs(pad: string, rest: string)
    requires (forall i | 0 <= i < |pad| :: pad[i] == '=') && (rest == "" || rest[0] != '=')
    ensures PadRun(pad + rest) == |pad|
  {
    if pad == "" {
      assert pad + rest == rest;
    } else {
      assert (pad + rest)[1..] == pad[1..] + rest;
      PadRunIs(pad[1..], rest);
    }
  }

  predicate IsPad(pad: string) { |pad| <= 2 && forall i | 0 <= i < |pad| :: pad[i] == '=' }

  lemma SegmentHereIs(letters: string, pad: string, rest: string)
    requires letters != "" && (forall i | 0 <= i < |letters| :: InSegment(letters[i])) && IsPad(pad)
    ensures SegmentHere(MARK + (letters + (pad + ("/" + rest)))) == Some(letters + pad)
  {
    hide LetterRun, PadRun, InSegment;
    var tail := pad + ("/" + rest);
    var t := letters + tail;
    assert (MARK + t)[|MARK|..] == t && MARK <= MARK + t;
    assert !InSegment('=') && !InSegment('/') by { EndsSegment(); }
    LetterRunIs(letters, tail);
    PadRunIs(pad, "/" + rest);
    assert t[|letters|..] == tail;
    assert t[..|letters| + |pad|] == letters + pad;
  }

  lemma EndsSegment()
    ensures !InSegment('=') && !InSegment('/')
  {}

  /** The host holds no mark, so the first one is the one after it. */
  lemma {:induction false} SegmentAfterHost(k: nat, rest: string)
    requires k < |EPS_HOST|
    ensures Segment(EPS_HOST[k..|EPS_HOST| - 1] + (MARK + rest)) == Segment(MARK + rest)
    decreases |EPS_HOST| - k
  {
    hide SegmentHere;
    var s := EPS_HOST[k..|EPS_HOST| - 1] + (MARK + rest);
    if k == |EPS_HOST| - 1 {
      assert s == MARK + rest;
    } else {
      SegmentAfterHost(k + 1, rest);
      assert s[1..] == EPS_HOST[k + 1..|EPS_HOST| - 1] + (MARK + rest);
      NoMarkInHost(k, rest);
    }
  }

  lemma NoMarkInHost(k: nat, rest: string)
    requires k < |EPS_HOST| - 1
    ensures SegmentHere(EPS_HOST[k..|EPS_HOST| - 1] + (MARK + rest)).None?
  {
    hide LetterRun, PadRun;
    var s := EPS_HOST[k..|EPS_HOST| - 1] + (MARK + rest);
    assert s[0] == EPS_HOST[k];
    if EPS_HOST[k] == '/' {
      assert s[1] == EPS_HOST[k + 1];
    }
  }

  /** The URL eBay gives a picture of this size: base64 of the two sides, padded or not, in its own path segment. */
  function SizedUrl(w: string, h: string, pad: string, rest: string): string
    requires IsSide(w) && IsSide(h)
  {
    SizeIsBytes(w, h);
    EPS_HOST[..|EPS_HOST| - 1] + (MARK + (Spell(ToSextets(w + "X" + h)) + (pad + ("/" + rest))))
  }

  lemma SizeIsBytes(w: string, h: string)
    requires IsSide(w) && IsSide(h)
    ensures IsBytes(w + "X" + h) && forall i | 0 <= i < |w + "X" + h| :: SizeChar((w + "X" + h)[i])
  {}

  lemma {:induction false} ReadSizeOf(w: string, h: string)
    requires IsSide(w) && IsSide(h)
    ensures ReadSize(w + "X" + h) == Some((NatOf(w), NatOf(h)))
  {
    hide NatOf;
    var s := w + "X" + h;
    var i := FirstX(s);
    assert s[|w|] == 'X' && forall p | 0 <= p < |w| :: s[p] == w[p];
    assert s[..|w|] == w && s[|w| + 1..] == h;
  }

  predicate OneToFiveDigits(s: string) { 1 <= |s| <= 5 && forall i | 0 <= i < |s| :: '0' <= s[i] <= '9' }

  /** Every width and height of one to five digits comes back, whatever follows in the URL. */
  lemma {:induction false} SizeRecovered(w: string, h: string, pad: string, rest: string)
    requires OneToFiveDigits(w) && OneToFiveDigits(h) && IsPad(pad)
    ensures ReadEpsImageDimensions(SizedUrl(w, h, pad, rest)) == Some((NatOf(w), NatOf(h)))
  {
    assert IsSide(w) && IsSide(h);
    hide Segment, SegmentHere, Decode, ReadSize, NatOf, ToSextets, IsSide;
    var size := w + "X" + h;
    SizeIsBytes(w, h);
    SizeSextets(size);
    var letters := Spell(ToSextets(size));
    SpelledInSegment(ToSextets(size));
    SomeSextets(size);
    SegmentHereIs(letters, pad, rest);
    var tail := letters + (pad + ("/" + rest));
    SegmentAfterHost(0, tail);
    SegmentAtMark(tail);
    DecodeEncode(size, pad);
    ReadSizeOf(w, h);
    HostOfUrl(tail);
  }

  lemma {:induction false} SomeSextets(s: string)
    requires IsBytes(s) && s != ""
    ensures ToSextets(s) != []
  {}

  lemma {:induction false} SegmentAtMark(tail: string)
    ensures SegmentHere(MARK + tail).Some? ==> Segment(MARK + tail) == SegmentHere(MARK + tail)
  {}

  lemma HostOfUrl(tail: string)
    ensures IsEpsImageUrl(EPS_HOST[..|EPS_HOST| - 1] + (MARK + tail))
    ensures EPS_HOST[0..|EPS_HOST| - 1] == EPS_HOST[..|EPS_HOST| - 1]
  {
    var url := EPS_HOST[..|EPS_HOST| - 1] + (MARK + tail);
    assert url[|EPS_HOST| - 1] == '/' == EPS_HOST[|EPS_HOST| - 1];
  }

  /** So a sized picture is left out exactly when its longer side is under the minimum. */
  lemma {:induction false} SmallIsJudgedRight(w: string, h: string, pad: string, rest: string)
    requires OneToFiveDigits(w) && OneToFiveDigits(h) && IsPad(pad)
    ensures IsBelowPicturePolicy(SizedUrl(w, h, pad, rest)) <==> NatOf(w) < 500 && NatOf(h) < 500
  {
    hide ReadEpsImageDimensions, SizedUrl;
    SizeRecovered(w, h, pad, rest);
  }

  // --- the gallery ---------------------------------------------------------------------------

  lemma {:induction false} LargeMeans(urls: seq<string>, u: string)
    ensures multiset(Large(urls))[u] == if IsBelowPicturePolicy(u) then 0 else multiset(urls)[u]
  {
    hide IsBelowPicturePolicy;
    if urls == [] {
    } else {
      LargeMeans(urls[1..], u);
      assert urls == [urls[0]] + urls[1..];
    }
  }

  /** What is kept stays in order: leaving out works on the parts of a gallery as on the whole. */
  lemma {:induction false} LargeInOrder(a: seq<string>, b: seq<string>)
    ensures Large(a + b) == Large(a) + Large(b)
  {
    hide IsBelowPicturePolicy, Large;
    if a == [] {
      LargeNone();
      assert a + b == b && [] + Large(b) == Large(b);
    } else {
      LargeInOrder(a[1..], b);
      LargeFirst(a);
      LargeFirst(a + b);
      assert (a + b)[1..] == a[1..] + b && (a + b)[0] == a[0];
      var first := if IsBelowPicturePolicy(a[0]) then [] else [a[0]];
      assert first + (Large(a[1..]) + Large(b)) == (first + Large(a[1..])) + Large(b);
    }
  }

  lemma LargeNone()
    ensures Large([]) == []
  {}

  lemma {:induction false} LargeFirst(urls: seq<string>)
    requires urls != []
    ensures Large(urls) == (if IsBelowPicturePolicy(urls[0]) then [] else [urls[0]]) + Large(urls[1..])
  {
    hide IsBelowPicturePolicy;
  }

  /** Never emptied: unless all pictures are small, exactly the small ones go, as often as they occur. */
  lemma GalleryNeverEmptied(sources: seq<string>, eps: map<string, string>, u: string)
    ensures var gallery, r := Gallery(sources, eps), ResolveGalleryUrls(sources, eps);
            && (r == [] <==> sources == [])
            && ((forall i | 0 <= i < |gallery| :: IsBelowPicturePolicy(gallery[i])) ==> r == gallery)
            && ((exists i :: 0 <= i < |gallery| && !IsBelowPicturePolicy(gallery[i])) ==>
                  multiset(r)[u] == if IsBelowPicturePolicy(u) then 0 else multiset(gallery)[u])
  {
    hide IsBelowPicturePolicy, Large;
    var gallery := Gallery(sources, eps);
    LargeMeans(gallery, u);
    forall i | 0 <= i < |gallery|
      ensures !IsBelowPicturePolicy(gallery[i]) ==> Large(gallery) != []
    {
      LargeMeans(gallery, gallery[i]);
      assert gallery[i] in multiset(gallery);
    }
    if Large(gallery) != [] {
      LargeMeans(gallery, Large(gallery)[0]);
      assert Large(gallery)[0] in multiset(Large(gallery));
      assert Large(gallery)[0] in multiset(gallery);
    }
  }

  // --- in plain text --------------------------------------------------------------------------

  /** Where such a URL points. */
  lemma {:induction false} SizedUrlText(w: string, h: string, pad: string, rest: string)
    requires IsSide(w) && IsSide(h)
    ensures IsBytes(w + "X" + h)
    ensures SizedUrl(w, h, pad, rest)
         == "https://i.ebayimg.com/00/s/" + (Spell(ToSextets(w + "X" + h)) + (pad + ("/" + rest)))
  {
    SizeIsBytes(w, h);
    var tail := Spell(ToSextets(w + "X" + h)) + (pad + ("/" + rest));
    assert EPS_HOST[..|EPS_HOST| - 1] + (MARK + tail) == "https://i.ebayimg.com/00/s/" + tail;
  }

  /** 269 by 331, as eBay writes it. */
  lemma {:induction false} WrittenSize()
    ensures IsBytes("269X331") && Spell(ToSextets("269X331")) == "MjY5WDMzMQ"
  {
    WrittenSextets();
    hide ToSextets, Letter;
    LettersOfSize();
  }

  lemma {:induction false} WrittenSextets()
    ensures IsBytes("269X331") && ToSextets("269X331") == [12, 35, 24, 57, 22, 3, 12, 51, 12, 16]
  {
    OneGroup("269", "X331");
    OneGroup("X33", "1");
    LastByte();
    hide ToSextets;
    assert "269X331" == "269" + "X331" && "X331" == "X33" + "1";
  }

  lemma LastByte()
    ensures ToSextets("1") == [12, 16]
  {}

  lemma {:induction false} OneGroup(s: string, rest: string)
    requires |s| == 3 && IsBytes(s) && IsBytes(rest)
    ensures IsBytes(s + rest)
    ensures var a, b, c := s[0] as int, s[1] as int, s[2] as int;
            ToSextets(s + rest)
            == [a / 4, a % 4 * 16 + b / 16, b % 16 * 4 + c / 64, c % 64] + ToSextets(rest)
  {
    assert (s + rest)[3..] == rest;
  }

  lemma {:induction false} LettersOfSize()
    ensures Spell([12, 35, 24, 57, 22, 3, 12, 51, 12, 16]) == "MjY5WDMzMQ"
  {
  }

  /** Only pictures on eBay's own host are judged: the size of any other is unknown, never small. */
  lemma OthersAreKept(url: string)
    requires !("https://i.ebayimg.com/" <= url)
    ensures ReadEpsImageDimensions(url) == None && !IsBelowPicturePolicy(url)
  {
  }

  /** The picture shown for a source: eBay's copy of it if there is one, itself if not. */
  function Shown(source: string, eps: map<string, string>): string {
    if source in eps then eps[source] else source
  }

  /** Sources in order, each at most once, so far. */
  predicate Rising(places: seq<nat>, n: nat) {
    && (forall k | 0 <= k < |places| :: places[k] < n)
    && forall j, k | 0 <= j < k < |places| :: places[j] < places[k]
  }

  /** The places among the first `n` whose pictures are kept. */
  function Kept(urls: seq<string>, n: nat): seq<nat>
    requires n <= |urls|
  {
    if n == 0 then [] else Kept(urls, n - 1) + if IsBelowPicturePolicy(urls[n - 1]) then [] else [n - 1]
  }

  lemma RisesMore(places: seq<nat>, n: nat)
    requires Rising(places, n)
    ensures Rising(places, n + 1) && Rising(places + [n], n + 1)
  {
  }

  lemma {:induction false} KeptRises(urls: seq<string>, n: nat)
    requires n <= |urls|
    ensures Rising(Kept(urls, n), n)
  {
    hide IsBelowPicturePolicy;
    if n == 0 {
    } else {
      KeptRises(urls, n - 1);
      RisesMore(Kept(urls, n - 1), n - 1);
      hide Rising;
      assert Kept(urls, n - 1) + [] == Kept(urls, n - 1);
    }
  }

  lemma {:induction false} KeptMeans(urls: seq<string>, n: nat, i: nat)
    requires n <= |urls|
    ensures i in Kept(urls, n) <==> i < n && !IsBelowPicturePolicy(urls[i])
  {
    hide IsBelowPicturePolicy;
    if n == 0 {
    } else {
      KeptMeans(urls, n - 1, i);
    }
  }

  /** These pictures are the ones at these places. */
  predicate StandAt(urls: seq<string>, pictures: seq<string>, places: seq<nat>) {
    |pictures| == |places| && forall k | 0 <= k < |places| :: places[k] < |urls| && pictures[k] == urls[places[k]]
  }

  lemma StandsToo(urls: seq<string>, pictures: seq<string>, places: seq<nat>, i: nat)
    requires StandAt(urls, pictures, places) && i < |urls|
    ensures StandAt(urls, pictures + [urls[i]], places + [i])
  {
  }

  lemma {:induction false} LargeIsKept(urls: seq<string>, n: nat)
    requires n <= |urls|
    ensures StandAt(urls, Large(urls[..n]), Kept(urls, n))
  {
    hide IsBelowPicturePolicy;
    if n == 0 {
    } else {
      LargeIsKept(urls, n - 1);
      assert urls[..n] == urls[..n - 1] + [urls[n - 1]];
      LargeInOrder(urls[..n - 1], [urls[n - 1]]);
      LargeOne(urls[n - 1]);
      StandsToo(urls, Large(urls[..n - 1]), Kept(urls, n - 1), n - 1);
      hide Large, StandAt;
      assert Large(urls[..n - 1]) + [] == Large(urls[..n - 1]) && Kept(urls, n - 1) + [] == Kept(urls, n - 1);
    }
  }

  lemma {:induction false} LargeOne(u: string)
    ensures Large([u]) == if IsBelowPicturePolicy(u) then [] else [u]
  {
    hide IsBelowPicturePolicy;
    assert [u][1..] == [];
  }

  /**
   The gallery shows its sources in order, each as eBay's copy where there is one. Left out are exactly the pictures
   known to be small, unless that leaves none: then all are shown.
   */
  lemma GalleryShows(sources: seq<string>, eps: map<string, string>) returns (places: seq<nat>)
    ensures var r := ResolveGalleryUrls(sources, eps);
            && Rising(places, |sources|) && |r| == |places|
            && (forall k | 0 <= k < |places| :: r[k] == Shown(sources[places[k]], eps))
            && forall i: nat | i < |sources| ::
                 i in places <==> !IsBelowPicturePolicy(Shown(sources[i], eps))
                                  || forall j | 0 <= j < |sources| :: IsBelowPicturePolicy(Shown(sources[j], eps))
  {
    hide IsBelowPicturePolicy, Large, Kept;
    var gallery := Gallery(sources, eps);
    places := Kept(gallery, |gallery|);
    KeptRises(gallery, |gallery|);
    forall i: nat { KeptMeans(gallery, |gallery|, i); }
    LargeIsKept(gallery, |gallery|);
    assert gallery[..|gallery|] == gallery;
    assert forall i | 0 <= i < |sources| :: gallery[i] == Shown(sources[i], eps);
    if places == [] {
      assert Large(gallery) == [];
      forall j: nat | j < |sources| ensures IsBelowPicturePolicy(Shown(sources[j], eps)) {
        assert j !in places;
      }
      places := seq(|sources|, i requires 0 <= i < |sources| => i);
      assert forall i: nat | i < |sources| :: places[i] == i;
    } else {
      assert places[0] in places;
    }
  }
}
