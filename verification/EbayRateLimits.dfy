/** Reading eBay's rate-limit answer: which windows govern which resource. */
module EbayRateLimits {
  import opened Options

  datatype Resource =
    | Inventory | Taxonomy | Account | Fulfillment | Feed | Analytics | Message | Notification
    | PostOrderReturn | PostOrderCancellation | Marketing | MarketingAds | Finances | Metadata
    | TradingGetMyEbaySelling | TradingEndItem

  /** A reported window: its limit, what is left of it, and its length. */
  datatype Window = Window(limit: real, remaining: real, seconds: nat)

  datatype Entry = Entry(apiContext: string, apiName: string, resourceName: string, windows: seq<Window>)

  datatype MappedLimit = MappedLimit(daily: Option<Window>, shortWindows: seq<Window>)

  datatype Source = Source(trading: bool, name: string)

  const DAILY_WINDOW_MIN_SECONDS := 86_400

  const ALL_RESOURCES := [
    Inventory, Taxonomy, Account, Fulfillment, Feed, Analytics, Message, Notification,
    PostOrderReturn, PostOrderCancellation, Marketing, MarketingAds, Finances, Metadata,
    TradingGetMyEbaySelling, TradingEndItem]

  function SourceOf(r: Resource): Source {
    match r
    case Inventory => Source(false, "sell.inventory")
    case Taxonomy => Source(false, "commerce.taxonomy")
    case Account => Source(false, "sell.account")
    case Fulfillment => Source(false, "sell.fulfillment")
    case Feed => Source(false, "sell.feed")
    case Analytics => Source(false, "developer.analytics.app_rate_limit")
    case Message => Source(false, "commerce.message")
    case Notification => Source(false, "commerce.notification")
    case PostOrderReturn => Source(false, "post-order.return")
    case PostOrderCancellation => Source(false, "post-order.cancellation")
    case Marketing => Source(false, "sell.marketing")
    case MarketingAds => Source(false, "sell.marketing.ads.campaign")
    case Finances => Source(false, "payoutapi.sell.finances")
    case Metadata => Source(false, "sell.metadata")
    case TradingGetMyEbaySelling => Source(true, "GetMyeBaySelling")
    case TradingEndItem => Source(true, "EndItem")
  }

  function Lower(s: string): string {
    if s == "" then ""
    else [if 'A' <= s[0] <= 'Z' then s[0] - 'A' + 'a' else s[0]] + Lower(s[1..])
  }

  predicate Contains(s: string, part: string) {
    part <= s || (s != "" && Contains(s[1..], part))
  }

  predicate IsTrading(e: Entry) {
    Contains(Lower(e.apiContext), "trading") || Contains(Lower(e.apiName), "trading")
  }

  predicate Claims(r: Resource, e: Entry) {
    e.resourceName == SourceOf(r).name && IsTrading(e) == SourceOf(r).trading
  }

  predicate IsDaily(w: Window) { w.seconds >= DAILY_WINDOW_MIN_SECONDS }

  // --- picking windows ----------------------------------------------------------------

  /** The first of the lowest-limit windows of a day or more. */
  ghost predicate IsDailyPick(windows: seq<Window>, r: Option<Window>) {
    match r
    case None => forall w | w in windows :: !IsDaily(w)
    case Some(best) =>
      exists i: nat :: i < |windows| && windows[i] == best && IsDaily(best)
        && (forall w | w in windows && IsDaily(w) :: best.limit <= w.limit)
        && (forall w | w in windows[..i] && IsDaily(w) :: best.limit < w.limit)
  }

  method PickDailyWindow(windows: seq<Window>) returns (best: Option<Window>)
    ensures IsDailyPick(windows, best)
  {
    best := None;
    ghost var at: nat := 0;
    for n := 0 to |windows|
      invariant best.None? ==> forall w | w in windows[..n] :: !IsDaily(w)
      invariant best.Some? ==>
          && at < n && windows[at] == best.value && IsDaily(best.value)
          && (forall w | w in windows[..n] && IsDaily(w) :: best.value.limit <= w.limit)
          && (forall w | w in windows[..at] && IsDaily(w) :: best.value.limit < w.limit)
    {
      assert windows[..n + 1] == windows[..n] + [windows[n]];
      if IsDaily(windows[n]) && (best.None? || windows[n].limit < best.value.limit) {
        best, at := Some(windows[n]), n;
      }
    }
    assert windows[..|windows|] == windows;
  }

  predicate Ascending(windows: seq<Window>) {
    forall i, j | 0 <= i < j < |windows| :: windows[i].seconds < windows[j].seconds
  }

  /** Exactly one lowest-limit window per sub-daily length, by length. */
  ghost predicate IsShortPick(windows: seq<Window>, r: seq<Window>) {
    && Ascending(r)
    && (forall w | w in r :: w in windows && !IsDaily(w))
    && (forall w | w in windows && !IsDaily(w) :: exists x :: x in r && x.seconds == w.seconds && x.limit <= w.limit)
  }

  function Insert(w: Window, sorted: seq<Window>): seq<Window> {
    if sorted == [] || w.seconds <= sorted[0].seconds then [w] + sorted
    else [sorted[0]] + Insert(w, sorted[1..])
  }

  lemma {:induction false} InsertAscends(w: Window, sorted: seq<Window>)
    requires Ascending(sorted) && forall x | x in sorted :: x.seconds != w.seconds
    ensures Ascending(Insert(w, sorted))
    ensures forall x :: x in Insert(w, sorted) <==> x == w || x in sorted
  {
    if sorted != [] && w.seconds > sorted[0].seconds {
      var rest := Insert(w, sorted[1..]);
      InsertAscends(w, sorted[1..]);
      assert sorted == [sorted[0]] + sorted[1..];
      forall i | 0 <= i < |rest| ensures sorted[0].seconds < rest[i].seconds {
        assert rest[i] in rest;
      }
    } else {
      assert forall i | 0 <= i < |sorted| :: sorted[i] in sorted;
      if sorted != [] { assert sorted[0] in sorted; }
    }
  }

  method PickShortWindows(windows: seq<Window>) returns (picked: seq<Window>)
    ensures IsShortPick(windows, picked)
  {
    var byLength: map<nat, Window> := map[];
    for n := 0 to |windows|
      invariant forall k | k in byLength ::
          byLength[k].seconds == k && byLength[k] in windows && !IsDaily(byLength[k])
      invariant forall w | w in windows[..n] && !IsDaily(w) ::
          w.seconds in byLength && byLength[w.seconds].limit <= w.limit
    {
      assert windows[..n + 1] == windows[..n] + [windows[n]];
      var w := windows[n];
      if !IsDaily(w) && (w.seconds !in byLength || w.limit < byLength[w.seconds].limit) {
        byLength := byLength[w.seconds := w];
      }
    }
    assert windows[..|windows|] == windows;
    picked := [];
    var left := byLength.Keys;
    while left != {}
      invariant left <= byLength.Keys && Ascending(picked)
      invariant forall x | x in picked :: x.seconds in byLength && x == byLength[x.seconds] && x.seconds !in left
      invariant forall k | k in byLength && k !in left :: byLength[k] in picked
      decreases left
    {
      var k :| k in left;
      InsertAscends(byLength[k], picked);
      picked := Insert(byLength[k], picked);
      left := left - {k};
    }
    forall w | w in windows && !IsDaily(w)
      ensures exists x :: x in picked && x.seconds == w.seconds && x.limit <= w.limit
    {
      assert byLength[w.seconds] in picked;
    }
  }

  // --- mapping entries to resources -----------------------------------------------------------

  function WindowsOf(entries: seq<Entry>, r: Resource): seq<Window> {
    if entries == [] then []
    else (if Claims(r, entries[0]) then entries[0].windows else []) + WindowsOf(entries[1..], r)
  }

  lemma {:induction false} WindowsOfMember(entries: seq<Entry>, r: Resource, e: Entry, w: Window)
    requires e in entries && Claims(r, e) && w in e.windows
    ensures w in WindowsOf(entries, r)
  {
    if e == entries[0] {
    } else {
      WindowsOfMember(entries[1..], r, e, w);
    }
  }

  ghost predicate IsMapping(entries: seq<Entry>, r: Resource, m: Option<MappedLimit>) {
    var windows := WindowsOf(entries, r);
    match m
    case None => windows == []
    case Some(limit) =>
      && windows != []
      && IsDailyPick(windows, limit.daily) && IsShortPick(windows, limit.shortWindows)
      && (limit.daily.Some? || limit.shortWindows != [])
  }

  /** `word` stands in the text somewhere, in capitals or not; `capitals` is the word in capitals. */
  ghost predicate Says(s: string, word: string, capitals: string)
    requires |word| == |capitals|
  {
    exists i: nat :: SaysAt(s, i, word, capitals)
  }

  predicate SaysAt(s: string, i: nat, word: string, capitals: string)
    requires |word| == |capitals|
  {
    i + |word| <= |s| && forall k | 0 <= k < |word| :: s[i + k] == word[k] || s[i + k] == capitals[k]
  }

  lemma {:induction false} LowerAt(s: string)
    ensures |Lower(s)| == |s|
    ensures forall i | 0 <= i < |s| :: Lower(s)[i] == if 'A' <= s[i] <= 'Z' then s[i] - 'A' + 'a' else s[i]
  {
    if s == "" {
    } else {
      LowerAt(s[1..]);
    }
  }

  predicate Here(s: string, part: string, i: nat) { i + |part| <= |s| && s[i..i + |part|] == part }

  lemma {:induction false} FoundHere(s: string, part: string) returns (i: nat)
    requires Contains(s, part)
    ensures Here(s, part, i)
  {
    if part <= s {
      i := 0;
    } else {
      var k := FoundHere(s[1..], part);
      OneFurther(s, k, |part|);
      i := k + 1;
    }
  }

  lemma {:induction false} HereIsFound(s: string, part: string, i: nat)
    requires Here(s, part, i)
    ensures Contains(s, part)
    decreases i
  {
    if i == 0 {
      assert s[0..0 + |part|] == s[..|part|];
    } else if s == "" {
    } else {
      OneFurther(s, i - 1, |part|);
      HereIsFound(s[1..], part, i - 1);
    }
  }

  lemma OneFurther(s: string, i: nat, n: nat)
    requires s != "" && i + n <= |s[1..]|
    ensures s[1..][i..i + n] == s[i + 1..i + 1 + n]
  {}

  lemma {:induction false} TradingIsSaid(s: string)
    ensures Contains(Lower(s), "trading") <==> Says(s, "trading", "TRADING")
  {
    LowerAt(s);
    hide Lower, Contains;
    forall i: nat ensures Here(Lower(s), "trading", i) <==> SaysAt(s, i, "trading", "TRADING") {
      if i + 7 <= |s| { SevenLetters(s, Lower(s), i); }
    }
    hide Here, SaysAt;
    if Contains(Lower(s), "trading") {
      var i := FoundHere(Lower(s), "trading");
    }
    if i: nat :| SaysAt(s, i, "trading", "TRADING") {
      HereIsFound(Lower(s), "trading", i);
    }
  }

  lemma SevenLetters(s: string, low: string, i: nat)
    requires |low| == |s| && i + 7 <= |s|
    requires forall k | 0 <= k < |s| :: low[k] == if 'A' <= s[k] <= 'Z' then s[k] - 'A' + 'a' else s[k]
    ensures low[i..i + 7] == "trading" <==> SaysAt(s, i, "trading", "TRADING")
  {
    forall k | 0 <= k < 7 ensures low[i + k] == "trading"[k] <==> s[i + k] == "trading"[k] || s[i + k] == "TRADING"[k] {
      LetterEither(s[i + k], "trading"[k], "TRADING"[k]);
    }
    assert low[i..i + 7] == "trading" <==> forall k | 0 <= k < 7 :: low[i + k] == "trading"[k];
  }

  lemma LetterEither(c: char, small: char, capital: char)
    requires 'a' <= small <= 'z' && capital as int == small as int - 32
    ensures (if 'A' <= c <= 'Z' then c - 'A' + 'a' else c) == small <==> c == small || c == capital
  {}

  /**
   An entry governs a resource exactly when it has the name eBay uses for it and says "trading", in capitals or not,
   in its context or its API just when the resource is one of the two Trading calls.
   */
  lemma {:induction false} ClaimMeans(r: Resource, e: Entry)
    ensures Claims(r, e) <==>
              && e.resourceName == (match r
                                    case Inventory => "sell.inventory"
                                    case Taxonomy => "commerce.taxonomy"
                                    case Account => "sell.account"
                                    case Fulfillment => "sell.fulfillment"
                                    case Feed => "sell.feed"
                                    case Analytics => "developer.analytics.app_rate_limit"
                                    case Message => "commerce.message"
                                    case Notification => "commerce.notification"
                                    case PostOrderReturn => "post-order.return"
                                    case PostOrderCancellation => "post-order.cancellation"
                                    case Marketing => "sell.marketing"
                                    case MarketingAds => "sell.marketing.ads.campaign"
                                    case Finances => "payoutapi.sell.finances"
                                    case Metadata => "sell.metadata"
                                    case TradingGetMyEbaySelling => "GetMyeBaySelling"
                                    case TradingEndItem => "EndItem")
              && ((r.TradingGetMyEbaySelling? || r.TradingEndItem?) <==>
                    Says(e.apiContext, "trading", "TRADING") || Says(e.apiName, "trading", "TRADING"))
  {
    TradingIsSaid(e.apiContext);
    TradingIsSaid(e.apiName);
    hide Contains, Lower, Says;
  }

  /** No two governed resources read the same (Trading, name) pair, so an entry has at most one claimant. */
  lemma OneClaimant(a: Resource, b: Resource, e: Entry)
    requires Claims(a, e) && Claims(b, e)
    ensures a == b
  {
    NamesDistinct(a, b);
  }

  lemma NamesDistinct(a: Resource, b: Resource)
    requires SourceOf(a).name == SourceOf(b).name
    ensures a == b
  {
    LengthsAndFirsts(a);
    LengthsAndFirsts(b);
  }

  /** The names differ already in length or in their sixth or last letter. */
  lemma LengthsAndFirsts(r: Resource)
    ensures |SourceOf(r).name| >= 7
    ensures Fingerprint(SourceOf(r).name) == match r
            case Inventory => (14, 'i', 'y')
            case Taxonomy => (17, 'r', 'y')
            case Account => (12, 'a', 't')
            case Fulfillment => (16, 'f', 't')
            case Feed => (9, 'f', 'd')
            case Analytics => (34, 'o', 't')
            case Message => (16, 'r', 'e')
            case Notification => (21, 'r', 'n')
            case PostOrderReturn => (17, 'o', 'n')
            case PostOrderCancellation => (23, 'o', 'n')
            case Marketing => (14, 'm', 'g')
            case MarketingAds => (27, 'm', 'n')
            case Finances => (23, 't', 's')
            case Metadata => (13, 'm', 'a')
            case TradingGetMyEbaySelling => (16, 'e', 'g')
            case TradingEndItem => (7, 'e', 'm')
  {
  }

  function Fingerprint(s: string): (nat, char, char)
    requires |s| >= 7
  {
    (|s|, s[5], s[|s| - 1])
  }

  lemma EveryResourceListed(r: Resource)
    ensures r in ALL_RESOURCES
  {
  }

  method MapOne(entries: seq<Entry>, r: Resource) returns (m: Option<MappedLimit>)
    ensures IsMapping(entries, r, m)
  {
    hide Claims, WindowsOf, Ascending, IsDailyPick, IsShortPick;
    var windows := WindowsOf(entries, r);
    var daily := PickDailyWindow(windows);
    var short := PickShortWindows(windows);
    PicksEmptyIff(windows, daily, short);
    m := if daily.None? && short == [] then None else Some(MappedLimit(daily, short));
  }

  /** Nothing is picked exactly when nothing was reported. */
  lemma PicksEmptyIff(windows: seq<Window>, daily: Option<Window>, short: seq<Window>)
    requires IsDailyPick(windows, daily) && IsShortPick(windows, short)
    ensures daily.None? && short == [] <==> windows == []
  {
    PickedIsReported(windows, daily, short);
    if windows != [] { ReportedIsPicked(windows, daily, short, windows[0]); }
  }

  lemma PickedIsReported(windows: seq<Window>, daily: Option<Window>, short: seq<Window>)
    requires IsDailyPick(windows, daily) && IsShortPick(windows, short)
    ensures daily.Some? || short != [] ==> windows != []
  {
    hide IsDaily, Ascending;
    if short != [] { assert short[0] in short; }
  }

  lemma ReportedIsPicked(windows: seq<Window>, daily: Option<Window>, short: seq<Window>, w: Window)
    requires IsDailyPick(windows, daily) && IsShortPick(windows, short) && w in windows
    ensures daily.Some? || short != []
  {
    if IsDaily(w) {
      hide IsShortPick, IsDaily;
    } else {
      hide IsDailyPick, IsDaily, Ascending;
    }
  }

  /** The indices claimed by one of the first `n` resources. */
  ghost predicate UsedBy(entries: seq<Entry>, used: set<nat>, n: nat)
    requires n <= |ALL_RESOURCES|
  {
    forall i: nat :: i in used <==> i < |entries| && exists k: nat :: k < n && Claims(ALL_RESOURCES[k], entries[i])
  }

  /**
   `mapRateLimits`: each resource's windows come from the entries it claims, and the unmapped list
   is exactly the entries nobody claims, in order.
   */
  method MapRateLimits(entries: seq<Entry>)
    returns (byResource: map<Resource, Option<MappedLimit>>, unmapped: seq<Entry>)
    ensures forall r :: r in byResource && IsMapping(entries, r, byResource[r])
    ensures unmapped == Unclaimed(entries)
  {
    var used: set<nat> := {};
    byResource := map[];
    hide IsMapping, Claims, Unclaimed;
    for n := 0 to |ALL_RESOURCES|
      invariant forall k | 0 <= k < n :: ALL_RESOURCES[k] in byResource
      invariant forall r | r in byResource :: IsMapping(entries, r, byResource[r])
      invariant UsedBy(entries, used, n)
    {
      used := used + set i: nat | i < |entries| && Claims(ALL_RESOURCES[n], entries[i]);
      var m := MapOne(entries, ALL_RESOURCES[n]);
      byResource := byResource[ALL_RESOURCES[n] := m];
    }
    forall r: Resource ensures r in byResource {
      EveryResourceListed(r);
    }
    unmapped := ListUnused(entries, used);
  }

  method ListUnused(entries: seq<Entry>, used: set<nat>) returns (unmapped: seq<Entry>)
    requires UsedBy(entries, used, |ALL_RESOURCES|)
    ensures unmapped == Unclaimed(entries)
  {
    hide Claims, Claimed, UsedBy;
    unmapped := [];
    for i := 0 to |entries|
      invariant unmapped + Unclaimed(entries[i..]) == Unclaimed(entries)
    {
      assert entries[i..][0] == entries[i] && entries[i..][1..] == entries[i + 1..];
      UsedIsClaimed(entries, used, i);
      if i !in used {
        unmapped := unmapped + [entries[i]];
      }
    }
    assert Unclaimed([]) == [] && entries[|entries|..] == [];
  }

  lemma UsedIsClaimed(entries: seq<Entry>, used: set<nat>, i: nat)
    requires i < |entries| && UsedBy(entries, used, |ALL_RESOURCES|)
    ensures i in used <==> Claimed(entries[i])
  {
    if Claimed(entries[i]) {
      var r :| Claims(r, entries[i]);
      EveryResourceListed(r);
      var k :| 0 <= k < |ALL_RESOURCES| && ALL_RESOURCES[k] == r;
    }
  }

  ghost predicate Claimed(e: Entry) {
    exists r :: Claims(r, e)
  }

  ghost function Unclaimed(entries: seq<Entry>): seq<Entry> {
    if entries == [] then []
    else (if Claimed(entries[0]) then [] else [entries[0]]) + Unclaimed(entries[1..])
  }

  /** Every entry is listed as unmapped or is claimed by exactly one resource, never both. */
  lemma {:induction false} MappedOrListed(entries: seq<Entry>, e: Entry)
    requires e in entries
    ensures e in Unclaimed(entries) <==> !Claimed(e)
    ensures Claimed(e) ==> exists r :: Claims(r, e) && forall q | Claims(q, e) :: q == r
  {
    if Claimed(e) {
      var r :| Claims(r, e);
      forall q | Claims(q, e) ensures q == r { OneClaimant(q, r, e); }
    }
    UnclaimedMember(entries, e);
  }

  lemma {:induction false} UnclaimedMember(entries: seq<Entry>, e: Entry)
    ensures e in Unclaimed(entries) <==> e in entries && !Claimed(e)
  {
    if entries == [] {
    } else {
      UnclaimedMember(entries[1..], e);
      assert entries == [entries[0]] + entries[1..];
    }
  }

  /**
   Each window eBay reports for a resource is governed: a short one by a counter of its own length, a long one by
   the daily counter, neither looser.
   */
  lemma EveryWindowGoverned(entries: seq<Entry>, r: Resource, m: Option<MappedLimit>, e: Entry, w: Window)
    requires IsMapping(entries, r, m) && e in entries && Claims(r, e) && w in e.windows
    ensures m.Some?
    ensures w.seconds >= 86_400 ==> m.value.daily.Some? && m.value.daily.value.limit <= w.limit
    ensures w.seconds < 86_400 ==> exists x :: x in m.value.shortWindows && x.seconds == w.seconds && x.limit <= w.limit
  {
    WindowsOfMember(entries, r, e, w);
  }
}
