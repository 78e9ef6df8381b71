/**
 The listing template engine, on strings: JavaScript's replacement strings, the regular
 expressions it uses as scanners, and the loops that rewrite the page.
 */
module ListingTemplate {
  import opened Options
  import opened Strings

  datatype Value = Undefined | Null | Str(s: string) | Num(text: string, isNaN: bool) | List(items: seq<string>)

  type Context = map<string, Value>

  const GUARD: nat := 100

  const ALIASES := map[
    "description" := "product_description",
    "product_title" := "title",
    "features" := "feature_bullets",
    "specs" := "product_details",
    "image" := "main_image",
    "main_image_url" := "main_image"]

  // --- values -----------------------------------------------------------------------

  function EscapeChar(c: char): string {
    if c == '&' then "&amp;"
    else if c == '<' then "&lt;"
    else if c == '>' then "&gt;"
    else if c == '"' then "&quot;"
    else if c == '\'' then "&#x27;"
    else [c]
  }

  function EscapeHtml(s: string): string {
    if s == "" then "" else EscapeChar(s[0]) + EscapeHtml(s[1..])
  }

  function Display(v: Value): string {
    match v
    case Undefined => ""
    case Null => ""
    case Str(s) => s
    case Num(text, _) => text
    case List(items) => Join(items, ", ")
  }

  predicate IsEmpty(v: Value) {
    match v
    case Undefined => true
    case Null => true
    case Str(s) => IsBlank(s)
    case Num(_, isNaN) => isNaN
    case List(items) => items == []
  }

  function Resolve(ctx: Context, key: string): Value {
    if key in ctx then ctx[key]
    else if key in ALIASES && ALIASES[key] in ctx then ctx[ALIASES[key]]
    else Undefined
  }

  function ListItems(items: seq<string>): string {
    if items == [] then "" else "<li>" + EscapeHtml(items[0]) + "</li>" + ListItems(items[1..])
  }

  /** What `{{key}}` shows: escaped text, or a list as `<ul>`. */
  function VarText(v: Value): string {
    match v
    case List(items) => if items == [] then "" else "<ul>" + ListItems(items) + "</ul>"
    case _ => EscapeHtml(Display(v))
  }

  /** What `{{{key}}}` shows. */
  function RawText(v: Value): string {
    match v
    case List(items) => Join(items, "\n")
    case _ => Display(v)
  }

  // --- JavaScript replacement strings ----------------------------------------------------

  /**
   The ECMAScript replacement-string expansion for a pattern without groups: `$$`, `$&`, `` $` `` and `$'`.
   A section item goes through it because it is passed to `replace` as a string.
   */
  function JsExpand(r: string, matched: string, before: string, after: string): string {
    if |r| < 2 then r
    else if r[0] == '$' && r[1] == '$' then "$" + JsExpand(r[2..], matched, before, after)
    else if r[0] == '$' && r[1] == '&' then matched + JsExpand(r[2..], matched, before, after)
    else if r[0] == '$' && r[1] == '`' then before + JsExpand(r[2..], matched, before, after)
    else if r[0] == '$' && r[1] == '\'' then after + JsExpand(r[2..], matched, before, after)
    else [r[0]] + JsExpand(r[1..], matched, before, after)
  }

  // --- the regular expressions ------------------------------------------------------------

  /** `[\w.]`. */
  predicate IsNameChar(c: char) {
    'a' <= c <= 'z' || 'A' <= c <= 'Z' || '0' <= c <= '9' || c == '_' || c == '.'
  }

  /** `\s*`. */
  function Spaces(s: string): (n: nat)
    ensures n <= |s|
  {
    if s == "" || !IsSpace(s[0]) then 0 else 1 + Spaces(s[1..])
  }

  /** `[\w.]*`. */
  function NameRun(s: string): (n: nat)
    ensures n <= |s|
  {
    if s == "" || !IsNameChar(s[0]) then 0 else 1 + NameRun(s[1..])
  }

  /** `[^{}]*`. */
  function BraceFreeRun(s: string): (n: nat)
    ensures n <= |s|
  {
    if s == "" || s[0] == '{' || s[0] == '}' then 0 else 1 + BraceFreeRun(s[1..])
  }

  /** `open \s* key \s* close` at the start: its length, or 0. */
  function KeyedLength(s: string, open: string, key: string, close: string): (n: nat)
    ensures n <= |s|
  {
    if open <= s then
      var t := s[|open|..];
      var n := Spaces(t);
      if key <= t[n..] then
        var u := t[n..][|key|..];
        var m := Spaces(u);
        if close <= u[m..] then |open| + n + |key| + m + |close| else 0
      else 0
    else 0
  }

  /** `open [^{}]* close` at the start: its length, or 0. */
  function BracedLength(s: string, open: string, close: string): (n: nat)
    ensures n <= |s|
  {
    if open <= s then
      var n := |open| + BraceFreeRun(s[|open|..]);
      if close <= s[n..] then n + |close| else 0
    else 0
  }

  /** A tag: its length and the name in it. */
  datatype Tag = Tag(length: nat, name: string)

  /** `open \s* [\w.]+ \s* }}` at the start. */
  function NamedTag(s: string, open: string): (r: Option<Tag>)
    ensures r.Some? ==> 2 <= r.value.length <= |s|
  {
    if open <= s then
      var t := s[|open|..];
      var n := Spaces(t);
      var k := NameRun(t[n..]);
      var u := t[n..][k..];
      var m := Spaces(u);
      if k > 0 && "}}" <= u[m..] then Some(Tag(|open| + n + k + m + 2, t[n..][..k])) else None
    else None
  }

  function Opener(s: string): (r: Option<Tag>)
    ensures r.Some? ==> 2 <= r.value.length <= |s|
  {
    if NamedTag(s, "{{#").Some? then NamedTag(s, "{{#") else NamedTag(s, "{{^")
  }

  predicate OpenerStarts(s: string) { "{{#" <= s || "{{^" <= s }

  /** How much of a section body comes before the closer of `key`: nothing in it may look like an opener. */
  function BodyLength(s: string, key: string): (r: Option<nat>)
    ensures r.Some? ==> r.value <= |s|
  {
    if KeyedLength(s, "{{/", key, "}}") > 0 then Some(0)
    else if s == "" || OpenerStarts(s) then None
    else match BodyLength(s[1..], key)
         case None => None
         case Some(n) => Some(n + 1)
  }

  datatype Found = NotFound | Found(index: nat, length: nat, inverted: bool, key: string, body: string)

  function SectionHere(s: string): (r: Found)
    ensures r.Found? ==> r.index + r.length <= |s|
  {
    match Opener(s)
    case None => NotFound
    case Some(tag) =>
      match BodyLength(s[tag.length..], tag.name)
      case None => NotFound
      case Some(n) =>
        var end := tag.length + n;
        Found(0, end + KeyedLength(s[end..], "{{/", tag.name, "}}"), "{{^" <= s, tag.name, s[tag.length..end])
  }

  /** `sectionPattern.exec`: the leftmost match. */
  function ExecSection(s: string): (r: Found)
    ensures r.Found? ==> r.index + r.length <= |s|
  {
    if SectionHere(s).Found? then SectionHere(s)
    else if s == "" then NotFound
    else match ExecSection(s[1..])
         case NotFound => NotFound
         case Found(index, length, inverted, key, body) => Found(index + 1, length, inverted, key, body)
  }

  /** Up to and including the next closer, of whatever name; 0 if there is none. */
  function ThroughCloser(s: string): (n: nat)
    ensures n <= |s|
  {
    if NamedTag(s, "{{/").Some? then NamedTag(s, "{{/").value.length
    else if s == "" then 0
    else if ThroughCloser(s[1..]) == 0 then 0 else 1 + ThroughCloser(s[1..])
  }

  datatype Pattern =
    | Keyed(open: string, key: string, close: string)
    | Braced(open: string, close: string)
    | Closer
    | Leftover

  /** The length of a match at the start, or 0. */
  function Length(s: string, p: Pattern): (n: nat)
    ensures n <= |s|
  {
    match p
    case Keyed(open, key, close) => KeyedLength(s, open, key, close)
    case Braced(open, close) => BracedLength(s, open, close)
    case Closer => if NamedTag(s, "{{/").Some? then NamedTag(s, "{{/").value.length else 0
    case Leftover =>
      match Opener(s)
      case None => 0
      case Some(tag) =>
        var n := ThroughCloser(s[tag.length..]);
        if n == 0 then 0 else tag.length + n
  }

  /** What a match is replaced by: a function's text, or a replacement string. */
  datatype Filler = Literal(text: string) | Expanded(text: string)

  function Fill(f: Filler, matched: string, before: string, after: string): string {
    match f
    case Literal(text) => text
    case Expanded(text) => JsExpand(text, matched, before, after)
  }

  /** A global replace, left to right and never overlapping; `before` is what has been passed already. */
  function ReplaceAll(before: string, s: string, p: Pattern, f: Filler): string
    decreases |s|
  {
    if s == "" then ""
    else
      var n := Length(s, p);
      if n > 0 then Fill(f, s[..n], before, s[n..]) + ReplaceAll(before + s[..n], s[n..], p, f)
      else [s[0]] + ReplaceAll(before + [s[0]], s[1..], p, f)
  }

  // --- sections ------------------------------------------------------------------------------

  /** `renderSectionItem`. */
  function SectionItem(body: string, item: string): string {
    ReplaceAll("", ReplaceAll("", body, Keyed("{{{", ".", "}}}"), Expanded(item)),
               Keyed("{{", ".", "}}"), Expanded(EscapeHtml(item)))
  }

  function SectionItems(body: string, items: seq<string>): seq<string> {
    seq(|items|, i requires 0 <= i < |items| => SectionItem(body, items[i]))
  }

  function SectionText(inverted: bool, v: Value, body: string): string {
    if inverted then (if IsEmpty(v) then body else "")
    else if IsEmpty(v) then ""
    else if v.List? then Join(SectionItems(body, v.items), "\n")
    else SectionItem(body, Display(v))
  }

  function SectionsOnce(s: string, ctx: Context): string {
    match ExecSection(s)
    case NotFound => s
    case Found(index, length, inverted, key, body) =>
      s[..index] + SectionText(inverted, Resolve(ctx, key), body) + s[index + length..]
  }

  function SectionsTurns(s: string, ctx: Context, turns: nat): string
    decreases turns
  {
    if turns == 0 then s else SectionsTurns(SectionsOnce(s, ctx), ctx, turns - 1)
  }

  lemma {:induction false} NoSectionsLeft(s: string, ctx: Context, turns: nat)
    requires ExecSection(s) == NotFound
    ensures SectionsTurns(s, ctx, turns) == s
  {
    if turns == 0 {
    } else {
      NoSectionsLeft(s, ctx, turns - 1);
    }
  }

  /** `renderSections`: at most a hundred turns, stopping as soon as nothing matches. */
  method RenderSections(template: string, ctx: Context) returns (output: string)
    ensures output == SectionsTurns(template, ctx, GUARD)
  {
    hide ExecSection, SectionText;
    output := template;
    var guard := 0;
    while guard < GUARD
      invariant guard <= GUARD && SectionsTurns(output, ctx, GUARD - guard) == SectionsTurns(template, ctx, GUARD)
    {
      var found := ExecSection(output);
      if found == NotFound {
        NoSectionsLeft(output, ctx, GUARD - guard);
        return;
      }
      guard := guard + 1;
      var value := Resolve(ctx, found.key);
      var replacement := SectionText(found.inverted, value, found.body);
      output := output[..found.index] + replacement + output[found.index + found.length..];
    }
  }

  // --- variables -----------------------------------------------------------------------------

  function VariablesOnce(s: string, key: string, v: Value): string {
    ReplaceAll("", ReplaceAll("", s, Keyed("{{{", key, "}}}"), Literal(RawText(v))),
               Keyed("{{", key, "}}"), Literal(VarText(v)))
  }

  function Variables(s: string, ctx: Context, keys: seq<string>): string
    decreases keys
  {
    if keys == [] then s
    else
      var v := Resolve(ctx, keys[0]);
      Variables(if v == Undefined then s else VariablesOnce(s, keys[0], v), ctx, keys[1..])
  }

  /** `renderVariables`, for the order in which the key set is walked. */
  method RenderVariables(template: string, ctx: Context, keys: seq<string>) returns (output: string)
    ensures output == Variables(template, ctx, keys)
  {
    hide VariablesOnce, Resolve;
    output := template;
    for n := 0 to |keys|
      invariant Variables(output, ctx, keys[n..]) == Variables(template, ctx, keys)
    {
      var value := Resolve(ctx, keys[n]);
      assert keys[n..][1..] == keys[n + 1..];
      if value != Undefined {
        output := VariablesOnce(output, keys[n], value);
      }
    }
  }

  // --- the page ------------------------------------------------------------------------------

  /** `stripUnresolvedPlaceholders`. */
  function Strip(s: string): string {
    var a := ReplaceAll("", s, Leftover, Literal(""));
    var b := ReplaceAll("", a, Closer, Literal(""));
    var c := ReplaceAll("", b, Braced("{{{", "}}}"), Literal(""));
    ReplaceAll("", c, Braced("{{", "}}"), Literal(""))
  }

  function Render(template: string, ctx: Context, keys: seq<string>): string {
    if Trim(template) == "" then ""
    else Trim(Strip(Variables(SectionsTurns(template, ctx, GUARD), ctx, keys)))
  }

  /** The keys of the context and of the alias table, in some order. */
  ghost predicate KeySet(ctx: Context, keys: seq<string>) {
    forall k :: k in keys <==> k in ctx || k in ALIASES
  }

  /** `renderListingTemplate`. */
  method RenderListingTemplate(template: string, ctx: Context, keys: seq<string>) returns (html: string)
    requires KeySet(ctx, keys)
    ensures html == Render(template, ctx, keys)
  {
    if Trim(template) == "" {
      return "";
    }
    var withSections := RenderSections(template, ctx);
    var withVariables := RenderVariables(withSections, ctx, keys);
    html := Trim(Strip(withVariables));
  }
}
