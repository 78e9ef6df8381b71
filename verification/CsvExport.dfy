/** The CSV export: every cell quoted and formula-guarded, and the pages its rows are read from. */
module CsvExport {
  import opened Decimal
  import opened Options
  import opened Strings

  /** A number is given by the text it prints as. */
  datatype Cell = Text(text: string) | Figure(printed: string) | Absent

  function TextOf(cell: Cell): string {
    match cell case Text(t) => t case Figure(p) => p case Absent => ""
  }

  predicate IsFigure(c: char) { IsDigit(c) || c == '.' || c == ',' }

  predicate AllFigures(s: string) { forall i | 0 <= i < |s| :: IsFigure(s[i]) }

  predicate FormulaStart(s: string) { s != "" && s[0] in "=+-@\t\r" }

  predicate Currency(c: char) { c in "$\U{20AC}\U{00A3}\U{20BA}" }

  /** Wholly a negative figure: a minus, perhaps a currency sign, a digit, then digits, dots and commas. */
  predicate PlainNegative(s: string) {
    && |s| >= 2 && s[0] == '-'
    && var digits := if Currency(s[1]) then s[2..] else s[1..];
       digits != "" && IsDigit(digits[0]) && AllFigures(digits)
  }

  predicate FormulaLike(s: string) { FormulaStart(s) && !PlainNegative(s) }

  function Guard(text: string): string { if FormulaLike(text) then "'" + text else text }

  function Doubled(s: string): string {
    if s == "" then "" else (if s[0] == '"' then "\"\"" else [s[0]]) + Doubled(s[1..])
  }

  function ToCell(cell: Cell): string { "\"" + Doubled(Guard(TextOf(cell))) + "\"" }

  function RowText(row: seq<Cell>): string { Join(seq(|row|, i requires 0 <= i < |row| => ToCell(row[i])), ",") }

  function RowTexts(rows: seq<seq<Cell>>): seq<string> { seq(|rows|, i requires 0 <= i < |rows| => RowText(rows[i])) }

  function HeaderRow(headers: seq<string>): seq<Cell> {
    seq(|headers|, i requires 0 <= i < |headers| => Text(headers[i]))
  }

  function BuildCsv(headers: seq<string>, rows: seq<seq<Cell>>): string {
    Join(RowTexts([HeaderRow(headers)] + rows), "\r\n")
  }

  // --- reading, by the grammar of section 2 of RFC 4180 ------------------------------------

  /** An escaped field after its opening quote, and what follows its closing one. */
  function Quoted(s: string): (r: Option<(string, string)>)
    ensures r.Some? ==> |r.value.1| < |s|
  {
    if s == "" then None
    else if s[0] == '"' && (|s| == 1 || s[1] != '"') then Some(("", s[1..]))
    else
      var n := if s[0] == '"' then 2 else 1;
      match Quoted(s[n..])
      case None => None
      case Some((field, rest)) => Some(([s[0]] + field, rest))
  }

  predicate Special(c: char) { c == '"' || c == ',' || c == '\r' || c == '\n' }

  function Plain(s: string): (r: (string, string))
    ensures |r.1| <= |s|
  {
    if s == "" || Special(s[0]) then ("", s)
    else
      var (field, rest) := Plain(s[1..]);
      ([s[0]] + field, rest)
  }

  function ReadField(s: string): (r: Option<(string, string)>)
    ensures r.Some? ==> |r.value.1| <= |s|
  {
    if s != "" && s[0] == '"' then Quoted(s[1..]) else Some(Plain(s))
  }

  function ReadRecord(s: string): (r: Option<(seq<string>, string)>)
    ensures r.Some? ==> |r.value.1| <= |s| && r.value.0 != []
    decreases |s|
  {
    match ReadField(s)
    case None => None
    case Some((field, rest)) =>
      if rest != "" && rest[0] == ',' then
        match ReadRecord(rest[1..])
        case None => None
        case Some((fields, after)) => Some(([field] + fields, after))
      else Some(([field], rest))
  }

  /** Records end with CRLF; after the last one it is optional. */
  function ReadFile(s: string): (r: Option<seq<seq<string>>>)
    ensures r.Some? ==> r.value != [] && forall i | 0 <= i < |r.value| :: r.value[i] != []
    decreases |s|
  {
    match ReadRecord(s)
    case None => None
    case Some((fields, rest)) =>
      if rest == "" || rest == "\r\n" then Some([fields])
      else if |rest| > 2 && rest[..2] == "\r\n" then
        match ReadFile(rest[2..])
        case None => None
        case Some(records) => Some([fields] + records)
      else None
  }

  // --- round trip -----------------------------------------------------------------------------

  lemma {:induction false} QuotedDoubled(s: string, rest: string)
    requires rest == "" || rest[0] != '"'
    ensures Quoted(Doubled(s) + ("\"" + rest)) == Some((s, rest))
  {
    hide Quoted, Doubled;
    var tail := "\"" + rest;
    if s == "" {
      QuotedEnd(rest);
      assert "" + tail == tail;
      assert Doubled("") == "" by { DoubledNone(); }
    } else {
      QuotedDoubled(s[1..], rest);
      DoubledFirst(s);
      assert s == [s[0]] + s[1..];
      if s[0] == '"' {
        assert "\"\"" + Doubled(s[1..]) + tail == "\"\"" + (Doubled(s[1..]) + tail);
        QuotedPair(Doubled(s[1..]) + tail);
      } else {
        assert [s[0]] + Doubled(s[1..]) + tail == [s[0]] + (Doubled(s[1..]) + tail);
        QuotedOther(s[0], Doubled(s[1..]) + tail);
      }
    }
  }

  lemma {:induction false} QuotedEnd(rest: string)
    requires rest == "" || rest[0] != '"'
    ensures Quoted("\"" + rest) == Some(("", rest))
  {
    assert ("\"" + rest)[1..] == rest;
    assert rest != "" ==> ("\"" + rest)[1] == rest[0];
  }

  lemma DoubledNone()
    ensures Doubled("") == ""
  {}

  lemma {:induction false} DoubledFirst(s: string)
    requires s != ""
    ensures Doubled(s) == (if s[0] == '"' then "\"\"" else [s[0]]) + Doubled(s[1..])
  {}

  lemma {:induction false} QuotedPair(more: string)
    ensures Quoted("\"\"" + more) == match Quoted(more) case None => None case Some((f, rest)) => Some(("\"" + f, rest))
  {
    assert ("\"\"" + more)[2..] == more;
  }

  lemma {:induction false} QuotedOther(c: char, more: string)
    requires c != '"'
    ensures Quoted([c] + more) == match Quoted(more) case None => None case Some((f, rest)) => Some(([c] + f, rest))
  {
    assert ([c] + more)[1..] == more;
  }

  lemma ReadCell(cell: Cell, rest: string)
    requires rest == "" || rest[0] != '"'
    ensures ReadField(ToCell(cell) + rest) == Some((Guard(TextOf(cell)), rest))
  {
    hide Quoted, Doubled, Guard;
    var g := Guard(TextOf(cell));
    QuotedDoubled(g, rest);
    assert (ToCell(cell) + rest)[1..] == Doubled(g) + ("\"" + rest);
  }

  function GuardedRow(row: seq<Cell>): seq<string> { seq(|row|, i requires 0 <= i < |row| => Guard(TextOf(row[i]))) }

  function GuardedRows(rows: seq<seq<Cell>>): seq<seq<string>> {
    seq(|rows|, i requires 0 <= i < |rows| => GuardedRow(rows[i]))
  }

  lemma RowStep(row: seq<Cell>)
    requires row != []
    ensures GuardedRow(row) == [Guard(TextOf(row[0]))] + GuardedRow(row[1..])
    ensures |row| == 1 ==> RowText(row) == ToCell(row[0])
    ensures |row| > 1 ==> RowText(row) == ToCell(row[0]) + "," + RowText(row[1..])
  {
    hide ToCell, Guard;
    var texts := seq(|row|, i requires 0 <= i < |row| => ToCell(row[i]));
    assert texts[1..] == seq(|row[1..]|, i requires 0 <= i < |row[1..]| => ToCell(row[1..][i]));
  }

  lemma {:induction false} ReadRow(row: seq<Cell>, rest: string)
    requires row != [] && (rest == "" || rest[0] == '\r')
    ensures ReadRecord(RowText(row) + rest) == Some((GuardedRow(row), rest))
  {
    hide RowText, GuardedRow, ToCell, Guard, ReadField;
    RowStep(row);
    if |row| == 1 {
      ReadCell(row[0], rest);
      NoCells(row[1..]);
      assert GuardedRow(row) == [Guard(TextOf(row[0]))];
    } else {
      var more := RowText(row[1..]) + rest;
      ReadCell(row[0], "," + more);
      ReadRow(row[1..], rest);
      assert RowText(row) + rest == ToCell(row[0]) + ("," + more);
      assert ("," + more)[1..] == more;
    }
  }

  lemma NoCells(row: seq<Cell>)
    requires row == []
    ensures GuardedRow(row) == []
  {}

  lemma RowsStep(rows: seq<seq<Cell>>)
    requires rows != []
    ensures GuardedRows(rows) == [GuardedRow(rows[0])] + GuardedRows(rows[1..])
    ensures |rows| == 1 ==> Join(RowTexts(rows), "\r\n") == RowText(rows[0])
    ensures |rows| > 1 ==> Join(RowTexts(rows), "\r\n") == RowText(rows[0]) + "\r\n" + Join(RowTexts(rows[1..]), "\r\n")
  {
    hide RowText, GuardedRow;
    assert RowTexts(rows)[1..] == RowTexts(rows[1..]);
  }

  lemma RowTextStarts(row: seq<Cell>)
    requires row != []
    ensures RowText(row) != "" && RowText(row)[0] == '"'
  {
    hide RowText, GuardedRow;
    RowStep(row);
  }

  lemma ReadRows(rows: seq<seq<Cell>>)
    requires rows != [] && forall i | 0 <= i < |rows| :: rows[i] != []
    ensures ReadFile(Join(RowTexts(rows), "\r\n")) == Some(GuardedRows(rows))
    ensures Join(RowTexts(rows), "\r\n") != ""
  {
    hide RowText, RowTexts, GuardedRow, GuardedRows, Join, ReadRecord;
    RowsStep(rows);
    RowTextStarts(rows[0]);
    if |rows| == 1 {
      ReadRow(rows[0], "");
      assert RowText(rows[0]) + "" == RowText(rows[0]);
      NoRows(rows[1..]);
      assert GuardedRows(rows) == [GuardedRow(rows[0])];
    } else {
      var more := Join(RowTexts(rows[1..]), "\r\n");
      ReadRows(rows[1..]);
      ReadRow(rows[0], "\r\n" + more);
      assert RowText(rows[0]) + "\r\n" + more == RowText(rows[0]) + ("\r\n" + more);
      assert ("\r\n" + more)[2..] == more;
    }
  }

  lemma NoRows(rows: seq<seq<Cell>>)
    requires rows == []
    ensures GuardedRows(rows) == []
  {}

  /** Reading the export gives every guarded cell back, unchanged and in place, exactly when no row is empty. */
  lemma ExportReadsBack(headers: seq<string>, rows: seq<seq<Cell>>)
    ensures var table := [HeaderRow(headers)] + rows;
            ReadFile(BuildCsv(headers, rows)) == Some(GuardedRows(table))
            <==> headers != [] && forall i | 0 <= i < |rows| :: rows[i] != []
  {
    hide ReadFile, RowTexts;
    var table := [HeaderRow(headers)] + rows;
    var read := ReadFile(BuildCsv(headers, rows));
    if headers != [] && forall i | 0 <= i < |rows| :: rows[i] != [] {
      ReadRows(table);
    } else {
      assert headers == [] ==> table[0] == [];
      assert forall i | 0 <= i < |rows| :: table[i + 1] == rows[i];
      assert forall i | 0 <= i < |table| && table[i] == [] :: GuardedRows(table)[i] == [];
    }
  }

  /** A cell read back opens a formula only if it is wholly a negative figure. */
  lemma NoFormulas(cell: Cell)
    ensures FormulaStart(Guard(TextOf(cell))) ==> PlainNegative(Guard(TextOf(cell)))
    ensures Guard(TextOf(cell)) != TextOf(cell) <==> FormulaLike(TextOf(cell))
    ensures Guard(TextOf(cell)) == TextOf(cell) || Guard(TextOf(cell)) == "'" + TextOf(cell)
  {}

  predicate FigureParts(s: string, sign: string, digit: char, more: string) {
    && s == "-" + (sign + ([digit] + more))
    && sign in ["", "$", "\U{20AC}", "\U{00A3}", "\U{20BA}"] && '0' <= digit <= '9'
    && forall i | 0 <= i < |more| :: '0' <= more[i] <= '9' || more[i] == '.' || more[i] == ','
  }

  /** A minus, perhaps one currency sign, a digit, then digits, dots and commas to the end. */
  ghost predicate NegativeFigure(s: string) {
    exists sign, digit, more :: FigureParts(s, sign, digit, more)
  }

  /** What a spreadsheet takes for a formula. */
  predicate OpensFormula(s: string) {
    s != "" && (s[0] == '=' || s[0] == '+' || s[0] == '-' || s[0] == '@' || s[0] == '\t' || s[0] == '\r')
  }

  lemma SignedParts(s: string)
    requires PlainNegative(s) && Currency(s[1])
    ensures NegativeFigure(s)
  {
    var sign, digits, more := [s[1]], s[2..], s[3..];
    assert s == "-" + (sign + ([s[2]] + more));
    assert forall i | 0 <= i < |more| :: more[i] == digits[i + 1] && IsFigure(more[i]);
    assert FigureParts(s, sign, s[2], more);
  }

  lemma UnsignedParts(s: string)
    requires PlainNegative(s) && !Currency(s[1])
    ensures NegativeFigure(s)
  {
    var digits, more := s[1..], s[2..];
    assert s == "-" + ("" + ([s[1]] + more));
    assert forall i | 0 <= i < |more| :: more[i] == digits[i + 1] && IsFigure(more[i]);
    hide Currency;
    assert FigureParts(s, "", s[1], more);
  }

  lemma PlainHasParts(s: string)
    requires PlainNegative(s)
    ensures NegativeFigure(s)
  {
    hide NegativeFigure, Currency;
    if Currency(s[1]) { SignedParts(s); } else { UnsignedParts(s); }
  }

  lemma PartsArePlain(s: string, sign: string, digit: char, more: string)
    requires FigureParts(s, sign, digit, more)
    ensures PlainNegative(s)
  {
    var digits := [digit] + more;
    MoreFigures(digit, more);
    hide IsFigure, AllFigures;
    if sign == "" {
      assert s == "-" + digits;
      assert s[1..] == digits && s[1] == digit;
    } else {
      assert s == "-" + ([sign[0]] + digits);
      assert s[2..] == digits && s[1] == sign[0];
    }
  }

  lemma MoreFigures(digit: char, more: string)
    requires '0' <= digit <= '9'
    requires forall i | 0 <= i < |more| :: '0' <= more[i] <= '9' || more[i] == '.' || more[i] == ','
    ensures AllFigures([digit] + more)
  {}

  lemma PlainIsFigure(s: string)
    ensures PlainNegative(s) <==> NegativeFigure(s)
  {
    if PlainNegative(s) { PlainHasParts(s); }
    hide PlainNegative, FigureParts;
    if sign, digit, more :| FigureParts(s, sign, digit, more) { PartsArePlain(s, sign, digit, more); }
  }

  /** Only what a spreadsheet would run is changed, by one apostrophe in front; a negative figure stays a number. */
  lemma CellsAreSafe(cell: Cell, text: string)
    requires text == match cell case Text(t) => t case Figure(p) => p case Absent => ""
    ensures var g := Guard(TextOf(cell));
            && g == (if OpensFormula(text) && !NegativeFigure(text) then "'" + text else text)
            && (OpensFormula(g) ==> NegativeFigure(g))
  {
    PlainIsFigure(text);
    hide PlainNegative, NegativeFigure;
    assert text != "" ==> (OpensFormula(text) <==> FormulaStart(text));
  }

  lemma TableCells(table: seq<seq<Cell>>)
    ensures |GuardedRows(table)| == |table|
    ensures forall i | 0 <= i < |table| ::
              |GuardedRows(table)[i]| == |table[i]|
              && forall j | 0 <= j < |table[i]| :: GuardedRows(table)[i][j] == Guard(TextOf(table[i][j]))
  {
    hide Guard;
  }

  lemma HeaderCells(headers: seq<string>)
    ensures |HeaderRow(headers)| == |headers|
    ensures forall j | 0 <= j < |headers| :: HeaderRow(headers)[j] == Text(headers[j])
  {}

  /** Field by field: the header cells first, then each row's, every one guarded. */
  lemma ExportTable(headers: seq<string>, rows: seq<seq<Cell>>)
    requires headers != [] && forall i | 0 <= i < |rows| :: rows[i] != []
    ensures var read := ReadFile(BuildCsv(headers, rows));
            && read.Some? && |read.value| == 1 + |rows| && |read.value[0]| == |headers|
            && (forall j | 0 <= j < |headers| :: read.value[0][j] == Guard(headers[j]))
            && forall i | 0 <= i < |rows| ::
                 |read.value[i + 1]| == |rows[i]|
                 && forall j | 0 <= j < |rows[i]| :: read.value[i + 1][j] == Guard(TextOf(rows[i][j]))
  {
    hide ReadFile, BuildCsv, Guard, GuardedRows, HeaderRow;
    ExportReadsBack(headers, rows);
    var table := [HeaderRow(headers)] + rows;
    assert forall i | 0 <= i < |rows| :: table[i + 1] == rows[i];
    TableCells(table);
    HeaderCells(headers);
  }

  // --- pages ------------------------------------------------------------------------------------

  datatype Page<+T> = Page(items: seq<T>, total: nat)

  function Take<T>(s: seq<T>, n: nat): seq<T> { if |s| <= n then s else s[..n] }

  /** `fetchAllPages`, with the pages asked for. */
  method FetchAllPages<T>(fetchPage: (nat, nat) -> Page<T>, pageSize: nat, maxRows: nat)
    returns (rows: seq<T>, requests: nat)
    requires pageSize > 0
    ensures (rows, requests) == Fetched(fetchPage, pageSize, maxRows, 1, [])
  {
    var all: seq<T> := [];
    var page := 1;
    requests := 0;
    while |all| < maxRows
      invariant page == requests + 1
      invariant var rest := Fetched(fetchPage, pageSize, maxRows, page, all);
                Fetched(fetchPage, pageSize, maxRows, 1, []) == (rest.0, requests + rest.1)
      decreases maxRows - |all|
    {
      var answer := fetchPage(page, pageSize);
      all := all + answer.items;
      requests := requests + 1;
      if |answer.items| < pageSize || |all| >= answer.total {
        break;
      }
      page := page + 1;
    }
    rows := Take(all, maxRows);
  }

  /** The rows returned from here on, and the requests still made. */
  function Fetched<T>(
      fetchPage: (nat, nat) -> Page<T>, pageSize: nat, maxRows: nat, page: nat, all: seq<T>): (seq<T>, nat)
    requires pageSize > 0
    decreases maxRows - |all|
  {
    if |all| >= maxRows then (Take(all, maxRows), 0)
    else
      var answer := fetchPage(page, pageSize);
      var more := all + answer.items;
      if |answer.items| < pageSize || |more| >= answer.total then (Take(more, maxRows), 1)
      else
        var rest := Fetched(fetchPage, pageSize, maxRows, page + 1, more);
        (rest.0, 1 + rest.1)
  }

  /** However the server answers, no more pages are asked for than fit under the cap. */
  lemma {:induction false} RequestsFit<T>(
      fetchPage: (nat, nat) -> Page<T>, pageSize: nat, maxRows: nat, page: nat, all: seq<T>)
    requires pageSize > 0
    ensures var n := Fetched(fetchPage, pageSize, maxRows, page, all).1;
            n > 0 ==> (n - 1) * pageSize < maxRows - |all|
    decreases maxRows - |all|
  {
    if |all| >= maxRows {
    } else {
      var more := all + fetchPage(page, pageSize).items;
      if |more| - |all| >= pageSize && |more| < fetchPage(page, pageSize).total {
        RequestsFit(fetchPage, pageSize, maxRows, page + 1, more);
        var n := Fetched(fetchPage, pageSize, maxRows, page + 1, more).1;
        assert n * pageSize == (n - 1) * pageSize + pageSize;
      }
    }
  }

  lemma {:induction false} RequestsBounded<T>(fetchPage: (nat, nat) -> Page<T>, pageSize: nat, maxRows: nat)
    requires pageSize > 0
    ensures Fetched(fetchPage, pageSize, maxRows, 1, []).1 <= (maxRows + pageSize - 1) / pageSize
  {
    hide Fetched;
    RequestsFit(fetchPage, pageSize, maxRows, 1, []);
    var n := Fetched(fetchPage, pageSize, maxRows, 1, []).1;
    CeilingHolds(n, pageSize, maxRows);
  }

  lemma CeilingHolds(n: nat, d: nat, m: nat)
    requires d > 0 && (n > 0 ==> (n - 1) * d < m)
    ensures n <= (m + d - 1) / d
  {
    var q := (m + d - 1) / d;
    assert m <= q * d;
    assert n > q ==> (n - 1 - q) * d >= 0;
    assert (n - 1 - q) * d == (n - 1) * d - q * d;
  }

  function Slice<T>(source: seq<T>, from: nat, n: nat): seq<T> {
    if from >= |source| then [] else Take(source[from..], n)
  }

  /** A server over rows that do not change. */
  function Serve<T>(source: seq<T>): (nat, nat) -> Page<T> {
    (page: nat, limit: nat) => Page(if page == 0 then [] else Slice(source, (page - 1) * limit, limit), |source|)
  }

  lemma SliceExtends<T>(source: seq<T>, from: nat, n: nat)
    ensures Take(source, from) + Slice(source, from, n) == Take(source, from + n)
    ensures |Slice(source, from, n)| < n || |Take(source, from + n)| >= |source| <==> from + n >= |source|
  {}

  /** One request against the server: it extends the rows by a page, and is the last exactly at the end. */
  lemma {:induction false} PageStep<T>(source: seq<T>, pageSize: nat, maxRows: nat, page: nat, from: nat)
    requires pageSize > 0 && page > 0 && from == (page - 1) * pageSize && |Take(source, from)| < maxRows
    ensures Fetched(Serve(source), pageSize, maxRows, page, Take(source, from)).0
         == if from + pageSize >= |source| then Take(Take(source, from + pageSize), maxRows)
            else Fetched(Serve(source), pageSize, maxRows, page + 1, Take(source, from + pageSize)).0
  {
    SliceExtends(source, from, pageSize);
    hide Slice, Take;
    assert Serve(source)(page, pageSize) == Page(Slice(source, from, pageSize), |source|);
  }

  lemma {:induction false} FetchDone<T>(
      fetchPage: (nat, nat) -> Page<T>, pageSize: nat, maxRows: nat, page: nat, all: seq<T>)
    requires pageSize > 0 && |all| >= maxRows
    ensures Fetched(fetchPage, pageSize, maxRows, page, all).0 == Take(all, maxRows)
  {}

  lemma TakeTake<T>(source: seq<T>, k: nat, maxRows: nat)
    requires k >= |source| || |Take(source, k)| >= maxRows
    ensures Take(Take(source, k), maxRows) == Take(source, maxRows)
  {}

  lemma {:induction false} PagesAddUp<T>(source: seq<T>, pageSize: nat, maxRows: nat, page: nat, from: nat)
    requires pageSize > 0 && page > 0 && from == (page - 1) * pageSize
    ensures Fetched(Serve(source), pageSize, maxRows, page, Take(source, from)).0 == Take(source, maxRows)
    decreases |source| - from
  {
    hide Fetched, Take;
    var next := from + pageSize;
    assert next == page * pageSize;
    TakeLength(source, from);
    if |Take(source, from)| >= maxRows {
      FetchDone(Serve(source), pageSize, maxRows, page, Take(source, from));
      TakeTake(source, from, maxRows);
    } else {
      PageStep(source, pageSize, maxRows, page, from);
      if next >= |source| {
        TakeTake(source, next, maxRows);
      } else {
        PagesAddUp(source, pageSize, maxRows, page + 1, next);
      }
    }
  }

  lemma TakeLength<T>(source: seq<T>, k: nat)
    ensures |Take(source, k)| == if |source| <= k then |source| else k
  {}

  /** Against rows that do not change, exactly the first `maxRows` of them, in order. */
  lemma {:induction false} FetchesFirstRows<T>(source: seq<T>, pageSize: nat, maxRows: nat)
    requires pageSize > 0
    ensures Fetched(Serve(source), pageSize, maxRows, 1, []).0
         == source[..if |source| < maxRows then |source| else maxRows]
    ensures Fetched(Serve(source), pageSize, maxRows, 1, []).1 <= (maxRows + pageSize - 1) / pageSize
  {
    hide Fetched;
    PagesAddUp(source, pageSize, maxRows, 1, 0);
    RequestsBounded(Serve(source), pageSize, maxRows);
    assert Take(source, 0) == [];
    assert source[..|source|] == source;
  }
}
