/**
 * The Westpac debit-statement extractor. A line is a transaction when it starts,
 * after any whitespace, with a date `D Mmm YY` (fields apart by whitespace) and
 * whitespace, and the rest of the line holds an amount `[\d,]+\.\d{2}`:
 *  - the amount is the last such token, negated unless the description names a
 *    `CRED VOUCHER`;
 *  - the description is the rest up to the last occurrence of that token, stripped,
 *    or `-` when that is empty or all digits; runs of whitespace in it become one space;
 *  - the date is read by `strptime("%d %b %y")`: a line whose date does not exist is
 *    skipped.
 * Every other line is ignored.
 */
module Westpac {
  import opened Wrappers
  import opened Text
  import opened Calendar
  import opened Ledger
  import opened Patterns

  /**
   * Where the parts of `line_start_pattern` lie in a line: the day digits start at
   * `dayStart`, the three month letters at `monthStart`, the two year digits at
   * `yearStart`, and the second group, the rest of the line, at `restStart`.
   */
  datatype LineGroups = LineGroups(dayStart: nat, dayLen: nat, monthStart: nat, yearStart: nat, restStart: nat)

  function DayEnd(g: LineGroups): nat {
    g.dayStart + g.dayLen
  }

  /**
   * `l` starts with `\s*(\d{1,2}\s+[A-Za-z]{3}\s+\d{2})\s+` read with the groups `g`. The
   * last whitespace run is taken whole: the `(.*)` after it matches whatever follows, so
   * the greedy `\s+` never has to give a character back.
   */
  predicate LineReads(l: string, g: LineGroups) {
    1 <= g.dayLen <= 2 && DayEnd(g) < g.monthStart && g.monthStart + 3 < g.yearStart
    && g.yearStart + 2 < g.restStart <= |l|
    && SpacesIn(l, 0, g.dayStart)
    && CharsIn(l, g.dayStart, DayEnd(g), IsDigit) && SpacesIn(l, DayEnd(g), g.monthStart)
    && CharsIn(l, g.monthStart, g.monthStart + 3, IsLetter) && SpacesIn(l, g.monthStart + 3, g.yearStart)
    && CharsIn(l, g.yearStart, g.yearStart + 2, IsDigit) && SpacesIn(l, g.yearStart + 2, g.restStart)
    && (g.restStart == |l| || !IsSpace(l[g.restStart]))
  }

  /**
   * `line_start_pattern.match(l)`. Each fixed part is followed by a character it cannot
   * hold: the leading whitespace by a digit, the day by whitespace, the three letters and
   * the two year digits by whitespace. So every run is taken whole and backing off gains
   * nothing: a three-digit day or a four-letter month fails the pattern.
   */
  function LineAt(l: string): (r: Option<LineGroups>)
    ensures r.Some? ==> LineReads(l, r.value)
  {
    if LineReads(l, Scan(l)) then Some(Scan(l)) else None
  }

  /** The end of the run of `p` characters that starts at `i`. */
  function After(l: string, i: nat, p: char -> bool): nat
    requires i <= |l|
  {
    i + Run(l, i, p)
  }

  /** Where the parts would lie at the start of `l`, each run taken whole. */
  function Scan(l: string): LineGroups {
    var ds := After(l, 0, IsSpace);
    var ms := After(l, After(l, ds, IsDigit), IsSpace);
    var ys := After(l, After(l, ms, IsLetter), IsSpace);
    LineGroups(ds, After(l, ds, IsDigit) - ds, ms, ys, After(l, After(l, ys, IsDigit), IsSpace))
  }

  /** A reading of the line pattern takes each run whole, so it is the scan of the line. */
  lemma ScanExact(l: string, g: LineGroups)
    requires LineReads(l, g)
    ensures Scan(l) == g
  {
    LeadRun(l, g);
    DayRun(l, g);
    MonthStartRun(l, g);
    MonthRun(l, g);
    YearStartRun(l, g);
    YearRun(l, g);
    RestStartRun(l, g);
  }

  lemma LeadRun(l: string, g: LineGroups)
    requires LineReads(l, g)
    ensures After(l, 0, IsSpace) == g.dayStart
  {
    RunStops(l, 0, g.dayStart, IsSpace);
  }

  lemma DayRun(l: string, g: LineGroups)
    requires LineReads(l, g)
    ensures After(l, g.dayStart, IsDigit) == DayEnd(g)
  {
    RunStops(l, g.dayStart, DayEnd(g), IsDigit);
  }

  lemma MonthStartRun(l: string, g: LineGroups)
    requires LineReads(l, g)
    ensures After(l, DayEnd(g), IsSpace) == g.monthStart
  {
    RunStops(l, DayEnd(g), g.monthStart, IsSpace);
  }

  lemma MonthRun(l: string, g: LineGroups)
    requires LineReads(l, g)
    ensures After(l, g.monthStart, IsLetter) == g.monthStart + 3
  {
    RunStops(l, g.monthStart, g.monthStart + 3, IsLetter);
  }

  lemma YearStartRun(l: string, g: LineGroups)
    requires LineReads(l, g)
    ensures After(l, g.monthStart + 3, IsSpace) == g.yearStart
  {
    RunStops(l, g.monthStart + 3, g.yearStart, IsSpace);
  }

  lemma YearRun(l: string, g: LineGroups)
    requires LineReads(l, g)
    ensures After(l, g.yearStart, IsDigit) == g.yearStart + 2
  {
    RunStops(l, g.yearStart, g.yearStart + 2, IsDigit);
  }

  lemma RestStartRun(l: string, g: LineGroups)
    requires LineReads(l, g)
    ensures After(l, g.yearStart + 2, IsSpace) == g.restStart
  {
    if g.restStart < |l| {
      RunStops(l, g.yearStart + 2, g.restStart, IsSpace);
    } else {
      RunIs(l, g.yearStart + 2, g.restStart - (g.yearStart + 2), IsSpace);
    }
  }

  /** `LineAt` finds exactly the reading of the line pattern at the start of `l`; there is at most one. */
  lemma LineAtExact(l: string, g: LineGroups)
    ensures LineAt(l) == Some(g) <==> LineReads(l, g)
  {
    if LineReads(l, g) {
      ScanExact(l, g);
    }
  }

  /** The second group, `(.*)`: the rest of the line up to a line feed. */
  function Rest(l: string, g: LineGroups): string
    requires LineReads(l, g)
  {
    l[g.restStart..g.restStart + Run(l, g.restStart, IsDot)]
  }

  function MonthText(l: string, g: LineGroups): string
    requires LineReads(l, g)
  {
    l[g.monthStart..g.monthStart + 3]
  }

  /** The value of the day digits. */
  function DayValue(l: string, g: LineGroups): nat
    requires LineReads(l, g)
  {
    DigitsSlice(l, g.dayStart, DayEnd(g));
    Value(l[g.dayStart..DayEnd(g)])
  }

  /** The value of the two year digits, below 100. */
  function YearValue(l: string, g: LineGroups): (y: nat)
    requires LineReads(l, g)
    ensures y < 100
  {
    var yy := l[g.yearStart..g.yearStart + 2];
    DigitsSlice(l, g.yearStart, g.yearStart + 2);
    ValueBound(yy);
    Value(yy)
  }

  /** `d` is the date the three fields of the match spell: day, `%y` year and the month the letters abbreviate, in any case. */
  predicate DateFits(l: string, g: LineGroups, d: Date)
    requires LineReads(l, g)
  {
    d.day == DayValue(l, g) && d.year == ExpandYear(YearValue(l, g))
    && 1 <= d.month <= 12 && Lower(MonthText(l, g)) == Lower(MonthAbbreviations[d.month - 1])
  }

  /**
   * `datetime.strptime(date_str, "%d %b %y")`: the date the fields spell when it exists,
   * and nothing (the `ValueError` the loop skips the line on) for an unknown month or a
   * day the month does not have.
   */
  function ParseDate(l: string, g: LineGroups): (r: Option<Date>)
    requires LineReads(l, g)
    ensures r.Some? ==> IsValid(r.value) && DateFits(l, g, r.value)
    ensures forall d :: DateFits(l, g, d) && IsValid(d) ==> r == Some(d)
  {
    match AbbreviationMonth(MonthText(l, g))
    case None => None
    case Some(m) =>
      var d := Date(ExpandYear(YearValue(l, g)), m, DayValue(l, g));
      if IsValid(d) then Some(d) else None
  }

  /** `amount_pattern.findall(rest)`, with where each token starts. */
  function Amounts(rest: string): (ts: seq<Token>)
    ensures Scanned(rest, CommaAmountPattern, 0, ts)
  {
    PatternsBounded(rest);
    FindAllScanned(rest, 0, CommaAmountPattern);
    FindAll(rest, 0, CommaAmountPattern)
  }

  /** The last amount token of a non-empty token list: an unsigned amount `Cents` can read. */
  function LastAmount(rest: string): (t: Token)
    requires Amounts(rest) != []
    ensures IsCommaAmount(t.text) && IsDecimalToken(t.text) && t.text[0] != '-'
    ensures t == Amounts(rest)[|Amounts(rest)| - 1]
    ensures OccursAt(rest, t.text, t.start)
  {
    var ts := Amounts(rest);
    LastAmountFound(rest, ts, |ts| - 1);
    CommaAmountIsDecimal(ts[|ts| - 1].text);
    ts[|ts| - 1]
  }

  /** Each token `findall` returns is a comma amount occurring where it starts. */
  lemma LastAmountFound(rest: string, ts: seq<Token>, k: nat)
    requires ts == Amounts(rest) && k < |ts|
    ensures IsCommaAmount(ts[k].text) && OccursAt(rest, ts[k].text, ts[k].start)
  {
    ScannedTokens(rest, CommaAmountPattern, 0, ts);
    var t := ts[k];
    assert MatchedAt(rest, CommaAmountPattern, t);
    CommaAmountSlice(rest, t.start, End(t));
  }

  /** `rest.rfind(amounts[-1])`: the last occurrence of the last token, at its own start if not later. */
  function LastAmountPos(rest: string): (pos: nat)
    requires Amounts(rest) != []
    ensures OccursAt(rest, LastAmount(rest).text, pos) && LastAmount(rest).start <= pos
    ensures forall i: nat :: pos < i ==> !OccursAt(rest, LastAmount(rest).text, i)
  {
    RFind(rest, LastAmount(rest).text).value
  }

  /**
   * The description before any whitespace is collapsed: the rest of the line up to the
   * last occurrence of the amount, stripped; `-` when that is empty or numeric.
   */
  function Description(rest: string): (d: string)
    requires Amounts(rest) != []
    ensures var cut := Strip(rest[..LastAmountPos(rest)]);
            (cut == [] || AllDigits(cut) ==> d == "-")
            && (cut != [] && !AllDigits(cut) ==> d == cut)
    ensures d != [] && !IsSpace(d[0]) && !IsSpace(d[|d| - 1])
  {
    var cut := Strip(rest[..LastAmountPos(rest)]);
    StripShape(rest[..LastAmountPos(rest)]);
    if cut == [] || AllDigits(cut) then "-" else cut
  }

  const CredVoucher: string := "CRED VOUCHER"

  /**
   * The transaction of a line whose date is `d` and whose rest `rest` holds an amount: the
   * token's value, kept for a `CRED VOUCHER` and negated otherwise, and the description
   * with its whitespace runs collapsed.
   */
  function Entry(d: Date, rest: string): (t: Transaction)
    requires Amounts(rest) != []
    ensures t.date == d
    ensures t.description == Collapse(Description(rest))
    ensures Contains(Description(rest), CredVoucher) ==> t.amount == Cents(LastAmount(rest).text) >= 0
    ensures !Contains(Description(rest), CredVoucher) ==> t.amount == -Cents(LastAmount(rest).text) <= 0
  {
    var desc := Description(rest);
    var amount := Cents(LastAmount(rest).text);
    Transaction(d, Collapse(desc), if Contains(desc, CredVoucher) then amount else -amount)
  }

  /** A line's rest holds an amount and its date exists. */
  predicate Accepted(l: string, g: LineGroups) {
    LineReads(l, g) && Amounts(Rest(l, g)) != [] && ParseDate(l, g).Some?
  }

  /** What a line matched with the groups `g` contributes: nothing without an amount or when the date does not exist. */
  function Matched(l: string, g: LineGroups): (r: Option<Transaction>)
    requires LineReads(l, g)
    ensures r.Some? <==> Accepted(l, g)
  {
    var rest := Rest(l, g);
    if Amounts(rest) == [] then None
    else
      match ParseDate(l, g)
      case None => None
      case Some(d) => Some(Entry(d, rest))
  }

  /** What one line contributes: a transaction when the pattern matches, an amount is found and the date exists. */
  function Outcome(line: string): (r: Option<Transaction>)
    ensures (forall g :: !LineReads(line, g)) ==> r.None?
    ensures forall g :: LineReads(line, g) ==> r == Matched(line, g)
  {
    assert forall g :: LineReads(line, g) ==> LineAt(line) == Some(g) by {
      forall g | LineReads(line, g) ensures LineAt(line) == Some(g) {
        LineAtExact(line, g);
      }
    }
    match LineAt(line)
    case None => None
    case Some(g) => Matched(line, g)
  }

  /** A line gives a transaction exactly when it is accepted, and then the entry of its date and rest. */
  lemma OutcomeAccepted(line: string)
    ensures Outcome(line).Some? <==> exists g :: Accepted(line, g)
    ensures forall g :: Accepted(line, g) ==> Outcome(line) == Some(Entry(ParseDate(line, g).value, Rest(line, g)))
  {
    if Outcome(line).Some? {
      var g :| LineReads(line, g);
      assert Accepted(line, g);
    }
  }

  function Outcomes(lines: seq<string>): (os: seq<Option<Transaction>>)
    ensures |os| == |lines|
  {
    seq(|lines|, k requires 0 <= k < |lines| => Outcome(lines[k]))
  }

  /** The transactions of a statement whose selected pages' lines, in order, are `lines`. */
  function Transactions(lines: seq<string>): seq<Transaction> {
    Somes(Outcomes(lines))
  }

  /** The line loop: match, find the amounts, read the date, append. */
  method Parse(lines: seq<string>) returns (transactions: seq<Transaction>)
    ensures transactions == Transactions(lines)
  {
    ghost var os := Outcomes(lines);
    transactions := [];
    for i := 0 to |lines|
      invariant transactions == Somes(os[..i])
    {
      var r: Option<Transaction> := None;
      var m := LineAt(lines[i]);
      if m.Some? {
        r := Matched(lines[i], m.value);
      }
      assert r == os[i] by {
        OutcomeOfScan(lines[i]);
      }
      SomesSnoc(os, i);
      if r.Some? {
        transactions := transactions + [r.value];
      }
    }
    assert os[..|lines|] == os;
  }

  /** The outcome of a line follows from the one reading `LineAt` finds. */
  lemma OutcomeOfScan(line: string)
    ensures LineAt(line).None? ==> Outcome(line).None?
    ensures LineAt(line).Some? ==> Outcome(line) == Matched(line, LineAt(line).value)
  {
  }

  /**
   * One transaction per accepted line, in line order: the `j`-th transaction comes from
   * the `j`-th accepted line, and every accepted line gives one.
   */
  lemma OnePerLine(lines: seq<string>)
    ensures |Transactions(lines)| == |Positions(Outcomes(lines))|
    ensures forall j :: 0 <= j < |Transactions(lines)| ==>
              var k := Positions(Outcomes(lines))[j];
              k < |lines| && Outcome(lines[k]) == Some(Transactions(lines)[j])
    ensures forall k, g :: 0 <= k < |lines| && Accepted(lines[k], g) ==> k in Positions(Outcomes(lines))
  {
    SomesAtPositions(Outcomes(lines));
    assert forall k :: 0 <= k < |lines| ==> Outcomes(lines)[k] == Outcome(lines[k]);
    forall k, g | 0 <= k < |lines| && Accepted(lines[k], g) ensures Outcome(lines[k]).Some? {
      OutcomeAccepted(lines[k]);
    }
  }

  /**
   * A description is never empty and never holds two whitespace characters in a row; it
   * keeps every other character of the stripped text before the amount, unless that text
   * was empty or numeric and it is `-`.
   */
  lemma DescriptionShape(rest: string)
    requires Amounts(rest) != []
    ensures var t := Collapse(Description(rest));
            t != [] && !IsSpace(t[0]) && NoSpacePair(t) && Visible(t) == Visible(Description(rest))
  {
    CollapseKeepsText(Description(rest));
  }
}
