/**
 * The Commonwealth Bank extractor. Each stripped line is classified on its own:
 *  - a line holding `OPENING BALANCE` or `CLOSING BALANCE` is a balance row with
 *    amount 0, dated by a `D Month YYYY` at the start of the line when there is one;
 *  - any other line that starts with `^(\d{1,2})\s+([A-Za-z]+)\s+(\d{4})` is a
 *    transaction: the amount is the negated last `-?\d{1,3}(?:,\d{3})*\.\d{2}` token
 *    of the rest of the line (0 without one) and the description the rest up to the
 *    last occurrence of that token;
 *  - every other line is ignored.
 * Dates are printed as `year-<month code>-<day zero-filled>`; an unknown month
 * name gets code `01` and no calendar check is made.
 */
module Cba {
  import opened Wrappers
  import opened Text
  import opened Calendar
  import opened Ledger
  import opened Patterns

  /** One emitted row. A balance line without a date prints its date as the empty string: `date` is `None`. */
  datatype Record = Record(date: Option<Date>, description: string, amount: int)

  /** Where the groups of `date_pattern` lie in a line: day digits `[0, dayLen)`, month name, and the year's start. */
  datatype DateGroups = DateGroups(dayLen: nat, monthStart: nat, monthEnd: nat, yearStart: nat)

  /** Where a date match ends: after the four year digits. */
  function DateEnd(g: DateGroups): nat {
    g.yearStart + 4
  }

  /** `l` starts with `(\d{1,2})\s+([A-Za-z]+)\s+(\d{4})` read with the groups `g`. */
  predicate DateReads(l: string, g: DateGroups) {
    1 <= g.dayLen <= 2 && g.dayLen < g.monthStart < g.monthEnd < g.yearStart && DateEnd(g) <= |l|
    && CharsIn(l, 0, g.dayLen, IsDigit) && SpacesIn(l, g.dayLen, g.monthStart)
    && CharsIn(l, g.monthStart, g.monthEnd, IsLetter) && SpacesIn(l, g.monthEnd, g.yearStart)
    && CharsIn(l, g.yearStart, DateEnd(g), IsDigit)
  }

  /**
   * `date_pattern.match(l)`. Each field is followed by a character it cannot hold (a space
   * after the day and the month name, a letter or digit after a space run), so every run
   * is taken whole and the engine has nothing to back off to: a day run of three or more
   * digits fails the pattern.
   */
  function DateAt(l: string): (r: Option<DateGroups>)
    ensures r.Some? ==> DateReads(l, r.value)
  {
    if DateReads(l, Scan(l)) then Some(Scan(l)) else None
  }

  /** Where the groups would lie at the start of `l`: the digit run, the space run after it, and so on, each taken whole. */
  function Scan(l: string): DateGroups {
    var d := Run(l, 0, IsDigit);
    var ms := d + Run(l, d, IsSpace);
    var me := ms + Run(l, ms, IsLetter);
    DateGroups(d, ms, me, me + Run(l, me, IsSpace))
  }

  /** A reading of the date pattern takes each run whole, so it is the scan of the line. */
  lemma ScanExact(l: string, g: DateGroups)
    requires DateReads(l, g)
    ensures Scan(l) == g
  {
    DayRun(l, g);
    MonthStartRun(l, g);
    MonthRun(l, g);
    YearStartRun(l, g);
  }

  lemma DayRun(l: string, g: DateGroups)
    requires DateReads(l, g)
    ensures Run(l, 0, IsDigit) == g.dayLen
  {
    RunStops(l, 0, g.dayLen, IsDigit);
  }

  lemma MonthStartRun(l: string, g: DateGroups)
    requires DateReads(l, g)
    ensures g.dayLen + Run(l, g.dayLen, IsSpace) == g.monthStart
  {
    RunStops(l, g.dayLen, g.monthStart, IsSpace);
  }

  lemma MonthRun(l: string, g: DateGroups)
    requires DateReads(l, g)
    ensures g.monthStart + Run(l, g.monthStart, IsLetter) == g.monthEnd
  {
    RunStops(l, g.monthStart, g.monthEnd, IsLetter);
  }

  lemma YearStartRun(l: string, g: DateGroups)
    requires DateReads(l, g)
    ensures g.monthEnd + Run(l, g.monthEnd, IsSpace) == g.yearStart
  {
    RunStops(l, g.monthEnd, g.yearStart, IsSpace);
  }

  /** Every reading of the date pattern at the start of `l` is the one `DateAt` finds. */
  lemma DateAtComplete(l: string, g: DateGroups)
    requires DateReads(l, g)
    ensures DateAt(l) == Some(g)
  {
    ScanExact(l, g);
  }

  /** `DateAt` finds exactly the reading of the date pattern at the start of `l`; there is at most one. */
  lemma DateAtExact(l: string, g: DateGroups)
    ensures DateAt(l) == Some(g) <==> DateReads(l, g)
  {
    if DateReads(l, g) {
      DateAtComplete(l, g);
    }
  }

  /** `MONTH_MAP.get(name, "01")`: the code of a full English month name, `01` for anything else. */
  function MonthCode(name: string): (code: string)
    ensures forall j :: 0 <= j < 12 && MonthNames[j] == name ==> code == MonthCodes[j]
    ensures (forall j :: 0 <= j < 12 ==> MonthNames[j] != name) ==> code == "01"
  {
    MonthNamesPrefixFree();
    MonthCodes[MonthOrJanuary(MonthNames, name) - 1]
  }

  /** The date of a match: year, the month name's number (January when unknown) and day, as read. */
  function DateOf(l: string, g: DateGroups): (d: Date)
    requires DateReads(l, g)
    ensures Iso(d) == l[g.yearStart..DateEnd(g)] + "-" + MonthCode(l[g.monthStart..g.monthEnd]) + "-" + ZFill(l[..g.dayLen], 2)
  {
    var day, year := l[..g.dayLen], l[g.yearStart..DateEnd(g)];
    assert AllDigits(day) && AllDigits(year) by {
      assert forall k :: 0 <= k < |day| ==> day[k] == l[k];
      assert forall k :: 0 <= k < |year| ==> year[k] == l[g.yearStart + k];
    }
    var month := MonthOrJanuary(MonthNames, l[g.monthStart..g.monthEnd]);
    PadValue(year);
    MonthCodesArePadded();
    ZFillIsPad(day, 2);
    Date(Value(year), month, Value(day))
  }

  /** The date of the date match at the start of `l`, if there is one. */
  function LineDate(l: string): (d: Option<Date>)
    ensures d.None? <==> forall g :: !DateReads(l, g)
    ensures forall g :: DateReads(l, g) ==> d == Some(DateOf(l, g))
  {
    assert forall g :: DateReads(l, g) ==> DateAt(l) == Some(g) by {
      forall g | DateReads(l, g) ensures DateAt(l) == Some(g) {
        DateAtExact(l, g);
      }
    }
    match DateAt(l)
    case None => None
    case Some(g) => Some(DateOf(l, g))
  }

  const Opening: string := "OPENING BALANCE"
  const Closing: string := "CLOSING BALANCE"

  /** A line that names an opening or closing balance. */
  predicate IsBalanceLine(l: string) {
    Contains(l, Opening) || Contains(l, Closing)
  }

  /**
   * The row of a balance line: amount 0, the date at the start of the line if any, and
   * `OPENING BALANCE` whenever the line holds `OPENING` anywhere, else `CLOSING BALANCE`.
   */
  function BalanceRecord(l: string): (r: Record)
    ensures r.amount == 0
    ensures r.date == LineDate(l)
    ensures r.description == Opening || r.description == Closing
    ensures r.description == Opening <==> Contains(l, "OPENING")
  {
    Record(LineDate(l), if Contains(l, "OPENING") then Opening else Closing, 0)
  }

  /** A balance line names the balance it holds, and an opening balance wins over a closing one. */
  lemma BalanceDescription(l: string)
    requires IsBalanceLine(l)
    ensures Contains(l, Opening) ==> BalanceRecord(l).description == Opening
    ensures BalanceRecord(l).description == Closing ==> Contains(l, Closing) && !Contains(l, Opening)
  {
    if Contains(l, Opening) {
      var i: nat :| OccursAt(l, Opening, i);
      assert l[i..i + 7] == l[i..i + |Opening|][..7];
      assert OccursAt(l, "OPENING", i);
    }
  }

  /** The text after a date match, stripped. */
  function Remaining(l: string, g: DateGroups): string
    requires DateEnd(g) <= |l|
  {
    Strip(l[DateEnd(g)..])
  }

  /** `amount_pattern.findall(remaining)`, with where each token starts. */
  function Amounts(rem: string): seq<Token> {
    PatternsBounded(rem);
    FindAll(rem, 0, SignedGroupedAmountPattern)
  }

  /** The tokens are `findall`'s: leftmost, not overlapping, and every signed grouped amount of `rem` outside them is inside one. */
  lemma AmountsScanned(rem: string)
    ensures Scanned(rem, SignedGroupedAmountPattern, 0, Amounts(rem))
  {
    PatternsBounded(rem);
    FindAllScanned(rem, 0, SignedGroupedAmountPattern);
  }

  /** Every token `findall` returns is a signed grouped amount, which `Cents` can read. */
  lemma AmountTokens(rem: string)
    ensures forall k :: 0 <= k < |Amounts(rem)| ==>
              IsGroupedAmount(Amounts(rem)[k].text, true) && IsDecimalToken(Amounts(rem)[k].text)
  {
    var ts := Amounts(rem);
    assert forall k :: 0 <= k < |ts| ==> MatchedAt(rem, SignedGroupedAmountPattern, ts[k]) by {
      AmountsScanned(rem);
      ScannedTokens(rem, SignedGroupedAmountPattern, 0, ts);
    }
    forall k | 0 <= k < |ts| ensures IsGroupedAmount(ts[k].text, true) && IsDecimalToken(ts[k].text) {
      GroupedAmountText(rem, ts[k].start, |ts[k].text|, true);
      GroupedIsDecimal(ts[k].text, true);
    }
  }

  /** The last amount token of a non-empty token list, and where `rfind` places it. */
  function LastAmount(rem: string): (t: Token)
    requires Amounts(rem) != []
    ensures IsDecimalToken(t.text)
    ensures t == Amounts(rem)[|Amounts(rem)| - 1]
  {
    AmountTokens(rem);
    Amounts(rem)[|Amounts(rem)| - 1]
  }

  /** `remaining.rfind(amounts[-1])`: the token occurs in `rem`, at its own start if not later. */
  function LastAmountPos(rem: string): (pos: nat)
    requires Amounts(rem) != []
    ensures OccursAt(rem, LastAmount(rem).text, pos) && LastAmount(rem).start <= pos
    ensures forall i: nat :: pos < i ==> !OccursAt(rem, LastAmount(rem).text, i)
  {
    LastAmountOccurs(rem);
    RFind(rem, LastAmount(rem).text).value
  }

  /** The last token is where `findall` found it. */
  lemma LastAmountOccurs(rem: string)
    requires Amounts(rem) != []
    ensures OccursAt(rem, LastAmount(rem).text, LastAmount(rem).start)
  {
    AmountsScanned(rem);
    ScannedTokenOccurs(rem, SignedGroupedAmountPattern, 0, Amounts(rem), |Amounts(rem)| - 1);
  }

  /**
   * The row of a dated line read with `g`: the date as read, then the negated last amount
   * token and the text before its last occurrence, stripped; or 0 and the whole rest when
   * the rest holds no amount.
   */
  function DatedRecord(l: string, g: DateGroups): (r: Record)
    requires DateReads(l, g)
    ensures r.date == Some(DateOf(l, g))
    ensures var rem := Remaining(l, g);
            if Amounts(rem) == [] then r.amount == 0 && r.description == rem
            else r.amount == -Cents(LastAmount(rem).text)
                 && r.description == Strip(rem[..LastAmountPos(rem)])
  {
    var rem := Remaining(l, g);
    if Amounts(rem) == [] then Record(Some(DateOf(l, g)), rem, 0)
    else Record(Some(DateOf(l, g)), Strip(rem[..LastAmountPos(rem)]), -Cents(LastAmount(rem).text))
  }

  /** What one line contributes: a balance row, a dated row, or nothing. */
  function Outcome(line: string): (r: Option<Record>)
    ensures var l := Strip(line);
            r.Some? <==> IsBalanceLine(l) || exists g :: DateReads(l, g)
    ensures var l := Strip(line);
            IsBalanceLine(l) ==> r == Some(BalanceRecord(l))
    ensures var l := Strip(line);
            forall g :: !IsBalanceLine(l) && DateReads(l, g) ==> r == Some(DatedRecord(l, g))
  {
    var l := Strip(line);
    assert forall g :: DateReads(l, g) ==> DateAt(l) == Some(g) by {
      forall g | DateReads(l, g) ensures DateAt(l) == Some(g) {
        DateAtExact(l, g);
      }
    }
    if IsBalanceLine(l) then Some(BalanceRecord(l))
    else
      match DateAt(l)
      case None => None
      case Some(g) => Some(DatedRecord(l, g))
  }

  function Outcomes(lines: seq<string>): (os: seq<Option<Record>>)
    ensures |os| == |lines|
  {
    seq(|lines|, k requires 0 <= k < |lines| => Outcome(lines[k]))
  }

  /** The rows of a statement whose pages' lines, in order, are `lines`. */
  function Records(lines: seq<string>): seq<Record> {
    Somes(Outcomes(lines))
  }

  /** The line loop: strip, classify, append. */
  method Parse(lines: seq<string>) returns (records: seq<Record>)
    ensures records == Records(lines)
  {
    records := [];
    for i := 0 to |lines|
      invariant records == Somes(Outcomes(lines)[..i])
    {
      var line := Strip(lines[i]);
      var r: Option<Record> := None;
      if IsBalanceLine(line) {
        r := Some(BalanceRecord(line));
      } else {
        var m := DateAt(line);
        if m.Some? {
          r := Some(DatedRecord(line, m.value));
        }
      }
      assert r == Outcomes(lines)[i];
      SomesSnoc(Outcomes(lines), i);
      if r.Some? {
        records := records + [r.value];
      }
    }
    assert Outcomes(lines)[..|lines|] == Outcomes(lines);
  }

  /**
   * One row per balance or dated line, in line order: the `j`-th row comes from the
   * `j`-th such line, and every such line gives one.
   */
  lemma OnePerLine(lines: seq<string>)
    ensures |Records(lines)| == |Positions(Outcomes(lines))|
    ensures forall j :: 0 <= j < |Records(lines)| ==>
              var k := Positions(Outcomes(lines))[j];
              k < |lines| && Outcome(lines[k]) == Some(Records(lines)[j])
    ensures forall k :: 0 <= k < |lines| && IsBalanceLine(Strip(lines[k])) ==> k in Positions(Outcomes(lines))
    ensures forall k, g :: 0 <= k < |lines| && DateReads(Strip(lines[k]), g) ==> k in Positions(Outcomes(lines))
  {
    SomesAtPositions(Outcomes(lines));
    assert forall k :: 0 <= k < |lines| ==> Outcomes(lines)[k] == Outcome(lines[k]);
  }

  /** A dated line's amount is the last token's value negated: unsigned tokens are debits, `-` tokens credits. */
  lemma DatedAmountSign(l: string, g: DateGroups)
    requires DateReads(l, g) && Amounts(Remaining(l, g)) != []
    ensures DatedRecord(l, g).amount == -Cents(LastAmount(Remaining(l, g)).text)
    ensures LastAmount(Remaining(l, g)).text[0] == '-' ==> DatedRecord(l, g).amount >= 0
    ensures LastAmount(Remaining(l, g)).text[0] != '-' ==> DatedRecord(l, g).amount <= 0
  {
  }

  /** A description has no surrounding whitespace, and is cut from the rest before the last amount token's last occurrence. */
  lemma DescriptionBeforeAmount(l: string, g: DateGroups)
    requires DateReads(l, g)
    ensures var d := DatedRecord(l, g).description;
            d == [] || (!IsSpace(d[0]) && !IsSpace(d[|d| - 1]))
    ensures var rem := Remaining(l, g);
            Amounts(rem) != [] ==> |DatedRecord(l, g).description| <= LastAmountPos(rem)
  {
    var rem := Remaining(l, g);
    var d := DatedRecord(l, g).description;
    if Amounts(rem) == [] {
      assert d == rem;
      StripShape(l[DateEnd(g)..]);
    } else {
      var pos := LastAmountPos(rem);
      assert d == Strip(rem[..pos]);
      StripShape(rem[..pos]);
    }
  }
}
