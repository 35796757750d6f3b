/**
 * The Westpac credit-card extractor. A cursor walks the stripped lines of the
 * statement. A line that starts with `dd/dd/yy` and whitespace opens a candidate when
 * its date exists; the candidate's description is the rest of that line joined with
 * single spaces to every following line up to the first line that holds two or more
 * amount tokens `\d{1,3}(?:,\d{3})*\.\d{2}`, which is consumed as its amounts line.
 * The amount is the first token of that line: a debit with three tokens, and with two
 * a credit when the description names a `Deposit` or `Refund`, a debit otherwise; any
 * other token count, or reaching the end without an amounts line, discards the
 * candidate. Scanning resumes after the amounts line.
 */
module WestpacCreditCard {
  import opened Wrappers
  import opened Text
  import opened Calendar
  import opened Ledger
  import opened Patterns

  /** `date_pattern.match(l)` up to its second group: `\d{2}/\d{2}/\d{2}` and whitespace at the start of `l`. */
  predicate DateStarts(l: string) {
    |l| >= 9 && IsDigit(l[0]) && IsDigit(l[1]) && l[2] == '/' && IsDigit(l[3]) && IsDigit(l[4])
    && l[5] == '/' && IsDigit(l[6]) && IsDigit(l[7]) && IsSpace(l[8])
  }

  /**
   * `m.group(2).strip()`: the greedy `\s+` takes the whole whitespace run after the date,
   * since `(.*)` matches whatever follows; the group runs to a line feed.
   */
  function Remainder(l: string): string
    requires DateStarts(l)
  {
    var r := 8 + Run(l, 8, IsSpace);
    Strip(l[r..r + Run(l, r, IsDot)])
  }

  /** The two-digit fields of the date: day `l[..2]`, month `l[3..5]`, year `l[6..8]`. */
  lemma DateFieldsAreDigits(l: string)
    requires DateStarts(l)
    ensures AllDigits(l[..2]) && AllDigits(l[3..5]) && AllDigits(l[6..8])
  {
    assert l[..2] == [l[0], l[1]] && l[3..5] == [l[3], l[4]] && l[6..8] == [l[6], l[7]];
  }

  /** `d` is the date `dd/mm/yy` spells: that day and month, and the year of 1969-2068 ending in `yy`. */
  predicate DateFits(l: string, d: Date)
    requires DateStarts(l)
  {
    DateFieldsAreDigits(l);
    d.day == Value(l[..2]) && d.month == Value(l[3..5])
    && 1969 <= d.year <= 2068 && d.year % 100 == Value(l[6..8])
  }

  /**
   * `datetime.strptime(raw_date, "%d/%m/%y")`: the date the fields spell when it exists,
   * and nothing (the exception the loop skips the line on) otherwise.
   */
  function ParseDate(l: string): (r: Option<Date>)
    requires DateStarts(l)
    ensures r.Some? ==> IsValid(r.value) && DateFits(l, r.value)
    ensures forall d :: IsValid(d) && DateFits(l, d) ==> r == Some(d)
  {
    DateFieldsAreDigits(l);
    var yy := Value(l[6..8]);
    assert yy < 100 by {
      ValueBound(l[6..8]);
    }
    assert forall y: nat :: 1969 <= y <= 2068 && y % 100 == yy ==> y == ExpandYear(yy) by {
      forall y: nat | 1969 <= y <= 2068 && y % 100 == yy ensures y == ExpandYear(yy) {
        ExpandYearUnique(yy, y);
      }
    }
    var d := Date(ExpandYear(yy), Value(l[3..5]), Value(l[..2]));
    if IsValid(d) then Some(d) else None
  }

  /** `re.findall(r"\d{1,3}(?:,\d{3})*\.\d{2}", s)`, with where each token starts. */
  function Amounts(s: string): seq<Token> {
    PatternsBounded(s);
    FindAll(s, 0, GroupedAmountPattern)
  }

  /** The tokens are `findall`'s: leftmost, not overlapping, and every grouped amount of `s` outside them is inside one. */
  lemma AmountsScanned(s: string)
    ensures Scanned(s, GroupedAmountPattern, 0, Amounts(s))
  {
    PatternsBounded(s);
    FindAllScanned(s, 0, GroupedAmountPattern);
  }

  /** Every token `findall` returns is an unsigned amount `Cents` can read. */
  lemma AmountTokens(s: string)
    ensures forall k :: 0 <= k < |Amounts(s)| ==> IsDecimalToken(Amounts(s)[k].text) && Amounts(s)[k].text[0] != '-'
  {
    var ts := Amounts(s);
    assert forall k :: 0 <= k < |ts| ==> MatchedAt(s, GroupedAmountPattern, ts[k]) by {
      AmountsScanned(s);
      ScannedTokens(s, GroupedAmountPattern, 0, ts);
    }
    forall k | 0 <= k < |ts| ensures IsDecimalToken(ts[k].text) && ts[k].text[0] != '-' {
      TokenIsAmount(s, ts[k]);
    }
  }

  lemma TokenIsAmount(s: string, t: Token)
    requires MatchedAt(s, GroupedAmountPattern, t)
    ensures IsDecimalToken(t.text) && t.text[0] != '-'
  {
    GroupedAmountText(s, t.start, |t.text|, false);
    GroupedIsDecimal(t.text, false);
    CommaAmountIsDecimal(t.text);
  }

  /** A line that closes a description: it holds at least two amount tokens. */
  predicate IsAmountsLine(s: string) {
    |Amounts(s)| >= 2
  }

  /** The first line after `i` whose stripped text is an amounts line; `|lines|` when there is none. */
  function AmountsLineAfter(lines: seq<string>, i: nat): (j: nat)
    requires i < |lines|
    ensures i < j <= |lines|
    ensures forall k {:trigger IsAmountsLine(Strip(lines[k]))} :: i < k < j ==> !IsAmountsLine(Strip(lines[k]))
    ensures j < |lines| ==> IsAmountsLine(Strip(lines[j]))
    decreases |lines| - i
  {
    if i + 1 >= |lines| then |lines|
    else if IsAmountsLine(Strip(lines[i + 1])) then i + 1
    else AmountsLineAfter(lines, i + 1)
  }

  /** The description parts of a candidate opened at `start`: `first`, then the stripped lines before `hi`. */
  function Parts(lines: seq<string>, start: nat, first: string, hi: nat): seq<string>
    requires start < hi <= |lines|
    decreases hi
  {
    if hi == start + 1 then [first] else Parts(lines, start, first, hi - 1) + [Strip(lines[hi - 1])]
  }

  /** The parts are `first`, then every following line up to `hi`, stripped, date lines included. */
  lemma {:induction false} PartsLines(lines: seq<string>, start: nat, first: string, hi: nat)
    requires start < hi <= |lines|
    ensures var r := Parts(lines, start, first, hi);
            |r| == hi - start && r[0] == first
            && forall k :: 0 < k < |r| ==> r[k] == Strip(lines[start + k])
    decreases hi
  {
    if hi > start + 1 {
      PartsLines(lines, start, first, hi - 1);
    }
  }

  /** The description names a deposit or a refund (case matters). */
  predicate NamesCredit(description: string) {
    Contains(description, "Deposit") || Contains(description, "Refund")
  }

  /**
   * The amount the tokens of the amounts line give: the first token, negated as a debit,
   * unless there are exactly two and the description names a credit; none for any count
   * but two or three.
   */
  function Pick(amountsLine: string, description: string): (r: Option<int>)
    ensures r.Some? <==> |Amounts(amountsLine)| == 2 || |Amounts(amountsLine)| == 3
    ensures r.Some? ==> IsDecimalToken(Amounts(amountsLine)[0].text)
    ensures r.Some? ==> r.value == Cents(Amounts(amountsLine)[0].text) || r.value == -Cents(Amounts(amountsLine)[0].text)
    ensures r.Some? && r.value > 0 ==> |Amounts(amountsLine)| == 2 && NamesCredit(description)
    ensures |Amounts(amountsLine)| == 2 && NamesCredit(description) ==> r.Some? && r.value >= 0
    ensures |Amounts(amountsLine)| == 3 ==> r.Some? && r.value <= 0
  {
    var ts := Amounts(amountsLine);
    AmountTokens(amountsLine);
    if |ts| == 3 then Some(-Cents(ts[0].text))
    else if |ts| == 2 then
      if NamesCredit(description) then Some(Cents(ts[0].text)) else Some(-Cents(ts[0].text))
    else None
  }

  /** What one step of the cursor loop does: the transaction it emits, if any, and where the cursor goes next. */
  datatype Stepped = Stepped(emitted: Option<Transaction>, next: nat)

  /**
   * One outer iteration at cursor `i`: a line that is not a dated line, or whose date does
   * not exist, is passed over; otherwise a candidate opens.
   */
  function Step(lines: seq<string>, i: nat): (s: Stepped)
    requires i < |lines|
    ensures i < s.next <= |lines|
  {
    var l := Strip(lines[i]);
    if !DateStarts(l) then Stepped(None, i + 1)
    else
      match ParseDate(l)
      case None => Stepped(None, i + 1)
      case Some(d) => Opened(lines, i, d)
  }

  /**
   * A candidate opened at `i` with the date `d`: it reads up to its amounts line and goes
   * on after it, or to the end when there is none.
   */
  function Opened(lines: seq<string>, i: nat, d: Date): (s: Stepped)
    requires i < |lines| && DateStarts(Strip(lines[i]))
    ensures i < s.next <= |lines|
  {
    var j := AmountsLineAfter(lines, i);
    var description := Join(Parts(lines, i, Remainder(Strip(lines[i])), j), " ");
    var amountsLine := if j < |lines| then Strip(lines[j]) else "";
    var emitted := match Pick(amountsLine, description)
                   case None => None
                   case Some(a) => Some(Transaction(d, description, a));
    Stepped(emitted, if j < |lines| then j + 1 else |lines|)
  }

  /** The transactions the cursor loop emits from cursor `i` on. */
  function From(lines: seq<string>, i: nat): seq<Transaction>
    decreases |lines| - i
  {
    if i >= |lines| then []
    else
      var s := Step(lines, i);
      (if s.emitted.Some? then [s.emitted.value] else []) + From(lines, s.next)
  }

  /** From cursor `i` on, the loop emits what the step at `i` emits, then goes on from where that step leaves the cursor. */
  lemma FromStep(lines: seq<string>, i: nat, emitted: Option<Transaction>, next: nat)
    requires i < |lines| && Stepped(emitted, next) == Step(lines, i)
    ensures From(lines, i) == Emit(emitted) + From(lines, next)
  {
  }

  function Emit(o: Option<Transaction>): seq<Transaction> {
    if o.Some? then [o.value] else []
  }

  lemma AppendAssoc<T>(a: seq<T>, b: seq<T>, c: seq<T>)
    ensures (a + b) + c == a + (b + c)
  {
  }

  /**
   * A candidate with no amounts line after it is discarded, and the scan ends: the
   * stitching loop ran into the end of the input.
   */
  lemma OpenedAtEnd(lines: seq<string>, i: nat, d: Date)
    requires i < |lines| && DateStarts(Strip(lines[i])) && AmountsLineAfter(lines, i) == |lines|
    ensures Opened(lines, i, d) == Stepped(None, |lines|)
  {
    assert Amounts("") == [];
  }

  /**
   * What an emitted transaction is made of: its line opens with a date that exists, which
   * it carries; its description joins the remainder and the lines up to the first amounts
   * line with single spaces; its amount is what that line's tokens give; the scan resumes
   * after that line.
   */
  lemma StepEmits(lines: seq<string>, i: nat)
    requires i < |lines| && Step(lines, i).emitted.Some?
    ensures var l := Strip(lines[i]);
            var t := Step(lines, i).emitted.value;
            var j := AmountsLineAfter(lines, i);
            DateStarts(l) && ParseDate(l) == Some(t.date) && j < |lines| && Step(lines, i).next == j + 1
            && t.description == Join(Parts(lines, i, Remainder(l), j), " ")
            && Pick(Strip(lines[j]), t.description) == Some(t.amount)
  {
    assert Pick("", Step(lines, i).emitted.value.description).None? by {
      assert Amounts("") == [];
    }
  }

  /**
   * Every transaction emitted from cursor `i` on carries a date that exists, in 1969-2068,
   * and an amount that is positive only when its description names a deposit or a refund.
   */
  lemma {:induction false} FromRecords(lines: seq<string>, i: nat)
    ensures forall t :: t in From(lines, i) ==>
              IsValid(t.date) && 1969 <= t.date.year <= 2068 && (t.amount > 0 ==> NamesCredit(t.description))
    decreases |lines| - i
  {
    if i < |lines| {
      var s := Step(lines, i);
      FromStep(lines, i, s.emitted, s.next);
      FromRecords(lines, s.next);
      if s.emitted.Some? {
        StepRecord(lines, i);
      }
    }
  }

  /** The transaction one step emits has a date that exists, in 1969-2068, and is positive only as a named credit. */
  lemma StepRecord(lines: seq<string>, i: nat)
    requires i < |lines| && Step(lines, i).emitted.Some?
    ensures var t := Step(lines, i).emitted.value;
            IsValid(t.date) && 1969 <= t.date.year <= 2068 && (t.amount > 0 ==> NamesCredit(t.description))
  {
    StepEmits(lines, i);
  }

  /** The scan emits at most one transaction per line from the cursor on. */
  lemma {:induction false} FromBound(lines: seq<string>, i: nat)
    requires i <= |lines|
    ensures |From(lines, i)| <= |lines| - i
    decreases |lines| - i
  {
    if i < |lines| {
      var s := Step(lines, i);
      FromStep(lines, i, s.emitted, s.next);
      FromBound(lines, s.next);
    }
  }

  /** The transactions of a statement whose lines are `lines`. */
  function Transactions(lines: seq<string>): seq<Transaction> {
    From(lines, 0)
  }

  /** The body of the outer loop at cursor `start`: the date check, then the candidate. */
  method Candidate(lines: seq<string>, start: nat) returns (emitted: Option<Transaction>, next: nat)
    requires start < |lines|
    ensures Stepped(emitted, next) == Step(lines, start)
  {
    var line := Strip(lines[start]);
    if !DateStarts(line) {
      return None, start + 1;
    }
    var parsedDate := ParseDate(line);
    if parsedDate.None? {
      return None, start + 1;
    }
    var parts, amountsLine, i := Stitch(lines, start, Remainder(line));
    var description := Join(parts, " ");
    var amount := Settle(amountsLine, description);
    if amount.None? {
      return None, i + 1;
    }
    return Some(Transaction(parsedDate.value, description, amount.value)), i + 1;
  }

  /**
   * The inner loop: from the candidate at `start`, take each following stripped line into
   * the description until one holds two or more amount tokens, which becomes the amounts
   * line and where the cursor stops; at the end of input the cursor stops on the last line.
   */
  method Stitch(lines: seq<string>, start: nat, first: string) returns (parts: seq<string>, amountsLine: string, i: nat)
    requires start < |lines|
    ensures var j := AmountsLineAfter(lines, start);
            parts == Parts(lines, start, first, j)
            && amountsLine == (if j < |lines| then Strip(lines[j]) else "")
            && i + 1 == (if j < |lines| then j + 1 else |lines|)
  {
    parts := [first];
    amountsLine := "";
    i := start;
    while i + 1 < |lines|
      invariant start <= i < |lines|
      invariant parts == Parts(lines, start, first, i + 1)
      invariant i < AmountsLineAfter(lines, start)
      decreases |lines| - i
    {
      var nextLine := Strip(lines[i + 1]);
      AmountsLineAfterNext(lines, start, i);
      if IsAmountsLine(nextLine) {
        amountsLine := nextLine;
        i := i + 1;
        return;
      }
      PartsSnoc(lines, start, first, i + 1);
      parts := parts + [nextLine];
      i := i + 1;
    }
  }

  lemma PartsSnoc(lines: seq<string>, start: nat, first: string, hi: nat)
    requires start < hi < |lines|
    ensures Parts(lines, start, first, hi + 1) == Parts(lines, start, first, hi) + [Strip(lines[hi])]
  {
  }

  /** Past a cursor that precedes the first amounts line, the next line is that line exactly when it is an amounts line. */
  lemma AmountsLineAfterNext(lines: seq<string>, start: nat, i: nat)
    requires start <= i && i + 1 < |lines| && i < AmountsLineAfter(lines, start)
    ensures AmountsLineAfter(lines, start) == i + 1 <==> IsAmountsLine(Strip(lines[i + 1]))
  {
  }

  /**
   * The column choice on the amounts line: with three tokens the first is the debit, with
   * two it is the credit when the description names one and the debit otherwise; a
   * non-empty debit wins, then a non-empty credit, and with neither there is no amount.
   */
  method Settle(amountsLine: string, description: string) returns (amount: Option<int>)
    ensures amount == Pick(amountsLine, description)
  {
    var amounts := Amounts(amountsLine);
    AmountTokens(amountsLine);
    assert |amounts| >= 2 ==> amounts[0].text != "";
    var debit, credit := "", "";
    if |amounts| == 3 {
      debit := amounts[0].text;
    } else if |amounts| == 2 {
      if NamesCredit(description) {
        credit := amounts[0].text;
      } else {
        debit := amounts[0].text;
      }
    }
    if debit != "" {
      amount := Some(-Cents(debit));
    } else if credit != "" {
      amount := Some(Cents(credit));
    } else {
      amount := None;
    }
  }

  /** The cursor loop over all lines. */
  method Parse(lines: seq<string>) returns (transactions: seq<Transaction>)
    ensures transactions == Transactions(lines)
  {
    transactions := [];
    var i := 0;
    while i < |lines|
      invariant i <= |lines|
      invariant transactions + From(lines, i) == Transactions(lines)
      decreases |lines| - i
    {
      var emitted, next := Candidate(lines, i);
      FromStep(lines, i, emitted, next);
      AppendAssoc(transactions, Emit(emitted), From(lines, next));
      transactions := transactions + Emit(emitted);
      i := next;
    }
  }
}
