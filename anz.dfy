/**
 * The ANZ extractor. It runs `pattern.finditer` over the whole statement text
 * (pages joined by line feeds); a match reads
 *   `\d{2}/\d{2}/\d{4}\s+\d{2}/\d{2}/\d{4}\s+\d{4}\s+(.*?)\s+\$?([\d,]+\.\d{2})\s*(CR)?\s+\$?([\d,]+\.\d{2})`
 * (processed date, transaction date, card, description, amount, credit label,
 * balance). Each match becomes a record dated by its transaction date; the amount
 * is positive when `CR` follows it and negative otherwise; the first match whose
 * transaction date is not a calendar date makes `strptime` raise, and the whole
 * run ends with an error instead of a list.
 */
module Anz {
  import opened Wrappers
  import opened Text
  import opened Calendar
  import opened Ledger
  import opened Patterns

  /** `\d{2}/\d{2}/\d{4}` at `p`. */
  predicate DateTextAt(s: string, p: nat) {
    p + 10 <= |s| && IsDigit(s[p]) && IsDigit(s[p + 1]) && s[p + 2] == '/'
    && IsDigit(s[p + 3]) && IsDigit(s[p + 4]) && s[p + 5] == '/'
    && IsDigit(s[p + 6]) && IsDigit(s[p + 7]) && IsDigit(s[p + 8]) && IsDigit(s[p + 9])
  }

  /** `\d{4}` at `p`: the card field. */
  predicate CardAt(s: string, p: nat) {
    p + 4 <= |s| && IsDigit(s[p]) && IsDigit(s[p + 1]) && IsDigit(s[p + 2]) && IsDigit(s[p + 3])
  }

  /** `CR` at `k`. */
  predicate CreditLabelAt(t: string, k: nat) {
    k + 2 <= |t| && t[k] == 'C' && t[k + 1] == 'R'
  }

  /** `t[lo..hi]` reads `\s+\$?`. */
  predicate SpacedDollar(t: string, lo: nat, hi: nat)
    requires hi <= |t|
  {
    lo < hi && SpacesIn(t, lo, hi - 1) && (IsSpace(t[hi - 1]) || (t[hi - 1] == '$' && lo < hi - 1))
  }

  /** `t[lo..f]` reads `\s+\$?([\d,]+\.\d{2})` with the token at `t[z..f]`. */
  predicate TokenReads(t: string, lo: nat, z: nat, f: nat) {
    z < f <= |t| && SpacedDollar(t, lo, z) && CommaAmountAt(t, z, f - z)
  }

  /** Where the whitespace run from `e` ends: the end of `\s*`, which takes the whole run. */
  function SpaceEnd(t: string, e: nat): nat
    requires e <= |t|
  {
    e + Run(t, e, IsSpace)
  }

  /** The token of a reading starts right after the whitespace run, or after the `$` that ends it. */
  lemma TokenStart(t: string, lo: nat, z: nat, f: nat)
    requires TokenReads(t, lo, z, f)
    ensures !IsSpace(t[z]) && t[z] != '$' && t[z] != 'C'
    ensures SpaceEnd(t, lo) == z || (SpaceEnd(t, lo) == z - 1 && t[z - 1] == '$')
  {
    assert IsDigitOrComma(t[z]);
    if IsSpace(t[z - 1]) {
      RunIs(t, lo, z - lo, IsSpace);
    } else {
      RunIs(t, lo, z - 1 - lo, IsSpace);
    }
  }

  /** `\s+\$?([\d,]+\.\d{2})` from `lo`: where the token starts and ends. */
  function TokenAfter(t: string, lo: nat): (r: Option<(nat, nat)>)
    requires lo <= |t|
    ensures r.Some? ==> lo < r.value.0 < r.value.1 <= |t|
  {
    var w := SpaceEnd(t, lo);
    var z := if w < |t| && t[w] == '$' then w + 1 else w;
    var m := CommaAmountLen(t, z);
    if w == lo || m == 0 then None else Some((z, z + m))
  }

  /** What `TokenAfter` finds is a reading. */
  lemma TokenAfterSound(t: string, lo: nat)
    requires lo <= |t|
    ensures var r := TokenAfter(t, lo);
            r.Some? ==> TokenReads(t, lo, r.value.0, r.value.1)
  {
  }

  /** A token read after `lo` is the one `TokenAfter` finds: the whitespace, the `$` and the token are all forced. */
  lemma TokenAfterComplete(t: string, lo: nat, z: nat, f: nat)
    requires TokenReads(t, lo, z, f)
    ensures TokenAfter(t, lo) == Some((z, f))
  {
    TokenStart(t, lo, z, f);
  }

  /** Where the amount and the balance lie in the text after the description, and whether `CR` was captured. */
  datatype Tail = Tail(amountStart: nat, amountEnd: nat, credit: bool, balanceStart: nat, balanceEnd: nat)

  /** Where `\s+\$?(balance)` starts: after the label when there is one, else right after the amount. */
  function BalanceFrom(t: string, e: nat, credit: bool): (b: nat)
    requires e <= |t| && (credit ==> CreditLabelAt(t, SpaceEnd(t, e)))
    ensures e <= b <= |t|
  {
    if credit then SpaceEnd(t, e) + 2 else e
  }

  /**
   * `t` starts with `\s+\$?(amount)\s*(CR)?\s+\$?(balance)` read as `x`. The `\s*` before
   * the label takes the whole whitespace run after the amount: a shorter one would leave
   * whitespace where `C` is needed.
   */
  predicate TailReads(t: string, x: Tail) {
    TokenReads(t, 0, x.amountStart, x.amountEnd)
    && (x.credit ==> CreditLabelAt(t, SpaceEnd(t, x.amountEnd)))
    && TokenReads(t, BalanceFrom(t, x.amountEnd, x.credit), x.balanceStart, x.balanceEnd)
  }

  /** The rest of a match after its description, as the engine reads it (see `TailAtSound` and `TailAtComplete`). */
  function TailAt(t: string): (r: Option<Tail>)
    ensures r.Some? ==> 0 < r.value.amountStart < r.value.amountEnd < r.value.balanceStart < r.value.balanceEnd <= |t|
  {
    match TokenAfter(t, 0)
    case None => None
    case Some((x, e)) =>
      var credit := CreditLabelAt(t, SpaceEnd(t, e));
      match TokenAfter(t, BalanceFrom(t, e, credit))
      case None => None
      case Some((z, f)) => Some(Tail(x, e, credit, z, f))
  }

  /** What `TailAt` finds is a reading of the tail. */
  lemma TailAtSound(t: string)
    ensures TailAt(t).Some? ==> TailReads(t, TailAt(t).value)
  {
    TokenAfterSound(t, 0);
    match TokenAfter(t, 0)
    case None =>
    case Some((x, e)) =>
      TokenAfterSound(t, BalanceFrom(t, e, CreditLabelAt(t, SpaceEnd(t, e))));
  }

  /**
   * Every reading of the tail is the one `TailAt` finds, so a tail has at most one reading;
   * in particular the label is captured exactly when `CR` follows the whitespace after the amount.
   */
  lemma TailAtComplete(t: string, x: Tail)
    requires TailReads(t, x)
    ensures TailAt(t) == Some(x)
  {
    TokenAfterComplete(t, 0, x.amountStart, x.amountEnd);
    if !x.credit {
      TokenStart(t, x.amountEnd, x.balanceStart, x.balanceEnd);
    }
    TokenAfterComplete(t, BalanceFrom(t, x.amountEnd, x.credit), x.balanceStart, x.balanceEnd);
  }

  /** The `tail` argument of the description split: the rest of the pattern can be read. */
  predicate AnzTail(t: string) {
    TailAt(t).Some?
  }

  /**
   * Where the groups of a match lie: the transaction date at `txDate`, the card at `card`,
   * the text after the card split at `a` and `b` into `\s+`, `(.*?)` and the tail `tail`.
   */
  datatype Row = Row(txDate: nat, card: nat, a: nat, b: nat, tail: Tail)

  /** The text after the card field. */
  function Rest(s: string, card: nat): string
    requires card + 4 <= |s|
  {
    s[card + 4..]
  }

  /** Where a match read as `row` ends: after the balance. */
  function MatchEnd(row: Row): nat {
    row.card + 4 + row.b + row.tail.balanceEnd
  }

  /** A greedy `\s+` before a field that cannot start with whitespace ends where the run ends. */
  lemma SpaceEndAt(s: string, lo: nat, hi: nat)
    requires lo <= hi < |s| && SpacesIn(s, lo, hi) && !IsSpace(s[hi])
    ensures SpaceEnd(s, lo) == hi
  {
    RunIs(s, lo, hi - lo, IsSpace);
  }

  /**
   * `s` reads, from `p`, the processed date, `\s+`, the transaction date at `q`, `\s+` and
   * the card at `c`.
   */
  predicate FieldsRead(s: string, p: nat, q: nat, c: nat) {
    DateTextAt(s, p) && p + 10 < q && DateTextAt(s, q) && SpacesIn(s, p + 10, q)
    && q + 10 < c && CardAt(s, c) && SpacesIn(s, q + 10, c)
  }

  /** The fixed fields at the start of a match: where the transaction date and the card are. */
  function Fields(s: string, p: nat): (r: Option<(nat, nat)>)
    ensures r.Some? ==> p + 10 < r.value.0 && r.value.0 + 10 < r.value.1 && r.value.1 + 4 <= |s|
  {
    if !DateTextAt(s, p) then None
    else
      var q := SpaceEnd(s, p + 10);
      if q == p + 10 || !DateTextAt(s, q) then None
      else
        var c := SpaceEnd(s, q + 10);
        if c == q + 10 || !CardAt(s, c) then None
        else Some((q, c))
  }

  /** The fields `Fields` finds are read, and they are the only reading. */
  lemma FieldsExact(s: string, p: nat, q: nat, c: nat)
    ensures Fields(s, p) == Some((q, c)) <==> FieldsRead(s, p, q, c)
  {
    if FieldsRead(s, p, q, c) {
      SpaceEndAt(s, p + 10, q);
      SpaceEndAt(s, q + 10, c);
    }
  }

  /** A match starting at `p` reads as `row`. */
  ghost predicate RowReads(s: string, p: nat, row: Row) {
    FieldsRead(s, p, row.txDate, row.card)
    && SplitOk(Rest(s, row.card), 0, AnzTail, row.a, row.b)
    && TailReads(Rest(s, row.card)[row.b..], row.tail)
  }

  /** The positions of `row` lie in order inside `s`. */
  predicate RowBounds(s: string, p: nat, row: Row) {
    p + 10 < row.txDate && row.txDate + 10 < row.card && row.card + 4 <= |s|
    && row.a <= row.b <= |Rest(s, row.card)|
    && row.tail.amountStart < row.tail.amountEnd < row.tail.balanceEnd <= |Rest(s, row.card)[row.b..]|
  }

  /** The match of `pattern` that starts at `p`, if there is one. */
  function RowAt(s: string, p: nat): (r: Option<Row>)
    ensures r.Some? ==> RowBounds(s, p, r.value) && p < MatchEnd(r.value) <= |s|
  {
    match Fields(s, p)
    case None => None
    case Some((q, c)) =>
      match LazySplit(Rest(s, c), 0, AnzTail)
      case None => None
      case Some((a, b)) => Some(Row(q, c, a, b, TailAt(Rest(s, c)[b..]).value))
  }

  /** What `RowAt` finds is a reading, and its description is the one the engine settles on. */
  lemma RowAtSound(s: string, p: nat)
    ensures var r := RowAt(s, p);
            r.Some? ==> RowReads(s, p, r.value) && FirstSplit(Rest(s, r.value.card), 0, AnzTail, r.value.a, r.value.b)
  {
    match Fields(s, p)
    case None =>
    case Some((q, c)) =>
      FieldsExact(s, p, q, c);
      LazySplitIsFirst(Rest(s, c), 0, AnzTail);
      match LazySplit(Rest(s, c), 0, AnzTail)
      case None =>
      case Some((a, b)) =>
        TailAtSound(Rest(s, c)[b..]);
  }

  /** The amount of a match is a reading of the amount token. */
  lemma RowAmount(s: string, p: nat, row: Row)
    requires RowAt(s, p) == Some(row)
    ensures TokenReads(Rest(s, row.card)[row.b..], 0, row.tail.amountStart, row.tail.amountEnd)
  {
    match Fields(s, p)
    case Some((q, c)) =>
      match LazySplit(Rest(s, c), 0, AnzTail)
      case Some((a, b)) =>
        TailAtSound(Rest(s, c)[b..]);
  }

  /** The transaction date of a match is a date field. */
  lemma RowDate(s: string, p: nat, row: Row)
    requires RowAt(s, p) == Some(row)
    ensures DateTextAt(s, row.txDate)
  {
    match Fields(s, p)
    case Some((q, c)) =>
      FieldsExact(s, p, q, c);
  }

  /** Every reading at `p` with the engine's description split is the match `RowAt` finds. */
  lemma RowAtComplete(s: string, p: nat, row: Row)
    requires RowReads(s, p, row) && FirstSplit(Rest(s, row.card), 0, AnzTail, row.a, row.b)
    ensures RowAt(s, p) == Some(row)
  {
    assert Fields(s, p) == Some((row.txDate, row.card)) by {
      FieldsExact(s, p, row.txDate, row.card);
    }
    FirstSplitFound(Rest(s, row.card), 0, AnzTail, row.a, row.b);
    TailAtComplete(Rest(s, row.card)[row.b..], row.tail);
  }

  /** `pattern` as a match length at each index, for `FindAll`. */
  function RowLen(s: string, p: nat): nat {
    match RowAt(s, p)
    case None => 0
    case Some(row) => MatchEnd(row) - p
  }

  lemma RowLenBounded(s: string)
    ensures Bounded(s, RowLen)
  {
  }

  /** `m.group("date_transaction")`, `m.group("description")`, `m.group("amount")` and whether `m.group("credit_label")` is set. */
  datatype Groups = Groups(dateTransaction: string, description: string, amount: string, creditLabel: bool)

  /** What the groups of every match look like. */
  predicate WellFormed(g: Groups) {
    |g.dateTransaction| == 10 && DateTextAt(g.dateTransaction, 0) && IsCommaAmount(g.amount)
  }

  lemma DateTextSlice(s: string, q: nat)
    requires DateTextAt(s, q)
    ensures |s[q..q + 10]| == 10 && DateTextAt(s[q..q + 10], 0)
  {
  }

  /** The reading of the match `m` that `finditer` yields. */
  function RowOf(s: string, m: Token): (row: Row)
    requires MatchedAt(s, RowLen, m)
    ensures RowAt(s, m.start) == Some(row)
  {
    RowAt(s, m.start).value
  }

  /** The groups of a match read as `row`. */
  function GroupsOf(s: string, p: nat, row: Row): Groups
    requires RowBounds(s, p, row)
  {
    var t := Rest(s, row.card)[row.b..];
    Groups(s[row.txDate..row.txDate + 10], Rest(s, row.card)[row.a..row.b],
           t[row.tail.amountStart..row.tail.amountEnd], row.tail.credit)
  }

  /** A date field and an amount token, cut out of the line, are groups of the shape every match has. */
  lemma GroupsWellFormed(s: string, p: nat, row: Row)
    requires RowBounds(s, p, row) && DateTextAt(s, row.txDate)
    requires TokenReads(Rest(s, row.card)[row.b..], 0, row.tail.amountStart, row.tail.amountEnd)
    ensures WellFormed(GroupsOf(s, p, row))
  {
    DateTextSlice(s, row.txDate);
    CommaAmountSlice(Rest(s, row.card)[row.b..], row.tail.amountStart, row.tail.amountEnd);
  }

  /** `datetime.strptime(d, "%d/%m/%Y")` before its calendar check: day, month and year fields. */
  function ReadDate(d: string): (date: Date)
    requires DateTextAt(d, 0)
    ensures Iso(date) == d[6..10] + "-" + d[3..5] + "-" + d[..2]
  {
    assert AllDigits(d[6..10]) && AllDigits(d[3..5]) && AllDigits(d[..2]) by {
      assert d[6..10] == [d[6], d[7], d[8], d[9]];
      assert d[3..5] == [d[3], d[4]] && d[..2] == [d[0], d[1]];
    }
    IsoOfDigits(d[6..10], d[3..5], d[..2]);
    Date(Value(d[6..10]), Value(d[3..5]), Value(d[..2]))
  }

  /**
   * One iteration of the `finditer` loop: the transaction date, reformatted, fails the
   * whole run when it is not a calendar date; the amount is signed by the label.
   */
  function Convert(g: Groups): (r: Result<Transaction, string>)
    requires WellFormed(g)
    ensures r.Ok? <==> IsValid(ReadDate(g.dateTransaction))
    ensures r.Err? ==> r.error == g.dateTransaction
    ensures r.Ok? ==> r.value.date == ReadDate(g.dateTransaction)
    ensures r.Ok? ==> r.value.description == Strip(g.description)
  {
    var date := ReadDate(g.dateTransaction);
    if !IsValid(date) then Err(g.dateTransaction)
    else
      CommaAmountIsDecimal(g.amount);
      var amount := Cents(g.amount);
      Ok(Transaction(date, Strip(g.description), if g.creditLabel then amount else -amount))
  }

  /** With the label the amount is the token's value, without it the value negated. */
  lemma ConvertSign(g: Groups)
    requires WellFormed(g) && Convert(g).Ok?
    ensures IsDecimalToken(g.amount)
    ensures g.creditLabel ==> Convert(g).value.amount == Cents(g.amount) >= 0
    ensures !g.creditLabel ==> Convert(g).value.amount == -Cents(g.amount) <= 0
  {
    CommaAmountIsDecimal(g.amount);
  }

  /** The matches `finditer` yields over `text`: leftmost, not overlapping, in text order. */
  function Matches(text: string): seq<Token> {
    RowLenBounded(text);
    FindAll(text, 0, RowLen)
  }

  /** The matches are leftmost, do not overlap, and every row of `text` outside them is inside one. */
  lemma MatchesScanned(text: string)
    ensures Scanned(text, RowLen, 0, Matches(text))
  {
    RowLenBounded(text);
    FindAllScanned(text, 0, RowLen);
  }

  /** The groups of the match `m` that `finditer` yields over `s`. */
  function MatchGroupsOf(s: string, m: Token): (g: Groups)
    requires m in Matches(s)
    ensures WellFormed(g)
  {
    assert MatchedAt(s, RowLen, m) by {
      MatchesScanned(s);
      ScannedTokens(s, RowLen, 0, Matches(s));
    }
    var row := RowOf(s, m);
    RowAmount(s, m.start, row);
    RowDate(s, m.start, row);
    GroupsWellFormed(s, m.start, row);
    GroupsOf(s, m.start, row)
  }

  /** The groups of each match, in the order `finditer` yields them. */
  function MatchGroups(text: string): (gs: seq<Groups>)
    ensures |gs| == |Matches(text)|
    ensures forall k :: 0 <= k < |gs| ==> WellFormed(gs[k])
  {
    var ms := Matches(text);
    seq(|ms|, k requires 0 <= k < |ms| => MatchGroupsOf(text, ms[k]))
  }

  /** What each match turns into, in order. */
  function Outcomes(gs: seq<Groups>): (os: seq<Result<Transaction, string>>)
    requires forall k :: 0 <= k < |gs| ==> WellFormed(gs[k])
    ensures |os| == |gs|
  {
    seq(|gs|, k requires 0 <= k < |gs| => Convert(gs[k]))
  }

  /** The printed list, or the error that ends the run. */
  function Transactions(text: string): Result<seq<Transaction>, string> {
    Sequence(Outcomes(MatchGroups(text)))
  }

  /**
   * The body of the `finditer` loop over the groups of the matches, in order; an exception
   * from `strptime` ends it with nothing but the error.
   */
  method ConvertEach(gs: seq<Groups>) returns (r: Result<seq<Transaction>, string>)
    requires forall k :: 0 <= k < |gs| ==> WellFormed(gs[k])
    ensures r == Sequence(Outcomes(gs))
  {
    ghost var os := Outcomes(gs);
    var transactions := [];
    var i := 0;
    while i < |gs|
      invariant 0 <= i <= |gs|
      invariant Sequence(os[..i]) == Ok(transactions)
    {
      var converted := Convert(gs[i]);
      SequenceStep(os, i, transactions);
      if converted.Err? {
        return Err(converted.error);
      }
      transactions := transactions + [converted.value];
      i := i + 1;
    }
    assert os[..i] == os;
    return Ok(transactions);
  }

  /** `parse_pdf_anz`: the matches of the whole text, converted in order. */
  method Parse(text: string) returns (r: Result<seq<Transaction>, string>)
    ensures r == Transactions(text)
  {
    r := ConvertEach(MatchGroups(text));
  }

  /**
   * Converting the matches succeeds exactly when every transaction date is a calendar
   * date, and then the `k`-th record is the conversion of the `k`-th match.
   */
  lemma ConvertAll(gs: seq<Groups>)
    requires forall k :: 0 <= k < |gs| ==> WellFormed(gs[k])
    ensures Sequence(Outcomes(gs)).Ok? <==> forall k :: 0 <= k < |gs| ==> IsValid(ReadDate(gs[k].dateTransaction))
    ensures Sequence(Outcomes(gs)).Ok? ==> forall k :: 0 <= k < |gs| ==> Convert(gs[k]) == Ok(Sequence(Outcomes(gs)).value[k])
  {
    var os := Outcomes(gs);
    SequenceOk(os);
    forall k | 0 <= k < |gs| ensures os[k].Ok? <==> IsValid(ReadDate(gs[k].dateTransaction)) {
      assert os[k] == Convert(gs[k]);
    }
  }

  /** A failed conversion reports the transaction date of the first match whose date is not a calendar date. */
  lemma ConvertFails(gs: seq<Groups>)
    requires forall k :: 0 <= k < |gs| ==> WellFormed(gs[k])
    ensures Sequence(Outcomes(gs)).Err? ==>
              exists k :: 0 <= k < |gs| && !IsValid(ReadDate(gs[k].dateTransaction))
                          && Sequence(Outcomes(gs)).error == gs[k].dateTransaction
                          && forall j :: 0 <= j < k ==> IsValid(ReadDate(gs[j].dateTransaction))
  {
    var os := Outcomes(gs);
    SequenceErr(os);
    if Sequence(os).Err? {
      var k :| 0 <= k < |os| && os[k] == Err(Sequence(os).error) && forall j :: 0 <= j < k ==> os[j].Ok?;
      assert os[k] == Convert(gs[k]);
      forall j | 0 <= j < k ensures IsValid(ReadDate(gs[j].dateTransaction)) {
        assert os[j] == Convert(gs[j]);
      }
    }
  }
}
