/**
 * The American Express extractor. A line is a transaction when, stripped, it
 * reads `^(<full month name>)(\d{1,2})\s+(.+?)\s+(\d+\.\d{2})$`; its date is
 * `2025-<month>-<day>`, its amount the negated trailing amount, and its
 * description the lazy middle group, stripped, followed by ` Ref:<reference>`
 * when the NEXT line holds a `Reference:` marker. The cursor moves one line per
 * step whether or not a line matched, so the reference line is examined too.
 */
module Amex {
  import opened Wrappers
  import opened Text
  import opened Calendar
  import opened Ledger
  import opened Patterns

  /** `\d+\.\d{2}` covering all of `u`. */
  predicate IsPlainAmount(u: string) {
    |u| >= 4 && u[|u| - 3] == '.' && AllDigits(u[..|u| - 3]) && AllDigits(u[|u| - 2..])
  }

  /** `\s*(\d+\.\d{2})$` covering all of `t`; the amount starts with a digit, so the whitespace is the whole leading run. */
  predicate SpacedAmount(t: string)
    decreases |t|
  {
    if t != [] && IsSpace(t[0]) then SpacedAmount(t[1..]) else IsPlainAmount(t)
  }

  /** `\s+(\d+\.\d{2})$` covering all of `t`. */
  predicate AmountTail(t: string) {
    t != [] && IsSpace(t[0]) && SpacedAmount(t[1..])
  }

  /** The amount group of a tail: what is left after its leading whitespace. */
  lemma {:induction false} SpacedAmountGroup(t: string)
    requires SpacedAmount(t)
    ensures IsPlainAmount(t[Run(t, 0, IsSpace)..])
    decreases |t|
  {
    if t != [] && IsSpace(t[0]) {
      SpacedAmountGroup(t[1..]);
      RunStep(t, IsSpace);
      assert t[1..][Run(t[1..], 0, IsSpace)..] == t[Run(t, 0, IsSpace)..];
    }
  }

  /** Where the groups of a date line are: month number, day length and the whitespace/description split of the rest. */
  datatype Groups = Groups(month: nat, dayLen: nat, a: nat, b: nat)

  /*
   * The matcher takes the alternation's month names as a parameter `names`; the
   * extractor passes `MonthNames`, January to December.
   */

  /**
   * `l` reads as the date-line pattern with month `month` (its name `names[month - 1]`),
   * `dayLen` day digits and the rest after the day split at `a` and `b` as `\s+`,
   * `(.+?)` and the amount tail.
   */
  ghost predicate Reads(names: seq<string>, l: string, month: nat, dayLen: nat, a: nat, b: nat) {
    1 <= month <= |names| && names[month - 1] <= l
    && 1 <= dayLen <= 2 && DayStart(names, month) + dayLen <= |l|
    && AllDigits(l[DayStart(names, month)..DayStart(names, month) + dayLen])
    && SplitOk(Rest(names, l, month, dayLen), 1, AmountTail, a, b)
  }

  /** Where the day digits start: after the month name. */
  function DayStart(names: seq<string>, month: nat): nat
    requires 1 <= month <= |names|
  {
    |names[month - 1]|
  }

  /** The alternation `January|February|...|December` at the start of `l`: the index of the first of `names` that `l` starts with. */
  function FirstPrefix(names: seq<string>, l: string): (r: Option<nat>)
    ensures r.Some? ==> r.value < |names| && names[r.value] <= l
    decreases |names|
  {
    if names == [] then None
    else if names[0] <= l then Some(0)
    else match FirstPrefix(names[1..], l)
      case None => None
      case Some(i) => Some(i + 1)
  }

  /** No name is a prefix of another. */
  ghost predicate PrefixFree(names: seq<string>) {
    forall i, j :: 0 <= i < |names| && 0 <= j < |names| && names[i] <= names[j] ==> i == j
  }

  /** A text starts with at most one of a prefix-free list of names. */
  lemma OnePrefix(names: seq<string>, l: string, i: nat, j: nat)
    requires PrefixFree(names) && i < |names| && j < |names| && names[i] <= l && names[j] <= l
    ensures i == j
  {
    PrefixesNest(names[i], names[j], l);
  }

  /** When `l` starts with only one of `names`, the alternation picks that one. */
  lemma {:induction false} FirstPrefixOnly(names: seq<string>, l: string, j: nat)
    requires j < |names| && names[j] <= l
    requires forall i :: 0 <= i < |names| && names[i] <= l ==> i == j
    ensures FirstPrefix(names, l) == Some(j)
    decreases |names|
  {
    if !(names[0] <= l) {
      forall i | 0 <= i < |names| - 1 && names[1..][i] <= l ensures i == j - 1 {
        assert names[1..][i] == names[i + 1];
      }
      FirstPrefixOnly(names[1..], l, j - 1);
    }
  }

  /** The text after the month name and the day digits. */
  function Rest(names: seq<string>, l: string, month: nat, dayLen: nat): string
    requires 1 <= month <= |names| && DayStart(names, month) + dayLen <= |l|
  {
    l[DayStart(names, month) + dayLen..]
  }

  /**
   * Every reading of `l` has the month the alternation finds and the whole digit run
   * after it as the day, when no month name is a prefix of another.
   */
  lemma ReadingIsDetermined(names: seq<string>, l: string, month: nat, dayLen: nat, a: nat, b: nat)
    requires PrefixFree(names)
    ensures Reads(names, l, month, dayLen, a, b) ==>
              FirstPrefix(names, l) == Some(month - 1)
              && dayLen == Run(l, DayStart(names, month), IsDigit)
  {
    if Reads(names, l, month, dayLen, a, b) {
      forall i | 0 <= i < |names| && names[i] <= l ensures i == month - 1 {
        OnePrefix(names, l, i, month - 1);
      }
      FirstPrefixOnly(names, l, month - 1);
      var p := DayStart(names, month);
      var rest := Rest(names, l, month, dayLen);
      assert IsSpace(rest[0]);
      assert rest[0] == l[p + dayLen];
      DayRunIs(l, p, dayLen);
    }
  }

  /** Digits closed by whitespace are the whole digit run. */
  lemma DayRunIs(l: string, p: nat, n: nat)
    requires p + n < |l| && AllDigits(l[p..p + n]) && IsSpace(l[p + n])
    ensures Run(l, p, IsDigit) == n
  {
    forall k | p <= k < p + n ensures IsDigit(l[k]) {
      assert l[k] == l[p..p + n][k - p];
    }
    RunIs(l, p, n, IsDigit);
  }

  /**
   * `date_line_pattern.match(l)`: the groups of the reading Python's engine settles
   * on, or `None` when `l` has no reading at all (see `MatchSound` and `MatchComplete`).
   */
  function Match(names: seq<string>, l: string): (r: Option<Groups>)
    ensures r.Some? ==> 1 <= r.value.month <= |names| && 1 <= r.value.dayLen <= 2
  {
    match FirstPrefix(names, l)
    case None => None
    case Some(j) =>
      var dayLen := Run(l, DayStart(names, j + 1), IsDigit);
      if dayLen < 1 || dayLen > 2 then None
      else match LazySplit(Rest(names, l, j + 1, dayLen), 1, AmountTail)
        case None => None
        case Some((a, b)) => Some(Groups(j + 1, dayLen, a, b))
  }

  /**
   * What `Match` returns is a reading of `l`, and of the readings with its month and day
   * the one a backtracking engine reaches first: the longest whitespace after the day,
   * then the shortest description.
   */
  lemma MatchSound(names: seq<string>, l: string)
    ensures var r := Match(names, l);
            r.Some? ==> Reads(names, l, r.value.month, r.value.dayLen, r.value.a, r.value.b)
                        && FirstSplit(Rest(names, l, r.value.month, r.value.dayLen), 1, AmountTail, r.value.a, r.value.b)
  {
    if Match(names, l).Some? {
      var g := Match(names, l).value;
      MatchParts(names, l, g);
      MatchReads(names, l);
      LazySplitIsFirst(Rest(names, l, g.month, g.dayLen), 1, AmountTail);
    }
  }

  /** The groups `Match` returns are a reading of `l`. */
  lemma MatchReads(names: seq<string>, l: string)
    ensures var r := Match(names, l);
            r.Some? ==> Reads(names, l, r.value.month, r.value.dayLen, r.value.a, r.value.b)
  {
    if Match(names, l).Some? {
      var g := Match(names, l).value;
      MatchParts(names, l, g);
      DayDigits(l, DayStart(names, g.month), g.dayLen);
    }
  }

  /** What a match is made of: the month the alternation finds, the whole day run and the lazy split of the rest. */
  lemma MatchParts(names: seq<string>, l: string, g: Groups)
    requires Match(names, l) == Some(g)
    ensures 1 <= g.month <= |names| && FirstPrefix(names, l) == Some(g.month - 1)
    ensures g.dayLen == Run(l, DayStart(names, g.month), IsDigit)
    ensures DayStart(names, g.month) + g.dayLen <= |l|
    ensures LazySplit(Rest(names, l, g.month, g.dayLen), 1, AmountTail) == Some((g.a, g.b))
  {
  }

  /** The digit run found at `p` is all digits. */
  lemma DayDigits(l: string, p: nat, n: nat)
    requires p <= |l| && n == Run(l, p, IsDigit)
    ensures p + n <= |l| && AllDigits(l[p..p + n])
  {
    var day := l[p..p + n];
    forall k | 0 <= k < |day| ensures IsDigit(day[k]) {
      assert day[k] == l[p + k];
    }
  }

  /**
   * Every reading of `l` is found: `Match` succeeds, with the only month and day a
   * reading can have, when no month name is a prefix of another.
   */
  lemma MatchComplete(names: seq<string>, l: string, month: nat, dayLen: nat, a: nat, b: nat)
    requires PrefixFree(names) && Reads(names, l, month, dayLen, a, b)
    ensures Match(names, l).Some? && Match(names, l).value.month == month && Match(names, l).value.dayLen == dayLen
  {
    ReadingIsDetermined(names, l, month, dayLen, a, b);
    var rest := Rest(names, l, month, dayLen);
    assert SplitOk(rest, 1, AmountTail, a, b);
    LazySplitIsFirst(rest, 1, AmountTail);
  }

  /** The month names are prefix-free, so a date line's month is unambiguous. */
  lemma MonthNamesArePrefixFree()
    ensures PrefixFree(MonthNames)
  {
    MonthNamesPrefixFree();
  }

  /** `m.group(2)`: the day digits. */
  function Day(names: seq<string>, l: string, g: Groups): (day: string)
    requires Match(names, l) == Some(g)
    ensures 1 <= |day| <= 2 && AllDigits(day)
  {
    MatchReads(names, l);
    l[DayStart(names, g.month)..DayStart(names, g.month) + g.dayLen]
  }

  /** `m.group(3).strip()`: the lazy description, stripped. */
  function Description(names: seq<string>, l: string, g: Groups): (d: string)
    requires Match(names, l) == Some(g)
    ensures d == [] || (!IsSpace(d[0]) && !IsSpace(d[|d| - 1]))
  {
    MatchReads(names, l);
    StripShape(Rest(names, l, g.month, g.dayLen)[g.a..g.b]);
    Strip(Rest(names, l, g.month, g.dayLen)[g.a..g.b])
  }

  /** `m.group(4)`: the amount at the end of the line, a token `Cents` reads as a value of at least zero. */
  function AmountText(names: seq<string>, l: string, g: Groups): (u: string)
    requires Match(names, l) == Some(g)
    ensures IsPlainAmount(u) && IsDecimalToken(u) && u[0] != '-'
  {
    MatchReads(names, l);
    var t := Rest(names, l, g.month, g.dayLen)[g.b..];
    AmountTailGroup(t);
    t[Run(t, 0, IsSpace)..]
  }

  /** The amount group of an amount tail: what follows its whitespace. */
  lemma AmountTailGroup(t: string)
    requires AmountTail(t)
    ensures var u := t[Run(t, 0, IsSpace)..];
            IsPlainAmount(u) && IsDecimalToken(u) && u[0] != '-'
  {
    SpacedAmountGroup(t[1..]);
    RunStep(t, IsSpace);
    assert t[1..][Run(t[1..], 0, IsSpace)..] == t[Run(t, 0, IsSpace)..];
    PlainAmountIsDecimal(t[Run(t, 0, IsSpace)..]);
  }

  lemma PlainAmountIsDecimal(u: string)
    requires IsPlainAmount(u)
    ensures IsDecimalToken(u) && u[0] != '-'
  {
    forall k | 0 <= k < |u| - 3 ensures IsDigit(u[k]) {
      assert u[k] == u[..|u| - 3][k];
    }
    assert u[|u| - 2] == u[|u| - 2..][0] && u[|u| - 1] == u[|u| - 2..][1];
  }

  const Marker: string := "Reference:"

  /**
   * What the lookahead takes from the line after a match: `split("Reference:")[1]`,
   * stripped, when the stripped line holds the marker, else nothing. It holds no
   * marker and no surrounding whitespace.
   */
  function ReferenceOf(next: string): (ref: string)
    ensures !Contains(Strip(next), Marker) ==> ref == []
    ensures ref == [] || (!IsSpace(ref[0]) && !IsSpace(ref[|ref| - 1]))
    ensures !Contains(ref, Marker)
  {
    var line := Strip(next);
    if Contains(line, Marker) then
      var field := SecondField(line, Marker);
      var ref := Strip(field);
      StripShape(field);
      StripAvoids(field, Marker);
      ref
    else []
  }

  /** `description` followed by ` Ref:<reference>` when the reference is non-empty. */
  function WithReference(description: string, ref: string): (r: string)
    ensures ref == [] ==> r == description
    ensures ref != [] ==> r == description + " Ref:" + ref
    ensures description <= r
  {
    if ref == [] then description else description + " Ref:" + ref
  }

  const Year: nat := 2025

  lemma YearText()
    ensures Pad(Year, 4) + "-" == "2025-"
  {
    assert Pad(Year, 4) == "2025";
  }

  /** The transaction of stripped date line `l` whose next line gave reference `ref`. */
  function Entry(l: string, g: Groups, ref: string): (t: Transaction)
    requires Match(MonthNames, l) == Some(g)
    ensures t.amount == -Cents(AmountText(MonthNames, l, g)) && t.amount <= 0
    ensures t.date == Date(Year, g.month, Value(Day(MonthNames, l, g)))
  {
    Transaction(Date(Year, g.month, Value(Day(MonthNames, l, g))), WithReference(Description(MonthNames, l, g), ref), -Cents(AmountText(MonthNames, l, g)))
  }

  /** The reference the line after line `k` gives, if there is one. */
  function Lookahead(lines: seq<string>, k: nat): string
    requires k < |lines|
  {
    if k + 1 < |lines| then ReferenceOf(lines[k + 1]) else []
  }

  /** What line `k` contributes: a transaction exactly when it is a date line. */
  function Outcome(lines: seq<string>, k: nat): (r: Option<Transaction>)
    requires k < |lines|
    ensures r.Some? <==> Match(MonthNames, Strip(lines[k])).Some?
  {
    var l := Strip(lines[k]);
    match Match(MonthNames, l)
    case None => None
    case Some(g) => Some(Entry(l, g, Lookahead(lines, k)))
  }

  function Outcomes(lines: seq<string>): (os: seq<Option<Transaction>>)
    ensures |os| == |lines|
  {
    seq(|lines|, k requires 0 <= k < |lines| => Outcome(lines, k))
  }

  /** The transactions of a statement: one per date line, in line order. */
  function Transactions(lines: seq<string>): seq<Transaction>
  {
    Somes(Outcomes(lines))
  }

  /**
   * The extraction loop: the cursor moves to the line after a date line to look
   * for a reference, and that line is then examined as a candidate itself.
   */
  method Parse(lines: seq<string>) returns (transactions: seq<Transaction>)
    ensures transactions == Transactions(lines)
  {
    transactions := [];
    var i := 0;
    while i < |lines|
      invariant 0 <= i <= |lines|
      invariant transactions == Somes(Outcomes(lines)[..i])
      decreases |lines| - i
    {
      ghost var k := i;
      var line := Strip(lines[i]);
      var m := Match(MonthNames, line);
      if m.Some? {
        i := i + 1;
        var reference := [];
        if i < |lines| {
          reference := ReferenceOf(lines[i]);
        }
        var t := Entry(line, m.value, reference);
        assert transactions + [t] == Somes(Outcomes(lines)[..k + 1]) by {
          SomesSnoc(Outcomes(lines), k);
          assert reference == Lookahead(lines, k);
        }
        transactions := transactions + [t];
      } else {
        assert transactions == Somes(Outcomes(lines)[..k + 1]) by {
          SomesSnoc(Outcomes(lines), k);
        }
        i := i + 1;
      }
    }
    assert Outcomes(lines)[..|lines|] == Outcomes(lines);
  }

  /** Every emitted amount is the negated trailing amount of its line, so none is positive. */
  lemma AmountsNotPositive(lines: seq<string>)
    ensures forall j :: 0 <= j < |Transactions(lines)| ==> Transactions(lines)[j].amount <= 0
  {
    SomesAtPositions(Outcomes(lines));
  }

  /**
   * One transaction per date line, in line order: the `j`-th transaction comes from
   * the `j`-th line that matches the date-line pattern.
   */
  lemma OnePerDateLine(lines: seq<string>)
    ensures |Transactions(lines)| == |Positions(Outcomes(lines))|
    ensures forall j :: 0 <= j < |Transactions(lines)| ==>
              var k := Positions(Outcomes(lines))[j];
              k < |lines| && Match(MonthNames, Strip(lines[k])).Some? && Outcome(lines, k) == Some(Transactions(lines)[j])
    ensures forall k :: 0 <= k < |lines| && Match(MonthNames, Strip(lines[k])).Some? ==> k in Positions(Outcomes(lines))
  {
    SomesAtPositions(Outcomes(lines));
  }

  /**
   * The emitted date text is `2025-`, the month's code from the month table and the
   * day digits zero-filled to two; no calendar check is made.
   */
  lemma DateText(month: nat, day: string)
    requires 1 <= month <= 12 && AllDigits(day) && |day| <= 2
    ensures Iso(Date(Year, month, Value(day))) == "2025-" + MonthCodes[month - 1] + "-" + ZFill(day, 2)
  {
    IsoOfCode(Year, month, day);
    YearText();
  }

  /** An amount tail holds no letter, so a description runs at least to the last letter of its line. */
  lemma {:induction false} SpacedAmountHasNoLetter(t: string)
    requires SpacedAmount(t)
    ensures forall k :: 0 <= k < |t| ==> !IsLetter(t[k])
    decreases |t|
  {
    if t != [] && IsSpace(t[0]) {
      SpacedAmountHasNoLetter(t[1..]);
      assert forall k :: 1 <= k < |t| ==> t[k] == t[1..][k - 1];
    } else {
      forall k | 0 <= k < |t| ensures !IsLetter(t[k]) {
        if k < |t| - 3 {
          assert t[k] == t[..|t| - 3][k];
        } else if k > |t| - 3 {
          assert t[k] == t[|t| - 2..][k - (|t| - 2)];
        }
      }
    }
  }
}
