/**
 * The generic extractor. Every stripped line is matched against the primary pattern
 * `D Mon TY description [out] [in] [balance]`; a match whose date (in 2023) exists
 * gives a record when it carries a money-out or money-in field. Only when that pass
 * gives nothing is every line matched against the fallback pattern
 * `D Mon description amount`, whose amount is always money out. A numeric field that
 * `float()` rejects ends the whole run with an error.
 */
module Local {
  import opened Wrappers
  import opened Text
  import opened Calendar
  import opened Ledger

  /** `year_fallback`: every date is in this year. */
  const Year: nat := 2023

  /** One emitted `{date, description, amount}` object; `amount` is the value `float()` reads, negated for money out. */
  datatype Record = Record(date: Date, description: string, amount: real)

  /** `[\d,.]`: a character of a numeric field. */
  predicate IsNumeric(c: char) { IsDigit(c) || c == ',' || c == '.' }

  /** What `[\d,.]+` matches. */
  predicate NumericText(t: string) {
    t != [] && forall k :: 0 <= k < |t| ==> IsNumeric(t[k])
  }

  predicate Spaces(l: string, i: nat, j: nat)
    requires i <= j <= |l|
  {
    forall k :: i <= k < j ==> IsSpace(l[k])
  }

  predicate Dots(l: string, i: nat, j: nat)
    requires i <= j <= |l|
  {
    forall k :: i <= k < j ==> IsDot(l[k])
  }

  predicate NumericRun(l: string, i: nat, j: nat)
    requires i <= j <= |l|
  {
    forall k :: i <= k < j ==> IsNumeric(l[k])
  }

  /** `[\d,.]` when `numeric`, `\s` otherwise: the two classes the numeric tail alternates. */
  predicate InClass(c: char, numeric: bool) {
    if numeric then IsNumeric(c) else IsSpace(c)
  }

  /** Where the run of the class that starts at `p` ends: the span a greedy `+` or `*` over it takes. */
  function End(l: string, p: nat, numeric: bool): (e: nat)
    requires p <= |l|
    ensures p <= e <= |l|
    decreases |l| - p
  {
    if p < |l| && InClass(l[p], numeric) then End(l, p + 1, numeric) else p
  }

  /** A run stops at the end of the line or on a character outside its class. */
  lemma {:induction false} EndStops(l: string, p: nat, numeric: bool)
    requires p <= |l|
    ensures End(l, p, numeric) == |l| || !InClass(l[End(l, p, numeric)], numeric)
    decreases |l| - p
  {
    if p < |l| && InClass(l[p], numeric) {
      EndStops(l, p + 1, numeric);
    }
  }

  /** Every character of a run is of its class. */
  lemma {:induction false} EndAll(l: string, p: nat, numeric: bool)
    requires p <= |l|
    ensures forall k :: p <= k < End(l, p, numeric) ==> InClass(l[k], numeric)
    decreases |l| - p
  {
    if p < |l| && InClass(l[p], numeric) {
      EndAll(l, p + 1, numeric);
    }
  }

  /** A run reaches at least to `j` when every character from its start up to `j` is of its class. */
  lemma {:induction false} EndReaches(l: string, p: nat, j: nat, numeric: bool)
    requires p <= |l| && j <= |l| && forall k :: p <= k < j ==> InClass(l[k], numeric)
    ensures j <= End(l, p, numeric)
    decreases |l| - p
  {
    if p < j {
      EndReaches(l, p + 1, j, numeric);
    }
  }

  /**
   * The numeric fields of `l` from `p` on, when the rest is made of whitespace and
   * `[\d,.]` characters: its maximal runs of numeric characters, in order; nothing when
   * any other character occurs.
   */
  function Fields(l: string, p: nat): (r: Option<seq<string>>)
    requires p <= |l|
    ensures r.Some? ==> forall k :: 0 <= k < |r.value| ==> NumericText(r.value[k])
    decreases |l| - p
  {
    if p == |l| then Some([])
    else if IsSpace(l[p]) then Fields(l, p + 1)
    else if IsNumeric(l[p]) then
      var e := End(l, p, true);
      EndAll(l, p, true);
      match Fields(l, e)
      case None => None
      case Some(fs) => Some([l[p..e]] + fs)
    else None
  }

  /** Whitespace before the fields changes nothing about them. */
  lemma {:induction false} FieldsSkipSpaces(l: string, p: nat, q: nat)
    requires p <= q <= |l| && Spaces(l, p, q)
    ensures Fields(l, p) == Fields(l, q)
    decreases q - p
  {
    if p < q {
      FieldsSkipSpaces(l, p + 1, q);
    }
  }

  /**
   * The fields from `p` on, one greedy step at a time: skip the whitespace run to `q`,
   * take the numeric run to `e`; nothing is left at the end, no field can start on any
   * other character, and otherwise the run is the first field.
   */
  lemma FieldsStep(l: string, p: nat)
    requires p <= |l|
    ensures var q := End(l, p, false);
            q == |l| ==> Fields(l, p) == Some([])
    ensures var q := End(l, p, false);
            q < |l| && End(l, q, true) == q ==> Fields(l, p).None?
    ensures var q := End(l, p, false);
            var e := End(l, q, true);
            q < e ==> Fields(l, p).Some? == Fields(l, e).Some?
                      && (Fields(l, e).Some? ==> Fields(l, p).value == [l[q..e]] + Fields(l, e).value)
  {
    var q := End(l, p, false);
    EndAll(l, p, false);
    FieldsSkipSpaces(l, p, q);
    if q < |l| {
      EndStops(l, p, false);
      assert !IsSpace(l[q]);
    }
  }

  /**
   * The numeric tail can start at `b`: `l[b..]` matches `\s+([\d,.]+)?\s*([\d,.]+)?\s*([\d,.]+)?\s*$`
   * (primary) or `\s+([\d,.]+)\s*$` (fallback). Only the optional groups and the separating
   * whitespace can take the characters, so the text after the whitespace must be at most
   * three numeric runs, or exactly one.
   */
  predicate Tail(l: string, b: nat, typed: bool) {
    b < |l| && IsSpace(l[b]) && Fields(l, b).Some?
    && (if typed then |Fields(l, b).value| <= 3 else |Fields(l, b).value| == 1)
  }

  /** Whether the numeric tail can start at a whitespace position does not depend on which one of a whitespace run it is. */
  lemma TailShift(l: string, b: nat, c: nat, typed: bool)
    requires b <= c < |l| && Spaces(l, b, c + 1)
    ensures Tail(l, b, typed) == Tail(l, c, typed)
  {
    FieldsSkipSpaces(l, b, c);
  }

  /**
   * Where the groups of the numeric tail lie once the description has ended: `\s+` up
   * to `outAt`, money out `l[outAt..outEnd]`, `\s*`, money in `l[inAt..inEnd]`, `\s*`,
   * the balance `l[balanceAt..balanceEnd]`, then `\s*` to the end. An empty range is a
   * group that took no part in the match. The fallback's one amount group sits in the
   * money-out place, and its other two ranges are empty at its end.
   */
  datatype Columns = Columns(outAt: nat, outEnd: nat, inAt: nat, inEnd: nat, balanceAt: nat, balanceEnd: nat)

  /**
   * `c` is a way the numeric tail can match from the description's end `b`:
   * `\s+([\d,.]+)?\s*([\d,.]+)?\s*([\d,.]+)?\s*$` (primary) or `\s+([\d,.]+)\s*$` (fallback).
   */
  predicate ColumnsRead(l: string, b: nat, c: Columns, typed: bool) {
    b < c.outAt <= c.outEnd <= c.inAt <= c.inEnd <= c.balanceAt <= c.balanceEnd <= |l|
    && Spaces(l, b, c.outAt) && NumericRun(l, c.outAt, c.outEnd)
    && Spaces(l, c.outEnd, c.inAt) && NumericRun(l, c.inAt, c.inEnd)
    && Spaces(l, c.inEnd, c.balanceAt) && NumericRun(l, c.balanceAt, c.balanceEnd)
    && Spaces(l, c.balanceEnd, |l|)
    && (!typed ==> c.outAt < c.outEnd && c.inAt == c.outEnd && c.balanceEnd == c.outEnd)
  }

  /**
   * The engine's first attempt at the tail from `b`: each greedy `\s+`, `\s*` and
   * `([\d,.]+)?` in turn takes its whole run.
   */
  function Greedy(l: string, b: nat, typed: bool): Columns
    requires b <= |l|
  {
    var outAt := End(l, b, false);
    var outEnd := End(l, outAt, true);
    if !typed then Columns(outAt, outEnd, outEnd, outEnd, outEnd, outEnd)
    else
      var inAt := End(l, outEnd, false);
      var inEnd := End(l, inAt, true);
      var balanceAt := End(l, inEnd, false);
      Columns(outAt, outEnd, inAt, inEnd, balanceAt, End(l, balanceAt, true))
  }

  /** The text `l[q..e]` as a list of one field, or no field when the range is empty. */
  function Piece(l: string, q: nat, e: nat): seq<string>
    requires q <= e <= |l|
  {
    if q < e then [l[q..e]] else []
  }

  /** The groups of `c` that took part, in order. */
  function Taken(l: string, c: Columns): seq<string>
    requires c.outAt <= c.outEnd <= c.inAt <= c.inEnd <= c.balanceAt <= c.balanceEnd <= |l|
  {
    Piece(l, c.outAt, c.outEnd) + Piece(l, c.inAt, c.inEnd) + Piece(l, c.balanceAt, c.balanceEnd)
  }

  /** No fields are left exactly when only whitespace is. */
  lemma FieldsEmpty(l: string, p: nat)
    requires p <= |l|
    ensures Fields(l, p) == Some([]) <==> Spaces(l, p, |l|)
  {
    FieldsStep(l, p);
    var q := End(l, p, false);
    if Spaces(l, p, |l|) {
      EndReaches(l, p, |l|, false);
    } else if q == |l| {
      EndAll(l, p, false);
    } else if End(l, q, true) != q {
      assert Fields(l, End(l, q, true)).Some? ==> |Fields(l, p).value| > 0;
    }
  }

  /**
   * When the engine's first attempt leaves a group of the primary tail empty, every
   * later boundary stays where that group would have started.
   */
  lemma GreedyCollapse(l: string, b: nat)
    requires b <= |l|
    ensures var c := Greedy(l, b, true);
            (c.outAt == c.outEnd ==> c.balanceEnd == c.outAt)
            && (c.inAt == c.inEnd ==> c.balanceEnd == c.inAt)
  {
    var c := Greedy(l, b, true);
    EndStops(l, b, false);
    EndStops(l, c.outEnd, false);
  }

  /** The whitespace run and the numeric run of one greedy step each read as what they are. */
  lemma StepRuns(l: string, p: nat)
    requires p <= |l|
    ensures Spaces(l, p, End(l, p, false))
    ensures NumericRun(l, End(l, p, false), End(l, End(l, p, false), true))
  {
    EndAll(l, p, false);
    EndAll(l, End(l, p, false), true);
  }

  /**
   * The engine's first attempt is a reading of the tail exactly when its whitespace run
   * is not empty, only whitespace follows its last group, and (fallback) its one group
   * is not empty: every other condition holds of whole runs by construction.
   */
  lemma GreedyReads(l: string, b: nat, typed: bool)
    requires b <= |l|
    ensures var c := Greedy(l, b, typed);
            ColumnsRead(l, b, c, typed)
            <==> b < c.outAt && Spaces(l, c.balanceEnd, |l|) && (!typed ==> c.outAt < c.outEnd)
  {
    var c := Greedy(l, b, typed);
    StepRuns(l, b);
    if typed {
      StepRuns(l, c.outEnd);
      StepRuns(l, c.inEnd);
    }
  }

  /** The fields from `p` on exist and number at most `n`. */
  predicate FieldsFit(l: string, p: nat, n: nat)
    requires p <= |l|
  {
    Fields(l, p).Some? && |Fields(l, p).value| <= n
  }

  /**
   * One greedy step against the field count: at most `n + 1` fields from `p` exactly when
   * the step does not get stuck on another character and at most `n` are left after it;
   * the step's run is then the first of them.
   */
  lemma FieldsFitStep(l: string, p: nat, n: nat)
    requires p <= |l|
    ensures var q := End(l, p, false);
            var e := End(l, q, true);
            FieldsFit(l, p, n + 1) <==> (q == e ==> q == |l|) && FieldsFit(l, e, n)
    ensures var q := End(l, p, false);
            var e := End(l, q, true);
            FieldsFit(l, p, n + 1) ==> Fields(l, p).value == Piece(l, q, e) + Fields(l, e).value
  {
    FieldsStep(l, p);
  }

  /**
   * The primary tail can start at `b` exactly when the engine's first attempt from there
   * reaches the end of the line, and then the groups it takes are the numeric fields,
   * in order.
   */
  lemma TailColumnsTyped(l: string, b: nat)
    requires b < |l|
    ensures Tail(l, b, true) <==> ColumnsRead(l, b, Greedy(l, b, true), true)
    ensures Tail(l, b, true) ==> Fields(l, b) == Some(Taken(l, Greedy(l, b, true)))
  {
    var c := Greedy(l, b, true);
    var done := Spaces(l, c.balanceEnd, |l|);
    assert ColumnsRead(l, b, c, true) <==> b < c.outAt && done by {
      GreedyReads(l, b, true);
    }
    assert Tail(l, b, true) <==> b < c.outAt && FieldsFit(l, b, 3) by {
      EndStops(l, b, false);
    }
    assert FieldsFit(l, c.balanceEnd, 0) <==> done by {
      FieldsEmpty(l, c.balanceEnd);
    }
    assert (c.outAt == c.outEnd < |l| || c.inAt == c.inEnd < |l| || c.balanceAt == c.balanceEnd < |l|) ==> !done by {
      GreedyCollapse(l, b);
      EndStops(l, b, false);
      EndStops(l, c.outEnd, false);
      EndStops(l, c.inEnd, false);
    }
    assert FieldsFit(l, b, 3) <==> (c.outAt == c.outEnd ==> c.outAt == |l|) && FieldsFit(l, c.outEnd, 2) by {
      FieldsFitStep(l, b, 2);
    }
    assert FieldsFit(l, c.outEnd, 2) <==> (c.inAt == c.inEnd ==> c.inAt == |l|) && FieldsFit(l, c.inEnd, 1) by {
      FieldsFitStep(l, c.outEnd, 1);
    }
    assert FieldsFit(l, c.inEnd, 1) <==> (c.balanceAt == c.balanceEnd ==> c.balanceAt == |l|) && FieldsFit(l, c.balanceEnd, 0) by {
      FieldsFitStep(l, c.inEnd, 0);
    }
    if Tail(l, b, true) {
      var f1 := Fields(l, c.outEnd).value;
      var f2 := Fields(l, c.inEnd).value;
      assert Fields(l, b).value == Piece(l, c.outAt, c.outEnd) + f1 by {
        FieldsFitStep(l, b, 2);
      }
      assert f1 == Piece(l, c.inAt, c.inEnd) + f2 by {
        FieldsFitStep(l, c.outEnd, 1);
      }
      assert f2 == Piece(l, c.balanceAt, c.balanceEnd) by {
        FieldsFitStep(l, c.inEnd, 0);
        assert Fields(l, c.balanceEnd).value == [];
      }
      assert Taken(l, c) == Piece(l, c.outAt, c.outEnd) + (Piece(l, c.inAt, c.inEnd) + Piece(l, c.balanceAt, c.balanceEnd));
    }
  }

  /**
   * The fallback tail can start at `b` exactly when the engine's first attempt from
   * there reaches the end of the line, and then its one group is the one numeric field.
   */
  lemma TailColumnsFallback(l: string, b: nat)
    requires b < |l|
    ensures Tail(l, b, false) <==> ColumnsRead(l, b, Greedy(l, b, false), false)
    ensures Tail(l, b, false) ==> Fields(l, b) == Some(Taken(l, Greedy(l, b, false)))
  {
    var c := Greedy(l, b, false);
    var done := Spaces(l, c.outEnd, |l|);
    assert ColumnsRead(l, b, c, false) <==> b < c.outAt && done && c.outAt < c.outEnd by {
      GreedyReads(l, b, false);
    }
    assert IsSpace(l[b]) <==> b < c.outAt by {
      EndStops(l, b, false);
    }
    assert FieldsFit(l, c.outEnd, 0) <==> done by {
      FieldsEmpty(l, c.outEnd);
    }
    assert FieldsFit(l, b, 1) <==> (c.outAt == c.outEnd ==> c.outAt == |l|) && FieldsFit(l, c.outEnd, 0) by {
      FieldsFitStep(l, b, 0);
    }
    if FieldsFit(l, b, 1) {
      assert Fields(l, b).value == Piece(l, c.outAt, c.outEnd) by {
        FieldsFitStep(l, b, 0);
        assert Fields(l, c.outEnd).value == [];
      }
    }
    assert Taken(l, c) == Piece(l, c.outAt, c.outEnd) by {
      assert Piece(l, c.inAt, c.inEnd) == [] && Piece(l, c.balanceAt, c.balanceEnd) == [];
    }
  }

  /**
   * The numeric tail can start at `b` exactly when the engine's first attempt from there
   * reaches the end of the line, and then the groups it takes are the numeric fields,
   * in order.
   */
  lemma TailColumns(l: string, b: nat, typed: bool)
    requires b < |l|
    ensures Tail(l, b, typed) <==> ColumnsRead(l, b, Greedy(l, b, typed), typed)
    ensures Tail(l, b, typed) ==> Fields(l, b) == Some(Taken(l, Greedy(l, b, typed)))
  {
    if typed {
      TailColumnsTyped(l, b);
    } else {
      TailColumnsFallback(l, b);
    }
  }

  /** Every group boundary of `d` lies at or after the same boundary of `c`. */
  predicate Below(c: Columns, d: Columns) {
    c.outAt <= d.outAt && c.outEnd <= d.outEnd && c.inAt <= d.inAt && c.inEnd <= d.inEnd
    && c.balanceAt <= d.balanceAt && c.balanceEnd <= d.balanceEnd
  }

  /**
   * `c` comes no later than `d` in the order the engine tries the tail: greedy
   * quantifiers and optional groups try the longer span first, so each boundary in
   * turn lies as far right as it can.
   */
  predicate ColumnsPrior(c: Columns, d: Columns) {
    c.outAt > d.outAt || (c.outAt == d.outAt &&
    (c.outEnd > d.outEnd || (c.outEnd == d.outEnd &&
    (c.inAt > d.inAt || (c.inAt == d.inAt &&
    (c.inEnd > d.inEnd || (c.inEnd == d.inEnd &&
    (c.balanceAt > d.balanceAt || (c.balanceAt == d.balanceAt && c.balanceEnd >= d.balanceEnd)))))))))
  }

  /**
   * Whenever the tail can be read from `b` at all, the engine's first attempt is a
   * reading too, ends every group at or after where that reading does, and so comes first.
   */
  lemma GreedyFirst(l: string, b: nat, c: Columns, typed: bool)
    requires ColumnsRead(l, b, c, typed)
    ensures ColumnsRead(l, b, Greedy(l, b, typed), typed)
    ensures Below(c, Greedy(l, b, typed)) && ColumnsPrior(Greedy(l, b, typed), c)
  {
    var g := Greedy(l, b, typed);
    GreedyReads(l, b, typed);
    EndReaches(l, b, c.outAt, false);
    EndReaches(l, g.outAt, c.outEnd, true);
    if typed {
      EndReaches(l, g.outEnd, c.inAt, false);
      EndReaches(l, g.inAt, c.inEnd, true);
      EndReaches(l, g.inEnd, c.balanceAt, false);
      EndReaches(l, g.balanceAt, c.balanceEnd, true);
    } else {
      EndAll(l, b, false);
      assert IsNumeric(l[c.outAt]);
    }
  }

  /**
   * Where the groups of a match lie: the day digits `l[..dayLen]`, the month letters at
   * `monthStart`, the two type letters at `typeStart` (primary only; 0 for the fallback),
   * the lazy description `l[a..b]`, and the numeric tail's `columns` after it.
   */
  datatype Groups = Groups(dayLen: nat, monthStart: nat, typeStart: nat, a: nat, b: nat, columns: Columns)

  /** Where the whitespace before the description starts: after the type letters, or after the month. */
  function Lead(g: Groups, typed: bool): nat {
    if typed then g.typeStart + 2 else g.monthStart + 3
  }

  /** `(\d{1,2})\s+([A-Za-z]{3})` with the day ending at `dayLen` and the month starting at `monthStart`. */
  predicate DateReads(l: string, dayLen: nat, monthStart: nat) {
    1 <= dayLen <= 2 && dayLen < monthStart && monthStart + 3 <= |l|
    && AllDigits(l[..dayLen]) && Spaces(l, dayLen, monthStart)
    && IsLetter(l[monthStart]) && IsLetter(l[monthStart + 1]) && IsLetter(l[monthStart + 2])
  }

  /** `\s+([A-Z]{2})` after the month, with the type letters at `typeStart`. */
  predicate TypeReads(l: string, monthStart: nat, typeStart: nat)
    requires monthStart + 3 <= |l|
  {
    monthStart + 3 < typeStart && typeStart + 2 <= |l| && Spaces(l, monthStart + 3, typeStart)
    && IsUpper(l[typeStart]) && IsUpper(l[typeStart + 1])
  }

  /** `\s+(.*?)` from `lead`, with the description `l[a..b]`, followed by a numeric tail. */
  predicate BodyReads(l: string, lead: nat, a: nat, b: nat, typed: bool) {
    lead < a <= b <= |l| && Spaces(l, lead, a) && Dots(l, a, b) && Tail(l, b, typed)
  }

  /**
   * `g` is a way the pattern can match `l`: `(\d{1,2})\s+([A-Za-z]{3})\s+`, then (primary)
   * `([A-Z]{2})\s+`, then `(.*?)` and the numeric tail up to the end.
   */
  predicate Reads(l: string, g: Groups, typed: bool) {
    DateReads(l, g.dayLen, g.monthStart)
    && (if typed then TypeReads(l, g.monthStart, g.typeStart) else g.typeStart == 0)
    && Lead(g, typed) < g.a <= g.b <= |l| && Spaces(l, Lead(g, typed), g.a) && Dots(l, g.a, g.b)
    && ColumnsRead(l, g.b, g.columns, typed)
  }

  /** The end of the day digits. */
  function DayEnd(l: string): nat {
    Run(l, 0, IsDigit)
  }

  /** Where the month letters start: after the whitespace that follows the day. */
  function MonthAt(l: string): nat {
    DayEnd(l) + Run(l, DayEnd(l), IsSpace)
  }

  /** Where the type letters start: after the whitespace that follows the month. */
  function TypeAt(l: string): nat
    requires MonthAt(l) + 3 <= |l|
  {
    MonthAt(l) + 3 + Run(l, MonthAt(l) + 3, IsSpace)
  }

  /** The fields before the description read: the day, the month and (primary) the type. */
  predicate PrefixReads(l: string, typed: bool) {
    DateReads(l, DayEnd(l), MonthAt(l)) && (typed ==> TypeReads(l, MonthAt(l), TypeAt(l)))
  }

  function LeadAt(l: string, typed: bool): (p: nat)
    requires PrefixReads(l, typed)
    ensures p <= |l|
  {
    if typed then TypeAt(l) + 2 else MonthAt(l) + 3
  }

  /**
   * The lazy `(.*?)` from `b`: the first position at or after `b` where the numeric tail
   * can start, as long as no line feed lies before it.
   */
  function TailFrom(l: string, b: nat, typed: bool): (r: Option<nat>)
    requires b <= |l|
    ensures r.Some? ==> b <= r.value < |l| && Dots(l, b, r.value) && Tail(l, r.value, typed)
    ensures r.Some? ==> forall e :: b <= e < r.value ==> !Tail(l, e, typed)
    ensures r.None? ==> forall e :: b <= e <= |l| && Dots(l, b, e) ==> !Tail(l, e, typed)
    decreases |l| - b
  {
    if b == |l| then None
    else if Tail(l, b, typed) then Some(b)
    else if !IsDot(l[b]) then None
    else TailFrom(l, b + 1, typed)
  }

  /**
   * `\s+(.*?)` and the tail from `lead`, as the engine backtracks: the whitespace longest
   * first and, for each length, the description shortest first. With the whole run taken,
   * the description starts on a visible character; when no tail follows, one whitespace
   * character is given back, and the description is empty when the tail can start right
   * there. Giving back more changes nothing, since the tail reads the same from anywhere
   * in the run.
   */
  function Body(l: string, lead: nat, typed: bool): Option<(nat, nat)>
    requires lead <= |l|
  {
    var w := Run(l, lead, IsSpace);
    if w == 0 then None
    else match TailFrom(l, lead + w, typed)
      case Some(b) => Some((lead + w, b))
      case None => if w >= 2 && Tail(l, lead + w - 1, typed) then Some((lead + w - 1, lead + w - 1)) else None
  }

  /** `pattern.match(l)`: the groups of the first reading the engine finds, if any. */
  function Match(l: string, typed: bool): Option<Groups> {
    if !PrefixReads(l, typed) then None
    else match Body(l, LeadAt(l, typed), typed)
      case None => None
      case Some((a, b)) => Some(Groups(DayEnd(l), MonthAt(l), if typed then TypeAt(l) else 0, a, b, Greedy(l, b, typed)))
  }

  /** The day and the month can lie only where the scan finds them. */
  lemma DateAt(l: string, dayLen: nat, monthStart: nat)
    requires DateReads(l, dayLen, monthStart)
    ensures dayLen == DayEnd(l) && monthStart == MonthAt(l)
  {
    assert !IsDigit(l[dayLen]) by { assert IsSpace(l[dayLen]); }
    assert forall k :: 0 <= k < dayLen ==> IsDigit(l[k]) by {
      forall k | 0 <= k < dayLen ensures IsDigit(l[k]) {
        assert l[..dayLen][k] == l[k];
      }
    }
    RunIs(l, 0, dayLen, IsDigit);
    assert !IsSpace(l[monthStart]) by { assert IsLetter(l[monthStart]); }
    RunIs(l, dayLen, monthStart - dayLen, IsSpace);
  }

  /** The type letters can lie only where the scan finds them. */
  lemma TypeAtIs(l: string, typeStart: nat)
    requires MonthAt(l) + 3 <= |l| && TypeReads(l, MonthAt(l), typeStart)
    ensures typeStart == TypeAt(l)
  {
    assert !IsSpace(l[typeStart]) by { assert IsUpper(l[typeStart]); }
    RunIs(l, MonthAt(l) + 3, typeStart - (MonthAt(l) + 3), IsSpace);
  }

  /** `Body` gives a reading of the body. */
  lemma BodySound(l: string, lead: nat, typed: bool)
    requires lead <= |l|
    ensures Body(l, lead, typed).Some? ==> BodyReads(l, lead, Body(l, lead, typed).value.0, Body(l, lead, typed).value.1, typed)
  {
  }

  /** Whenever the body can be read from `lead`, `Body` reads it, and no reading of it comes before the one it gives. */
  lemma BodyFirst(l: string, lead: nat, a: nat, b: nat, typed: bool)
    requires BodyReads(l, lead, a, b, typed)
    ensures Body(l, lead, typed).Some?
    ensures var (a', b') := Body(l, lead, typed).value; a < a' || (a == a' && b' <= b)
  {
    var w := Run(l, lead, IsSpace);
    assert a <= lead + w;
    var e := lead + w;
    if a == e {
      assert Dots(l, e, b);
    } else if TailFrom(l, e, typed).None? {
      if b >= e {
        assert Dots(l, e, b);
      } else {
        TailShift(l, b, e - 1, typed);
      }
    }
  }

  /** A match is a reading of the pattern. */
  lemma MatchSound(l: string, typed: bool)
    ensures Match(l, typed).Some? ==> Reads(l, Match(l, typed).value, typed)
  {
    if PrefixReads(l, typed) {
      var lead := LeadAt(l, typed);
      match Body(l, lead, typed)
      case None =>
      case Some((a, b)) =>
        assert BodyReads(l, lead, a, b, typed) by {
          BodySound(l, lead, typed);
        }
        assert ColumnsRead(l, b, Greedy(l, b, typed), typed) by {
          TailColumns(l, b, typed);
        }
    }
  }

  /**
   * `g` comes no later than `h` in the order the engine tries readings: longer whitespace
   * first, then a shorter description, then the tail's groups as `ColumnsPrior` orders them.
   */
  predicate Prior(g: Groups, h: Groups) {
    g.dayLen == h.dayLen && g.monthStart == h.monthStart && g.typeStart == h.typeStart
    && (h.a < g.a || (h.a == g.a && (g.b < h.b || (g.b == h.b && ColumnsPrior(g.columns, h.columns)))))
  }

  /**
   * Whenever the pattern can match `l` at all, `Match` finds a match, and it is the
   * first reading the engine tries: no reading `h` comes before it.
   */
  lemma MatchFirst(l: string, typed: bool, h: Groups)
    requires Reads(l, h, typed)
    ensures Match(l, typed).Some? && Prior(Match(l, typed).value, h)
  {
    assert PrefixReads(l, typed) && h.dayLen == DayEnd(l) && h.monthStart == MonthAt(l)
      && h.typeStart == (if typed then TypeAt(l) else 0) && LeadAt(l, typed) == Lead(h, typed) by {
      DateAt(l, h.dayLen, h.monthStart);
      if typed {
        TypeAtIs(l, h.typeStart);
      }
    }
    var lead := LeadAt(l, typed);
    assert ColumnsPrior(Greedy(l, h.b, typed), h.columns) by {
      GreedyFirst(l, h.b, h.columns, typed);
    }
    assert BodyReads(l, lead, h.a, h.b, typed) by {
      GreedyFirst(l, h.b, h.columns, typed);
      TailColumns(l, h.b, typed);
    }
    BodyFirst(l, lead, h.a, h.b, typed);
    var (a, b) := Body(l, lead, typed).value;
    assert b <= |l| by {
      BodySound(l, lead, typed);
    }
    assert Match(l, typed) == Some(Groups(DayEnd(l), MonthAt(l), h.typeStart, a, b, Greedy(l, b, typed)));
  }

  /** A match is a reading, and the first one the engine tries: `Match` is what `pattern.match(l)` returns. */
  lemma MatchExact(l: string, typed: bool, g: Groups)
    ensures Match(l, typed) == Some(g) ==> Reads(l, g, typed) && forall h :: Reads(l, h, typed) ==> Prior(g, h)
    ensures Match(l, typed).None? ==> forall h :: !Reads(l, h, typed)
  {
    MatchSound(l, typed);
    forall h | Reads(l, h, typed) ensures Match(l, typed).Some? && Prior(Match(l, typed).value, h) {
      MatchFirst(l, typed, h);
    }
  }

  /** `month_map.get(name, "01")`: the month's two-digit code, January's for anything not in the table. */
  function MonthCode(name: string): (code: string)
    ensures forall j :: 0 <= j < 12 && MonthAbbreviations[j] == name ==> code == MonthCodes[j]
    ensures (forall j :: 0 <= j < 12 ==> MonthAbbreviations[j] != name) ==> code == "01"
  {
    AbbreviationsDistinct();
    MonthCodes[MonthOrJanuary(MonthAbbreviations, name) - 1]
  }

  /** The year printed as `%Y`. */
  lemma YearText()
    ensures Pad(Year, 4) + "-" == "2023-"
  {
    assert DigitChar(0) == '0' && DigitChar(2) == '2' && DigitChar(3) == '3';
    assert Pad(2, 1) == "2";
    assert Pad(20, 2) == "20";
    assert Pad(202, 3) == "202";
  }

  /**
   * The date a match names: in 2023, in the month of its (case-sensitive) abbreviation,
   * January when the table lacks it, on its day (its text: `DateOfText`).
   */
  function DateOf(l: string, g: Groups): (d: Date)
    requires DateReads(l, g.dayLen, g.monthStart)
    ensures d.year == Year && 1 <= d.month <= 12
  {
    Date(Year, MonthOrJanuary(MonthAbbreviations, l[g.monthStart..g.monthStart + 3]), Value(l[..g.dayLen]))
  }

  /**
   * The ISO text of the date a match names is the `date_str` the source builds, so
   * `strptime` accepts it exactly when the date is valid, and `strftime` gives the same
   * text back.
   */
  lemma DateOfText(l: string, g: Groups)
    requires DateReads(l, g.dayLen, g.monthStart)
    ensures Iso(DateOf(l, g)) == "2023-" + MonthCode(l[g.monthStart..g.monthStart + 3]) + "-" + ZFill(l[..g.dayLen], 2)
  {
    var name := l[g.monthStart..g.monthStart + 3];
    var month := MonthOrJanuary(MonthAbbreviations, name);
    IsoOfCode(Year, month, l[..g.dayLen]);
    YearText();
  }

  /**
   * What `float()` accepts among strings of digits and points: at least one digit and at
   * most one point (`1.`, `.5` and `15` are numbers; ``, `.` and `1.2.3` are not).
   */
  predicate IsFloatText(u: string) {
    (forall k :: 0 <= k < |u| ==> IsDigit(u[k]) || u[k] == '.')
    && (exists k :: 0 <= k < |u| && IsDigit(u[k]))
    && (forall j, k :: 0 <= j < k < |u| && u[j] == '.' ==> u[k] != '.')
  }

  /** The characters of a numeric field with its commas dropped are digits and points. */
  lemma DigitsAndPoints(t: string)
    requires NumericText(t)
    ensures forall k :: 0 <= k < |RemoveCommas(t)| ==> IsDigit(RemoveCommas(t)[k]) || RemoveCommas(t)[k] == '.'
  {
    var u := RemoveCommas(t);
    forall k | 0 <= k < |u| ensures IsDigit(u[k]) || u[k] == '.' {
      assert u[k] in u;
      var j :| 0 <= j < |t| && t[j] == u[k];
    }
  }

  /** The number written `whole.frac`: the whole part plus the digits after the point, scaled down. */
  function PointValue(whole: nat, frac: string): (v: real)
    requires AllDigits(frac)
    ensures v >= whole as real
  {
    var scale := Pow10(|frac|);
    assert Value(frac) as real / scale as real >= 0.0;
    whole as real + Value(frac) as real / scale as real
  }

  /**
   * A string of digits and points is a number exactly when, after its leading digits,
   * either nothing follows and there was a digit, or a point follows and then only
   * digits, not all of them missing.
   */
  lemma FloatTextSplit(u: string)
    requires forall k :: 0 <= k < |u| ==> IsDigit(u[k]) || u[k] == '.'
    ensures var p := Run(u, 0, IsDigit);
            IsFloatText(u) <==> if p == |u| then p > 0 else AllDigits(u[p + 1..]) && |u| > 1
  {
    var p := Run(u, 0, IsDigit);
    if p < |u| {
      assert u[p] == '.';
      var frac := u[p + 1..];
      assert forall k :: 0 <= k < |frac| ==> frac[k] == u[p + 1 + k];
      if AllDigits(frac) && |u| > 1 {
        assert IsDigit(u[if p > 0 then 0 else 1]);
        forall j, k | 0 <= j < k < |u| && u[j] == '.' ensures u[k] != '.' {
          assert j == p;
          assert IsDigit(frac[k - p - 1]);
        }
      }
      if IsFloatText(u) {
        forall k | 0 <= k < |frac| ensures IsDigit(frac[k]) {
          assert u[p] == '.' && p < p + 1 + k;
        }
      }
    } else if p > 0 {
      assert IsDigit(u[0]);
    }
  }

  /**
   * Python's `float(u)` on a string of digits and points: the value of the digits before
   * the point plus the fraction after it, read exactly, or the text it rejects.
   */
  function Float(u: string): (r: Result<real, string>)
    requires forall k :: 0 <= k < |u| ==> IsDigit(u[k]) || u[k] == '.'
    ensures r.Ok? <==> IsFloatText(u)
    ensures r.Ok? ==> r.value >= 0.0
    ensures r.Err? ==> r.error == u
  {
    FloatTextSplit(u);
    var p := Run(u, 0, IsDigit);
    if p == |u| then
      if p == 0 then Err(u) else Ok(Value(u) as real)
    else if !AllDigits(u[p + 1..]) || |u| == 1 then Err(u)
    else
      assert AllDigits(u[..p]) by {
        assert forall k :: 0 <= k < p ==> u[..p][k] == u[k];
      }
      Ok(PointValue(Value(u[..p]), u[p + 1..]))
  }

  /** Digits, a point and digits read as the whole part plus the fraction. */
  lemma FloatOfPoint(whole: string, frac: string)
    requires AllDigits(whole) && AllDigits(frac) && frac != []
    ensures var u := whole + (['.'] + frac);
            (forall k :: 0 <= k < |u| ==> IsDigit(u[k]) || u[k] == '.')
            && Float(u) == Ok(PointValue(Value(whole), frac))
  {
    var u := whole + (['.'] + frac);
    assert forall k :: 0 <= k < |whole| ==> u[k] == whole[k];
    assert forall k :: 0 <= k < |frac| ==> u[|whole| + 1 + k] == frac[k];
    RunIs(u, 0, |whole|, IsDigit);
    assert u[|whole| + 1..] == frac;
    assert u[..|whole|] == whole;
  }

  /** `float(t.replace(",", ""))` on a numeric field; a text it rejects ends the run with a `ValueError`. */
  function FloatOf(t: string): (r: Result<real, string>)
    requires NumericText(t)
    ensures r.Ok? <==> IsFloatText(RemoveCommas(t))
    ensures r.Ok? ==> r.value >= 0.0
    ensures r.Err? ==> r.error == RemoveCommas(t)
  {
    DigitsAndPoints(t);
    Float(RemoveCommas(t))
  }

  /** An unsigned two-decimal token is a numeric field. */
  lemma TokenIsNumeric(t: string)
    requires IsDecimalToken(t) && t[0] != '-'
    ensures NumericText(t) && AllDigits(t[|t| - 2..])
  {
    assert forall k :: |t| - 2 <= k < |t| ==> t[|t| - 2..][k - (|t| - 2)] == t[k];
  }

  /** The whole part of an unsigned two-decimal token, commas dropped, is all digits. */
  lemma WholeDigits(t: string)
    requires IsDecimalToken(t) && t[0] != '-'
    ensures AllDigits(RemoveCommas(t[..|t| - 3]))
  {
    var whole := RemoveCommas(t[..|t| - 3]);
    forall k | 0 <= k < |whole| ensures IsDigit(whole[k]) {
      assert whole[k] in whole;
    }
  }

  /** Dropping the commas of an unsigned two-decimal token leaves its whole digits, the point and the two decimals. */
  lemma TokenWithoutCommas(t: string)
    requires IsDecimalToken(t) && t[0] != '-'
    ensures RemoveCommas(t) == RemoveCommas(t[..|t| - 3]) + (['.'] + t[|t| - 2..])
  {
    var head, tail := t[..|t| - 3], t[|t| - 3..];
    assert t == head + tail;
    forall k | 0 <= k < |tail| ensures tail[k] != ',' {
      assert tail[k] == t[|t| - 3 + k];
    }
    RemoveCommasNone(tail);
    RemoveCommasAppend(head, tail);
    assert tail == ['.'] + t[|t| - 2..];
  }

  /** On an unsigned two-decimal token, `FloatOf` is the token's amount in cents, divided by 100. */
  lemma FloatOfCents(t: string)
    requires IsDecimalToken(t) && t[0] != '-'
    ensures NumericText(t) && FloatOf(t) == Ok(Cents(t) as real / 100.0)
  {
    TokenIsNumeric(t);
    WholeDigits(t);
    TokenWithoutCommas(t);
    var whole, frac := RemoveCommas(t[..|t| - 3]), t[|t| - 2..];
    FloatOfPoint(whole, frac);
    CentsOfToken(t);
    TwoDecimals(Value(whole), frac);
  }

  /** `Cents` of an unsigned token: a hundred times its whole part, plus its two decimals. */
  lemma CentsOfToken(t: string)
    requires IsDecimalToken(t) && t[0] != '-'
    requires AllDigits(RemoveCommas(t[..|t| - 3])) && AllDigits(t[|t| - 2..])
    ensures Cents(t) == 100 * Value(RemoveCommas(t[..|t| - 3])) + Value(t[|t| - 2..])
  {
    assert t[0..|t| - 3] == t[..|t| - 3];
  }

  /** A whole part and two decimals, read as a number, are that many hundredths. */
  lemma TwoDecimals(whole: nat, frac: string)
    requires AllDigits(frac) && |frac| == 2
    ensures PointValue(whole, frac) == (100 * whole + Value(frac)) as real / 100.0
  {
    assert Pow10(|frac|) == 100;
  }

  /** A money-out amount: the value read, negated. */
  function Debit(v: real): (a: real)
    ensures v >= 0.0 ==> a <= 0.0
  {
    -v
  }

  /** `m.group(n)` of an amount group spanning `l[i..j]`: its text, or none when it took no part. */
  function Group(l: string, i: nat, j: nat): (r: Option<string>)
    requires i <= j <= |l| && NumericRun(l, i, j)
    ensures r.Some? <==> i < j
    ensures r.Some? ==> NumericText(r.value) && |r.value| == j - i
  {
    if i < j then Some(l[i..j]) else None
  }

  /** `m.group(5)`, money out; in the fallback, `m.group(4)`, its one amount. */
  function MoneyOut(l: string, g: Groups, typed: bool): (r: Option<string>)
    requires Match(l, typed) == Some(g)
    ensures r.Some? ==> NumericText(r.value)
    ensures !typed ==> r.Some?
  {
    MatchSound(l, typed);
    Group(l, g.columns.outAt, g.columns.outEnd)
  }

  /** `m.group(6)`: money in. */
  function MoneyIn(l: string, g: Groups): (r: Option<string>)
    requires Match(l, true) == Some(g)
    ensures r.Some? ==> NumericText(r.value)
  {
    MatchSound(l, true);
    Group(l, g.columns.inAt, g.columns.inEnd)
  }

  /**
   * In the match the engine settles on, the amount groups are whole `[\d,.]` runs in
   * order: money out starts at the first character after the description's whitespace
   * and is absent only when the line ends there; money in is set only after money out
   * and the whitespace that ends it; the balance only after money in.
   */
  lemma WholeRuns(l: string, typed: bool)
    requires Match(l, typed).Some?
    ensures var g := Match(l, typed).value;
            var c := g.columns;
            Reads(l, g, typed)
            && (c.outAt == c.outEnd ==> c.outAt == |l| && c.inAt == c.inEnd)
            && (c.outAt < c.outEnd ==> c.outEnd == |l| || !IsNumeric(l[c.outEnd]))
            && (c.inAt < c.inEnd ==> c.outAt < c.outEnd < c.inAt && (c.inEnd == |l| || !IsNumeric(l[c.inEnd])))
            && (c.balanceAt < c.balanceEnd ==> c.inAt < c.inEnd < c.balanceAt)
  {
    MatchSound(l, typed);
    var g := Match(l, typed).value;
    var c := g.columns;
    assert c == Greedy(l, g.b, typed);
    EndStops(l, g.b, false);
    EndStops(l, c.outAt, true);
    if typed {
      GreedyCollapse(l, g.b);
      EndStops(l, c.inAt, true);
    }
  }

  /**
   * The amount of a primary match: money out, negated, when it is there; else money in;
   * else none (the line is skipped). A field `float()` rejects is an error.
   */
  function AmountOf(moneyOut: Option<string>, moneyIn: Option<string>): (r: Result<Option<real>, string>)
    requires moneyOut.Some? ==> NumericText(moneyOut.value)
    requires moneyIn.Some? ==> NumericText(moneyIn.value)
    ensures r == Ok(None) <==> moneyOut.None? && moneyIn.None?
    ensures r.Err? <==> if moneyOut.Some? then !IsFloatText(RemoveCommas(moneyOut.value))
                        else moneyIn.Some? && !IsFloatText(RemoveCommas(moneyIn.value))
    ensures r.Ok? && r.value.Some? && moneyOut.Some? ==> r.value.value <= 0.0
    ensures r.Ok? && r.value.Some? && moneyOut.None? ==> r.value.value >= 0.0
  {
    if moneyOut.Some? then
      match FloatOf(moneyOut.value)
      case Err(e) => Err(e)
      case Ok(v) => Ok(Some(Debit(v)))
    else if moneyIn.Some? then
      match FloatOf(moneyIn.value)
      case Err(e) => Err(e)
      case Ok(v) => Ok(Some(v))
    else Ok(None)
  }

  /**
   * What one line gives in the primary pass: nothing when the stripped line does not
   * match, its date does not exist, or it has neither money out nor money in; else a
   * record with the stripped description and the amount, or the error of a field
   * `float()` rejects.
   */
  function PrimaryOutcome(line: string): Result<Option<Record>, string> {
    var l := Strip(line);
    match Match(l, true)
    case None => Ok(None)
    case Some(g) =>
      assert DateReads(l, g.dayLen, g.monthStart) && g.a <= g.b <= |l| by {
        MatchSound(l, true);
      }
      var date := DateOf(l, g);
      if !IsValid(date) then Ok(None)
      else
        match AmountOf(MoneyOut(l, g, true), MoneyIn(l, g))
        case Err(e) => Err(e)
        case Ok(None) => Ok(None)
        case Ok(Some(amount)) => Ok(Some(Record(date, Strip(l[g.a..g.b]), amount)))
  }

  /**
   * What one line gives in the fallback pass: nothing when the stripped line does not
   * match or its date does not exist; else a record with the stripped description and
   * the amount field as money out, or the error of a field `float()` rejects.
   */
  function FallbackOutcome(line: string): Result<Option<Record>, string> {
    var l := Strip(line);
    match Match(l, false)
    case None => Ok(None)
    case Some(g) =>
      assert DateReads(l, g.dayLen, g.monthStart) && g.a <= g.b <= |l| by {
        MatchSound(l, false);
      }
      var date := DateOf(l, g);
      if !IsValid(date) then Ok(None)
      else
        match FloatOf(MoneyOut(l, g, false).value)
        case Err(e) => Err(e)
        case Ok(v) => Ok(Some(Record(date, Strip(l[g.a..g.b]), Debit(v))))
  }

  /** What one line gives in the primary (`typed`) or the fallback pass. */
  function Outcome(line: string, typed: bool): Result<Option<Record>, string> {
    if typed then PrimaryOutcome(line) else FallbackOutcome(line)
  }

  function Outcomes(lines: seq<string>, typed: bool): (os: seq<Result<Option<Record>, string>>)
    ensures |os| == |lines|
  {
    seq(|lines|, k requires 0 <= k < |lines| => Outcome(lines[k], typed))
  }

  /** One pass over the lines: the records in line order, or the first error. */
  function Pass(lines: seq<string>, typed: bool): Result<seq<Record>, string> {
    match Sequence(Outcomes(lines, typed))
    case Err(e) => Err(e)
    case Ok(os) => Ok(Somes(os))
  }

  /** The primary pass's records; when it gives none, the fallback pass's. */
  function Transactions(lines: seq<string>): Result<seq<Record>, string> {
    match Pass(lines, true)
    case Err(e) => Err(e)
    case Ok(ts) => if ts != [] then Ok(ts) else Pass(lines, false)
  }

  /** The body of the primary loop for one line: strip, match, check the date, pick the amount. */
  method PrimaryLine(raw: string) returns (o: Result<Option<Record>, string>)
    ensures o == PrimaryOutcome(raw)
  {
    o := Ok(None);
    var line := Strip(raw);
    var m := Match(line, true);
    if m.Some? {
      var g := m.value;
      assert DateReads(line, g.dayLen, g.monthStart) && g.a <= g.b <= |line| by {
        MatchSound(line, true);
      }
      var date := DateOf(line, g);
      if !IsValid(date) {
        return;
      }
      var description := Strip(line[g.a..g.b]);
      var moneyOut := MoneyOut(line, g, true);
      var moneyIn := MoneyIn(line, g);
      var amount := AmountOf(moneyOut, moneyIn);
      if amount.Err? {
        o := Err(amount.error);
      } else if amount.value.Some? {
        o := Ok(Some(Record(date, description, amount.value.value)));
      }
    }
  }

  /** The body of the fallback loop for one line: strip, match, check the date, read the amount as money out. */
  method FallbackLine(raw: string) returns (o: Result<Option<Record>, string>)
    ensures o == FallbackOutcome(raw)
  {
    o := Ok(None);
    var line := Strip(raw);
    var m := Match(line, false);
    if m.Some? {
      var g := m.value;
      assert DateReads(line, g.dayLen, g.monthStart) && g.a <= g.b <= |line| by {
        MatchSound(line, false);
      }
      var date := DateOf(line, g);
      if !IsValid(date) {
        return;
      }
      var description := Strip(line[g.a..g.b]);
      var amount := FloatOf(MoneyOut(line, g, false).value);
      if amount.Err? {
        o := Err(amount.error);
      } else {
        o := Ok(Some(Record(date, description, Debit(amount.value))));
      }
    }
  }

  /** One more line after a successful prefix of a pass: its record is appended, or its error ends the pass. */
  lemma PassStep(os: seq<Result<Option<Record>, string>>, i: nat, done: seq<Option<Record>>)
    requires i < |os| && Sequence(os[..i]) == Ok(done)
    ensures os[i].Ok? ==> Sequence(os[..i + 1]) == Ok(done + [os[i].value])
                          && Somes(done + [os[i].value]) == Somes(done) + (if os[i].value.Some? then [os[i].value.value] else [])
    ensures os[i].Err? ==> Sequence(os) == Err(os[i].error)
  {
    SequenceStep(os, i, done);
    if os[i].Ok? {
      SomesSnoc(done + [os[i].value], |done|);
      assert (done + [os[i].value])[..|done|] == done;
    }
  }

  /** A whole pass that ran through every line. */
  lemma PassEnd(lines: seq<string>, typed: bool, done: seq<Option<Record>>)
    requires Sequence(Outcomes(lines, typed)[..|lines|]) == Ok(done)
    ensures Pass(lines, typed) == Ok(Somes(done))
  {
    assert Outcomes(lines, typed)[..|lines|] == Outcomes(lines, typed);
  }

  /** The primary loop: each line read against the primary pattern; a rejected field ends the run. */
  method PrimaryPass(lines: seq<string>) returns (r: Result<seq<Record>, string>)
    ensures r == Pass(lines, true)
  {
    var transactions: seq<Record> := [];
    ghost var done: seq<Option<Record>> := [];
    for i := 0 to |lines|
      invariant Sequence(Outcomes(lines, true)[..i]) == Ok(done)
      invariant transactions == Somes(done)
    {
      var o := PrimaryLine(lines[i]);
      assert o == Outcomes(lines, true)[i];
      PassStep(Outcomes(lines, true), i, done);
      if o.Err? {
        return Err(o.error);
      }
      if o.value.Some? {
        transactions := transactions + [o.value.value];
      }
      done := done + [o.value];
    }
    PassEnd(lines, true, done);
    return Ok(transactions);
  }

  /** The fallback loop: each line read against the fallback pattern; a rejected field ends the run. */
  method FallbackPass(lines: seq<string>) returns (r: Result<seq<Record>, string>)
    ensures r == Pass(lines, false)
  {
    var transactions: seq<Record> := [];
    ghost var done: seq<Option<Record>> := [];
    for i := 0 to |lines|
      invariant Sequence(Outcomes(lines, false)[..i]) == Ok(done)
      invariant transactions == Somes(done)
    {
      var o := FallbackLine(lines[i]);
      assert o == Outcomes(lines, false)[i];
      PassStep(Outcomes(lines, false), i, done);
      if o.Err? {
        return Err(o.error);
      }
      if o.value.Some? {
        transactions := transactions + [o.value.value];
      }
      done := done + [o.value];
    }
    PassEnd(lines, false, done);
    return Ok(transactions);
  }

  /**
   * The script: the primary pass over the lines and, only when it appends nothing, the
   * fallback pass.
   */
  method Parse(lines: seq<string>) returns (r: Result<seq<Record>, string>)
    ensures r == Transactions(lines)
  {
    r := PrimaryPass(lines);
    if r == Ok([]) {
      r := FallbackPass(lines);
    }
  }

  /**
   * A line is skipped exactly when the stripped line does not match, its date does not
   * exist, or (primary) money out is absent; it fails exactly when it would give a
   * record but money out is not a number `float()` reads.
   */
  lemma OutcomeCases(line: string, typed: bool)
    ensures var l := Strip(line);
            Outcome(line, typed) == Ok(None) <==>
              Match(l, typed).None?
              || (Reads(l, Match(l, typed).value, typed)
                  && (!IsValid(DateOf(l, Match(l, typed).value)) || MoneyOut(l, Match(l, typed).value, typed).None?))
    ensures var l := Strip(line);
            Outcome(line, typed).Err? <==>
              Match(l, typed).Some? && Reads(l, Match(l, typed).value, typed)
              && IsValid(DateOf(l, Match(l, typed).value))
              && MoneyOut(l, Match(l, typed).value, typed).Some?
              && !IsFloatText(RemoveCommas(MoneyOut(l, Match(l, typed).value, typed).value))
  {
    var l := Strip(line);
    MatchSound(l, typed);
    if typed && Match(l, typed).Some? {
      MoneyInNeverRecorded(l);
    }
  }

  /**
   * A record has a valid date in 2023, the stripped lazy description, and the first
   * numeric field's value, negated: in both passes every amount is money out.
   */
  lemma OutcomeRecord(line: string, typed: bool)
    ensures var l := Strip(line);
            Outcome(line, typed).Ok? && Outcome(line, typed).value.Some? ==>
              Match(l, typed).Some? && Reads(l, Match(l, typed).value, typed)
              && var g := Match(l, typed).value;
                 var t := Outcome(line, typed).value.value;
                 var out := MoneyOut(l, g, typed);
                 t.date == DateOf(l, g) && IsValid(t.date) && t.date.year == Year
                 && t.description == Strip(l[g.a..g.b])
                 && out.Some? && FloatOf(out.value).Ok? && t.amount == -FloatOf(out.value).value
                 && t.amount <= 0.0
  {
    var l := Strip(line);
    MatchSound(l, typed);
    if typed && Match(l, typed).Some? {
      MoneyInNeverRecorded(l);
    }
  }

  /**
   * The `elif money_in` branch never decides an amount: in the match the engine settles
   * on, the money-in group is set only when the money-out group before it is. (Other
   * readings of the pattern, which the engine tries later, can skip money out and set
   * money in.)
   */
  lemma MoneyInNeverRecorded(l: string)
    requires Match(l, true).Some?
    ensures var g := Match(l, true).value;
            Reads(l, g, true)
            && (MoneyIn(l, g).Some? ==> MoneyOut(l, g, true).Some?)
            && AmountOf(MoneyOut(l, g, true), MoneyIn(l, g)) == AmountOf(MoneyOut(l, g, true), None)
  {
    WholeRuns(l, true);
  }

  /**
   * A pass keeps one record per line that gives one, in line order: the `j`-th record
   * comes from the `j`-th such line.
   */
  lemma PassOrder(lines: seq<string>, typed: bool)
    ensures Pass(lines, typed).Ok? ==>
              var os := Sequence(Outcomes(lines, typed)).value;
              var ts := Pass(lines, typed).value;
              |ts| == |Positions(os)|
              && (forall j :: 0 <= j < |ts| ==>
                    Positions(os)[j] < |lines| && Outcome(lines[Positions(os)[j]], typed) == Ok(Some(ts[j])))
              && forall k :: 0 <= k < |lines| && Outcome(lines[k], typed).Ok? && Outcome(lines[k], typed).value.Some? ==>
                   k in Positions(os)
  {
    var rs := Outcomes(lines, typed);
    SequenceOk(rs);
    if Sequence(rs).Ok? {
      var os := Sequence(rs).value;
      SomesAtPositions(os);
      forall k | 0 <= k < |lines| ensures rs[k] == Ok(os[k]) && rs[k] == Outcome(lines[k], typed) {
      }
    }
  }

  /** A failed pass carries the error of its first failing line; every line before it was read. */
  lemma PassFails(lines: seq<string>, typed: bool)
    ensures Pass(lines, typed).Err? ==>
              exists k :: 0 <= k < |lines| && Outcome(lines[k], typed) == Err(Pass(lines, typed).error)
                          && forall j :: 0 <= j < k ==> Outcome(lines[j], typed).Ok?
  {
    var rs := Outcomes(lines, typed);
    SequenceErr(rs);
    if Sequence(rs).Err? {
      var k :| 0 <= k < |rs| && rs[k] == Err(Sequence(rs).error) && forall j :: 0 <= j < k ==> rs[j].Ok?;
      assert rs[k] == Outcome(lines[k], typed);
      forall j | 0 <= j < k ensures Outcome(lines[j], typed).Ok? {
        assert rs[j] == Outcome(lines[j], typed);
      }
    }
  }

  /** Every record a pass keeps has a valid 2023 date and an amount that is not positive. */
  lemma PassRecords(lines: seq<string>, typed: bool)
    ensures Pass(lines, typed).Ok? ==>
              forall t :: t in Pass(lines, typed).value ==> IsValid(t.date) && t.date.year == Year && t.amount <= 0.0
  {
    PassOrder(lines, typed);
    if Pass(lines, typed).Ok? {
      var ts := Pass(lines, typed).value;
      forall t | t in ts ensures IsValid(t.date) && t.date.year == Year && t.amount <= 0.0 {
        var j :| 0 <= j < |ts| && ts[j] == t;
        var os := Sequence(Outcomes(lines, typed)).value;
        OutcomeRecord(lines[Positions(os)[j]], typed);
      }
    }
  }

  /**
   * The output comes from one pass: the primary pass's error or records when it keeps
   * any, else the fallback pass's; every record has a valid 2023 date and an amount
   * that is not positive.
   */
  lemma TransactionsShape(lines: seq<string>)
    ensures Transactions(lines) == Pass(lines, true)
            || (Pass(lines, true) == Ok([]) && Transactions(lines) == Pass(lines, false))
    ensures Transactions(lines).Ok? ==>
              forall t :: t in Transactions(lines).value ==> IsValid(t.date) && t.date.year == Year && t.amount <= 0.0
  {
    PassRecords(lines, true);
    PassRecords(lines, false);
  }
}
