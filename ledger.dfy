/**
 * The record every statement parser emits, and the money amounts in it. The
 * parsers convert amount text such as `1,234.56` with `float(...)`; with
 * exactly two decimals that value is held here exactly, in cents.
 */
module Ledger {
  import opened Wrappers
  import opened Text
  import opened Calendar

  /** One emitted `{date, description, amount}` object; `amount` is in cents, negative for money out. */
  datatype Transaction = Transaction(date: Date, description: string, amount: int)

  /** `[\d,]*\.\d{2}` with an optional leading minus sign: the text every two-decimal amount token has. */
  predicate IsDecimalToken(t: string) {
    var s := if |t| > 0 && t[0] == '-' then 1 else 0;
    |t| >= s + 3 && t[|t| - 3] == '.' && IsDigit(t[|t| - 2]) && IsDigit(t[|t| - 1])
    && forall k :: s <= k < |t| - 3 ==> IsDigit(t[k]) || t[k] == ','
  }

  /** `float(t.replace(",", ""))` in cents: the whole part with its commas dropped, then two decimals. */
  function Cents(t: string): (c: int)
    requires IsDecimalToken(t)
    ensures t[0] == '-' ==> c <= 0
    ensures t[0] != '-' ==> c >= 0
  {
    var negative := t[0] == '-';
    var whole := RemoveCommas(t[if negative then 1 else 0..|t| - 3]);
    assert AllDigits(whole) by {
      forall k | 0 <= k < |whole| ensures IsDigit(whole[k]) {
        assert whole[k] in whole;
      }
    }
    var magnitude := 100 * Value(whole) + Value(t[|t| - 2..]);
    if negative then -magnitude else magnitude
  }

  /** The values of the `Some` entries of `xs`, in order: what a loop that appends each line's outcome builds. */
  function Somes<T>(xs: seq<Option<T>>): (ys: seq<T>)
    ensures |ys| <= |xs|
  {
    if xs == [] then []
    else Somes(xs[..|xs| - 1]) + (if xs[|xs| - 1].Some? then [xs[|xs| - 1].value] else [])
  }

  /** Taking one more entry appends its value, if it has one. */
  lemma SomesSnoc<T>(xs: seq<Option<T>>, i: nat)
    requires i < |xs|
    ensures Somes(xs[..i + 1]) == Somes(xs[..i]) + (if xs[i].Some? then [xs[i].value] else [])
  {
    assert xs[..i + 1][..i] == xs[..i];
  }

  /** The indices of the `Some` entries of `xs`, in increasing order. */
  function Positions<T>(xs: seq<Option<T>>): (ps: seq<nat>)
    ensures forall j :: 0 <= j < |ps| ==> ps[j] < |xs| && xs[ps[j]].Some?
    ensures forall j, j' :: 0 <= j < j' < |ps| ==> ps[j] < ps[j']
    ensures forall k :: 0 <= k < |xs| && xs[k].Some? ==> k in ps
  {
    if xs == [] then []
    else
      var init := xs[..|xs| - 1];
      assert forall k :: 0 <= k < |init| ==> init[k] == xs[k];
      Positions(init) + (if xs[|xs| - 1].Some? then [|xs| - 1] else [])
  }

  /**
   * One value per `Some` entry, in order: the `j`-th value of `Somes(xs)` is the value of
   * the `j`-th entry that has one.
   */
  lemma {:induction false} SomesAtPositions<T>(xs: seq<Option<T>>)
    ensures |Somes(xs)| == |Positions(xs)|
    ensures forall j :: 0 <= j < |Somes(xs)| ==> xs[Positions(xs)[j]] == Some(Somes(xs)[j])
  {
    if xs != [] {
      var init := xs[..|xs| - 1];
      SomesAtPositions(init);
      assert forall k :: 0 <= k < |init| ==> init[k] == xs[k];
    }
  }

  /**
   * The values of `rs` in order when every entry is `Ok`, else the error of the first
   * `Err`: what a loop returns that appends each value and stops at the first exception.
   */
  function Sequence<T, E>(rs: seq<Result<T, E>>): (r: Result<seq<T>, E>)
    ensures r.Ok? ==> |r.value| == |rs|
  {
    if rs == [] then Ok([])
    else
      match Sequence(rs[..|rs| - 1])
      case Err(e) => Err(e)
      case Ok(done) =>
        match rs[|rs| - 1]
        case Err(e) => Err(e)
        case Ok(t) => Ok(done + [t])
  }

  /** Once a prefix holds an error, the entries after it change nothing. */
  lemma {:induction false} SequenceStops<T, E>(rs: seq<Result<T, E>>, i: nat)
    requires i <= |rs| && Sequence(rs[..i]).Err?
    ensures Sequence(rs) == Sequence(rs[..i])
    decreases |rs| - i
  {
    if i < |rs| {
      assert rs[..i + 1][..i] == rs[..i];
      SequenceStops(rs, i + 1);
    } else {
      assert rs[..i] == rs;
    }
  }

  /** One more entry after a successful prefix either extends its values or ends the run with its error. */
  lemma SequenceStep<T, E>(rs: seq<Result<T, E>>, i: nat, done: seq<T>)
    requires i < |rs| && Sequence(rs[..i]) == Ok(done)
    ensures rs[i].Ok? ==> Sequence(rs[..i + 1]) == Ok(done + [rs[i].value])
    ensures rs[i].Err? ==> Sequence(rs) == Err(rs[i].error)
  {
    assert rs[..i + 1][..i] == rs[..i];
    if rs[i].Err? {
      SequenceStops(rs, i + 1);
    }
  }

  /** The run succeeds exactly when every entry is `Ok`, and then its `k`-th value is the `k`-th entry's. */
  lemma {:induction false} SequenceOk<T, E>(rs: seq<Result<T, E>>)
    ensures Sequence(rs).Ok? <==> forall k :: 0 <= k < |rs| ==> rs[k].Ok?
    ensures Sequence(rs).Ok? ==> forall k :: 0 <= k < |rs| ==> rs[k] == Ok(Sequence(rs).value[k])
  {
    if rs != [] {
      var init := rs[..|rs| - 1];
      SequenceOk(init);
      assert forall k :: 0 <= k < |init| ==> init[k] == rs[k];
    }
  }

  /** A failed run carries the error of the first `Err` entry. */
  lemma {:induction false} SequenceErr<T, E>(rs: seq<Result<T, E>>)
    ensures Sequence(rs).Err? ==>
              exists k :: 0 <= k < |rs| && rs[k] == Err(Sequence(rs).error)
                          && forall j :: 0 <= j < k ==> rs[j].Ok?
  {
    if rs != [] {
      var init := rs[..|rs| - 1];
      SequenceErr(init);
      SequenceOk(init);
      assert forall k :: 0 <= k < |init| ==> init[k] == rs[k];
    }
  }
}
