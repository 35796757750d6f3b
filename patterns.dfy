/**
 * The two regular-expression behaviours the parsers depend on, written as
 * scanners with the outcome of Python's backtracking `re` engine as their
 * contract:
 *  - a greedy `\s+` followed by a lazy description `(.*?)` or `(.+?)` and the
 *    rest of a pattern (`LazySplit`): the engine first tries the longest
 *    whitespace, and for it the shortest description, backing off only when
 *    the rest cannot match;
 *  - `re.findall` / `re.finditer` (`FindAll`): leftmost, non-overlapping
 *    matches, scanning on from the end of each match;
 * and the amount tokens the parsers search for.
 */
module Patterns {
  import opened Wrappers
  import opened Text
  import opened Ledger

  predicate SpacesIn(r: string, lo: nat, hi: nat)
    requires lo <= hi <= |r|
  {
    forall k :: lo <= k < hi ==> IsSpace(r[k])
  }

  /** Every character of `r[lo..hi]` is in the class `p`. */
  predicate CharsIn(r: string, lo: nat, hi: nat, p: char -> bool)
    requires lo <= hi <= |r|
  {
    forall k :: lo <= k < hi ==> p(r[k])
  }

  /** A run of `p` characters that a non-`p` character closes at `hi` ends there. */
  lemma RunStops(r: string, lo: nat, hi: nat, p: char -> bool)
    requires lo <= hi < |r| && CharsIn(r, lo, hi, p) && !p(r[hi])
    ensures lo + Run(r, lo, p) == hi
  {
    RunIs(r, lo, hi - lo, p);
  }

  /** A stretch of digits, cut out of `r`, is a digit string. */
  lemma DigitsSlice(r: string, lo: nat, hi: nat)
    requires lo <= hi <= |r| && CharsIn(r, lo, hi, IsDigit)
    ensures AllDigits(r[lo..hi])
  {
    var v := r[lo..hi];
    assert forall k :: 0 <= k < |v| ==> v[k] == r[lo + k];
  }

  predicate DotsIn(r: string, lo: nat, hi: nat)
    requires lo <= hi <= |r|
  {
    forall k :: lo <= k < hi ==> IsDot(r[k])
  }

  /**
   * `r` read as `\s+` (its first `a` characters), a description `r[a..b]` of at
   * least `minDesc` characters other than a line feed (`(.*?)` for 0, `(.+?)` for 1)
   * and a remainder `r[b..]` that the rest of the pattern, `tail`, accepts.
   */
  predicate SplitOk(r: string, minDesc: nat, tail: string -> bool, a: nat, b: nat) {
    1 <= a && a + minDesc <= b <= |r| && SpacesIn(r, 0, a) && DotsIn(r, a, b) && tail(r[b..])
  }

  /** The reading a backtracking engine settles on: the longest whitespace that works, then the shortest description. */
  ghost predicate FirstSplit(r: string, minDesc: nat, tail: string -> bool, a: nat, b: nat) {
    SplitOk(r, minDesc, tail, a, b)
    && forall a': nat, b': nat :: SplitOk(r, minDesc, tail, a', b') ==> a' < a || (a' == a && b <= b')
  }

  /** Lazy expansion: the first end `e` from `b` on whose remainder `tail` accepts, while the description stays on one line. */
  function ShortestFrom(r: string, a: nat, b: nat, tail: string -> bool): (res: Option<nat>)
    requires a <= b <= |r| && DotsIn(r, a, b)
    ensures res.Some? ==> b <= res.value <= |r| && DotsIn(r, a, res.value) && tail(r[res.value..])
    decreases |r| - b
  {
    if tail(r[b..]) then Some(b)
    else if b < |r| && IsDot(r[b]) then ShortestFrom(r, a, b + 1, tail)
    else None
  }

  /** No end before the one `ShortestFrom` finds is accepted, and when it finds none, no end on the line is. */
  lemma {:induction false} ShortestFromIsFirst(r: string, a: nat, b: nat, tail: string -> bool)
    requires a <= b <= |r| && DotsIn(r, a, b)
    ensures var res := ShortestFrom(r, a, b, tail);
            res.Some? ==> forall e: nat :: b <= e < res.value ==> !tail(r[e..])
    ensures ShortestFrom(r, a, b, tail).None? ==> forall e: nat :: b <= e <= |r| && DotsIn(r, a, e) ==> !tail(r[e..])
    decreases |r| - b
  {
    if !tail(r[b..]) {
      if b < |r| && IsDot(r[b]) {
        ShortestFromIsFirst(r, a, b + 1, tail);
      } else {
        forall e: nat | b < e <= |r| ensures !DotsIn(r, a, e) {
          assert !IsDot(r[b]);
        }
      }
    }
  }

  /** The shortest description after exactly `a` whitespace characters. */
  function ShortestAfter(r: string, minDesc: nat, tail: string -> bool, a: nat): (res: Option<nat>)
    requires 1 <= a <= |r| && SpacesIn(r, 0, a)
    ensures res.Some? ==> SplitOk(r, minDesc, tail, a, res.value)
  {
    if a + minDesc <= |r| && DotsIn(r, a, a + minDesc) then ShortestFrom(r, a, a + minDesc, tail)
    else None
  }

  /** `ShortestAfter` finds the shortest description for `a`, and finds none only when there is none. */
  lemma ShortestAfterIsFirst(r: string, minDesc: nat, tail: string -> bool, a: nat)
    requires 1 <= a <= |r| && SpacesIn(r, 0, a)
    ensures var res := ShortestAfter(r, minDesc, tail, a);
            res.Some? ==> forall b: nat :: SplitOk(r, minDesc, tail, a, b) ==> res.value <= b
    ensures ShortestAfter(r, minDesc, tail, a).None? ==> forall b: nat :: !SplitOk(r, minDesc, tail, a, b)
  {
    if a + minDesc <= |r| && DotsIn(r, a, a + minDesc) {
      ShortestFromIsFirst(r, a, a + minDesc, tail);
    } else {
      forall b: nat | a + minDesc <= b <= |r| ensures !DotsIn(r, a, b) {
        assert a + minDesc <= |r| ==> !DotsIn(r, a, a + minDesc);
      }
    }
  }

  /** Backtracking over the whitespace: `a`, then `a - 1`, ..., then 1 characters. */
  function LongestFirst(r: string, minDesc: nat, tail: string -> bool, a: nat): (res: Option<(nat, nat)>)
    requires a <= |r| && SpacesIn(r, 0, a)
    ensures res.Some? ==> res.value.0 <= a && SplitOk(r, minDesc, tail, res.value.0, res.value.1)
    decreases a
  {
    if a == 0 then None
    else match ShortestAfter(r, minDesc, tail, a)
      case Some(b) => Some((a, b))
      case None => LongestFirst(r, minDesc, tail, a - 1)
  }

  /** `LongestFirst` finds the first split in the engine's order among whitespace lengths up to `a`. */
  lemma {:induction false} LongestFirstIsFirst(r: string, minDesc: nat, tail: string -> bool, a: nat)
    requires a <= |r| && SpacesIn(r, 0, a)
    ensures var res := LongestFirst(r, minDesc, tail, a);
            res.Some? ==> forall a': nat, b': nat :: a' <= a && SplitOk(r, minDesc, tail, a', b') ==>
                            a' < res.value.0 || (a' == res.value.0 && res.value.1 <= b')
    ensures LongestFirst(r, minDesc, tail, a).None? ==> forall a': nat, b': nat :: a' <= a ==> !SplitOk(r, minDesc, tail, a', b')
    decreases a
  {
    if a > 0 {
      ShortestAfterIsFirst(r, minDesc, tail, a);
      if ShortestAfter(r, minDesc, tail, a).None? {
        LongestFirstIsFirst(r, minDesc, tail, a - 1);
      }
    }
  }

  /** What `\s+(.*?)` / `\s+(.+?)` followed by `tail` captures in `r`: the whitespace length and the description end. */
  function LazySplit(r: string, minDesc: nat, tail: string -> bool): (res: Option<(nat, nat)>)
    ensures res.Some? ==> SplitOk(r, minDesc, tail, res.value.0, res.value.1)
  {
    LongestFirst(r, minDesc, tail, Run(r, 0, IsSpace))
  }

  /**
   * `LazySplit` finds the split a backtracking engine settles on, and finds none only
   * when there is none.
   */
  lemma LazySplitIsFirst(r: string, minDesc: nat, tail: string -> bool)
    ensures var res := LazySplit(r, minDesc, tail);
            res.Some? ==> FirstSplit(r, minDesc, tail, res.value.0, res.value.1)
    ensures LazySplit(r, minDesc, tail).None? ==> forall a: nat, b: nat :: !SplitOk(r, minDesc, tail, a, b)
  {
    var w := Run(r, 0, IsSpace);
    LongestFirstIsFirst(r, minDesc, tail, w);
    forall a: nat, b: nat | w < a && a <= |r| ensures !SplitOk(r, minDesc, tail, a, b) {
      assert !IsSpace(r[w]);
    }
  }

  /** The split the engine settles on is the one `LazySplit` finds. */
  lemma FirstSplitFound(r: string, minDesc: nat, tail: string -> bool, a: nat, b: nat)
    requires FirstSplit(r, minDesc, tail, a, b)
    ensures LazySplit(r, minDesc, tail) == Some((a, b))
  {
    LazySplitIsFirst(r, minDesc, tail);
  }

  /** A match found by `findall`/`finditer`: where it starts and its text. */
  datatype Token = Token(start: nat, text: string)

  function End(t: Token): nat { t.start + |t.text| }

  /**
   * A pattern given by the length of its match starting at each index (0 when none
   * starts there); it never reaches past the end of `s`.
   */
  predicate Bounded(s: string, len: (string, nat) -> nat) {
    forall p: nat :: p <= |s| ==> p + len(s, p) <= |s|
  }

  /** `t` is the match of `len` that starts at `t.start`. */
  predicate MatchedAt(s: string, len: (string, nat) -> nat, t: Token) {
    0 < |t.text| == len(s, t.start) && End(t) <= |s| && s[t.start..End(t)] == t.text
  }

  /** No match of `len` starts at an index from `lo` up to (not including) `hi`. */
  predicate NoMatchIn(s: string, len: (string, nat) -> nat, lo: nat, hi: nat) {
    forall p: nat :: lo <= p < hi ==> len(s, p) == 0
  }

  /**
   * `r` is what a left-to-right scan from `from` finds: no match starts before its
   * first token, that token is the match starting where it starts, and the scan
   * goes on from the token's end; with no token left, no match starts at all.
   */
  predicate Scanned(s: string, len: (string, nat) -> nat, from: nat, r: seq<Token>)
    decreases |r|
  {
    if r == [] then NoMatchIn(s, len, from, |s|)
    else from <= r[0].start && NoMatchIn(s, len, from, r[0].start) && MatchedAt(s, len, r[0])
         && Scanned(s, len, End(r[0]), r[1..])
  }

  /**
   * `re.findall` / `re.finditer` from index `from`: try each index in turn, take
   * the match that starts there, and go on from its end.
   */
  function FindAll(s: string, from: nat, len: (string, nat) -> nat): seq<Token>
    requires from <= |s| && Bounded(s, len)
    decreases |s| - from
  {
    if from == |s| then []
    else if len(s, from) == 0 then FindAll(s, from + 1, len)
    else
      var n := len(s, from);
      [Token(from, s[from..from + n])] + FindAll(s, from + n, len)
  }

  /** `FindAll` finds what a left-to-right scan finds. */
  lemma {:induction false} FindAllScanned(s: string, from: nat, len: (string, nat) -> nat)
    requires from <= |s| && Bounded(s, len)
    ensures Scanned(s, len, from, FindAll(s, from, len))
    decreases |s| - from
  {
    var r := FindAll(s, from, len);
    if from < |s| {
      if len(s, from) == 0 {
        FindAllScanned(s, from + 1, len);
        assert r != [] ==> NoMatchIn(s, len, from, r[0].start);
      } else {
        var n := len(s, from);
        FindAllScanned(s, from + n, len);
        assert r[1..] == FindAll(s, from + n, len);
      }
    }
  }

  /** The tokens of a scan are matches, in text order and not overlapping. */
  lemma {:induction false} ScannedTokens(s: string, len: (string, nat) -> nat, from: nat, r: seq<Token>)
    requires Scanned(s, len, from, r)
    ensures forall k :: 0 <= k < |r| ==> from <= r[k].start && MatchedAt(s, len, r[k])
    ensures forall k :: 0 < k < |r| ==> End(r[k - 1]) <= r[k].start
    decreases |r|
  {
    if r != [] {
      ScannedTokens(s, len, End(r[0]), r[1..]);
    }
  }

  /** Each token of a scan occurs in the text where it starts. */
  lemma ScannedTokenOccurs(s: string, len: (string, nat) -> nat, from: nat, r: seq<Token>, k: nat)
    requires Scanned(s, len, from, r) && k < |r|
    ensures OccursAt(s, r[k].text, r[k].start)
  {
    ScannedTokens(s, len, from, r);
    assert MatchedAt(s, len, r[k]);
  }

  /** There is one scan from each position: `FindAll` is the only sequence of tokens that `Scanned` admits. */
  lemma {:induction false} ScannedUnique(s: string, len: (string, nat) -> nat, from: nat, r1: seq<Token>, r2: seq<Token>)
    requires Scanned(s, len, from, r1) && Scanned(s, len, from, r2)
    ensures r1 == r2
    decreases |r1|
  {
    if r1 != [] && r2 != [] {
      assert r1[0].start == r2[0].start;
      assert r1[0] == r2[0];
      ScannedUnique(s, len, End(r1[0]), r1[1..], r2[1..]);
    }
  }

  /** The run of digits and commas of an amount: `[\d,]`. */
  predicate IsDigitOrComma(c: char) { IsDigit(c) || c == ',' }

  /** `s[p..p + m]` reads `[\d,]+\.\d{2}`. */
  predicate CommaAmountAt(s: string, p: nat, m: nat) {
    p + m <= |s| && m >= 4 && s[p + m - 3] == '.' && IsDigit(s[p + m - 2]) && IsDigit(s[p + m - 1])
    && forall k :: p <= k < p + m - 3 ==> IsDigitOrComma(s[k])
  }

  /** `[\d,]+\.\d{2}` */
  predicate IsCommaAmount(t: string) { CommaAmountAt(t, 0, |t|) }

  /** `\d{1,3}(?:,\d{3})*`: one to three digits, then groups of a comma and three digits. */
  predicate IsThousands(t: string) {
    if |t| <= 3 then 1 <= |t| && AllDigits(t)
    else t[|t| - 4] == ',' && AllDigits(t[|t| - 3..]) && IsThousands(t[..|t| - 4])
  }

  /** `s[p..p + m]` reads `\d{1,3}(?:,\d{3})*\.\d{2}`, after a `-` when `signed` allows one there (`-?`). */
  predicate GroupedAmountAt(s: string, p: nat, m: nat, signed: bool) {
    var q := if signed && p < |s| && s[p] == '-' then p + 1 else p;
    p + m <= |s| && q + 4 <= p + m && s[p + m - 3] == '.' && IsDigit(s[p + m - 2]) && IsDigit(s[p + m - 1])
    && IsThousands(s[q..p + m - 3])
  }

  predicate IsGroupedAmount(t: string, signed: bool) { GroupedAmountAt(t, 0, |t|, signed) }

  lemma {:induction false} ThousandsChars(t: string)
    requires IsThousands(t)
    ensures forall k :: 0 <= k < |t| ==> IsDigitOrComma(t[k])
    ensures IsDigit(t[0])
    decreases |t|
  {
    if |t| > 3 {
      ThousandsChars(t[..|t| - 4]);
      forall k | 0 <= k < |t| ensures IsDigitOrComma(t[k]) {
        if k < |t| - 4 {
          assert t[k] == t[..|t| - 4][k];
        } else if k >= |t| - 3 {
          assert t[k] == t[|t| - 3..][k - (|t| - 3)];
        }
      }
      assert t[0] == t[..|t| - 4][0];
    }
  }

  /** The text of a grouped amount found inside `s` is a grouped amount on its own. */
  lemma GroupedAmountText(s: string, p: nat, m: nat, signed: bool)
    requires GroupedAmountAt(s, p, m, signed)
    ensures IsGroupedAmount(s[p..p + m], signed)
  {
    var u := s[p..p + m];
    var q := if signed && s[p] == '-' then p + 1 else p;
    assert u[0] == s[p];
    assert u[q - p..m - 3] == s[q..p + m - 3] by {
      var v := u[q - p..m - 3];
      assert forall k :: 0 <= k < |v| ==> v[k] == s[q + k];
    }
  }

  /** The text of a comma amount found inside `t` between `z` and `f` is a comma amount on its own. */
  lemma CommaAmountSlice(t: string, z: nat, f: nat)
    requires z <= f && CommaAmountAt(t, z, f - z)
    ensures IsCommaAmount(t[z..f])
  {
    var u := t[z..f];
    forall k | 0 <= k < |u| - 3 ensures IsDigitOrComma(u[k]) {
      assert u[k] == t[z + k];
    }
  }

  /** A comma amount is an unsigned two-decimal token `Cents` can read. */
  lemma CommaAmountIsDecimal(u: string)
    requires IsCommaAmount(u)
    ensures IsDecimalToken(u) && u[0] != '-'
  {
  }

  /** Every grouped amount is a two-decimal token `Cents` can read. */
  lemma GroupedIsDecimal(t: string, signed: bool)
    requires IsGroupedAmount(t, signed)
    ensures IsDecimalToken(t)
    ensures !signed ==> IsCommaAmount(t)
  {
    var q := if signed && 0 < |t| && t[0] == '-' then 1 else 0;
    var h := t[q..|t| - 3];
    ThousandsChars(h);
    assert forall k :: q <= k < |t| - 3 ==> t[k] == h[k - q];
  }

  /**
   * Where the digits-and-commas run that starts at `q` would have to end for an amount:
   * the run is maximal, because the point that follows it is not a digit or comma.
   */
  function AmountEnd(s: string, q: nat): (e: nat)
    requires q <= |s|
    ensures q <= e <= |s|
  {
    q + Run(s, q, IsDigitOrComma)
  }

  /** A token whose last three characters are `.dd` and whose earlier ones are digits and commas ends right after the run. */
  lemma AmountEndsAfterRun(s: string, q: nat, m: nat)
    requires q + m <= |s| && m >= 3 && s[q + m - 3] == '.'
    requires forall k :: q <= k < q + m - 3 ==> IsDigitOrComma(s[k])
    ensures AmountEnd(s, q) == q + m - 3
  {
    var n := Run(s, q, IsDigitOrComma);
    assert !IsDigitOrComma(s[q + m - 3]);
  }

  /** The match of `[\d,]+\.\d{2}` at `p`: its length, 0 when none starts there. */
  function CommaAmountLen(s: string, p: nat): (n: nat)
    ensures p + n <= |s| || n == 0
    ensures n > 0 ==> CommaAmountAt(s, p, n)
    ensures forall m: nat :: CommaAmountAt(s, p, m) ==> m == n
  {
    if p > |s| then 0
    else
      var e := AmountEnd(s, p);
      var n := if e > p && e + 3 <= |s| && s[e] == '.' && IsDigit(s[e + 1]) && IsDigit(s[e + 2])
               then e + 3 - p else 0;
      assert forall m: nat :: CommaAmountAt(s, p, m) ==> m == n by {
        forall m: nat | CommaAmountAt(s, p, m) ensures m == n {
          AmountEndsAfterRun(s, p, m);
        }
      }
      n
  }

  /** A grouped amount at `p` ends two digits after the end of the digits-and-commas run that follows its sign. */
  lemma GroupedAmountEnds(s: string, p: nat, m: nat, signed: bool)
    requires GroupedAmountAt(s, p, m, signed)
    ensures var q := if signed && s[p] == '-' then p + 1 else p;
            q <= |s| && p + m == AmountEnd(s, q) + 3
  {
    var q := if signed && s[p] == '-' then p + 1 else p;
    var h := s[q..p + m - 3];
    ThousandsChars(h);
    assert forall k :: q <= k < p + m - 3 ==> s[k] == h[k - q];
    AmountEndsAfterRun(s, q, p + m - q);
  }

  /** The match of `-?\d{1,3}(?:,\d{3})*\.\d{2}` (`signed`) or of the same without `-?` at `p`; 0 when none. */
  function GroupedAmountLen(s: string, p: nat, signed: bool): (n: nat)
    ensures p + n <= |s| || n == 0
    ensures n > 0 ==> GroupedAmountAt(s, p, n, signed)
    ensures forall m: nat :: GroupedAmountAt(s, p, m, signed) ==> m == n
  {
    if p >= |s| then 0
    else
      var q := if signed && s[p] == '-' then p + 1 else p;
      var e := AmountEnd(s, q);
      var n := if e + 3 <= |s| && s[e] == '.' && IsDigit(s[e + 1]) && IsDigit(s[e + 2]) && IsThousands(s[q..e])
               then e + 3 - p else 0;
      assert forall m: nat :: GroupedAmountAt(s, p, m, signed) ==> m == n by {
        forall m: nat | GroupedAmountAt(s, p, m, signed) ensures m == n {
          GroupedAmountEnds(s, p, m, signed);
        }
      }
      n
  }

  /** `[\d,]+\.\d{2}` as a pattern for `FindAll`. */
  function CommaAmountPattern(s: string, p: nat): nat { CommaAmountLen(s, p) }

  /** `\d{1,3}(?:,\d{3})*\.\d{2}` as a pattern for `FindAll`. */
  function GroupedAmountPattern(s: string, p: nat): nat { GroupedAmountLen(s, p, false) }

  /** `-?\d{1,3}(?:,\d{3})*\.\d{2}` as a pattern for `FindAll`. */
  function SignedGroupedAmountPattern(s: string, p: nat): nat { GroupedAmountLen(s, p, true) }

  lemma PatternsBounded(s: string)
    ensures Bounded(s, CommaAmountPattern)
    ensures Bounded(s, GroupedAmountPattern)
    ensures Bounded(s, SignedGroupedAmountPattern)
  {
  }
}
