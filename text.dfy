/**
 * Character classes and the handful of Python string operations the statement
 * parsers rely on: `str.strip`, `in`, `str.find`/`str.rfind`, `str.split(sep)[1]`,
 * `sep.join`, `str.replace(",", "")`, `str.zfill`, `re.sub(r'\s{2,}', ' ', s)`,
 * ASCII lower-casing and the decimal digits behind `float(...)`. Strings are `seq<char>`.
 */
module Text {
  import opened Wrappers

  /** Python's whitespace: what `str.isspace()`, `str.strip()` and `\s` in a str pattern accept. */
  predicate IsSpace(c: char) {
    c == ' ' || c == '\t' || c == '\n' || c == '\r' || c == '\U{B}' || c == '\U{C}'
    || ('\U{1C}' <= c <= '\U{1F}') || c == '\U{85}' || c == '\U{A0}' || c == '\U{1680}'
    || ('\U{2000}' <= c <= '\U{200A}') || c == '\U{2028}' || c == '\U{2029}'
    || c == '\U{202F}' || c == '\U{205F}' || c == '\U{3000}'
  }

  /** `\d`, restricted to the ASCII digits. */
  predicate IsDigit(c: char) { '0' <= c <= '9' }

  /** `[A-Za-z]` */
  predicate IsLetter(c: char) { 'A' <= c <= 'Z' || 'a' <= c <= 'z' }

  /** `[A-Z]` */
  predicate IsUpper(c: char) { 'A' <= c <= 'Z' }

  /** `.`: any character except a line feed. */
  predicate IsDot(c: char) { c != '\n' }

  predicate AllDigits(s: string) { forall k :: 0 <= k < |s| ==> IsDigit(s[k]) }

  predicate AllSpace(s: string) { forall k :: 0 <= k < |s| ==> IsSpace(s[k]) }

  /** Length of the longest run of characters satisfying `p` that starts at index `i` of `s`. */
  function Run(s: string, i: nat, p: char -> bool): (n: nat)
    requires i <= |s|
    ensures i + n <= |s|
    ensures forall k :: i <= k < i + n ==> p(s[k])
    ensures i + n == |s| || !p(s[i + n])
    decreases |s| - i
  {
    if i < |s| && p(s[i]) then 1 + Run(s, i + 1, p) else 0
  }

  /** Two prefixes of one text: the shorter is a prefix of the longer. */
  lemma PrefixesNest(x: string, y: string, l: string)
    requires x <= l && y <= l
    ensures x <= y || y <= x
  {
    if |x| <= |y| {
      assert x == l[..|x|] == y[..|x|];
    } else {
      assert y == l[..|y|] == x[..|y|];
    }
  }

  /** A run that starts with a character satisfying `p` is one longer than the run after it. */
  lemma RunStep(s: string, p: char -> bool)
    requires s != [] && p(s[0])
    ensures Run(s, 0, p) == 1 + Run(s[1..], 0, p)
  {
    RunShift(s, 1, 0, p);
  }

  /** A run in `s` starting at `d + i` is the run in `s[d..]` starting at `i`. */
  lemma {:induction false} RunShift(s: string, d: nat, i: nat, p: char -> bool)
    requires d + i <= |s|
    ensures Run(s, d + i, p) == Run(s[d..], i, p)
    decreases |s| - i
  {
    if d + i < |s| && p(s[d + i]) {
      assert s[d..][i] == s[d + i];
      RunShift(s, d, i + 1, p);
    }
  }

  /** A run is as long as the stretch of `p` characters that a non-`p` character (or the end) closes. */
  lemma RunIs(s: string, i: nat, n: nat, p: char -> bool)
    requires i + n <= |s| && (forall k :: i <= k < i + n ==> p(s[k])) && (i + n == |s| || !p(s[i + n]))
    ensures Run(s, i, p) == n
  {
  }

  /** A run from `i` reaches at least to `j` when every character from `i` up to `j` satisfies `p`. */
  lemma RunReaches(s: string, i: nat, j: nat, p: char -> bool)
    requires i <= |s| && j <= |s| && forall k :: i <= k < j ==> p(s[k])
    ensures j <= i + Run(s, i, p)
  {
  }

  /** `s` without its leading whitespace. */
  function TrimStart(s: string): string {
    if s != [] && IsSpace(s[0]) then TrimStart(s[1..]) else s
  }

  /** `s` without its trailing whitespace. */
  function TrimEnd(s: string): string {
    if s != [] && IsSpace(s[|s| - 1]) then TrimEnd(s[..|s| - 1]) else s
  }

  /** Python's `s.strip()`. */
  function Strip(s: string): string {
    TrimEnd(TrimStart(s))
  }

  /** Trimming the start drops exactly the leading whitespace run. */
  lemma {:induction false} TrimStartShape(s: string)
    ensures TrimStart(s) == s[Run(s, 0, IsSpace)..]
  {
    if s != [] && IsSpace(s[0]) {
      TrimStartShape(s[1..]);
      RunStep(s, IsSpace);
      assert s[1..][Run(s[1..], 0, IsSpace)..] == s[Run(s, 0, IsSpace)..];
    }
  }

  /** Trimming the end keeps a prefix and drops only whitespace, up to a non-whitespace character. */
  lemma {:induction false} TrimEndShape(s: string)
    ensures TrimEnd(s) <= s
    ensures forall k :: |TrimEnd(s)| <= k < |s| ==> IsSpace(s[k])
    ensures TrimEnd(s) == [] || !IsSpace(TrimEnd(s)[|TrimEnd(s)| - 1])
  {
    if s != [] && IsSpace(s[|s| - 1]) {
      TrimEndShape(s[..|s| - 1]);
    }
  }

  /** `Strip(s)` is the slice of `s` that starts at its first non-whitespace character and ends
      after its last one: only whitespace is removed on either side. */
  lemma StripShape(s: string)
    ensures var i := Run(s, 0, IsSpace);
            var r := Strip(s);
            i + |r| <= |s| && r == s[i..i + |r|]
            && (forall k :: i + |r| <= k < |s| ==> IsSpace(s[k]))
    ensures var r := Strip(s);
            r == [] || (!IsSpace(r[0]) && !IsSpace(r[|r| - 1]))
  {
    var i := Run(s, 0, IsSpace);
    TrimStartShape(s);
    TrimEndShape(s[i..]);
    var r := Strip(s);
    assert r == s[i..i + |r|];
    assert r != [] ==> r[0] == s[i];
  }

  /** Stripping a string that neither starts nor ends with whitespace leaves it unchanged. */
  lemma StripUnchanged(s: string)
    requires s == [] || (!IsSpace(s[0]) && !IsSpace(s[|s| - 1]))
    ensures Strip(s) == s
  {
    if s != [] {
      assert Run(s, 0, IsSpace) == 0;
      assert s[0..] == s;
    }
  }

  predicate OccursAt(s: string, sub: string, i: nat) {
    i + |sub| <= |s| && s[i..i + |sub|] == sub
  }

  /** Python's `s.find(sub, start)`: the first index at or after `start` where `sub` occurs. */
  function Find(s: string, sub: string, start: nat): (r: Option<nat>)
    ensures r.Some? ==> start <= r.value && OccursAt(s, sub, r.value)
    ensures r.Some? ==> forall i: nat :: start <= i < r.value ==> !OccursAt(s, sub, i)
    ensures r.None? ==> forall i: nat :: start <= i ==> !OccursAt(s, sub, i)
    decreases |s| - start
  {
    if start + |sub| > |s| then None
    else if OccursAt(s, sub, start) then Some(start)
    else Find(s, sub, start + 1)
  }

  /** Python's `sub in s`. */
  predicate Contains(s: string, sub: string)
    ensures Contains(s, sub) <==> exists i: nat :: OccursAt(s, sub, i)
  {
    Find(s, sub, 0).Some?
  }

  /** A string that occurs in a slice of `s` occurs in `s`. */
  lemma ContainsSlice(s: string, sub: string, i: nat, n: nat)
    requires i + n <= |s|
    ensures Contains(s[i..i + n], sub) ==> Contains(s, sub)
  {
    if Contains(s[i..i + n], sub) {
      var k: nat :| OccursAt(s[i..i + n], sub, k);
      forall m | 0 <= m < |sub| ensures s[i + k + m] == sub[m] {
        assert s[i..i + n][k..k + |sub|][m] == sub[m];
      }
      assert s[i + k..i + k + |sub|] == sub;
      assert OccursAt(s, sub, i + k);
    }
  }

  /** Stripping cannot make a separator appear. */
  lemma StripAvoids(s: string, sep: string)
    requires !Contains(s, sep)
    ensures !Contains(Strip(s), sep)
  {
    StripShape(s);
    ContainsSlice(s, sep, Run(s, 0, IsSpace), |Strip(s)|);
  }

  /** ASCII lower-casing of one character; every other character is its own lower case. */
  function LowerChar(c: char): char {
    if 'A' <= c <= 'Z' then (c as int + 32) as char else c
  }

  /** ASCII lower-casing, the case-insensitive comparison of a pattern compiled with `re.IGNORECASE` on ASCII letters. */
  function Lower(s: string): string {
    seq(|s|, k requires 0 <= k < |s| => LowerChar(s[k]))
  }

  /** No two whitespace characters stand next to each other in `s`. */
  predicate NoSpacePair(s: string) {
    forall k :: 0 <= k < |s| - 1 ==> !IsSpace(s[k]) || !IsSpace(s[k + 1])
  }

  /** The characters of `s` that are not whitespace, in order. */
  function Visible(s: string): string {
    if s == [] then [] else (if IsSpace(s[0]) then [] else [s[0]]) + Visible(s[1..])
  }

  /**
   * `re.sub(r'\s{2,}', ' ', s)`: every run of two or more whitespace characters becomes
   * one space; a lone whitespace character and all other text stay as they are.
   */
  function Collapse(s: string): (r: string)
    ensures |r| <= |s|
    ensures r == [] <==> s == []
    ensures r != [] ==> (IsSpace(r[0]) <==> IsSpace(s[0]))
    ensures NoSpacePair(r)
    decreases |s|
  {
    if s == [] then []
    else
      var n := Run(s, 0, IsSpace);
      if n >= 2 then " " + Collapse(s[n..])
      else [s[0]] + Collapse(s[1..])
  }

  /** Without adjacent whitespace, the first run of whitespace is at most one long, and the rest has none either. */
  lemma NoSpacePairTail(s: string)
    requires s != [] && NoSpacePair(s)
    ensures Run(s, 0, IsSpace) <= 1 && NoSpacePair(s[1..])
  {
    if |s| > 1 && IsSpace(s[0]) {
      assert !IsSpace(s[1]);
    }
    forall k | 0 <= k < |s[1..]| - 1 ensures !IsSpace(s[1..][k]) || !IsSpace(s[1..][k + 1]) {
      assert s[1..][k] == s[k + 1] && s[1..][k + 1] == s[k + 2];
    }
  }

  /** A string without two adjacent whitespace characters is left unchanged by `Collapse`. */
  lemma {:induction false} CollapseFixed(s: string)
    requires NoSpacePair(s)
    ensures Collapse(s) == s
    decreases |s|
  {
    if s != [] {
      NoSpacePairTail(s);
      CollapseFixed(s[1..]);
      assert s == [s[0]] + s[1..];
    }
  }

  /** Collapsing twice is collapsing once. */
  lemma CollapseIdempotent(s: string)
    ensures Collapse(Collapse(s)) == Collapse(s)
  {
    CollapseFixed(Collapse(s));
  }

  /** A run of whitespace at the front of `s` is not visible. */
  lemma {:induction false} VisibleSkipsSpaces(s: string, n: nat)
    requires n <= |s| && forall k :: 0 <= k < n ==> IsSpace(s[k])
    ensures Visible(s) == Visible(s[n..])
  {
    if n > 0 {
      assert s[1..][n - 1..] == s[n..];
      VisibleSkipsSpaces(s[1..], n - 1);
    }
  }

  /** `Collapse` changes whitespace only: the other characters are kept, in order. */
  lemma {:induction false} CollapseKeepsText(s: string)
    ensures Visible(Collapse(s)) == Visible(s)
    decreases |s|
  {
    if s != [] {
      var n := Run(s, 0, IsSpace);
      if n >= 2 {
        CollapseKeepsText(s[n..]);
        assert (" " + Collapse(s[n..]))[1..] == Collapse(s[n..]);
        VisibleSkipsSpaces(s, n);
      } else {
        CollapseKeepsText(s[1..]);
        assert ([s[0]] + Collapse(s[1..]))[1..] == Collapse(s[1..]);
      }
    }
  }

  /** Python's `s.rfind(sub)`: the last index where `sub` occurs. */
  function RFind(s: string, sub: string): (r: Option<nat>)
    ensures r.Some? ==> OccursAt(s, sub, r.value) && forall i: nat :: r.value < i ==> !OccursAt(s, sub, i)
    ensures r.None? ==> forall i: nat :: !OccursAt(s, sub, i)
  {
    if |sub| > |s| then None else RFindBelow(s, sub, |s| - |sub|)
  }

  /** The last index not above `i` where `sub` occurs. */
  function RFindBelow(s: string, sub: string, i: nat): (r: Option<nat>)
    requires i + |sub| <= |s|
    ensures r.Some? ==> r.value <= i && OccursAt(s, sub, r.value)
    ensures r.Some? ==> forall j: nat :: r.value < j <= i ==> !OccursAt(s, sub, j)
    ensures r.None? ==> forall j: nat :: j <= i ==> !OccursAt(s, sub, j)
    decreases i
  {
    if OccursAt(s, sub, i) then Some(i)
    else if i == 0 then None
    else RFindBelow(s, sub, i - 1)
  }

  /**
   * Python's `s.split(sep)[1]` for a separator that occurs in `s`: the text after the
   * first occurrence of `sep`, up to the next occurrence or the end of `s`.
   */
  function SecondField(s: string, sep: string): (r: string)
    requires sep != [] && Contains(s, sep)
    ensures var start := Find(s, sep, 0).value + |sep|;
            start + |r| <= |s| && r == s[start..start + |r|]
            && (start + |r| == |s| || OccursAt(s, sep, start + |r|))
            && !Contains(r, sep)
  {
    var start := Find(s, sep, 0).value + |sep|;
    var stop := match Find(s, sep, start) case Some(j) => j case None => |s|;
    SliceAvoids(s, sep, start, stop);
    s[start..stop]
  }

  /** A slice of `s` in which `sep` does not start anywhere does not contain `sep`. */
  lemma SliceAvoids(s: string, sep: string, start: nat, stop: nat)
    requires sep != [] && start <= stop <= |s|
    requires forall i: nat :: start <= i < stop ==> !OccursAt(s, sep, i)
    ensures !Contains(s[start..stop], sep)
  {
    var r := s[start..stop];
    forall k: nat | OccursAt(r, sep, k) ensures false {
      forall m | 0 <= m < |sep| ensures s[start + k + m] == sep[m] {
        assert r[k..k + |sep|][m] == r[k + m];
      }
      assert s[start + k..start + k + |sep|] == sep;
      assert OccursAt(s, sep, start + k);
    }
  }

  /** Python's `sep.join(parts)`. */
  function Join(parts: seq<string>, sep: string): (r: string)
    ensures parts == [] ==> r == []
    ensures |parts| == 1 ==> r == parts[0]
    ensures parts != [] ==> parts[0] <= r
    ensures parts != [] ==> var last := parts[|parts| - 1]; |last| <= |r| && r[|r| - |last|..] == last
  {
    if |parts| == 0 then []
    else if |parts| == 1 then parts[0]
    else Join(parts[..|parts| - 1], sep) + sep + parts[|parts| - 1]
  }

  /** Joining one more part appends the separator and that part. */
  lemma JoinSnoc(parts: seq<string>, p: string, sep: string)
    requires parts != []
    ensures Join(parts + [p], sep) == Join(parts, sep) + sep + p
  {
    assert (parts + [p])[..|parts|] == parts;
  }

  /** Joining from the front: the first part, the separator, then the rest joined. */
  lemma {:induction false} JoinCons(p: string, parts: seq<string>, sep: string)
    requires parts != []
    ensures Join([p] + parts, sep) == p + sep + Join(parts, sep)
    decreases |parts|
  {
    var init := parts[..|parts| - 1];
    var last := parts[|parts| - 1];
    assert parts == init + [last];
    if init == [] {
      calc {
        Join([p] + parts, sep);
        { assert [p] + parts == [p] + [last]; JoinSnoc([p], last, sep); }
        p + sep + last;
      }
    } else {
      calc {
        Join([p] + parts, sep);
        { assert [p] + parts == ([p] + init) + [last]; JoinSnoc([p] + init, last, sep); }
        Join([p] + init, sep) + sep + last;
        { JoinCons(p, init, sep); }
        p + sep + Join(init, sep) + sep + last;
        { JoinSnoc(init, last, sep); }
        p + sep + Join(parts, sep);
      }
    }
  }

  /** Python's `s.replace(",", "")`. */
  function RemoveCommas(s: string): (r: string)
    ensures |r| <= |s|
    ensures ',' !in r
    ensures forall c :: c in r <==> c in s && c != ','
  {
    if s == [] then []
    else (if s[0] == ',' then [] else [s[0]]) + RemoveCommas(s[1..])
  }

  /** Dropping commas from two pieces one after the other drops them from the whole. */
  lemma {:induction false} RemoveCommasAppend(x: string, y: string)
    ensures RemoveCommas(x + y) == RemoveCommas(x) + RemoveCommas(y)
    decreases |x|
  {
    if x != [] {
      RemoveCommasAppend(x[1..], y);
      assert (x + y)[0] == x[0] && (x + y)[1..] == x[1..] + y;
    } else {
      assert x + y == y;
    }
  }

  /** A string without commas is unchanged. */
  lemma {:induction false} RemoveCommasNone(s: string)
    requires forall k :: 0 <= k < |s| ==> s[k] != ','
    ensures RemoveCommas(s) == s
    decreases |s|
  {
    if s != [] {
      RemoveCommasNone(s[1..]);
    }
  }

  function DigitValue(c: char): (d: nat)
    requires IsDigit(c)
    ensures d < 10
  {
    c as int - '0' as int
  }

  function DigitChar(d: nat): (c: char)
    requires d < 10
    ensures IsDigit(c) && DigitValue(c) == d
  {
    ('0' as int + d) as char
  }

  function Pow10(n: nat): (r: nat)
    ensures r >= 1
  {
    if n == 0 then 1 else 10 * Pow10(n - 1)
  }

  /** The number a string of decimal digits denotes (as `int(ds)`; 0 for the empty string). */
  function Value(ds: string): nat
    requires AllDigits(ds)
  {
    if ds == [] then 0 else 10 * Value(ds[..|ds| - 1]) + DigitValue(ds[|ds| - 1])
  }

  lemma {:induction false} ValueBound(ds: string)
    requires AllDigits(ds)
    ensures Value(ds) < Pow10(|ds|)
  {
    if ds != [] {
      ValueBound(ds[..|ds| - 1]);
    }
  }

  /** The decimal representation of `n` in exactly `width` digits (`n` modulo 10^width, zero-padded). */
  function Pad(n: nat, width: nat): (r: string)
    ensures |r| == width && AllDigits(r)
  {
    if width == 0 then [] else Pad(n / 10, width - 1) + [DigitChar(n % 10)]
  }

  /** Padding is the inverse of reading digits: printing `Value(ds)` in `|ds|` digits gives `ds` back. */
  lemma {:induction false} PadValue(ds: string)
    requires AllDigits(ds)
    ensures Pad(Value(ds), |ds|) == ds
  {
    if ds != [] {
      var init := ds[..|ds| - 1];
      var v := Value(ds);
      assert v == 10 * Value(init) + DigitValue(ds[|ds| - 1]);
      assert v / 10 == Value(init) && v % 10 == DigitValue(ds[|ds| - 1]);
      PadValue(init);
      assert DigitChar(v % 10) == ds[|ds| - 1];
      assert ds == init + [ds[|ds| - 1]];
    }
  }

  /** Python's `ds.zfill(width)` for a digit string. */
  function ZFill(ds: string, width: nat): (r: string)
    ensures |r| == if |ds| < width then width else |ds|
  {
    if |ds| < width then seq(width - |ds|, _ => '0') + ds else ds
  }

  /** `ZFill` of a digit string is its value printed in `width` digits. */
  lemma {:induction false} ZFillIsPad(ds: string, width: nat)
    requires AllDigits(ds) && |ds| <= width
    ensures ZFill(ds, width) == Pad(Value(ds), width)
    decreases width - |ds|
  {
    if |ds| == width {
      PadValue(ds);
    } else {
      var zeros := seq(width - |ds|, _ => '0');
      var longer := ['0'] + ds;
      assert AllDigits(longer);
      ValueLeadingZero(ds);
      ZFillIsPad(longer, width);
      assert zeros == seq(width - |longer|, _ => '0') + ['0'];
      assert ZFill(ds, width) == ZFill(longer, width);
    }
  }

  /** A leading zero does not change the value of a digit string. */
  lemma {:induction false} ValueLeadingZero(ds: string)
    requires AllDigits(ds)
    ensures AllDigits(['0'] + ds) && Value(['0'] + ds) == Value(ds)
  {
    var z := ['0'] + ds;
    assert AllDigits(z);
    if ds != [] {
      assert z[..|z| - 1] == ['0'] + ds[..|ds| - 1];
      ValueLeadingZero(ds[..|ds| - 1]);
    }
  }
}
