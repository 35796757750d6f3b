/**
 * The calendar facts the parsers take from Python's `datetime`: which
 * (year, month, day) triples exist, the `%y` two-digit-year pivot, the
 * `%Y-%m-%d` output form and the English month names.
 */
module Calendar {
  import opened Wrappers
  import opened Text

  /** A date as the triple the parsers build; it need not exist in the calendar. */
  datatype Date = Date(year: nat, month: nat, day: nat)

  predicate IsLeapYear(y: nat) {
    y % 4 == 0 && (y % 100 != 0 || y % 400 == 0)
  }

  function DaysInMonth(y: nat, m: nat): (n: nat)
    requires 1 <= m <= 12
    ensures 28 <= n <= 31
    ensures n == 29 <==> m == 2 && IsLeapYear(y)
  {
    if m == 2 then (if IsLeapYear(y) then 29 else 28)
    else if m == 4 || m == 6 || m == 9 || m == 11 then 30
    else 31
  }

  /** The dates `datetime` accepts: a year from 1 to 9999, a month from 1 to 12 and a day that month has. */
  predicate IsValid(d: Date) {
    1 <= d.year <= 9999 && 1 <= d.month <= 12 && 1 <= d.day <= DaysInMonth(d.year, d.month)
  }

  /** The `%y` directive of `strptime`: 00-68 become 2000-2068 and 69-99 become 1969-1999. */
  function ExpandYear(yy: nat): (y: nat)
    requires yy < 100
    ensures 1969 <= y <= 2068 && y % 100 == yy
  {
    if yy <= 68 then 2000 + yy else 1900 + yy
  }

  /** `ExpandYear` picks the one year of the window 1969-2068 that ends in the given two digits. */
  lemma ExpandYearUnique(yy: nat, y: nat)
    requires yy < 100 && 1969 <= y <= 2068 && y % 100 == yy
    ensures ExpandYear(yy) == y
  {
    var e := ExpandYear(yy);
    assert (e - y) % 100 == 0;
  }

  /** `strftime("%Y-%m-%d")` for years below 10000: four, two and two zero-padded digits. */
  function Iso(d: Date): (s: string)
    ensures |s| == 10 && s[4] == '-' && s[7] == '-'
  {
    Pad(d.year, 4) + "-" + Pad(d.month, 2) + "-" + Pad(d.day, 2)
  }

  /** Formatting the values of digit fields gives back the fields themselves, rearranged. */
  lemma IsoOfDigits(y: string, m: string, d: string)
    requires AllDigits(y) && AllDigits(m) && AllDigits(d)
    requires |y| == 4 && |m| == 2 && |d| == 2
    ensures Iso(Date(Value(y), Value(m), Value(d))) == y + "-" + m + "-" + d
  {
    PadValue(y);
    PadValue(m);
    PadValue(d);
  }

  const MonthNames: seq<string> :=
    ["January", "February", "March", "April", "May", "June",
     "July", "August", "September", "October", "November", "December"]

  const MonthAbbreviations: seq<string> :=
    ["Jan", "Feb", "Mar", "Apr", "May", "Jun", "Jul", "Aug", "Sep", "Oct", "Nov", "Dec"]

  /** The keys `strptime` matches `%b` against: the abbreviations in lower case. */
  const MonthKeys: seq<string> :=
    ["jan", "feb", "mar", "apr", "may", "jun", "jul", "aug", "sep", "oct", "nov", "dec"]

  lemma MonthKeysAreLowered()
    ensures forall j :: 0 <= j < 12 ==> MonthKeys[j] == Lower(MonthAbbreviations[j])
  {
  }

  /**
   * The `%b` directive of `strptime`: the month whose abbreviation equals `t` ignoring
   * ASCII case, and no month when none does.
   */
  function AbbreviationMonth(t: string): (m: Option<nat>)
    ensures m.Some? ==> 1 <= m.value <= 12 && Lower(t) == Lower(MonthAbbreviations[m.value - 1])
    ensures forall j :: 0 <= j < 12 && Lower(t) == Lower(MonthAbbreviations[j]) ==> m == Some(j + 1)
    ensures m.None? <==> forall j :: 0 <= j < 12 ==> Lower(t) != Lower(MonthAbbreviations[j])
  {
    MonthKeysAreLowered();
    MonthKeysDistinct();
    LookupUnique(MonthKeys, Lower(t));
    match Lookup(MonthKeys, Lower(t), 0)
    case Some(j) => Some(j + 1)
    case None => None
  }

  /** The position of `key` in `table`, searching from index `i`. */
  function Lookup(table: seq<string>, key: string, i: nat): (r: Option<nat>)
    ensures r.Some? ==> i <= r.value < |table| && table[r.value] == key
    ensures r.None? ==> forall j :: i <= j < |table| ==> table[j] != key
    decreases |table| - i
  {
    if i >= |table| then None
    else if table[i] == key then Some(i)
    else Lookup(table, key, i + 1)
  }

  /** In a table without repeated keys, the lookup finds the one position of its key. */
  lemma LookupUnique(table: seq<string>, key: string)
    requires forall j, j' :: 0 <= j < |table| && 0 <= j' < |table| && table[j] == table[j'] ==> j == j'
    ensures forall j :: 0 <= j < |table| && table[j] == key ==> Lookup(table, key, 0) == Some(j)
  {
    forall j | 0 <= j < |table| && table[j] == key ensures Lookup(table, key, 0) == Some(j) {
      assert Lookup(table, key, 0).Some?;
    }
  }


  /** No two months share a lower-cased abbreviation. */
  lemma MonthKeysDistinct()
    ensures forall j, j' :: 0 <= j < 12 && 0 <= j' < 12 && MonthKeys[j] == MonthKeys[j'] ==> j == j'
  {
    forall j, j' | 0 <= j < 12 && 0 <= j' < 12 && j != j' ensures MonthKeys[j] != MonthKeys[j'] {
      var a, b := MonthKeys[j], MonthKeys[j'];
      assert a[0] != b[0] || a[1] != b[1] || a[2] != b[2];
    }
  }

  /** A month table as a Python dict lookup with a default: `month_map.get(name, "01")`. */
  function MonthOrJanuary(table: seq<string>, name: string): (m: nat)
    requires |table| == 12
    ensures 1 <= m <= 12
    ensures (exists j :: 0 <= j < 12 && table[j] == name) ==> table[m - 1] == name
    ensures (forall j :: 0 <= j < 12 ==> table[j] != name) ==> m == 1
  {
    match Lookup(table, name, 0)
    case Some(j) => j + 1
    case None => 1
  }

  /** The two-digit month codes of the parsers' month tables, January first. */
  const MonthCodes: seq<string> :=
    ["01", "02", "03", "04", "05", "06", "07", "08", "09", "10", "11", "12"]

  /** A number below a hundred printed in two digits is its tens digit then its units digit. */
  lemma TwoDigits(n: nat)
    requires n < 100
    ensures Pad(n, 2) == [DigitChar(n / 10), DigitChar(n % 10)]
  {
    var tens := n / 10;
    assert tens < 10;
    assert tens / 10 == 0 && tens % 10 == tens;
    assert Pad(tens, 1) == Pad(0, 0) + [DigitChar(tens)];
  }

  /** Each month code is its month number printed in two digits, the way `Iso` prints a month. */
  lemma MonthCodesArePadded()
    ensures forall j :: 0 <= j < 12 ==> Pad(j + 1, 2) == MonthCodes[j]
  {
    forall j | 0 <= j < 12 ensures Pad(j + 1, 2) == MonthCodes[j] {
      TwoDigits(j + 1);
    }
  }


  /** The ISO text of a date in month `month` on day `day`: the year, the month's code and the day zero-filled to two. */
  lemma IsoOfCode(year: nat, month: nat, day: string)
    requires 1 <= month <= 12 && AllDigits(day) && |day| <= 2
    ensures Iso(Date(year, month, Value(day))) == Pad(year, 4) + "-" + MonthCodes[month - 1] + "-" + ZFill(day, 2)
  {
    MonthCodesArePadded();
    ZFillIsPad(day, 2);
  }

  /** No two months share an abbreviation. */
  lemma AbbreviationsDistinct()
    ensures forall j, j' :: 0 <= j < j' < 12 ==> MonthAbbreviations[j] != MonthAbbreviations[j']
  {
    forall j, j' | 0 <= j < j' < 12 ensures MonthAbbreviations[j] != MonthAbbreviations[j'] {
      var a, b := MonthAbbreviations[j], MonthAbbreviations[j'];
      assert a[0] != b[0] || a[1] != b[1] || a[2] != b[2];
    }
  }

  /** Each full month name begins with its abbreviation. */
  lemma NamesStartWithAbbreviations()
    ensures forall j :: 0 <= j < 12 ==> |MonthNames[j]| >= 3 && MonthNames[j][..3] == MonthAbbreviations[j]
  {
  }

  /** No full month name begins another, so at most one of them starts a line. */
  lemma MonthNamesPrefixFree()
    ensures forall j, j' :: 0 <= j < 12 && 0 <= j' < 12 && MonthNames[j] <= MonthNames[j'] ==> j == j'
  {
    AbbreviationsDistinct();
    NamesStartWithAbbreviations();
    forall j, j' | 0 <= j < 12 && 0 <= j' < 12 && MonthNames[j] <= MonthNames[j'] ensures j == j' {
      assert MonthNames[j][..3] == MonthNames[j'][..3];
    }
  }}
