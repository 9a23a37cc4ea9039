/** String building shared by the three versions: number formatting (`S` / `formatNumber`),
    joining and splitting, JavaScript's string order, the by-name comparator (`u` /
    `sortByName`) and the default `Array.prototype.sort` on strings. */
module Text {

  predicate IsDigit(c: char) { '0' <= c <= '9' }

  function DigitChar(d: nat): (c: char)
    requires d < 10
    ensures IsDigit(c)
  {
    ('0' as int + d) as char
  }

  /** Decimal digits of a natural number, as `toString` writes them. */
  function NatDigits(n: nat): (s: string)
    ensures |s| >= 1
    ensures forall i :: 0 <= i < |s| ==> IsDigit(s[i])
  {
    if n < 10 then [DigitChar(n)] else NatDigits(n / 10) + [DigitChar(n % 10)]
  }

  /** `n.toString()` for an integer `n`. */
  function IntToString(n: int): string
  {
    if n < 0 then "-" + NatDigits(-n) else NatDigits(n)
  }

  lemma {:induction false} NatDigitsShort(n: nat)
    requires n < 1000
    ensures |NatDigits(n)| <= 3
  {
    if n >= 10 {
      NatDigitsShort(n / 10);
      if n / 10 >= 10 {
        NatDigitsShort(n / 100);
        assert n / 10 / 10 == n / 100;
        assert n / 100 < 10;
      }
    }
  }

  lemma IntToStringPlain(n: int)
    ensures ',' !in IntToString(n) && '\n' !in IntToString(n)
  {
    var ds := NatDigits(if n < 0 then -n else n);
    assert forall i :: 0 <= i < |ds| ==> IsDigit(ds[i]);
  }

  /** `x || ''` for a number: `0` is falsy and gives the empty string. */
  function NumberOrEmpty(x: int): (s: string)
    ensures s == "" <==> x == 0
    ensures ',' !in s && '\n' !in s
  {
    if x == 0 then ""
    else
      IntToStringPlain(x);
      IntToString(x)
  }

  // ---- S / formatNumber: e.toString().replace(/(\d)(?=(\d{3})+(?!\d))/g, "$1,") ----

  /** What the replacement does to a run of digits `ds` that is followed by `following` more
      digits: scanning left to right, a comma goes after each digit whose count of digits
      after it (to the end of the run) is a positive multiple of three. */
  function InsertCommas(ds: string, following: nat): string
    decreases |ds|
  {
    if ds == [] then []
    else
      var after := |ds| - 1 + following;
      [ds[0]] + (if after > 0 && after % 3 == 0 then "," else "") + InsertCommas(ds[1..], following)
  }

  /** `S(e)` / `formatNumber(num)` for an integer: the minus sign is not a digit, so the
      replacement only acts on the run of digits after it. */
  function FormatNumber(n: int): (s: string)
    ensures |s| >= 1
    ensures s[0] == '-' <==> n < 0
    ensures n >= 0 ==> IsDigit(s[0])
  {
    if n < 0 then "-" + InsertCommas(NatDigits(-n), 0) else InsertCommas(NatDigits(n), 0)
  }

  /** Independent reference: group digits in threes from the right. */
  function GroupFromRight(ds: string): string
    decreases |ds|
  {
    if |ds| <= 3 then ds else GroupFromRight(ds[..|ds| - 3]) + "," + ds[|ds| - 3..]
  }

  function RemoveCommas(s: string): string
  {
    if s == [] then [] else (if s[0] == ',' then "" else [s[0]]) + RemoveCommas(s[1..])
  }

  /** Every comma is followed by exactly three digits and then by a comma or the end;
      the text does not start with a comma. */
  predicate WellGrouped(s: string)
  {
    && (|s| > 0 ==> s[0] != ',')
    && forall i :: 0 <= i < |s| && s[i] == ',' ==>
         && i + 3 < |s|
         && IsDigit(s[i + 1]) && IsDigit(s[i + 2]) && IsDigit(s[i + 3])
         && (i + 4 == |s| || s[i + 4] == ',')
  }

  predicate AllDigits(s: string)
  {
    forall i :: 0 <= i < |s| ==> IsDigit(s[i])
  }

  lemma {:induction false} InsertCommasSplit(a: string, b: string, k: nat)
    ensures InsertCommas(a + b, k) == InsertCommas(a, |b| + k) + InsertCommas(b, k)
    decreases |a|
  {
    if a == [] {
      assert a + b == b;
    } else {
      assert (a + b)[1..] == a[1..] + b;
      InsertCommasSplit(a[1..], b, k);
    }
  }

  lemma {:induction false} InsertCommasShift(a: string, k: nat)
    requires k > 0
    ensures InsertCommas(a, k + 3) == InsertCommas(a, k)
    decreases |a|
  {
    if a != [] {
      InsertCommasShift(a[1..], k);
    }
  }

  lemma {:induction false} InsertCommasLast(a: string)
    requires a != []
    ensures InsertCommas(a, 3) == InsertCommas(a, 0) + ","
    decreases |a|
  {
    if |a| == 1 {
      assert InsertCommas(a[1..], 3) == [] && InsertCommas(a[1..], 0) == [];
    } else {
      var x := |a| - 1;
      PlusThreeMod(x);
      var comma := if x % 3 == 0 then "," else "";
      assert InsertCommas(a, 3) == [a[0]] + comma + InsertCommas(a[1..], 3);
      assert InsertCommas(a, 0) == [a[0]] + comma + InsertCommas(a[1..], 0);
      InsertCommasLast(a[1..]);
    }
  }

  lemma PlusThreeMod(x: nat)
    ensures (x + 3) % 3 == x % 3
  {
  }

  lemma {:induction false} InsertCommasShort(b: string)
    requires |b| <= 3
    ensures InsertCommas(b, 0) == b
    decreases |b|
  {
    if b != [] {
      InsertCommasShort(b[1..]);
    }
  }

  /** The left-to-right lookahead replacement and grouping from the right agree. */
  lemma {:induction false} InsertCommasGroupsFromRight(ds: string)
    ensures InsertCommas(ds, 0) == GroupFromRight(ds)
    decreases |ds|
  {
    if |ds| <= 3 {
      InsertCommasShort(ds);
    } else {
      var a, b := ds[..|ds| - 3], ds[|ds| - 3..];
      assert ds == a + b;
      InsertCommasSplit(a, b, 0);
      assert InsertCommas(ds, 0) == InsertCommas(a, 3) + InsertCommas(b, 0);
      InsertCommasLast(a);
      InsertCommasShort(b);
      InsertCommasGroupsFromRight(a);
      assert GroupFromRight(ds) == GroupFromRight(a) + "," + b;
      assert InsertCommas(ds, 0) == GroupFromRight(a) + "," + b;
    }
  }

  lemma {:induction false} RemoveCommasConcat(a: string, b: string)
    ensures RemoveCommas(a + b) == RemoveCommas(a) + RemoveCommas(b)
    decreases |a|
  {
    if a == [] {
      assert a + b == b;
    } else {
      assert (a + b)[1..] == a[1..] + b;
      RemoveCommasConcat(a[1..], b);
    }
  }

  lemma {:induction false} RemoveCommasInsert(ds: string, k: nat)
    requires ',' !in ds
    ensures RemoveCommas(InsertCommas(ds, k)) == ds
    decreases |ds|
  {
    if ds != [] {
      var after := |ds| - 1 + k;
      var head := [ds[0]] + (if after > 0 && after % 3 == 0 then "," else "");
      RemoveCommasConcat(head, InsertCommas(ds[1..], k));
      RemoveCommasInsert(ds[1..], k);
      assert RemoveCommas(head) == [ds[0]] by {
        if after > 0 && after % 3 == 0 {
          assert head == [ds[0]] + [','];
          RemoveCommasConcat([ds[0]], [',']);
        }
      }
      assert ds == [ds[0]] + ds[1..];
    }
  }

  lemma {:induction false} GroupFromRightWellGrouped(ds: string)
    requires AllDigits(ds)
    ensures WellGrouped(GroupFromRight(ds))
    ensures |ds| > 0 ==> |GroupFromRight(ds)| > 0 && IsDigit(GroupFromRight(ds)[0])
    decreases |ds|
  {
    if |ds| > 3 {
      var a, b := ds[..|ds| - 3], ds[|ds| - 3..];
      GroupFromRightWellGrouped(a);
      var g := GroupFromRight(a);
      var r := g + "," + b;
      assert GroupFromRight(ds) == r;
      forall i | 0 <= i < |r| && r[i] == ','
        ensures i + 3 < |r| && IsDigit(r[i + 1]) && IsDigit(r[i + 2]) && IsDigit(r[i + 3])
        ensures i + 4 == |r| || r[i + 4] == ','
      {
        if i < |g| {
          assert g[i] == ',';
          if i + 4 == |g| {
            assert r[i + 4] == ',';
          }
        } else {
          assert i == |g|;
        }
      }
    }
  }

  /** `S` inserts commas only: removing them gives back `toString()`. */
  lemma FormatNumberRemoveCommas(n: int)
    ensures RemoveCommas(FormatNumber(n)) == IntToString(n)
  {
    var ds := NatDigits(if n < 0 then -n else n);
    assert forall i :: 0 <= i < |ds| ==> IsDigit(ds[i]);
    RemoveCommasInsert(ds, 0);
    if n < 0 {
      RemoveCommasConcat("-", InsertCommas(ds, 0));
    }
  }

  /** Numbers with at most three digits come back unchanged. */
  lemma FormatNumberSmall(n: int)
    requires -1000 < n < 1000
    ensures FormatNumber(n) == IntToString(n)
  {
    NatDigitsShort(if n < 0 then -n else n);
    InsertCommasShort(NatDigits(if n < 0 then -n else n));
  }

  /** Every comma of `S(n)` is followed by exactly three digits and then a comma or the end. */
  lemma FormatNumberWellGrouped(n: int)
    ensures WellGrouped(FormatNumber(n))
  {
    var ds := NatDigits(if n < 0 then -n else n);
    InsertCommasGroupsFromRight(ds);
    GroupFromRightWellGrouped(ds);
    if n < 0 {
      var g := GroupFromRight(ds);
      var r := "-" + g;
      forall i | 0 <= i < |r| && r[i] == ','
        ensures i + 3 < |r| && IsDigit(r[i + 1]) && IsDigit(r[i + 2]) && IsDigit(r[i + 3])
        ensures i + 4 == |r| || r[i + 4] == ','
      {
        assert g[i - 1] == ',';
      }
    }
  }

  // ---- date and time strings ----

  /** `n < 10 ? '0' + n : n`: a day, month or hour padded to two digits. */
  function Pad2(n: nat): (s: string)
    ensures n < 100 ==> s == [DigitChar(n / 10), DigitChar(n % 10)]
  {
    if n < 10 then "0" + NatDigits(n)
    else
      assert n < 100 ==> NatDigits(n / 10) == [DigitChar(n / 10)];
      NatDigits(n)
  }

  /** `year + '-' + mm + '-' + dd + 'T' + time`, the value of a `datetime-local` input. */
  function DateTimeText(year: nat, month: nat, day: nat, time: string): string
  {
    NatDigits(year) + "-" + Pad2(month) + "-" + Pad2(day) + "T" + time
  }

  lemma {:induction false} LessCommonPrefix(p: string, a: string, b: string)
    ensures Less(p + a, p + b) <==> Less(a, b)
    decreases |p|
  {
    if p != [] {
      assert (p + a)[1..] == p[1..] + a && (p + b)[1..] == p[1..] + b;
      assert (p + a)[0] == (p + b)[0];
      assert Less(p + a, p + b) == Less(p[1..] + a, p[1..] + b);
      LessCommonPrefix(p[1..], a, b);
    } else {
      assert p + a == a && p + b == b;
    }
  }

  lemma LessFirstChar(a: string, b: string)
    requires |a| > 0 && |b| > 0 && a[0] < b[0]
    ensures Less(a, b)
  {
  }

  lemma {:induction false} NatDigitsLength(n: nat)
    ensures n < 10 <==> |NatDigits(n)| == 1
    ensures n >= 10 ==> |NatDigits(n)| == |NatDigits(n / 10)| + 1
  {
  }

  /** Decimal numerals of the same length compare as the numbers do, whatever follows them. */
  lemma {:induction false} NatDigitsLess(a: nat, b: nat, x: string, y: string)
    requires a < b && |NatDigits(a)| == |NatDigits(b)|
    ensures Less(NatDigits(a) + x, NatDigits(b) + y)
    decreases b
  {
    NatDigitsLength(a);
    NatDigitsLength(b);
    if b < 10 {
      LessFirstChar(NatDigits(a) + x, NatDigits(b) + y);
    } else {
      var x' := [DigitChar(a % 10)] + x;
      var y' := [DigitChar(b % 10)] + y;
      assert NatDigits(a) + x == NatDigits(a / 10) + x';
      assert NatDigits(b) + y == NatDigits(b / 10) + y';
      if a / 10 < b / 10 {
        NatDigitsLess(a / 10, b / 10, x', y');
      } else {
        LessFirstChar(x', y');
        LessCommonPrefix(NatDigits(a / 10), x', y');
      }
    }
  }

  /** The tens digit decides between two numbers below 100, and the units digit breaks a tie. */
  lemma TensThenUnits(a: nat, b: nat)
    requires a < b < 100
    ensures a / 10 < b / 10 || (a / 10 == b / 10 && a % 10 < b % 10)
  {
  }

  /** Two strings that start with two characters compare by those characters first. */
  lemma TwoCharsLess(ha: char, la: char, hb: char, lb: char, x: string, y: string)
    requires ha < hb || (ha == hb && la < lb)
    ensures Less([ha] + ([la] + x), [hb] + ([lb] + y))
  {
    if ha < hb {
      LessFirstChar([ha] + ([la] + x), [hb] + ([lb] + y));
    } else {
      LessFirstChar([la] + x, [lb] + y);
      LessCommonPrefix([ha], [la] + x, [lb] + y);
    }
  }

  lemma DigitCharLess(d: nat, e: nat)
    requires d < e < 10
    ensures DigitChar(d) < DigitChar(e)
  {
  }

  /** A padded number below 100 is its tens digit followed by its units digit. */
  lemma Pad2Split(n: nat, x: string)
    requires n < 100
    ensures Pad2(n) + x == [DigitChar(n / 10)] + ([DigitChar(n % 10)] + x)
  {
  }

  /** Two-digit padded numbers compare as the numbers do, whatever follows them. */
  lemma Pad2Less(a: nat, b: nat, x: string, y: string)
    requires a < b < 100
    ensures Less(Pad2(a) + x, Pad2(b) + y)
  {
    TensThenUnits(a, b);
    Pad2Split(a, x);
    Pad2Split(b, y);
    if a / 10 < b / 10 {
      DigitCharLess(a / 10, b / 10);
    } else {
      DigitCharLess(a % 10, b % 10);
    }
    TwoCharsLess(DigitChar(a / 10), DigitChar(a % 10), DigitChar(b / 10), DigitChar(b % 10), x, y);
  }

  // ---- joining and splitting ----

  /** `Array.prototype.join(sep)`. */
  function Join(xs: seq<string>, sep: string): string
  {
    if |xs| == 0 then "" else if |xs| == 1 then xs[0] else xs[0] + sep + Join(xs[1..], sep)
  }

  /** The joined text starts with the first element, and with the separator after it when
      there is a second. */
  lemma JoinStartsWith(xs: seq<string>, sep: string)
    ensures |xs| >= 1 ==> xs[0] <= Join(xs, sep)
    ensures |xs| >= 2 ==> xs[0] + sep <= Join(xs, sep)
  {
    if |xs| >= 2 {
      var rest := Join(xs[1..], sep);
      assert (xs[0] + sep + rest)[..|xs[0] + sep|] == xs[0] + sep;
    }
  }

  lemma Concat(a: string, b: string)
    ensures a <= a + b
    ensures (a + b)[|a|..] == b
  {
  }

  /** Splitting at every occurrence of `sep` (what a reader of the CSV does). */
  function Split(s: string, sep: char): (parts: seq<string>)
    ensures |parts| >= 1
    decreases |s|
  {
    if s == [] then [""]
    else
      var rest := Split(s[1..], sep);
      if s[0] == sep then [""] + rest else [[s[0]] + rest[0]] + rest[1..]
  }

  lemma {:induction false} SplitNoSeparator(a: string, sep: char)
    requires sep !in a
    ensures Split(a, sep) == [a]
    decreases |a|
  {
    if a != [] {
      SplitNoSeparator(a[1..], sep);
      assert [a[0]] + a[1..] == a;
    }
  }

  lemma {:induction false} SplitAfterField(a: string, b: string, sep: char)
    requires sep !in a
    ensures Split(a + [sep] + b, sep) == [a] + Split(b, sep)
    decreases |a|
  {
    if a == [] {
      assert a + [sep] + b == [sep] + b;
      assert ([sep] + b)[1..] == b;
    } else {
      var s := a + [sep] + b;
      assert s[1..] == a[1..] + [sep] + b;
      SplitAfterField(a[1..], b, sep);
      assert [a[0]] + a[1..] == a;
    }
  }

  /** Splitting a join gives back the pieces, as long as none contains the separator. */
  lemma {:induction false} SplitJoin(xs: seq<string>, sep: char)
    requires |xs| >= 1
    requires forall i :: 0 <= i < |xs| ==> sep !in xs[i]
    ensures Split(Join(xs, [sep]), sep) == xs
    decreases |xs|
  {
    if |xs| == 1 {
      SplitNoSeparator(xs[0], sep);
    } else {
      SplitJoin(xs[1..], sep);
      SplitAfterField(xs[0], Join(xs[1..], [sep]), sep);
      assert [xs[0]] + xs[1..] == xs;
    }
  }

  lemma {:induction false} JoinHasNo(xs: seq<string>, sep: string, c: char)
    requires c !in sep
    requires forall i :: 0 <= i < |xs| ==> c !in xs[i]
    ensures c !in Join(xs, sep)
    decreases |xs|
  {
    if |xs| > 1 {
      JoinHasNo(xs[1..], sep, c);
    }
  }

  // ---- JavaScript string order and the by-name comparator ----

  /** `toLowerCase` on the ASCII letters. */
  function LowerChar(c: char): char
  {
    if 'A' <= c <= 'Z' then (c as int + 32) as char else c
  }

  function ToLower(s: string): (r: string)
    ensures |r| == |s|
    ensures forall i :: 0 <= i < |s| ==> r[i] == LowerChar(s[i])
  {
    seq(|s|, i requires 0 <= i < |s| => LowerChar(s[i]))
  }

  /** `a < b` on strings: the first differing character decides, and a proper prefix is smaller. */
  predicate Less(a: string, b: string)
    decreases |a|
  {
    |b| > 0 && (|a| == 0 || a[0] < b[0] || (a[0] == b[0] && Less(a[1..], b[1..])))
  }

  lemma {:induction false} LessIrreflexive(a: string)
    ensures !Less(a, a)
    decreases |a|
  {
    if |a| > 0 {
      LessIrreflexive(a[1..]);
    }
  }

  lemma {:induction false} LessAsymmetric(a: string, b: string)
    requires Less(a, b)
    ensures !Less(b, a)
    decreases |a|
  {
    if |a| > 0 && a[0] == b[0] {
      LessAsymmetric(a[1..], b[1..]);
    }
  }

  lemma {:induction false} LessTotal(a: string, b: string)
    requires a != b
    ensures Less(a, b) || Less(b, a)
    decreases |a|
  {
    if |a| > 0 && |b| > 0 && a[0] == b[0] {
      assert a == [a[0]] + a[1..] && b == [b[0]] + b[1..];
      LessTotal(a[1..], b[1..]);
    }
  }

  lemma {:induction false} LessTransitive(a: string, b: string, c: string)
    requires Less(a, b) && Less(b, c)
    ensures Less(a, c)
    decreases |a|
  {
    if |a| > 0 && a[0] == b[0] && b[0] == c[0] {
      LessTransitive(a[1..], b[1..], c[1..]);
    }
  }

  /** `u` / `sortByName` applied to two entities' `name`s: 0 when the lower-cased names are
      equal, 1 when the first sorts after the second, -1 otherwise. */
  function CompareNames(a: string, b: string): (r: int)
    ensures r == 0 <==> ToLower(a) == ToLower(b)
    ensures r == 1 <==> Less(ToLower(b), ToLower(a))
    ensures r == -1 <==> Less(ToLower(a), ToLower(b))
  {
    var x, y := ToLower(a), ToLower(b);
    if x == y then
      LessIrreflexive(x);
      0
    else if Less(y, x) then
      LessAsymmetric(y, x);
      1
    else
      LessTotal(x, y);
      -1
  }

  /** Swapping the arguments negates the comparator. */
  lemma CompareNamesAntisymmetric(a: string, b: string)
    ensures CompareNames(a, b) == -CompareNames(b, a)
  {
  }

  /** The comparator is transitive, so `Array.prototype.sort` gets a consistent order. */
  lemma CompareNamesTransitive(a: string, b: string, c: string)
    requires CompareNames(a, b) <= 0 && CompareNames(b, c) <= 0
    ensures CompareNames(a, c) <= 0
  {
    var x, y, z := ToLower(a), ToLower(b), ToLower(c);
    if x != y && y != z {
      LessTransitive(x, y, z);
      LessAsymmetric(x, z);
    }
  }

  // ---- default Array.prototype.sort on strings ----

  predicate LessEq(a: string, b: string) { a == b || Less(a, b) }

  predicate Sorted(s: seq<string>)
  {
    forall i, j :: 0 <= i < j < |s| ==> LessEq(s[i], s[j])
  }

  function Insert(x: string, s: seq<string>): (r: seq<string>)
    ensures |r| == |s| + 1
    decreases |s|
  {
    if s == [] then [x] else if LessEq(x, s[0]) then [x] + s else [s[0]] + Insert(x, s[1..])
  }

  lemma {:induction false} InsertPermutes(x: string, s: seq<string>)
    ensures multiset(Insert(x, s)) == multiset(s) + multiset{x}
    decreases |s|
  {
    if s != [] && !LessEq(x, s[0]) {
      InsertPermutes(x, s[1..]);
      assert s == [s[0]] + s[1..];
    }
  }

  lemma {:induction false} InsertSorted(x: string, s: seq<string>)
    requires Sorted(s)
    ensures Sorted(Insert(x, s))
    ensures |Insert(x, s)| == |s| + 1
    decreases |s|
  {
    if s == [] {
    } else if LessEq(x, s[0]) {
      var r := [x] + s;
      forall i, j | 0 <= i < j < |r| ensures LessEq(r[i], r[j]) {
        if i == 0 && j > 1 && x != s[0] && s[0] != s[j - 1] {
          LessTransitive(x, s[0], s[j - 1]);
        }
      }
    } else {
      InsertSorted(x, s[1..]);
      InsertPermutes(x, s[1..]);
      LessTotal(x, s[0]);
      var r := [s[0]] + Insert(x, s[1..]);
      forall j | 0 < j < |r| ensures LessEq(s[0], r[j]) {
        assert r[j] in multiset(Insert(x, s[1..]));
        assert r[j] == x || r[j] in multiset(s[1..]);
        if r[j] != x {
          var k :| 0 <= k < |s[1..]| && s[1..][k] == r[j];
          assert s[k + 1] == r[j];
        }
      }
    }
  }

  /** The sorted copy of a list of strings (`Array.prototype.sort` with no comparator). */
  function SortStrings(s: seq<string>): (r: seq<string>)
    ensures |r| == |s|
    decreases |s|
  {
    if s == [] then [] else Insert(s[0], SortStrings(s[1..]))
  }

  /** The sorted copy holds exactly the elements it was given. */
  lemma {:induction false} SortStringsPermutes(s: seq<string>)
    ensures multiset(SortStrings(s)) == multiset(s)
    decreases |s|
  {
    if s != [] {
      var rest := SortStrings(s[1..]);
      assert SortStrings(s) == Insert(s[0], rest);
      SortStringsPermutes(s[1..]);
      InsertPermutes(s[0], rest);
      assert s == [s[0]] + s[1..];
      assert multiset(s) == multiset(s[1..]) + multiset{s[0]};
    }
  }

  /** The sorted copy is in order. */
  lemma {:induction false} SortStringsSorted(s: seq<string>)
    ensures Sorted(SortStrings(s))
    decreases |s|
  {
    if s != [] {
      var rest := SortStrings(s[1..]);
      assert SortStrings(s) == Insert(s[0], rest);
      SortStringsSorted(s[1..]);
      InsertSorted(s[0], rest);
    }
  }

  /** The sorted copy is in order and holds exactly the elements it was given. */
  lemma SortStringsSorts(s: seq<string>)
    ensures multiset(SortStrings(s)) == multiset(s)
    ensures Sorted(SortStrings(s))
  {
    SortStringsPermutes(s);
    SortStringsSorted(s);
  }

  lemma HeadIsLeast(a: seq<string>, x: string)
    requires Sorted(a) && x in a
    ensures LessEq(a[0], x)
  {
    var i :| 0 <= i < |a| && a[i] == x;
    if i > 0 {
      assert LessEq(a[0], a[i]);
    }
  }

  lemma SortedTail(a: seq<string>)
    requires Sorted(a) && a != []
    ensures Sorted(a[1..])
  {
    forall i, j | 0 <= i < j < |a| - 1 ensures LessEq(a[1..][i], a[1..][j]) {
      assert LessEq(a[i + 1], a[j + 1]);
    }
  }

  /** Two sorted permutations start with the same (least) element. */
  lemma SameHead(a: seq<string>, b: seq<string>)
    requires Sorted(a) && Sorted(b) && multiset(a) == multiset(b) && a != []
    ensures b != [] && a[0] == b[0]
  {
    assert a[0] in multiset(a);
    assert b != [];
    assert b[0] in multiset(b);
    HeadIsLeast(b, a[0]);
    HeadIsLeast(a, b[0]);
    if a[0] != b[0] {
      LessAsymmetric(a[0], b[0]);
    }
  }

  /** A sorted list is determined by its elements: two sorted permutations are equal. */
  lemma {:induction false} SortedUnique(a: seq<string>, b: seq<string>)
    requires Sorted(a) && Sorted(b) && multiset(a) == multiset(b)
    ensures a == b
    decreases |a|
  {
    if a == [] {
      assert |multiset(b)| == 0;
    } else {
      SameHead(a, b);
      assert a == [a[0]] + a[1..] && b == [b[0]] + b[1..];
      assert multiset(a[1..]) == multiset(a) - multiset{a[0]};
      assert multiset(b[1..]) == multiset(b) - multiset{b[0]};
      SortedTail(a);
      SortedTail(b);
      SortedUnique(a[1..], b[1..]);
    }
  }

  /** Sorting forgets the order it was given. */
  lemma SortStringsOrderIndependent(a: seq<string>, b: seq<string>)
    requires multiset(a) == multiset(b)
    ensures SortStrings(a) == SortStrings(b)
  {
    SortStringsSorts(a);
    SortStringsSorts(b);
    SortedUnique(SortStrings(a), SortStrings(b));
  }
}
