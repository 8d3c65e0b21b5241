/**
 * Stand-ins for the parts of Go's `strings`, `strconv` and `sort` packages the
 * core relies on. Go strings are UTF-8 byte strings; here a string is a
 * sequence of Unicode scalar values. Both orders agree: comparing UTF-8 bytes
 * lexicographically orders strings as comparing their code points does.
 */
module Strings {
  import opened Wrappers
  import opened Sequences

  /** The RE2 class `\s`: tab, newline, form feed, carriage return and space (no vertical tab). */
  predicate IsSpace(c: char) {
    c == '\t' || c == '\n' || c == '\U{000C}' || c == '\r' || c == ' '
  }

  /** The RE2 class `\d` (ASCII only). */
  predicate IsDigit(c: char) {
    '0' <= c <= '9'
  }

  predicate AllDigits(s: string) {
    forall i :: 0 <= i < |s| ==> IsDigit(s[i])
  }

  /** `strings.HasPrefix`. */
  predicate HasPrefix(s: string, prefix: string) {
    prefix <= s
  }

  /** `strings.HasSuffix`. */
  predicate HasSuffix(s: string, suffix: string) {
    |suffix| <= |s| && s[|s| - |suffix|..] == suffix
  }

  /** `strings.TrimSuffix`. */
  function TrimSuffix(s: string, suffix: string): (r: string)
    ensures HasSuffix(s, suffix) ==> r + suffix == s
    ensures !HasSuffix(s, suffix) ==> r == s
  {
    if HasSuffix(s, suffix) then s[..|s| - |suffix|] else s
  }

  /** `strings.IndexByte`: the first position of `c`, or -1. */
  function IndexOf(s: string, c: char): (r: int)
    ensures -1 <= r < |s|
    ensures r == -1 <==> c !in s
    ensures 0 <= r ==> s[r] == c && c !in s[..r]
  {
    if |s| == 0 then -1
    else if s[0] == c then 0
    else
      var k := IndexOf(s[1..], c);
      assert s[1..][..if k < 0 then 0 else k] == s[1..1 + (if k < 0 then 0 else k)];
      if k == -1 then -1 else k + 1
  }

  /** `strings.Join`. */
  function Join(parts: seq<string>, sep: string): string {
    if |parts| == 0 then ""
    else if |parts| == 1 then parts[0]
    else parts[0] + sep + Join(parts[1..], sep)
  }

  /** Joining one more piece puts the separator before it, unless it is the only piece. */
  lemma {:induction false} JoinSnocWith(parts: seq<string>, x: string, sep: string)
    ensures Join(parts + [x], sep) == if |parts| == 0 then x else Join(parts, sep) + sep + x
    decreases |parts|
  {
    if |parts| == 0 {
      assert parts + [x] == [x];
    } else if |parts| == 1 {
      assert parts + [x] == [parts[0], x];
      assert [parts[0], x][1..] == [x];
    } else {
      ConsConcat(parts, [x]);
      JoinSnocWith(parts[1..], x, sep);
    }
  }

  /**
   * The text of `s` between the '[' that ends `prefix` and the ']' that ends
   * `s`, as `s[strings.Index(s, "[")+1 : len(s)-1]` cuts it when `prefix`
   * has no other '['.
   */
  function BracketContent(prefix: string, s: string): (r: string)
    requires |prefix| > 0 && prefix[|prefix| - 1] == '[' && '[' !in prefix[..|prefix| - 1]
    requires HasPrefix(s, prefix) && HasSuffix(s, "]")
    ensures s == prefix + r + "]"
    ensures IndexOf(s, '[') == |prefix| - 1 && r == s[IndexOf(s, '[') + 1..|s| - 1]
  {
    var k := |prefix| - 1;
    assert s[k] == prefix[k] == '[' && s[|s| - 1] == s[|s| - 1..][0] == ']';
    assert forall i :: 0 <= i < k ==> s[i] == prefix[..k][i];
    FirstIndexOf(s, '[', k);
    assert s == s[..|prefix|] + s[|prefix|..|s| - 1] + s[|s| - 1..];
    s[|prefix|..|s| - 1]
  }

  /** The position of the first `c` is `k` when `s[k]` is `c` and no `c` comes before it. */
  lemma FirstIndexOf(s: string, c: char, k: int)
    requires 0 <= k < |s| && s[k] == c && forall i :: 0 <= i < k ==> s[i] != c
    ensures IndexOf(s, c) == k
  {
  }

  /** `strings.Split` on a one-character separator; never empty. */
  function Split(s: string, sep: char): (r: seq<string>)
    ensures |r| >= 1
    ensures forall i :: 0 <= i < |r| ==> sep !in r[i]
    decreases |s|
  {
    var k := IndexOf(s, sep);
    if k == -1 then [s] else [s[..k]] + Split(s[k + 1..], sep)
  }

  /** Joining the pieces `Split` cut out on the same separator gives the string back. */
  lemma {:induction false} JoinSplit(s: string, sep: char)
    ensures Join(Split(s, sep), [sep]) == s
    decreases |s|
  {
    var k := IndexOf(s, sep);
    if k != -1 {
      var rest := Split(s[k + 1..], sep);
      JoinSplit(s[k + 1..], sep);
      JoinCons(s[..k], rest, [sep]);
      CutAround(s, k);
    }
  }

  /** Joining a piece in front of at least one more puts the separator between them. */
  lemma JoinCons(a: string, rest: seq<string>, sep: string)
    requires |rest| >= 1
    ensures Join([a] + rest, sep) == a + sep + Join(rest, sep)
  {
    ConsConcat([a], rest);
  }

  /** Splitting a join of separator-free pieces gives the pieces back. */
  lemma {:induction false} SplitJoin(parts: seq<string>, sep: char)
    requires |parts| >= 1
    requires forall i :: 0 <= i < |parts| ==> sep !in parts[i]
    ensures Split(Join(parts, [sep]), sep) == parts
  {
    if |parts| > 1 {
      var s := Join(parts, [sep]);
      var tail := Join(parts[1..], [sep]);
      assert s == parts[0] + [sep] + tail;
      assert s[..|parts[0]|] == parts[0];
      assert s[|parts[0]|] == sep;
      assert IndexOf(s, sep) == |parts[0]| by {
        assert sep !in s[..|parts[0]|];
      }
      assert s[|parts[0]| + 1..] == tail;
      SplitJoin(parts[1..], sep);
    } else {
      assert Join(parts, [sep]) == parts[0];
    }
  }

  lemma {:induction false} JoinMember(parts: seq<string>, sep: string, c: char)
    requires forall i :: 0 <= i < |parts| ==> c !in parts[i]
    requires c !in sep
    ensures c !in Join(parts, sep)
  {
    if |parts| > 1 {
      JoinMember(parts[1..], sep, c);
    }
  }

  /** Go's string `<=`: lexicographic comparison. */
  predicate LessEq(a: string, b: string) {
    if |a| == 0 then true
    else if |b| == 0 then false
    else if a[0] != b[0] then a[0] < b[0]
    else LessEq(a[1..], b[1..])
  }

  lemma {:induction false} LessEqTotal(a: string, b: string)
    ensures LessEq(a, b) || LessEq(b, a)
  {
    if |a| > 0 && |b| > 0 && a[0] == b[0] {
      LessEqTotal(a[1..], b[1..]);
    }
  }

  lemma {:induction false} LessEqReflexive(a: string)
    ensures LessEq(a, a)
  {
    if |a| > 0 {
      LessEqReflexive(a[1..]);
    }
  }

  lemma {:induction false} LessEqAntisymmetric(a: string, b: string)
    requires LessEq(a, b) && LessEq(b, a)
    ensures a == b
  {
    if |a| > 0 && |b| > 0 {
      LessEqAntisymmetric(a[1..], b[1..]);
      assert a == [a[0]] + a[1..] && b == [b[0]] + b[1..];
    }
  }

  lemma {:induction false} LessEqTransitive(a: string, b: string, c: string)
    requires LessEq(a, b) && LessEq(b, c)
    ensures LessEq(a, c)
  {
    if |a| > 0 && |b| > 0 && |c| > 0 && a[0] == b[0] && b[0] == c[0] {
      LessEqTransitive(a[1..], b[1..], c[1..]);
    }
  }

  predicate Sorted(s: seq<string>) {
    forall i, j :: 0 <= i < j < |s| ==> LessEq(s[i], s[j])
  }

  /** Strings whose first characters strictly increase are sorted and distinct. */
  lemma SortedByFirstChar(s: seq<string>)
    requires forall k :: 0 <= k < |s| ==> |s[k]| > 0
    requires forall k :: 0 <= k < |s| - 1 ==> s[k][0] < s[k + 1][0]
    ensures Sorted(s) && Distinct(s)
  {
    forall i, j | 0 <= i < j < |s| ensures s[i][0] < s[j][0] {
      FirstCharBelow(s, i, j);
    }
  }

  lemma {:induction false} FirstCharBelow(s: seq<string>, i: nat, j: nat)
    requires forall k :: 0 <= k < |s| ==> |s[k]| > 0
    requires forall k :: 0 <= k < |s| - 1 ==> s[k][0] < s[k + 1][0]
    requires i < j < |s|
    ensures s[i][0] < s[j][0]
    decreases j - i
  {
    if i + 1 < j {
      FirstCharBelow(s, i + 1, j);
    }
  }

  function Insert(x: string, s: seq<string>): (r: seq<string>)
    requires Sorted(s)
    ensures Sorted(r)
    ensures multiset(r) == multiset(s) + multiset{x}
  {
    if |s| == 0 then [x]
    else if LessEq(x, s[0]) then
      assert forall j :: 0 < j < |s| ==> LessEq(x, s[j]) by {
        forall j | 0 < j < |s| ensures LessEq(x, s[j]) { LessEqTransitive(x, s[0], s[j]); }
      }
      [x] + s
    else
      LessEqTotal(x, s[0]);
      var t := Insert(x, s[1..]);
      InsertedAbove(x, s, t);
      [s[0]] + t
  }

  /** `s[0]` goes in front of `x` inserted into the rest of `s` when `x` does not sort before it. */
  lemma InsertedAbove(x: string, s: seq<string>, t: seq<string>)
    requires |s| > 0 && Sorted(s) && LessEq(s[0], x) && Sorted(t)
    requires multiset(t) == multiset(s[1..]) + multiset{x}
    ensures Sorted([s[0]] + t) && multiset([s[0]] + t) == multiset(s) + multiset{x}
  {
    assert s == [s[0]] + s[1..];
    forall j | 0 <= j < |t| ensures LessEq(s[0], t[j]) {
      assert t[j] in multiset(t);
      if t[j] != x {
        assert t[j] in multiset(s[1..]);
        var i :| 0 <= i < |s[1..]| && s[1..][i] == t[j];
        assert s[i + 1] == t[j];
      }
    }
    var u := [s[0]] + t;
    forall i, j | 0 <= i < j < |u| ensures LessEq(u[i], u[j]) {
      if i > 0 {
        assert u[i] == t[i - 1] && u[j] == t[j - 1];
      } else {
        assert u[j] == t[j - 1];
      }
    }
  }

  /** `sort.Strings`: a sorted permutation of the input. */
  function Sort(s: seq<string>): (r: seq<string>)
    ensures Sorted(r)
    ensures multiset(r) == multiset(s)
  {
    if |s| == 0 then []
    else
      assert s == [s[0]] + s[1..];
      Insert(s[0], Sort(s[1..]))
  }

  predicate Distinct(s: seq<string>) {
    forall i, j :: 0 <= i < j < |s| ==> s[i] != s[j]
  }

  /** A sequence has no duplicates exactly when no string occurs in it twice. */
  lemma {:induction false} DistinctCount(s: seq<string>, x: string)
    requires Distinct(s)
    ensures multiset(s)[x] <= 1
  {
    if |s| > 0 {
      assert s == [s[0]] + s[1..];
      assert Distinct(s[1..]) by {
        forall i, j | 0 <= i < j < |s[1..]| ensures s[1..][i] != s[1..][j] {
          assert s[1..][i] == s[i + 1] && s[1..][j] == s[j + 1];
        }
      }
      DistinctCount(s[1..], x);
      if x == s[0] {
        assert x !in s[1..] by {
          forall i | 0 <= i < |s[1..]| ensures s[1..][i] != x {
            assert s[1..][i] == s[i + 1];
          }
        }
      }
    }
  }

  lemma CountDistinct(s: seq<string>)
    requires forall x :: multiset(s)[x] <= 1
    ensures Distinct(s)
  {
    forall i, j | 0 <= i < j < |s| ensures s[i] != s[j] {
      RepeatCounts(s, i, j);
    }
  }

  lemma RepeatCounts(s: seq<string>, i: nat, j: nat)
    requires i < j < |s|
    ensures s[i] == s[j] ==> multiset(s)[s[i]] >= 2
  {
    assert s == s[..j] + [s[j]] + s[j + 1..];
    assert s[..j][i] == s[i];
  }

  /** Sorting keeps a sequence free of duplicates. */
  lemma SortDistinct(s: seq<string>)
    requires Distinct(s)
    ensures Distinct(Sort(s))
  {
    forall x ensures multiset(Sort(s))[x] <= 1 {
      DistinctCount(s, x);
    }
    CountDistinct(Sort(s));
  }

  lemma DistinctTail(s: seq<string>)
    requires Distinct(s) && |s| > 0
    ensures Distinct(s[1..]) && s[0] !in s[1..]
  {
    forall i, j | 0 <= i < j < |s[1..]| ensures s[1..][i] != s[1..][j] {
      assert s[1..][i] == s[i + 1] && s[1..][j] == s[j + 1];
    }
    forall i | 0 <= i < |s[1..]| ensures s[1..][i] != s[0] {
      assert s[1..][i] == s[i + 1];
    }
  }

  lemma DistinctConcat(a: seq<string>, b: seq<string>)
    requires Distinct(a) && Distinct(b)
    requires forall x :: x in a ==> x !in b
    ensures Distinct(a + b)
  {
    forall i, j | 0 <= i < j < |a + b| ensures (a + b)[i] != (a + b)[j] {
      if j < |a| {
        assert (a + b)[i] == a[i] && (a + b)[j] == a[j];
      } else if i >= |a| {
        assert (a + b)[i] == b[i - |a|] && (a + b)[j] == b[j - |a|];
      } else {
        assert (a + b)[i] == a[i] && (a + b)[j] == b[j - |a|];
        assert a[i] in a;
      }
    }
  }

  /** A sequence without duplicates is as long as the set of its elements. */
  lemma {:induction false} DistinctCardinality(s: seq<string>, S: set<string>)
    requires Distinct(s)
    requires forall x :: x in s <==> x in S
    ensures |s| == |S|
  {
    if |s| > 0 {
      var last := s[|s| - 1];
      var init := s[..|s| - 1];
      assert s == init + [last];
      assert Distinct(init) by {
        forall i, j | 0 <= i < j < |init| ensures init[i] != init[j] {
          assert init[i] == s[i] && init[j] == s[j];
        }
      }
      forall x ensures x in init <==> x in S - {last} {
        if x in init {
          var i :| 0 <= i < |init| && init[i] == x;
          assert s[i] == x;
        }
      }
      DistinctCardinality(init, S - {last});
    }
  }

  /** Some listing of a finite set of strings, each once. */
  ghost function Enumerate(S: set<string>): (r: seq<string>)
    ensures Distinct(r) && forall x :: x in r <==> x in S
    decreases S
  {
    if S == {} then []
    else
      var x :| x in S;
      var rest := Enumerate(S - {x});
      DistinctConcat(rest, [x]);
      rest + [x]
  }

  /** The ascending listing of a finite set of strings, each once. */
  ghost function SortedKeys(S: set<string>): (r: seq<string>)
    ensures Sorted(r) && Distinct(r) && forall x :: x in r <==> x in S
  {
    var e := Enumerate(S);
    SortDistinct(e);
    assert forall x :: x in Sort(e) <==> x in multiset(e);
    Sort(e)
  }

  /** The sorted listing of a set is any sorted sequence without duplicates over exactly that set. */
  lemma ListedAs(S: set<string>, l: seq<string>)
    requires Sorted(l) && Distinct(l) && forall x :: x in l <==> x in S
    ensures SortedKeys(S) == l
  {
    SortedUnique(l, SortedKeys(S));
  }

  /** Two sorted sequences without duplicates over the same set of strings are equal. */
  lemma {:induction false} SortedUnique(a: seq<string>, b: seq<string>)
    requires Sorted(a) && Sorted(b) && Distinct(a) && Distinct(b)
    requires forall x :: x in a <==> x in b
    ensures a == b
  {
    assert |a| == 0 <==> |b| == 0 by {
      if |a| > 0 { assert a[0] in b; }
      if |b| > 0 { assert b[0] in a; }
    }
    if |a| > 0 {
      assert a[0] == b[0] by {
        assert a[0] in b && b[0] in a;
        var i :| 0 <= i < |b| && b[i] == a[0];
        var j :| 0 <= j < |a| && a[j] == b[0];
        if i == 0 || j == 0 {
          assert a[0] == b[0];
        } else {
          assert LessEq(b[0], b[i]) && LessEq(a[0], a[j]);
          LessEqAntisymmetric(a[0], b[0]);
        }
      }
      forall x ensures x in a[1..] <==> x in b[1..] {
        if x in a[1..] {
          var i :| 1 <= i < |a| && a[i] == x;
          assert x in b;
          assert x != b[0];
        }
        if x in b[1..] {
          var i :| 1 <= i < |b| && b[i] == x;
          assert x in a;
          assert x != a[0];
        }
      }
      SortedUnique(a[1..], b[1..]);
      assert a == [a[0]] + a[1..] && b == [b[0]] + b[1..];
    }
  }

  /** Each line followed by a newline, as a writer that ends every line with `\n` produces them. */
  function ConcatLines(lines: seq<string>): string {
    if |lines| == 0 then "" else ConcatLines(lines[..|lines| - 1]) + lines[|lines| - 1] + "\n"
  }

  /** Dropping the final newline of newline-terminated lines joins them with newlines. */
  lemma {:induction false} TrimConcatLines(lines: seq<string>)
    requires |lines| >= 1
    ensures TrimSuffix(ConcatLines(lines), "\n") == Join(lines, "\n")
  {
    JoinSnoc(lines);
    if |lines| > 1 {
      TrimConcatLines(lines[..|lines| - 1]);
      var init := lines[..|lines| - 1];
      assert HasSuffix(ConcatLines(init), "\n");
    }
  }

  lemma JoinSnoc(lines: seq<string>)
    requires |lines| >= 1
    ensures |lines| > 1 ==> Join(lines, "\n") == Join(lines[..|lines| - 1], "\n") + "\n" + lines[|lines| - 1]
    ensures |lines| == 1 ==> Join(lines, "\n") == lines[0]
    ensures |lines| > 1 ==> HasSuffix(ConcatLines(lines[..|lines| - 1]), "\n")
  {
    var init := lines[..|lines| - 1];
    DropLast(lines);
    JoinSnocWith(init, lines[|lines| - 1], "\n");
  }

  // Decimal numerals

  function DigitValue(c: char): nat
    requires IsDigit(c)
  {
    (c as int) - ('0' as int)
  }

  function DigitChar(d: nat): (c: char)
    requires d < 10
    ensures IsDigit(c) && DigitValue(c) == d
  {
    ('0' as int + d) as char
  }

  /** The value of a numeral of ASCII digits, most significant first. */
  function DecimalValue(s: string): nat
    requires AllDigits(s)
  {
    if |s| == 0 then 0 else 10 * DecimalValue(s[..|s| - 1]) + DigitValue(s[|s| - 1])
  }

  /** `strconv.FormatUint(n, 10)`: the shortest numeral of `n`. */
  function NatToString(n: nat): (r: string)
    ensures |r| >= 1 && AllDigits(r)
    ensures |r| > 1 ==> r[0] != '0'
  {
    if n < 10 then [DigitChar(n)] else NatToString(n / 10) + [DigitChar(n % 10)]
  }

  lemma {:induction false} NatToStringValue(n: nat)
    ensures DecimalValue(NatToString(n)) == n
  {
    if n >= 10 {
      NatToStringValue(n / 10);
      var s := NatToString(n);
      assert s[..|s| - 1] == NatToString(n / 10);
    }
  }

  const Int64Max: int := 0x7fff_ffff_ffff_ffff

  /**
   * `strconv.Atoi` on a 64-bit platform: an optional sign and at least one
   * ASCII digit, within the range of `int`; `None` is the error.
   */
  function Atoi(s: string): (r: Option<int>)
    ensures r.Some? ==> -Int64Max - 1 <= r.value <= Int64Max
    ensures |s| == 0 ==> r.None?
    ensures var digits := if |s| > 0 && (s[0] == '+' || s[0] == '-') then s[1..] else s;
            && (r.Some? <==> |digits| > 0 && AllDigits(digits)
                             && (if s[0] == '-' then DecimalValue(digits) <= Int64Max + 1 else DecimalValue(digits) <= Int64Max))
            && (r.Some? ==> r.value == if s[0] == '-' then -(DecimalValue(digits) as int) else DecimalValue(digits))
  {
    var signed := |s| > 0 && (s[0] == '+' || s[0] == '-');
    var digits := if signed then s[1..] else s;
    if |digits| == 0 || !AllDigits(digits) then None
    else
      var v: int := if signed && s[0] == '-' then -(DecimalValue(digits) as int) else DecimalValue(digits);
      if -Int64Max - 1 <= v <= Int64Max then Some(v) else None
  }

  /** The numeral of a number in range reads back as that number. */
  lemma AtoiNatToString(n: nat)
    requires n <= Int64Max
    ensures Atoi(NatToString(n)) == Some(n)
  {
    NatToStringValue(n);
  }

  /** A minus sign negates. */
  lemma AtoiNegative(n: nat)
    requires n <= Int64Max + 1
    ensures Atoi("-" + NatToString(n)) == Some(-(n as int))
  {
    NatToStringValue(n);
    assert ("-" + NatToString(n))[1..] == NatToString(n);
  }

  /** Text without a digit after its optional sign is refused, and so is a trailing non-digit. */
  lemma AtoiRefusals()
    ensures Atoi("abc").None? && Atoi("1x").None? && Atoi("+").None? && Atoi("-").None? && Atoi(" 1").None?
  {
    assert !IsDigit('a') && !IsDigit('x') && !IsDigit(' ');
    assert "1x"[1] == 'x' && " 1"[0] == ' ';
  }

  /** A leading plus sign is accepted, and leading zeros are read as digits. */
  lemma AtoiSigned()
    ensures Atoi("+12") == Some(12) && Atoi("-0") == Some(0) && Atoi("007") == Some(7)
  {
    assert "+12"[1..] == "12" && "12"[..1] == "1" && "1"[..0] == "";
    assert DecimalValue("1") == 1 && DecimalValue("12") == 12;
    assert "-0"[1..] == "0" && "0"[..0] == "";
    assert DecimalValue("0") == 0;
    assert "007"[..2] == "00" && "00"[..1] == "0";
    assert DecimalValue("00") == 0 && DecimalValue("007") == 7;
  }

  /** One past the largest `int` is refused, the smallest is accepted. */
  lemma AtoiRange(n: nat)
    ensures n > Int64Max ==> Atoi(NatToString(n)).None?
    ensures n == Int64Max + 1 ==> Atoi("-" + NatToString(n)) == Some(-Int64Max - 1)
  {
    NatToStringValue(n);
    assert ("-" + NatToString(n))[1..] == NatToString(n);
  }

  /** The numeral of `n` padded with leading zeros to exactly `width` digits, as Go's time formatting writes fields. */
  function PadDecimal(n: nat, width: nat): (r: string)
    ensures |r| == width && AllDigits(r)
  {
    if width == 0 then "" else PadDecimal(n / 10, width - 1) + [DigitChar(n % 10)]
  }

  function Pow10(k: nat): (r: nat)
    ensures r >= 1
  {
    if k == 0 then 1 else 10 * Pow10(k - 1)
  }

  lemma {:induction false} PadDecimalValue(n: nat, width: nat)
    requires n < Pow10(width)
    ensures DecimalValue(PadDecimal(n, width)) == n
  {
    if width > 0 {
      PadDecimalValue(n / 10, width - 1);
      var s := PadDecimal(n, width);
      assert s[..|s| - 1] == PadDecimal(n / 10, width - 1);
    }
  }
}
