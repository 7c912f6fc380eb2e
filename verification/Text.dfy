/**
 * Strings as JavaScript's built-ins treat them, over code units.
 *
 * Order compares code unit by code unit. Sorting is insertion into a sorted list,
 * characterised by its order and its elements; a sorted arrangement is unique.
 * Joining is undone by splitting when no piece holds the separator.
 */
module Text {

  // ---------------------------------------------------------------- order

  /** Strictly before, comparing code unit by code unit. */
  predicate Before(a: string, b: string) {
    if b == "" then false
    else if a == "" then true
    else if a[0] != b[0] then a[0] < b[0]
    else Before(a[1..], b[1..])
  }

  lemma {:induction false} BeforeIsTotal(a: string, b: string)
    ensures a == b || Before(a, b) || Before(b, a)
    ensures !(Before(a, b) && Before(b, a)) && !(a == b && Before(a, b))
    decreases |a|
  {
    if a != "" && b != "" && a[0] == b[0] {
      BeforeIsTotal(a[1..], b[1..]);
      assert a == [a[0]] + a[1..] && b == [b[0]] + b[1..];
    }
  }

  lemma {:induction false} BeforeIsTransitive(a: string, b: string, c: string)
    requires Before(a, b) && Before(b, c)
    ensures Before(a, c)
    decreases |a|
  {
    if a != "" && a[0] == b[0] == c[0] { BeforeIsTransitive(a[1..], b[1..], c[1..]); }
  }

  /** At the first difference the smaller code unit decides, and a prefix comes before what it starts. */
  lemma {:induction false} BeforeIs(a: string, b: string, k: nat)
    requires k <= |a| && k <= |b| && a[..k] == b[..k]
    ensures k == |a| < |b| ==> Before(a, b)
    ensures k < |a| && k < |b| && a[k] < b[k] ==> Before(a, b)
    decreases k
  {
    if k > 0 {
      assert a[0] == a[..k][0] == b[..k][0] == b[0];
      assert a[1..][..k - 1] == a[..k][1..] == b[..k][1..] == b[1..][..k - 1];
      BeforeIs(a[1..], b[1..], k - 1);
    }
  }

  predicate Ascending(s: seq<string>) {
    forall i, j :: 0 <= i < j < |s| ==> Before(s[i], s[j])
  }

  predicate Sorted(s: seq<string>) {
    forall i, j :: 0 <= i < j < |s| ==> !Before(s[j], s[i])
  }

  // ----------------------------------------------------------------- sort

  function Insert(x: string, s: seq<string>): (r: seq<string>) {
    if s == [] || !Before(s[0], x) then [x] + s else [s[0]] + Insert(x, s[1..])
  }

  function Sort(s: seq<string>): (r: seq<string>) {
    if s == [] then [] else Insert(s[0], Sort(s[1..]))
  }

  lemma {:induction false} InsertSorted(x: string, s: seq<string>)
    requires Sorted(s)
    ensures Sorted(Insert(x, s)) && multiset(Insert(x, s)) == multiset(s) + multiset{x}
    decreases |s|
  {
    if s == [] {
    } else if !Before(s[0], x) {
      forall j | 0 <= j < |s| ensures !Before(s[j], x) {
        BeforeIsTotal(s[0], x);
        BeforeIsTotal(s[0], s[j]);
        if Before(s[j], x) && x != s[0] { BeforeIsTransitive(s[j], x, s[0]); }
      }
    } else {
      InsertSorted(x, s[1..]);
      var r := Insert(x, s[1..]);
      assert s == [s[0]] + s[1..];
      forall j | 0 <= j < |r| ensures !Before(r[j], s[0]) {
        assert r[j] in multiset(s[1..]) + multiset{x};
        BeforeIsTotal(s[0], x);
        if r[j] != x {
          var k :| 0 <= k < |s[1..]| && s[1..][k] == r[j];
          assert s[k + 1] == r[j];
        }
      }
    }
  }

  lemma {:induction false} SortSorts(s: seq<string>)
    ensures Sorted(Sort(s)) && multiset(Sort(s)) == multiset(s)
    decreases |s|
  {
    if s != [] {
      SortSorts(s[1..]);
      InsertSorted(s[0], Sort(s[1..]));
      assert s == [s[0]] + s[1..];
    }
  }

  /** The first element of a sorted list is before or equal to every member. */
  lemma FirstIsLeast(a: seq<string>, x: string)
    requires Sorted(a) && x in multiset(a)
    ensures a != [] && !Before(x, a[0])
  {
    assert x in a;
    var i :| 0 <= i < |a| && a[i] == x;
    BeforeIsTotal(x, a[0]);
  }

  /** A sorted arrangement is determined by its elements. */
  lemma {:induction false} SortedIsUnique(a: seq<string>, b: seq<string>)
    requires Sorted(a) && Sorted(b) && multiset(a) == multiset(b)
    ensures a == b
    decreases |a|
  {
    if a == [] {
      assert |multiset(b)| == 0;
    } else {
      assert a[0] in multiset(a);
      FirstIsLeast(b, a[0]);
      assert b[0] in multiset(b);
      FirstIsLeast(a, b[0]);
      BeforeIsTotal(a[0], b[0]);
      assert a == [a[0]] + a[1..] && b == [b[0]] + b[1..];
      assert multiset(a[1..]) == multiset(a) - multiset{a[0]};
      assert multiset(b[1..]) == multiset(b) - multiset{b[0]};
      SortedIsUnique(a[1..], b[1..]);
    }
  }

  lemma SortIgnoresOrder(a: seq<string>, b: seq<string>)
    requires multiset(a) == multiset(b)
    ensures Sort(a) == Sort(b)
  {
    SortSorts(a);
    SortSorts(b);
    SortedIsUnique(Sort(a), Sort(b));
  }

  predicate NoRepeats<T(==)>(s: seq<T>) {
    forall i, j :: 0 <= i < j < |s| ==> s[i] != s[j]
  }

  lemma {:induction false} CountWithoutRepeats<T>(s: seq<T>, x: T)
    requires NoRepeats(s)
    ensures multiset(s)[x] == if x in s then 1 else 0
    decreases |s|
  {
    if s != [] {
      assert s == [s[0]] + s[1..];
      assert forall i :: 0 <= i < |s[1..]| ==> s[1..][i] == s[i + 1];
      CountWithoutRepeats(s[1..], x);
      CountWithoutRepeats(s[1..], s[0]);
    }
  }

  /** Sorting a list without repeats puts it in strictly ascending order. */
  lemma SortAscends(s: seq<string>)
    requires NoRepeats(s)
    ensures Ascending(Sort(s)) && forall x :: x in Sort(s) <==> x in s
  {
    SortSorts(s);
    var r := Sort(s);
    forall x ensures x in r <==> x in s {
      assert (x in r <==> x in multiset(r)) && (x in s <==> x in multiset(s));
    }
    forall i, j | 0 <= i < j < |r| ensures Before(r[i], r[j]) {
      BeforeIsTotal(r[i], r[j]);
      if r[i] == r[j] {
        CountWithoutRepeats(s, r[i]);
        TwiceCounts(r, i, j);
      }
    }
  }

  lemma TwiceCounts(r: seq<string>, i: nat, j: nat)
    requires i < j < |r| && r[i] == r[j]
    ensures multiset(r)[r[i]] >= 2
  {
    assert r == r[..i] + [r[i]] + r[i + 1..j] + [r[j]] + r[j + 1..];
  }

  /** A number as decimal digits. */
  function Decimal(n: nat): string {
    if n < 10 then [('0' as int + n) as char] else Decimal(n / 10) + Decimal(n % 10)
  }

  /** The number a decimal text stands for. */
  function Number(s: string): int {
    if s == "" then 0 else 10 * Number(s[..|s| - 1]) + (s[|s| - 1] as int - '0' as int)
  }

  lemma {:induction false} DecimalIs(n: nat)
    ensures Number(Decimal(n)) == n && (n > 0 ==> Decimal(n)[0] != '0')
    ensures Decimal(n) != "" && forall i :: 0 <= i < |Decimal(n)| ==> '0' <= Decimal(n)[i] <= '9'
    decreases n
  {
    if n >= 10 {
      DecimalIs(n / 10);
      var head, last := Decimal(n / 10), Decimal(n % 10);
      assert (head + last)[..|head + last| - 1] == head;
    } else {
      assert [('0' as int + n) as char][..0] == "";
    }
  }

  // ------------------------------------------------------- join and split

  predicate Free(s: string, c: char) {
    forall i :: 0 <= i < |s| ==> s[i] != c
  }

  predicate AllFree(lines: seq<string>, c: char) {
    forall i :: 0 <= i < |lines| ==> Free(lines[i], c)
  }

  function Join(lines: seq<string>, c: char): string {
    if lines == [] then ""
    else if |lines| == 1 then lines[0]
    else lines[0] + [c] + Join(lines[1..], c)
  }

  /** The prefix of s before the first c, or all of s. */
  function Head(s: string, c: char): string {
    if s == "" || s[0] == c then "" else [s[0]] + Head(s[1..], c)
  }

  lemma {:induction false} HeadSize(s: string, c: char)
    ensures |Head(s, c)| <= |s| && s[..|Head(s, c)|] == Head(s, c) && Free(Head(s, c), c)
    ensures |Head(s, c)| < |s| ==> s[|Head(s, c)|] == c
  {
    if s != "" && s[0] != c { HeadSize(s[1..], c); }
  }

  function Split(s: string, c: char): seq<string>
    decreases |s|
  {
    HeadSize(s, c);
    var h := Head(s, c);
    if |h| == |s| then [s] else [h] + Split(s[|h| + 1..], c)
  }

  lemma {:induction false} HeadOf(line: string, rest: string, c: char)
    requires Free(line, c)
    ensures Head(line + [c] + rest, c) == line && Head(line, c) == line
    decreases |line|
  {
    if line != "" {
      HeadOf(line[1..], rest, c);
      assert (line + [c] + rest)[1..] == line[1..] + [c] + rest;
    }
  }

  /** Splitting undoes joining when no piece contains the separator. */
  lemma {:induction false} SplitJoin(lines: seq<string>, c: char)
    requires lines != [] && AllFree(lines, c)
    ensures Split(Join(lines, c), c) == lines
    decreases |lines|
  {
    if |lines| == 1 {
      HeadOf(lines[0], "", c);
    } else {
      var rest := Join(lines[1..], c);
      HeadOf(lines[0], rest, c);
      var s := lines[0] + [c] + rest;
      assert s[|lines[0]| + 1..] == rest;
      SplitJoin(lines[1..], c);
    }
  }

  lemma {:induction false} HeadOfConcat(a: string, b: string, c: char)
    ensures |Head(a, c)| < |a| ==> Head(a + [c] + b, c) == Head(a, c)
    decreases |a|
  {
    if a != "" && a[0] != c {
      HeadOfConcat(a[1..], b, c);
      assert (a + [c] + b)[1..] == a[1..] + [c] + b;
    }
  }

  lemma SplitOff(s: string, line: string, rest: string, c: char)
    requires Head(s, c) == line && s == line + [c] + rest
    ensures Split(s, c) == [line] + Split(rest, c)
  {
    assert s[|line| + 1..] == rest;
  }

  /** A separator splits a text into the pieces of its two sides. */
  lemma {:induction false} SplitConcat(a: string, b: string, c: char)
    ensures Split(a + [c] + b, c) == Split(a, c) + Split(b, c)
    decreases |a|
  {
    var h := Head(a, c);
    HeadSize(a, c);
    if |h| == |a| {
      assert h == a;
      HeadOf(a, b, c);
      SplitOff(a + [c] + b, a, b, c);
    } else {
      var rest := a[|h| + 1..];
      assert a == h + [c] + rest;
      HeadOfConcat(a, b, c);
      assert a + [c] + b == h + [c] + (rest + [c] + b);
      SplitOff(a + [c] + b, h, rest + [c] + b, c);
      SplitOff(a, h, rest, c);
      SplitConcat(rest, b, c);
    }
  }

  lemma JoinIsInjective(a: seq<string>, b: seq<string>, c: char)
    requires a != [] && b != [] && AllFree(a, c) && AllFree(b, c) && Join(a, c) == Join(b, c)
    ensures a == b
  {
    SplitJoin(a, c);
    SplitJoin(b, c);
  }
}
