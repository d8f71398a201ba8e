/**
 * Labels: the textual form of node labels.
 *
 * Labels are strings. Dictionary codes are the decimal text of a positive
 * integer (the engine writes `'' + n`), neighbour labels are ordered by the
 * default string order of arrays (lexicographic on characters) and joined
 * without a delimiter.
 */
module Labels {

  /** The decimal digit of `d` as a character. */
  function Digit(d: nat): (c: char)
    requires d < 10
    ensures '0' <= c <= '9'
    ensures c as int - '0' as int == d
  {
    (d + '0' as int) as char
  }

  /** The value of a decimal digit character. */
  function DigitValue(c: char): (d: nat)
    ensures '0' <= c <= '9' ==> d < 10
  {
    if '0' <= c <= '9' then c as int - '0' as int else 0
  }

  /** `'' + n`: the decimal text of `n`, most significant digit first. */
  function Code(n: nat): (s: string)
    ensures |s| >= 1
    decreases n
  {
    if n < 10 then [Digit(n)] else Code(n / 10) + [Digit(n % 10)]
  }

  /** Reading a string of decimal digits back as a number (as `parseInt` does). */
  function Decode(s: string): nat
    decreases |s|
  {
    if |s| == 0 then 0 else Decode(s[..|s| - 1]) * 10 + DigitValue(s[|s| - 1])
  }

  /** Reading back the decimal text of `n` gives `n`. */
  lemma {:induction false} DecodeCode(n: nat)
    ensures Decode(Code(n)) == n
    decreases n
  {
    if n >= 10 {
      var s := Code(n);
      assert s[..|s| - 1] == Code(n / 10);
      DecodeCode(n / 10);
    }
  }

  /** Distinct numbers have distinct decimal texts. */
  lemma CodeInjective(m: nat, n: nat)
    ensures Code(m) == Code(n) <==> m == n
  {
    DecodeCode(m);
    DecodeCode(n);
  }

  /** The label every node carries before the first round. */
  const InitialLabel: string := "1"

  // ---------------------------------------------------------------------
  // The default order of `Array.prototype.sort` on strings
  // ---------------------------------------------------------------------

  /** `a` sorts no later than `b`: `a` is a prefix of `b`, or the first
      character where they differ is smaller in `a`. */
  predicate LexLe(a: string, b: string)
    decreases |a|
  {
    |a| == 0 || (|b| > 0 && (a[0] < b[0] || (a[0] == b[0] && LexLe(a[1..], b[1..]))))
  }

  lemma {:induction false} LexLeReflexive(a: string)
    ensures LexLe(a, a)
    decreases |a|
  {
    if |a| > 0 { LexLeReflexive(a[1..]); }
  }

  lemma {:induction false} LexLeTotal(a: string, b: string)
    ensures LexLe(a, b) || LexLe(b, a)
    decreases |a|
  {
    if |a| > 0 && |b| > 0 && a[0] == b[0] { LexLeTotal(a[1..], b[1..]); }
  }

  lemma {:induction false} LexLeAntisymmetric(a: string, b: string)
    requires LexLe(a, b) && LexLe(b, a)
    ensures a == b
    decreases |a|
  {
    if |a| > 0 {
      LexLeAntisymmetric(a[1..], b[1..]);
      assert a == [a[0]] + a[1..] && b == [b[0]] + b[1..];
    }
  }

  lemma {:induction false} LexLeTransitive(a: string, b: string, c: string)
    requires LexLe(a, b) && LexLe(b, c)
    ensures LexLe(a, c)
    decreases |a|
  {
    if |a| > 0 && a[0] == b[0] && b[0] == c[0] { LexLeTransitive(a[1..], b[1..], c[1..]); }
  }

  /** Every label sorts no later than its successors. */
  predicate Sorted(s: seq<string>)
  {
    forall i, j :: 0 <= i < j < |s| ==> LexLe(s[i], s[j])
  }

  /** The head of a sorted list sorts no later than any of its elements. */
  lemma SortedHead(s: seq<string>, e: string)
    requires Sorted(s) && e in s
    ensures LexLe(s[0], e)
  {
    var i :| 0 <= i < |s| && s[i] == e;
    if i == 0 { LexLeReflexive(e); }
  }

  /** A label no later than the head of a sorted list is no later than any
      of its elements. */
  lemma BeforeSorted(x: string, s: seq<string>)
    requires Sorted(s) && |s| > 0 && LexLe(x, s[0])
    ensures forall j :: 0 <= j < |s| ==> LexLe(x, s[j])
  {
    forall j | 0 <= j < |s| ensures LexLe(x, s[j]) {
      SortedHead(s, s[j]);
      LexLeTransitive(x, s[0], s[j]);
    }
  }

  /** Inserting `x` into a sorted list at its place. */
  function Insert(x: string, s: seq<string>): (r: seq<string>)
    requires Sorted(s)
    ensures Sorted(r)
    ensures multiset(r) == multiset(s) + multiset{x}
    decreases |s|
  {
    if |s| == 0 then [x]
    else if LexLe(x, s[0]) then
      BeforeSorted(x, s);
      [x] + s
    else
      LexLeTotal(x, s[0]);
      var t := Insert(x, s[1..]);
      assert s == [s[0]] + s[1..];
      InsertTail(x, s, t);
      [s[0]] + t
  }

  /** When `x` goes after the head, the head sorts before the tail with `x`
      inserted. */
  lemma InsertTail(x: string, s: seq<string>, t: seq<string>)
    requires Sorted(s) && |s| > 0 && LexLe(s[0], x)
    requires Sorted(t) && multiset(t) == multiset(s[1..]) + multiset{x}
    ensures Sorted([s[0]] + t)
  {
    forall j | 0 <= j < |t| ensures LexLe(s[0], t[j]) {
      assert t[j] in multiset(t);
      if t[j] != x {
        assert t[j] in s[1..];
        assert t[j] in s;
        SortedHead(s, t[j]);
      }
    }
    var r := [s[0]] + t;
    forall i, j | 0 <= i < j < |r| ensures LexLe(r[i], r[j]) {
      if i > 0 { assert r[i] == t[i - 1] && r[j] == t[j - 1]; }
      else { assert r[j] == t[j - 1]; }
    }
  }

  /** `neighbors.sort()`: the labels in ascending string order. Any sorting
      algorithm gives this same list (see SortedUnique). */
  function SortLabels(s: seq<string>): (r: seq<string>)
    ensures Sorted(r)
    ensures multiset(r) == multiset(s)
    decreases |s|
  {
    if |s| == 0 then []
    else
      assert s == s[..|s| - 1] + [s[|s| - 1]];
      Insert(s[|s| - 1], SortLabels(s[..|s| - 1]))
  }

  /** A sorted list is determined by its multiset of elements. */
  lemma {:induction false} SortedUnique(x: seq<string>, y: seq<string>)
    requires Sorted(x) && Sorted(y)
    requires multiset(x) == multiset(y)
    ensures x == y
    decreases |x|
  {
    if |x| > 0 {
      assert |y| == |multiset(y)| == |multiset(x)| == |x|;
      assert x[0] in multiset(y);
      assert y[0] in multiset(x);
      SortedHead(y, x[0]);
      SortedHead(x, y[0]);
      LexLeAntisymmetric(x[0], y[0]);
      DropHead(x);
      DropHead(y);
      SortedUnique(x[1..], y[1..]);
      SameHeadTail(x, y);
    }
  }

  /** Two non-empty lists with the same head and the same tail are equal. */
  lemma SameHeadTail<T>(x: seq<T>, y: seq<T>)
    requires |x| > 0 && |y| > 0 && x[0] == y[0] && x[1..] == y[1..]
    ensures x == y
  {
    assert x == [x[0]] + x[1..];
    assert y == [y[0]] + y[1..];
  }

  /** The tail of a sorted list is sorted and holds all but the head. */
  lemma DropHead(x: seq<string>)
    requires Sorted(x) && |x| > 0
    ensures Sorted(x[1..])
    ensures multiset(x[1..]) == multiset(x) - multiset{x[0]}
  {
    assert x == [x[0]] + x[1..];
    assert multiset(x) == multiset{x[0]} + multiset(x[1..]);
  }

  /** Sorting depends only on the multiset of labels, not on their order. */
  lemma SortLabelsOrderIndependent(s: seq<string>, t: seq<string>)
    requires multiset(s) == multiset(t)
    ensures SortLabels(s) == SortLabels(t)
  {
    SortedUnique(SortLabels(s), SortLabels(t));
  }

  /** `list.join('')`: the labels concatenated with no delimiter. */
  function Join(s: seq<string>): string
    decreases |s|
  {
    if |s| == 0 then "" else s[0] + Join(s[1..])
  }

  /** Without a delimiter, different neighbour lists can give the same text:
      `["1", "23"]` and `["12", "3"]` are both sorted and both join to "123". */
  lemma JoinCollides()
    ensures Sorted(["1", "23"]) && Sorted(["12", "3"])
    ensures ["1", "23"] != ["12", "3"] && Join(["1", "23"]) == Join(["12", "3"])
  {
    assert LexLe("1", "23");
    assert LexLe("12", "3");
    assert ["1", "23"][1] != ["12", "3"][1];
  }
}
