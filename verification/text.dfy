/** Python string operations the core relies on: `s.split(sep)` with a one-character
    separator, `parts[1]`, `parts[-1]`, and `s.replace(c, "")`. */
module Text {
  import opened Outcomes

  /** `s.split([c])` as Python computes it: the text between consecutive separators,
      including the empty text before a leading or after a trailing separator. */
  function Split(s: string, c: char): (parts: seq<string>)
    ensures |parts| >= 1
  {
    if |s| == 0 then [""]
    else
      var rest := Split(s[1..], c);
      if s[0] == c then [""] + rest
      else [[s[0]] + rest[0]] + rest[1..]
  }

  /** `[c].join(parts)`: the inverse of Split. */
  function Join(parts: seq<string>, c: char): string
    requires |parts| >= 1
  {
    if |parts| == 1 then parts[0] else parts[0] + [c] + Join(parts[1..], c)
  }

  /** Splitting and joining again gives back the original text. */
  lemma {:induction false} JoinSplit(s: string, c: char)
    ensures Join(Split(s, c), c) == s
  {
    if |s| > 0 {
      JoinSplit(s[1..], c);
      var rest := Split(s[1..], c);
      if s[0] != c {
        assert [s[0]] + rest[0] + Join(rest, c)[|rest[0]|..] == [s[0]] + Join(rest, c) by {
          JoinHead(rest, c);
        }
        JoinHead([[s[0]] + rest[0]] + rest[1..], c);
        JoinHead(rest, c);
      }
      assert s == [s[0]] + s[1..];
    }
  }

  /** Join starts with the first part, and whatever follows it starts with the separator. */
  lemma {:induction false} JoinHead(parts: seq<string>, c: char)
    requires |parts| >= 1
    ensures |Join(parts, c)| >= |parts[0]|
    ensures Join(parts, c)[..|parts[0]|] == parts[0]
    ensures |parts| == 1 ==> Join(parts, c) == parts[0]
    ensures |parts| > 1 ==> Join(parts, c) == parts[0] + [c] + Join(parts[1..], c)
    ensures Join(parts, c)[|parts[0]|..] == if |parts| == 1 then "" else [c] + Join(parts[1..], c)
  {
  }

  /** No part of a split contains the separator. */
  lemma {:induction false} SplitPartsFree(s: string, c: char)
    ensures forall i :: 0 <= i < |Split(s, c)| ==> c !in Split(s, c)[i]
  {
    if |s| > 0 {
      SplitPartsFree(s[1..], c);
      var rest := Split(s[1..], c);
      if s[0] != c {
        assert c !in rest[0];
        var parts := Split(s, c);
        forall i | 0 <= i < |parts| ensures c !in parts[i] {
          if i > 0 { assert parts[i] == rest[i]; }
        }
      }
    }
  }

  /** A text without the separator splits into itself alone. */
  lemma {:induction false} SplitWithoutSeparator(s: string, c: char)
    requires c !in s
    ensures Split(s, c) == [s]
  {
    if |s| > 0 {
      SplitWithoutSeparator(s[1..], c);
      assert [s[0]] + s[1..] == s;
    }
  }

  /** There are at least two parts exactly when the separator occurs. */
  lemma {:induction false} SplitCountsSeparator(s: string, c: char)
    ensures |Split(s, c)| >= 2 <==> c in s
  {
    if c !in s {
      SplitWithoutSeparator(s, c);
    } else if s[0] != c {
      assert c in s[1..] by {
        var i :| 0 <= i < |s| && s[i] == c;
        assert s[1..][i - 1] == c;
      }
      SplitCountsSeparator(s[1..], c);
    }
  }

  /** Splitting the join of separator-free parts gives back the parts. */
  lemma {:induction false} SplitJoin(parts: seq<string>, c: char)
    requires |parts| >= 1
    requires forall i :: 0 <= i < |parts| ==> c !in parts[i]
    ensures Split(Join(parts, c), c) == parts
  {
    if |parts| == 1 {
      SplitWithoutSeparator(parts[0], c);
    } else {
      var tail := [c] + Join(parts[1..], c);
      SplitJoin(parts[1..], c);
      assert tail[0] == c && tail[1..] == Join(parts[1..], c);
      assert Split(tail, c) == [""] + Split(tail[1..], c);
      assert Split(tail, c) == [""] + parts[1..];
      SplitPrefix(parts[0], tail, c);
      assert Join(parts, c) == parts[0] + tail;
      assert Split(Join(parts, c), c) == [parts[0] + ""] + parts[1..];
      assert parts[0] + "" == parts[0];
      assert parts == [parts[0]] + parts[1..];
    }
  }

  /** A separator-free prefix glues onto the first part of what follows it. */
  lemma {:induction false} SplitPrefix(x: string, t: string, c: char)
    requires c !in x
    ensures Split(x + t, c) == [x + Split(t, c)[0]] + Split(t, c)[1..]
  {
    var st := Split(t, c);
    if |x| == 0 {
      assert x + t == t;
      assert x + st[0] == st[0];
      assert [st[0]] + st[1..] == st;
    } else {
      SplitPrefix(x[1..], t, c);
      assert (x + t)[1..] == x[1..] + t;
      assert (x + t)[0] == x[0] && x[0] != c;
      var rest := Split(x[1..] + t, c);
      assert rest == [x[1..] + st[0]] + st[1..];
      assert Split(x + t, c) == [[x[0]] + rest[0]] + rest[1..];
      assert [x[0]] + (x[1..] + st[0]) == x + st[0];
    }
  }

  /** `s.split(c)[-1]`: the text after the last separator, or all of `s` without one. */
  function LastSegment(s: string, c: char): (r: string)
    ensures c !in r
    ensures |r| <= |s| && s[|s| - |r|..] == r
    ensures c !in s ==> r == s
    ensures c in s ==> |r| < |s| && s[|s| - |r| - 1] == c
  {
    var parts := Split(s, c);
    SplitPartsFree(s, c);
    JoinSplit(s, c);
    SplitCountsSeparator(s, c);
    JoinLast(parts, c);
    if c !in s then SplitWithoutSeparator(s, c); parts[|parts| - 1]
    else parts[|parts| - 1]
  }

  /** Join ends with the last part, preceded by the separator when there are several parts. */
  lemma {:induction false} JoinLast(parts: seq<string>, c: char)
    requires |parts| >= 1
    ensures var j := Join(parts, c); var l := parts[|parts| - 1];
      |l| <= |j| && j[|j| - |l|..] == l &&
      (|parts| > 1 ==> |l| < |j| && j[|j| - |l| - 1] == c)
  {
    if |parts| > 1 {
      JoinLast(parts[1..], c);
      var j := Join(parts, c);
      var l := parts[|parts| - 1];
      var rest := Join(parts[1..], c);
      assert j == parts[0] + [c] + rest;
      assert parts[1..][|parts[1..]| - 1] == l;
      assert j[|j| - |l|..] == rest[|rest| - |l|..];
      if |parts| > 2 {
        assert j[|j| - |l| - 1] == rest[|rest| - |l| - 1];
      }
    }
  }

  /** The position of the first occurrence of `c` in `s`. */
  function FirstIndex(s: string, c: char): (i: nat)
    requires c in s
    ensures i < |s| && s[i] == c && c !in s[..i]
  {
    if s[0] == c then 0
    else
      assert c in s[1..] by {
        var k :| 0 <= k < |s| && s[k] == c;
        assert s[1..][k - 1] == c;
      }
      var k := FirstIndex(s[1..], c);
      assert s[..k + 1] == [s[0]] + s[1..][..k];
      k + 1
  }

  /** Any position holding the first `c` is the one FirstIndex finds. */
  lemma FirstIndexUnique(s: string, c: char, k: nat)
    requires k < |s| && s[k] == c && c !in s[..k]
    ensures FirstIndex(s, c) == k
  {
  }

  /** `s.split(c)[1]`: None where Python raises IndexError. When present it is the text
      from just after the first separator up to the next separator or the end. */
  function SecondSegment(s: string, c: char): (r: Option<string>)
    ensures r.Some? <==> c in s
    ensures r.Some? ==> c !in r.value
    ensures r.Some? ==>
      var start := FirstIndex(s, c) + 1;
      var stop := start + |r.value|;
      stop <= |s| && s[start..stop] == r.value && (stop == |s| || s[stop] == c)
  {
    var parts := Split(s, c);
    SplitCountsSeparator(s, c);
    if |parts| >= 2 then
      SplitPartsFree(s, c);
      JoinSplit(s, c);
      SecondOfJoin(parts, c);
      assert c !in parts[0];
      assert s[..|parts[0]|] == parts[0];
      FirstIndexUnique(s, c, |parts[0]|);
      Some(parts[1])
    else None
  }

  /** The join of two or more parts lays out the first two around a separator. */
  lemma SecondOfJoin(parts: seq<string>, c: char)
    requires |parts| >= 2
    ensures var j := Join(parts, c); var a := |parts[0]|; var b := a + 1 + |parts[1]|;
      b <= |j| && j[..a] == parts[0] && j[a] == c && j[a + 1..b] == parts[1] && (b == |j| || j[b] == c)
  {
    var tail := parts[1..];
    JoinHead(tail, c);
    var rest := if |tail| == 1 then "" else [c] + Join(tail[1..], c);
    assert Join(tail, c) == parts[1] + rest;
    assert Join(parts, c) == parts[0] + [c] + parts[1] + rest;
  }

  /** `s.replace(c, "")`: every occurrence of `c` removed, the rest kept in order. */
  function RemoveAll(s: string, c: char): (r: string)
    ensures c !in r
    ensures |r| <= |s|
    ensures forall d :: d != c ==> (d in r <==> d in s)
    ensures c !in s ==> r == s
  {
    if |s| == 0 then ""
    else
      var rest := RemoveAll(s[1..], c);
      assert s == [s[0]] + s[1..];
      if s[0] == c then rest else [s[0]] + rest
  }

  /** Removal works piecewise over concatenation. */
  lemma {:induction false} RemoveAllConcat(a: string, b: string, c: char)
    ensures RemoveAll(a + b, c) == RemoveAll(a, c) + RemoveAll(b, c)
  {
    if |a| > 0 {
      RemoveAllConcat(a[1..], b, c);
      assert (a + b)[1..] == a[1..] + b;
    } else {
      assert a + b == b;
    }
  }

  /** Every character other than `c` keeps its number of occurrences. */
  lemma {:induction false} RemoveAllCounts(s: string, c: char)
    ensures multiset(RemoveAll(s, c)) == multiset(s)[c := 0]
  {
    if |s| > 0 {
      RemoveAllCounts(s[1..], c);
      assert s == [s[0]] + s[1..];
      assert multiset(s) == multiset{s[0]} + multiset(s[1..]);
    }
  }

  /** Removing twice is removing once. */
  lemma RemoveAllIdempotent(s: string, c: char)
    ensures RemoveAll(RemoveAll(s, c), c) == RemoveAll(s, c)
  {
  }

  /** Text between a common head and a common tail is determined by the whole. */
  lemma CancelAround(head: string, x: string, y: string, tail: string)
    requires head + x + tail == head + y + tail
    ensures x == y
  {
    var a, b := head + x + tail, head + y + tail;
    assert |x| == |y|;
    assert x == a[|head|..|head| + |x|];
    assert y == b[|head|..|head| + |y|];
  }
}
