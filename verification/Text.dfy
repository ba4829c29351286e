/** Splitting text at a separator, as `str::split` and `str.split` do: the result is never empty. */
module Text {

  /** The first position of `c` in `s`, or the length of `s` when `c` does not occur. */
  function IndexOf(s: string, c: char): (i: nat)
    ensures i <= |s|
    ensures forall j :: 0 <= j < i ==> s[j] != c
    ensures i < |s| ==> s[i] == c
  {
    if s == "" || s[0] == c then 0 else 1 + IndexOf(s[1..], c)
  }

  function Split(s: string, c: char): (parts: seq<string>)
    ensures parts != []
    decreases |s|
  {
    var i := IndexOf(s, c);
    if i == |s| then [s] else [s[..i]] + Split(s[i + 1..], c)
  }

  function Join(parts: seq<string>, c: char): (s: string)
    requires parts != []
  {
    if |parts| == 1 then parts[0] else parts[0] + [c] + Join(parts[1..], c)
  }

  lemma {:induction false} IndexOfFirst(s: string, c: char, i: nat)
    requires i <= |s| && (i < |s| ==> s[i] == c)
    requires forall j :: 0 <= j < i ==> s[j] != c
    ensures IndexOf(s, c) == i
    decreases i
  {
    if i > 0 {
      IndexOfFirst(s[1..], c, i - 1);
    }
  }

  /** Text without the separator is one part. */
  lemma SplitWhole(s: string, c: char)
    requires c !in s
    ensures Split(s, c) == [s]
  {
    IndexOfFirst(s, c, |s|);
  }

  /** What follows the first separator is split on its own. */
  lemma SplitHead(head: string, tail: string, c: char)
    requires c !in head
    ensures Split(head + [c] + tail, c) == [head] + Split(tail, c)
  {
    var s := head + [c] + tail;
    IndexOfFirst(s, c, |head|);
    assert s[..|head|] == head && s[|head| + 1..] == tail;
  }

  lemma CutAt(s: string, i: nat)
    requires i < |s|
    ensures s == s[..i] + [s[i]] + s[i + 1..]
  {
  }

  lemma Associative<T>(x: seq<T>, y: seq<T>, z: seq<T>)
    ensures x + (y + z) == (x + y) + z
  {
  }

  lemma Cut<T>(x: seq<T>, k: nat)
    requires k <= |x|
    ensures x == x[..k] + x[k..]
  {
  }

  lemma TakeInside<T>(x: seq<T>, y: seq<T>, k: nat)
    requires k <= |x|
    ensures (x + y)[..k] == x[..k]
  {
  }

  lemma TakeBeyond<T>(x: seq<T>, y: seq<T>, k: nat)
    requires k <= |y|
    ensures (x + y)[..|x| + k] == x + y[..k]
  {
  }

  lemma Uncons<T>(x: seq<T>)
    requires x != []
    ensures x == [x[0]] + x[1..]
  {
  }

  lemma PrefixCut<T>(x: seq<T>, y: seq<T>)
    requires x <= y
    ensures y == x + y[|x|..]
  {
  }

  lemma Regroup(x: string, y: string, z: string, c: char)
    ensures (x + [c] + y) + [c] + z == x + [c] + (y + [c] + z)
  {
  }

  /** Splitting commutes with gluing two texts by the separator. */
  lemma {:induction false} SplitGlue(a: string, b: string, c: char)
    ensures Split(a + [c] + b, c) == Split(a, c) + Split(b, c)
    decreases |a|
  {
    var i := IndexOf(a, c);
    if i == |a| {
      SplitHead(a, b, c);
    } else {
      var head, tail := a[..i], a[i + 1..];
      CutAt(a, i);
      Regroup(head, tail, b, c);
      SplitHead(head, tail + [c] + b, c);
      SplitGlue(tail, b, c);
    }
  }

  lemma JoinHead(head: string, rest: seq<string>, c: char)
    requires rest != []
    ensures Join([head] + rest, c) == head + [c] + Join(rest, c)
  {
    assert ([head] + rest)[1..] == rest;
  }

  lemma {:induction false} JoinOfSplit(s: string, c: char)
    ensures Join(Split(s, c), c) == s
    decreases |s|
  {
    var i := IndexOf(s, c);
    if i < |s| {
      CutAt(s, i);
      JoinHead(s[..i], Split(s[i + 1..], c), c);
      JoinOfSplit(s[i + 1..], c);
    }
  }

  lemma {:induction false} SplitOfJoin(parts: seq<string>, c: char)
    requires parts != []
    requires forall i :: 0 <= i < |parts| ==> c !in parts[i]
    ensures Split(Join(parts, c), c) == parts
    decreases |parts|
  {
    SplitWhole(parts[0], c);
    if |parts| > 1 {
      SplitGlue(parts[0], Join(parts[1..], c), c);
      SplitOfJoin(parts[1..], c);
    }
  }

  /** No part of a split contains the separator. */
  lemma {:induction false} SplitPartsClean(s: string, c: char)
    ensures forall i :: 0 <= i < |Split(s, c)| ==> c !in Split(s, c)[i]
    decreases |s|
  {
    var i := IndexOf(s, c);
    if i < |s| {
      SplitPartsClean(s[i + 1..], c);
    }
  }
}
