/** Concatenating, searching, splitting and joining sequences. */
module Sequences {

  /** Concatenation of all pieces, in order. */
  function Flatten<T>(pieces: seq<seq<T>>): seq<T> {
    if pieces == [] then [] else pieces[0] + Flatten(pieces[1..])
  }

  lemma AppendAssoc<T>(a: seq<T>, b: seq<T>, c: seq<T>)
    ensures (a + b) + c == a + (b + c)
  {
  }

  lemma {:induction false} FlattenAppend<T>(a: seq<seq<T>>, b: seq<seq<T>>)
    ensures Flatten(a + b) == Flatten(a) + Flatten(b)
  {
    if a == [] {
      assert a + b == b;
    } else {
      FlattenAppend(a[1..], b);
      assert (a + b)[1..] == a[1..] + b;
      AppendAssoc(a[0], Flatten(a[1..]), Flatten(b));
    }
  }

  /** x does not occur among the first n elements of s. */
  predicate Absent<T(==)>(s: seq<T>, x: T, n: int)
    requires n <= |s|
  {
    forall k :: 0 <= k < n ==> s[k] != x
  }

  /** Index of the first occurrence of x, or the length of s when x does not occur. */
  function FirstIndex<T(==)>(s: seq<T>, x: T): (i: nat)
    ensures i <= |s|
    ensures Absent(s, x, i)
    ensures i < |s| ==> s[i] == x
  {
    if s == [] || s[0] == x then 0 else 1 + FirstIndex(s[1..], x)
  }

  predicate EndsWith<T(==)>(s: seq<T>, x: T) {
    s != [] && s[|s| - 1] == x
  }

  /** The pieces of s between occurrences of sep; one more than there are occurrences. */
  function Split<T(==)>(s: seq<T>, sep: T): (pieces: seq<seq<T>>)
    ensures pieces != []
    ensures forall i :: 0 <= i < |pieces| ==> Absent(pieces[i], sep, |pieces[i]|)
    decreases |s|
  {
    var i := FirstIndex(s, sep);
    if i == |s| then [s] else [s[..i]] + Split(s[i + 1..], sep)
  }

  /** The pieces with one sep between neighbours. */
  function Join<T>(pieces: seq<seq<T>>, sep: T): seq<T> {
    if pieces == [] then []
    else if |pieces| == 1 then pieces[0]
    else pieces[0] + [sep] + Join(pieces[1..], sep)
  }

  lemma JoinCons<T>(head: seq<T>, tail: seq<seq<T>>, sep: T)
    requires tail != []
    ensures Join([head] + tail, sep) == head + [sep] + Join(tail, sep)
  {
    assert ([head] + tail)[1..] == tail;
  }

  lemma CutAt<T>(s: seq<T>, i: nat)
    requires i < |s|
    ensures s == s[..i] + [s[i]] + s[i + 1..]
  {
  }

  lemma WholeTake<T>(s: seq<T>)
    ensures s[..|s|] == s
  {
  }

  lemma TakeSnoc<T>(s: seq<T>, k: nat)
    requires k < |s|
    ensures s[..k + 1] == s[..k] + [s[k]]
  {
  }

  lemma {:induction false} JoinSplit<T>(s: seq<T>, sep: T)
    ensures Join(Split(s, sep), sep) == s
    decreases |s|
  {
    var i := FirstIndex(s, sep);
    if i < |s| {
      JoinSplit(s[i + 1..], sep);
      JoinCons(s[..i], Split(s[i + 1..], sep), sep);
      CutAt(s, i);
    }
  }

  lemma SplitHead<T>(head: seq<T>, rest: seq<T>, sep: T)
    requires Absent(head, sep, |head|)
    ensures Split(head + [sep] + rest, sep) == [head] + Split(rest, sep)
  {
    var s := head + [sep] + rest;
    assert s[|head|] == sep && Absent(s, sep, |head|);
    assert FirstIndex(s, sep) == |head|;
    assert s[..|head|] == head && s[|head| + 1..] == rest;
  }

  lemma {:induction false} SplitJoin<T>(pieces: seq<seq<T>>, sep: T)
    requires pieces != []
    requires forall i :: 0 <= i < |pieces| ==> Absent(pieces[i], sep, |pieces[i]|)
    ensures Split(Join(pieces, sep), sep) == pieces
  {
    if |pieces| == 1 {
      assert FirstIndex(pieces[0], sep) == |pieces[0]|;
    } else {
      SplitJoin(pieces[1..], sep);
      SplitHead(pieces[0], Join(pieces[1..], sep), sep);
    }
  }

  /** Joining grows at the end by one separator and one piece. */
  lemma {:induction false} JoinSnoc<T>(pieces: seq<seq<T>>, piece: seq<T>, sep: T)
    ensures Join(pieces + [piece], sep) == if pieces == [] then piece else Join(pieces, sep) + [sep] + piece
  {
    if |pieces| == 1 {
      assert (pieces + [piece])[1..] == [piece];
    } else if |pieces| > 1 {
      JoinSnoc(pieces[1..], piece, sep);
      assert (pieces + [piece])[1..] == pieces[1..] + [piece];
    }
  }
}
