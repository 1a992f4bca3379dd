/** The order-insensitive comparison of string slices.

    The source copies both slices, sorts the copies in place and compares them
    element by element. `Sort` is the value that an in-place sort produces; the
    lemmas show that comparing sorted copies decides equality as multisets. */
module SliceUtil {

  /** The order of Go strings: lexicographic by code point, which for valid UTF-8
      is the order of the bytes. */
  predicate AtMost(a: string, b: string)
  {
    a == [] || (b != [] && (a[0] < b[0] || (a[0] == b[0] && AtMost(a[1..], b[1..]))))
  }

  ghost predicate Ascending(s: seq<string>)
  {
    forall i, j | 0 <= i < j < |s| :: AtMost(s[i], s[j])
  }

  function Insert(x: string, s: seq<string>): seq<string>
  {
    if s == [] then [x]
    else if AtMost(s[|s| - 1], x) then s + [x]
    else Insert(x, s[..|s| - 1]) + [s[|s| - 1]]
  }

  lemma {:induction false} InsertGrows(x: string, s: seq<string>)
    ensures |Insert(x, s)| == |s| + 1
  {
    if s != [] && !AtMost(s[|s| - 1], x) { InsertGrows(x, s[..|s| - 1]); }
  }

  function Sort(s: seq<string>): (r: seq<string>)
    ensures |r| == |s|
  {
    if s == [] then [] else
      InsertGrows(s[|s| - 1], Sort(s[..|s| - 1]));
      Insert(s[|s| - 1], Sort(s[..|s| - 1]))
  }

  lemma {:induction false} AtMostTotal(a: string, b: string)
    ensures AtMost(a, b) || AtMost(b, a)
  {
    if a != [] && b != [] { AtMostTotal(a[1..], b[1..]); }
  }

  lemma {:induction false} AtMostAntisymmetric(a: string, b: string)
    requires AtMost(a, b) && AtMost(b, a)
    ensures a == b
  {
    if a != [] {
      AtMostAntisymmetric(a[1..], b[1..]);
      assert a == [a[0]] + a[1..] && b == [b[0]] + b[1..];
    }
  }

  lemma {:induction false} AtMostTransitive(a: string, b: string, c: string)
    requires AtMost(a, b) && AtMost(b, c)
    ensures AtMost(a, c)
  {
    if a != [] && a[0] == b[0] == c[0] { AtMostTransitive(a[1..], b[1..], c[1..]); }
  }

  lemma DropLast(s: seq<string>)
    requires s != []
    ensures multiset(s) == multiset(s[..|s| - 1]) + multiset{s[|s| - 1]}
  {
    assert s == s[..|s| - 1] + [s[|s| - 1]];
  }

  lemma {:induction false} InsertPermutes(x: string, s: seq<string>)
    ensures multiset(Insert(x, s)) == multiset(s) + multiset{x}
  {
    if s != [] && !AtMost(s[|s| - 1], x) {
      InsertPermutes(x, s[..|s| - 1]);
      assert s == s[..|s| - 1] + [s[|s| - 1]];
    }
  }

  lemma {:induction false} InsertAscends(x: string, s: seq<string>)
    requires Ascending(s)
    ensures Ascending(Insert(x, s))
  {
    if s == [] {
    } else if AtMost(s[|s| - 1], x) {
      forall i | 0 <= i < |s| ensures AtMost(s[i], x) {
        if i < |s| - 1 { AtMostTransitive(s[i], s[|s| - 1], x); }
      }
    } else {
      var front, last := s[..|s| - 1], s[|s| - 1];
      InsertAscends(x, front);
      InsertPermutes(x, front);
      AtMostTotal(last, x);
      forall y | y in Insert(x, front) ensures AtMost(y, last) {
        assert y in multiset(Insert(x, front));
        assert y in front || y == x;
      }
    }
  }

  /** Sorting rearranges its argument and leaves it in ascending order. */
  lemma {:induction false} SortSorts(s: seq<string>)
    ensures Ascending(Sort(s)) && multiset(Sort(s)) == multiset(s)
  {
    if s != [] {
      var front, last := s[..|s| - 1], s[|s| - 1];
      var sorted := Sort(front);
      SortSorts(front);
      assert Sort(s) == Insert(last, sorted);
      InsertAscends(last, sorted);
      InsertPermutes(last, sorted);
      DropLast(s);
    }
  }

  /** The first element of an ascending sequence is at most any of its elements. */
  lemma FirstIsLeast(s: seq<string>, x: string)
    requires Ascending(s) && x in s
    ensures AtMost(s[0], x)
  {
    var i :| 0 <= i < |s| && s[i] == x;
    if i == 0 { AtMostTotal(x, x); }
  }

  lemma SameElementsSameMembers(s: seq<string>, t: seq<string>, x: string)
    requires multiset(s) == multiset(t) && x in s
    ensures x in t && |s| == |t|
  {
    assert x in multiset(s);
    assert |s| == |multiset(s)| == |multiset(t)| == |t|;
  }

  lemma DropFirst(s: seq<string>)
    requires s != []
    ensures multiset(s[1..]) == multiset(s) - multiset{s[0]}
  {
    assert s == [s[0]] + s[1..];
  }

  /** Two arrangements of the same strings that both begin with the least. */
  lemma SameFirst(s: seq<string>, t: seq<string>)
    requires Ascending(s) && Ascending(t) && multiset(s) == multiset(t) && s != []
    ensures t != [] && s[0] == t[0]
  {
    SameElementsSameMembers(s, t, s[0]);
    SameElementsSameMembers(t, s, t[0]);
    FirstIsLeast(s, t[0]);
    FirstIsLeast(t, s[0]);
    AtMostAntisymmetric(s[0], t[0]);
  }

  /** A multiset of strings has only one ascending arrangement. */
  lemma {:induction false} AscendingIsUnique(s: seq<string>, t: seq<string>)
    requires Ascending(s) && Ascending(t) && multiset(s) == multiset(t)
    ensures s == t
  {
    if s == [] {
      assert |t| == |multiset(t)| == |multiset(s)|;
    } else {
      SameFirst(s, t);
      DropFirst(s);
      DropFirst(t);
      AscendingIsUnique(s[1..], t[1..]);
      assert s == [s[0]] + s[1..] && t == [t[0]] + t[1..];
    }
  }

  /** Two slices sort to the same sequence exactly when they hold the same
      elements the same number of times. */
  lemma SortDecidesPermutation(s: seq<string>, t: seq<string>)
    ensures Sort(s) == Sort(t) <==> multiset(s) == multiset(t)
  {
    SortSorts(s);
    SortSorts(t);
    if multiset(s) == multiset(t) { AscendingIsUnique(Sort(s), Sort(t)); }
  }

  /** The meaning of EqualUnordered, for the checks that are expressions. The
      method below is shown to compute it by sorting. */
  predicate SameElements(a: seq<string>, b: seq<string>)
  {
    multiset(a) == multiset(b)
  }

  /** x is inserted after the last element that is at most x. */
  lemma {:induction false} InsertSplits(x: string, s: seq<string>, j: nat)
    requires j <= |s| && (j > 0 ==> AtMost(s[j - 1], x))
    requires forall k | j <= k < |s| :: !AtMost(s[k], x)
    ensures Insert(x, s) == s[..j] + [x] + s[j..]
  {
    if j == |s| {
      assert s[..j] == s && s[j..] == [];
    } else {
      InsertSplits(x, s[..|s| - 1], j);
      assert s[..|s| - 1][j..] + [s[|s| - 1]] == s[j..];
      assert s[..|s| - 1][..j] == s[..j];
    }
  }

  lemma Spread(s: seq<string>, back: seq<string>, t: seq<string>, x: string, j: nat)
    requires j <= |s| && |t| == |s| + 1 + |back| && t[j] == x
    requires forall k | 0 <= k < j :: t[k] == s[k]
    requires forall k | j <= k < |s| :: t[k + 1] == s[k]
    requires forall k | 0 <= k < |back| :: t[|s| + 1 + k] == back[k]
    ensures t == s[..j] + [x] + s[j..] + back
  {
    var u := s[..j] + [x] + s[j..] + back;
    forall k | 0 <= k < |t| ensures t[k] == u[k] {
      if j < k <= |s| {
        assert t[k - 1 + 1] == s[k - 1];
      } else if k > |s| {
        assert t[|s| + 1 + (k - |s| - 1)] == back[k - |s| - 1];
      }
    }
  }

  /** The first i elements with x put in at position j, and the elements behind them. */
  lemma Inserted(before: seq<string>, after: seq<string>, x: string, i: nat, j: nat)
    requires j <= i < |before| == |after| && after[j] == x && (j > 0 ==> AtMost(before[j - 1], x))
    requires forall k | 0 <= k < j || i < k < |before| :: after[k] == before[k]
    requires forall k | j <= k < i :: after[k + 1] == before[k] && !AtMost(before[k], x)
    ensures after == Insert(x, before[..i]) + before[i + 1..]
  {
    var s := before[..i];
    InsertSplits(x, s, j);
    assert forall k | 0 <= k < i :: s[k] == before[k];
    Spread(s, before[i + 1..], after, x, j);
  }

  /** Moves element i of a left until the first i + 1 elements are in order. */
  method InsertInPlace(a: array<string>, i: nat)
    requires i < a.Length
    modifies a
    ensures var before := old(a[..]); a[..] == Insert(before[i], before[..i]) + before[i + 1..]
  {
    ghost var before := a[..];
    var x := a[i];
    var j := i;
    while j > 0 && !AtMost(a[j - 1], x)
      invariant j <= i
      invariant forall k | 0 <= k < j || i < k < a.Length :: a[k] == before[k]
      invariant forall k | j <= k < i :: a[k + 1] == before[k] && !AtMost(before[k], x)
    {
      a[j] := a[j - 1];
      j := j - 1;
    }
    a[j] := x;
    Inserted(before, a[..], x, i, j);
  }

  /** Sorts a in place. */
  method SortInPlace(a: array<string>)
    modifies a
    ensures a[..] == Sort(old(a[..]))
  {
    var i := 0;
    while i < a.Length
      invariant i <= a.Length
      invariant a[..i] == Sort(old(a[..i]))
      invariant a[i..] == old(a[i..])
    {
      assert a[i] == old(a[i]);
      InsertInPlace(a, i);
      assert old(a[..i + 1])[..i] == old(a[..i]);
      InsertGrows(old(a[i]), Sort(old(a[..i])));
      assert a[i + 1..] == old(a[i..])[1..];
      i := i + 1;
    }
    assert a[..] == a[..i];
    assert old(a[..]) == old(a[..i]);
  }

  /** Reports whether a and b hold the same elements in any order. Both inputs are
      left as they were: the method sorts copies. */
  method EqualUnordered(a: array<string>, b: array<string>) returns (equal: bool)
    ensures equal <==> multiset(a[..]) == multiset(b[..])
  {
    if a.Length != b.Length {
      assert |multiset(a[..])| == a.Length && |multiset(b[..])| == b.Length;
      return false;
    }
    var a2 := new string[a.Length];
    forall i | 0 <= i < a.Length { a2[i] := a[i]; }
    var b2 := new string[b.Length];
    forall i | 0 <= i < b.Length { b2[i] := b[i]; }
    assert a2[..] == a[..] && b2[..] == b[..];
    SortInPlace(a2);
    SortInPlace(b2);
    equal := a2[..] == b2[..];
    SortDecidesPermutation(a[..], b[..]);
  }
}
