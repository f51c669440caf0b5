/**
 * The operations of java.util.List that the clustering engine relies on,
 * stated over sequences: indexOf, remove(int), remove(Object) and add(int, E).
 */
module JavaLists {

  /** No element occurs twice. */
  predicate Distinct<T(==)>(s: seq<T>)
  {
    forall i, j :: 0 <= i < j < |s| ==> s[i] != s[j]
  }

  /** List.indexOf: the position of the first occurrence of x, or -1 when there is none. */
  function IndexOf<T(==)>(s: seq<T>, x: T): (i: int)
    ensures -1 <= i < |s|
    ensures i == -1 <==> x !in s
    ensures 0 <= i ==> i < |s| && s[i] == x && x !in s[..i]
  {
    if |s| == 0 then -1
    else if s[0] == x then 0
    else
      var k := IndexOf(s[1..], x);
      if k == -1 then -1
      else
        assert s[..k + 1] == [s[0]] + s[1..][..k];
        k + 1
  }

  /** List.remove(int): the element at position i goes. */
  function RemoveAt<T>(s: seq<T>, i: nat): (r: seq<T>)
    requires i < |s|
    ensures |r| == |s| - 1
  {
    s[..i] + s[i + 1..]
  }

  /** After remove(int), earlier elements keep their positions and later ones move one place left. */
  lemma RemoveAtShifts<T>(s: seq<T>, i: nat)
    requires i < |s|
    ensures forall k :: 0 <= k < i ==> RemoveAt(s, i)[k] == s[k]
    ensures forall k :: i <= k < |s| - 1 ==> RemoveAt(s, i)[k] == s[k + 1]
  {
  }

  /** List.add(int, E): x is placed at position i. */
  function InsertAt<T>(s: seq<T>, i: nat, x: T): (r: seq<T>)
    requires i <= |s|
    ensures |r| == |s| + 1 && r[i] == x
  {
    s[..i] + [x] + s[i..]
  }

  /** After add(int, E), earlier elements keep their positions and later ones move one place right. */
  lemma InsertAtShifts<T>(s: seq<T>, i: nat, x: T)
    requires i <= |s|
    ensures forall k :: 0 <= k < i ==> InsertAt(s, i, x)[k] == s[k]
    ensures forall k :: i < k <= |s| ==> InsertAt(s, i, x)[k] == s[k - 1]
  {
  }

  /** List.remove(Object): the first occurrence of x goes; a list without x is left as it is. */
  function RemoveFirst<T(==)>(s: seq<T>, x: T): (r: seq<T>)
    ensures x !in s ==> r == s
    ensures x in s ==> |r| == |s| - 1
  {
    var i := IndexOf(s, x);
    if i < 0 then s else RemoveAt(s, i)
  }

  /** remove(Object) takes away exactly one occurrence of x, when there is one, and adds nothing. */
  lemma RemoveFirstCounts<T>(s: seq<T>, x: T)
    ensures multiset(RemoveFirst(s, x)) == multiset(s) - multiset{x}
  {
    var i := IndexOf(s, x);
    if i < 0 {
      assert x !in multiset(s);
    } else {
      var front, back := s[..i], s[i + 1..];
      assert s == front + [x] + back;
      assert RemoveFirst(s, x) == front + back;
      assert multiset(s) == multiset(front) + multiset{x} + multiset(back);
      assert multiset(RemoveFirst(s, x)) == multiset(front) + multiset(back);
    }
  }

  /** Every element left after remove(Object) was in the list before. */
  lemma RemoveFirstFrom<T>(s: seq<T>, x: T)
    ensures forall k :: 0 <= k < |RemoveFirst(s, x)| ==> RemoveFirst(s, x)[k] in s
  {
    var i := IndexOf(s, x);
    if i >= 0 {
      forall k | 0 <= k < |RemoveFirst(s, x)|
        ensures RemoveFirst(s, x)[k] in s
      {
        if k < i { assert RemoveFirst(s, x)[k] == s[k]; } else { assert RemoveFirst(s, x)[k] == s[k + 1]; }
      }
    }
  }

  /** Removing the element at i and inserting it again at i gives back the list, order included. */
  lemma ReinsertRestores<T>(s: seq<T>, i: nat)
    requires i < |s|
    ensures InsertAt(RemoveAt(s, i), i, s[i]) == s
  {
    var r := InsertAt(RemoveAt(s, i), i, s[i]);
    forall k | 0 <= k < |s|
      ensures r[k] == s[k]
    {
      if k > i {
        assert r[k] == RemoveAt(s, i)[k - 1];
      }
    }
  }

  /**
   * The remove-by-value, remove-at-index, reinsert-at-index sequence that Hierarchical.addPoint
   * performs on allPoints leaves the list exactly as it was.
   */
  lemma RemoveFirstThenReinsert<T>(s: seq<T>, x: T)
    requires x in s
    ensures InsertAt(RemoveFirst(s, x), IndexOf(s, x), x) == s
  {
    ReinsertRestores(s, IndexOf(s, x));
  }

  /**
   * Removing x from a list without repetitions keeps it without repetitions, drops x and
   * keeps every other element.
   */
  lemma RemoveFirstDistinct<T>(s: seq<T>, x: T)
    requires Distinct(s)
    ensures Distinct(RemoveFirst(s, x))
    ensures x !in RemoveFirst(s, x)
    ensures forall k :: 0 <= k < |s| && s[k] != x ==> s[k] in RemoveFirst(s, x)
  {
    var r := RemoveFirst(s, x);
    if x in s {
      var i := IndexOf(s, x);
      assert Distinct(r) by {
        forall a, b | 0 <= a < b < |r|
          ensures r[a] != r[b]
        {
          var sa := if a < i then a else a + 1;
          var sb := if b < i then b else b + 1;
          assert r[a] == s[sa] && r[b] == s[sb];
        }
      }
      forall k | 0 <= k < |r|
        ensures r[k] != x
      {
        if k < i { assert r[k] == s[k]; } else { assert r[k] == s[k + 1]; }
      }
      forall k | 0 <= k < |s| && s[k] != x
        ensures s[k] in r
      {
        if k < i { assert r[k] == s[k]; } else { assert r[k - 1] == s[k]; }
      }
    }
  }

  /** Removing x keeps every element other than x in the list. */
  lemma RemoveFirstKeeps<T>(s: seq<T>, x: T, y: T)
    requires y in s && y != x
    ensures y in RemoveFirst(s, x)
  {
    var k :| 0 <= k < |s| && s[k] == y;
    if x in s {
      var i := IndexOf(s, x);
      if k < i { assert RemoveFirst(s, x)[k] == y; } else { assert RemoveFirst(s, x)[k - 1] == y; }
    }
  }

  /**
   * Removing x from a list without repetitions keeps the relative order of the elements that
   * stay: their positions, as indexOf reports them, compare as before.
   */
  lemma RemoveFirstKeepsOrder<T>(s: seq<T>, x: T)
    requires Distinct(s)
    ensures forall a, b :: 0 <= a < b < |s| && s[a] != x && s[b] != x ==>
              IndexOf(RemoveFirst(s, x), s[a]) < IndexOf(RemoveFirst(s, x), s[b])
  {
    var r := RemoveFirst(s, x);
    if x !in s {
      forall a, b | 0 <= a < b < |s| && s[a] != x && s[b] != x
        ensures IndexOf(r, s[a]) < IndexOf(r, s[b])
      {
        IndexOfDistinct(s, a);
        IndexOfDistinct(s, b);
      }
    } else {
      RemoveFirstDistinct(s, x);
      var i := IndexOf(s, x);
      forall a, b | 0 <= a < b < |s| && s[a] != x && s[b] != x
        ensures IndexOf(r, s[a]) < IndexOf(r, s[b])
      {
        var ra := if a < i then a else a - 1;
        var rb := if b < i then b else b - 1;
        assert r[ra] == s[a] && r[rb] == s[b];
        IndexOfDistinct(r, ra);
        IndexOfDistinct(r, rb);
      }
    }
  }

  /** In a list without repetitions, indexOf finds each element at its own position. */
  lemma IndexOfDistinct<T>(s: seq<T>, k: nat)
    requires Distinct(s) && k < |s|
    ensures IndexOf(s, s[k]) == k
  {
    var i := IndexOf(s, s[k]);
    assert s[i] == s[k];
  }

  /** Every element of r occurs in s, and the elements of r appear in s in r's order. */
  ghost predicate SubsequenceOf<T>(r: seq<T>, s: seq<T>)
  {
    && (forall k :: 0 <= k < |r| ==> r[k] in s)
    && (forall a, b :: 0 <= a < b < |r| ==> IndexOf(s, r[a]) < IndexOf(s, r[b]))
  }

  /** A list without repetitions is a subsequence of itself. */
  lemma SubsequenceOfSelf<T>(s: seq<T>)
    requires Distinct(s)
    ensures SubsequenceOf(s, s)
  {
    forall a, b | 0 <= a < b < |s|
      ensures IndexOf(s, s[a]) < IndexOf(s, s[b])
    {
      IndexOfDistinct(s, a);
      IndexOfDistinct(s, b);
    }
  }

  /** Removing x from a list without repetitions leaves a subsequence of the list. */
  lemma RemoveFirstSubsequence<T>(s: seq<T>, x: T)
    requires Distinct(s)
    ensures SubsequenceOf(RemoveFirst(s, x), s)
  {
    var r := RemoveFirst(s, x);
    if x !in s {
      SubsequenceOfSelf(s);
    } else {
      RemoveFirstFrom(s, x);
      var i := IndexOf(s, x);
      forall a, b | 0 <= a < b < |r|
        ensures IndexOf(s, r[a]) < IndexOf(s, r[b])
      {
        var sa := if a < i then a else a + 1;
        var sb := if b < i then b else b + 1;
        assert r[a] == s[sa] && r[b] == s[sb];
        IndexOfDistinct(s, sa);
        IndexOfDistinct(s, sb);
      }
    }
  }

  /** A subsequence of a subsequence of t is a subsequence of t. */
  lemma SubsequenceTrans<T>(r: seq<T>, s: seq<T>, t: seq<T>)
    requires SubsequenceOf(r, s) && SubsequenceOf(s, t)
    ensures SubsequenceOf(r, t)
  {
    forall k | 0 <= k < |r|
      ensures r[k] in t
    {
      var i := IndexOf(s, r[k]);
      assert s[i] == r[k];
    }
    forall a, b | 0 <= a < b < |r|
      ensures IndexOf(t, r[a]) < IndexOf(t, r[b])
    {
      var i, j := IndexOf(s, r[a]), IndexOf(s, r[b]);
      assert s[i] == r[a] && s[j] == r[b];
    }
  }

  /**
   * Where the rest of the list lands once x is removed: an element after x moves one place
   * left, an element before x keeps its position. In Hierarchical's pass loop this is why
   * absorbing a cluster that sits before position cNum makes the loop skip one cluster.
   */
  lemma RemoveFirstShift<T>(s: seq<T>, x: T, i: nat)
    requires x in s && i < |s| && s[i] != x
    ensures IndexOf(s, x) < i ==> RemoveFirst(s, x)[i - 1] == s[i]
    ensures i < IndexOf(s, x) ==> RemoveFirst(s, x)[i] == s[i]
  {
  }
}
