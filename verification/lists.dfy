/** Sequence operations standing for the QList calls the source makes. */
module Lists {

  /** No element occurs twice. */
  predicate NoDup<T(==)>(s: seq<T>) {
    forall i, j :: 0 <= i < j < |s| ==> s[i] != s[j]
  }

  /** The position of the first occurrence of `x` (QList::indexOf). */
  function FirstIndex<T(==)>(s: seq<T>, x: T): (k: nat)
    requires x in s
    ensures k < |s| && s[k] == x && x !in s[..k]
  {
    if s[0] == x then 0
    else
      var k := FirstIndex(s[1..], x);
      assert s[..k + 1] == [s[0]] + s[1..][..k];
      k + 1
  }

  /** QList::removeOne(x): the list without the first occurrence of `x`;
      the list itself when `x` does not occur. */
  function RemoveOne<T(==)>(s: seq<T>, x: T): (r: seq<T>)
    ensures x !in s ==> r == s
    ensures x in s ==> |r| == |s| - 1 && multiset(r) == multiset(s) - multiset{x}
    ensures x in s ==> r == s[..FirstIndex(s, x)] + s[FirstIndex(s, x) + 1..]
  {
    if x in s then
      var k := FirstIndex(s, x);
      assert s == s[..k] + [s[k]] + s[k + 1..];
      s[..k] + s[k + 1..]
    else s
  }

  /** Dropping position `k` shifts every later element down by one. */
  lemma DropAt<T>(s: seq<T>, k: nat, r: seq<T>)
    requires k < |s| && r == s[..k] + s[k + 1..]
    ensures |r| == |s| - 1
    ensures forall i :: 0 <= i < |r| ==> r[i] == s[if i < k then i else i + 1]
  {
  }

  /** Dropping a position of a duplicate-free list leaves a duplicate-free
      list holding every other element. */
  lemma DropNoDup<T>(s: seq<T>, k: nat, r: seq<T>)
    requires NoDup(s) && k < |s| && r == s[..k] + s[k + 1..]
    ensures NoDup(r)
    ensures forall y :: y in r <==> y in s && y != s[k]
  {
    DropAt(s, k, r);
    forall i, j | 0 <= i < j < |r|
      ensures r[i] != r[j]
    {
      assert r[i] == s[if i < k then i else i + 1];
      assert r[j] == s[if j < k then j else j + 1];
    }
    forall y
      ensures y in r <==> y in s && y != s[k]
    {
      if y in r {
        var i :| 0 <= i < |r| && r[i] == y;
        assert s[if i < k then i else i + 1] == y;
      }
      if y in s && y != s[k] {
        var j :| 0 <= j < |s| && s[j] == y;
        assert r[if j < k then j else j - 1] == y;
      }
    }
  }

  /** Removing from a duplicate-free list keeps it duplicate-free and takes
      the element out entirely. */
  lemma RemoveOneNoDup<T>(s: seq<T>, x: T)
    requires NoDup(s)
    ensures NoDup(RemoveOne(s, x)) && x !in RemoveOne(s, x)
    ensures forall y :: y in RemoveOne(s, x) <==> y in s && y != x
  {
    if x in s {
      DropNoDup(s, FirstIndex(s, x), RemoveOne(s, x));
    }
  }

  /** Removing an element takes one occurrence of it out of the list's
      multiset (none when it does not occur). */
  lemma RemoveOneMultiset<T>(s: seq<T>, x: T)
    ensures multiset(RemoveOne(s, x)) == multiset(s) - multiset{x}
  {
    if x !in s {
      assert multiset(s)[x] == 0;
      assert multiset(s) - multiset{x} == multiset(s);
    }
  }
}
