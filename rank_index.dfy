/**
 * The ranking index of a region bucket. The source keeps it in a
 * google/btree B-tree ordered by Ranking.Less; the model keeps the B-tree's
 * in-order sequence of items, strictly ascending, so that the set of
 * (rank, id) pairs is Elems of the sequence and Ascend is a walk from its
 * first element. ReplaceOrInsert and Delete are Insert and Delete below.
 */
module RankIndex {
  import opened Ranking

  /** Strictly ascending under Less. */
  ghost predicate Sorted(s: seq<RankItem>)
  {
    forall i, j :: 0 <= i < j < |s| ==> Less(s[i], s[j])
  }

  /** The set of (rank, id) pairs held by the index. */
  function Elems(s: seq<RankItem>): set<RankItem>
  {
    set x | x in s
  }

  /**
   * BTree.ReplaceOrInsert: puts x at its place in the order; an item equal
   * to x is replaced by x, which leaves the same value.
   */
  function Insert(s: seq<RankItem>, x: RankItem): (r: seq<RankItem>)
    ensures Elems(r) == Elems(s) + {x}
    ensures Sorted(s) ==> Sorted(r)
  {
    if |s| == 0 then [x]
    else if Less(x, s[0]) then
      LessTransitiveFrom(x, s);
      [x] + s
    else if x == s[0] then s
    else
      LessTrichotomous(x, s[0]);
      var t := Insert(s[1..], x);
      TailFacts(s);
      ElemsCons(s[0], t);
      ElemsCons(s[0], s[1..]);
      SortedCons(s[0], t);
      [s[0]] + t
  }

  /** BTree.Delete: removes the item equal to x, if there is one. */
  function Delete(s: seq<RankItem>, x: RankItem): (r: seq<RankItem>)
    ensures Elems(r) == Elems(s) - {x}
    ensures Sorted(s) ==> Sorted(r)
    ensures |r| <= |s|
  {
    if |s| == 0 then []
    else
      var t := Delete(s[1..], x);
      TailFacts(s);
      ElemsCons(s[0], s[1..]);
      if s[0] == x then t
      else
        ElemsCons(s[0], t);
        SortedCons(s[0], t);
        [s[0]] + t
  }

  /** In a sorted index the head is less than every later item. */
  lemma LessTransitiveFrom(x: RankItem, s: seq<RankItem>)
    requires |s| > 0 && Less(x, s[0])
    ensures Sorted(s) ==> forall i :: 0 <= i < |s| ==> Less(x, s[i])
  {
    if Sorted(s) {
      forall i | 0 < i < |s| ensures Less(x, s[i]) {
        LessTransitive(x, s[0], s[i]);
      }
    }
  }

  /** A sorted index holds no item twice, so it has as many pairs as entries. */
  lemma {:induction false} SortedCard(s: seq<RankItem>)
    requires Sorted(s)
    ensures |Elems(s)| == |s|
  {
    if |s| > 0 {
      SortedCard(s[1..]);
      assert s == [s[0]] + s[1..];
      assert Elems(s) == {s[0]} + Elems(s[1..]);
      if s[0] in Elems(s[1..]) {
        var i :| 0 <= i < |s[1..]| && s[1..][i] == s[0];
        assert Less(s[0], s[i + 1]);
        LessIrreflexive(s[0]);
        assert false;
      }
    }
  }

  /** Two sorted indexes with the same pairs are the same sequence: the order is total. */
  lemma {:induction false} SortedUnique(a: seq<RankItem>, b: seq<RankItem>)
    requires Sorted(a) && Sorted(b) && Elems(a) == Elems(b)
    ensures a == b
  {
    assert |a| == |b| by {
      SortedCard(a);
      SortedCard(b);
    }
    if |a| > 0 {
      SameHead(a, b);
      assert Elems(a[1..]) == Elems(b[1..]) by {
        HeadNotInTail(a);
        HeadNotInTail(b);
      }
      TailFacts(a);
      TailFacts(b);
      SortedUnique(a[1..], b[1..]);
    }
  }

  /** Two non-empty sorted indexes with the same pairs start with the same item. */
  lemma SameHead(a: seq<RankItem>, b: seq<RankItem>)
    requires Sorted(a) && Sorted(b) && Elems(a) == Elems(b) && |a| > 0 && |b| > 0
    ensures a[0] == b[0]
  {
    assert a[0] in Elems(b) && b[0] in Elems(a);
    HeadIsLeast(a, b[0]);
    HeadIsLeast(b, a[0]);
    if a[0] != b[0] {
      LessTransitive(a[0], b[0], a[0]);
      LessIrreflexive(a[0]);
    }
  }

  /** The head of a sorted index is not less-than-or-equal to nothing: every member is at least the head. */
  lemma HeadIsLeast(s: seq<RankItem>, y: RankItem)
    requires Sorted(s) && y in Elems(s)
    ensures y == s[0] || Less(s[0], y)
  {
  }

  lemma HeadNotInTail(s: seq<RankItem>)
    requires Sorted(s) && |s| > 0
    ensures s[0] !in Elems(s[1..])
    ensures Elems(s) == {s[0]} + Elems(s[1..])
  {
    assert s == [s[0]] + s[1..];
    if s[0] in Elems(s[1..]) {
      var i :| 0 <= i < |s[1..]| && s[1..][i] == s[0];
      assert Less(s[0], s[i + 1]);
      LessIrreflexive(s[0]);
    }
  }

  lemma ElemsCons(a: RankItem, t: seq<RankItem>)
    ensures Elems([a] + t) == {a} + Elems(t)
  {
  }

  /** The tail of a sorted index is sorted and lies entirely after the head. */
  lemma TailFacts(s: seq<RankItem>)
    requires |s| > 0
    ensures s == [s[0]] + s[1..]
    ensures Sorted(s) ==> Sorted(s[1..]) && forall y :: y in Elems(s[1..]) ==> Less(s[0], y)
  {
    assert s == [s[0]] + s[1..];
    if Sorted(s) {
      forall y | y in Elems(s[1..]) ensures Less(s[0], y) {
        var i :| 0 <= i < |s[1..]| && s[1..][i] == y;
        assert s[i + 1] == y;
      }
    }
  }

  /** Putting an item in front of a sorted index that lies entirely after it keeps it sorted. */
  lemma SortedCons(a: RankItem, t: seq<RankItem>)
    ensures Sorted(t) && (forall y :: y in Elems(t) ==> Less(a, y)) ==> Sorted([a] + t)
  {
    if Sorted(t) && (forall y :: y in Elems(t) ==> Less(a, y)) {
      var r := [a] + t;
      forall i, j | 0 <= i < j < |r| ensures Less(r[i], r[j]) {
        assert r[j] == t[j - 1];
        if i > 0 { assert r[i] == t[i - 1]; } else { assert t[j - 1] in Elems(t); }
      }
    }
  }
}
