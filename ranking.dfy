/**
 * The capacity ranking of pkg/memstore/index.go: the scalar rank of a
 * gateway's capacity and the order of the (rank, id) items of the ranking
 * index.
 *
 * The source computes the rank in float64 as
 * CPU + Memory/1024 + Storage/10240 + Bandwidth/1024. The model keeps that
 * real-valued sum as the reference (RealRank) and computes the exact integer
 * 10240 * that sum, which orders capacities the same way.
 */
module Ranking {

  /** Go's int32. */
  type int32 = x: int | -0x8000_0000 <= x < 0x8000_0000

  datatype Capacity = Capacity(cpu: int32, memory: int32, storage: int32, bandwidth: int32)

  /** The rank over the reals, the formula of the source without float rounding. */
  ghost function RealRank(c: Capacity): real {
    c.cpu as real + c.memory as real / 1024.0 + c.storage as real / 10240.0 + c.bandwidth as real / 1024.0
  }

  /** The rank scaled by 10240, so that it is an exact integer. */
  function Rank(c: Capacity): (r: int)
    ensures r as real == 10240.0 * RealRank(c)
  {
    10240 * c.cpu + 10 * c.memory + c.storage + 10 * c.bandwidth
  }

  /** The integer rank orders and equates capacities exactly as the real-valued rank does. */
  lemma RankOrderEquivalent(a: Capacity, b: Capacity)
    ensures Rank(a) < Rank(b) <==> RealRank(a) < RealRank(b)
    ensures Rank(a) == Rank(b) <==> RealRank(a) == RealRank(b)
  {
  }

  /** The rank grows with every component: more of any resource never lowers it. */
  lemma RankMonotone(a: Capacity, b: Capacity)
    requires a.cpu <= b.cpu && a.memory <= b.memory && a.storage <= b.storage && a.bandwidth <= b.bandwidth
    ensures Rank(a) <= Rank(b)
    ensures Rank(a) == Rank(b) <==> a == b
  {
  }

  /**
   * Go's `<` on strings: lexicographic on the UTF-8 bytes, which for
   * sequences of Unicode scalar values is lexicographic on the code points.
   */
  predicate StrLess(a: string, b: string)
  {
    if |a| == 0 then |b| > 0
    else if |b| == 0 then false
    else if a[0] == b[0] then StrLess(a[1..], b[1..])
    else a[0] < b[0]
  }

  lemma {:induction false} StrLessIrreflexive(a: string)
    ensures !StrLess(a, a)
  {
    if |a| > 0 {
      StrLessIrreflexive(a[1..]);
    }
  }

  lemma {:induction false} StrLessTransitive(a: string, b: string, c: string)
    requires StrLess(a, b) && StrLess(b, c)
    ensures StrLess(a, c)
  {
    if |a| > 0 && |b| > 0 && |c| > 0 && a[0] == b[0] && b[0] == c[0] {
      StrLessTransitive(a[1..], b[1..], c[1..]);
    }
  }

  lemma {:induction false} StrLessTotal(a: string, b: string)
    ensures a == b || StrLess(a, b) || StrLess(b, a)
  {
    if |a| > 0 && |b| > 0 && a[0] == b[0] {
      StrLessTotal(a[1..], b[1..]);
      if a[1..] == b[1..] {
        assert a == [a[0]] + a[1..] && b == [b[0]] + b[1..];
      }
    }
  }

  lemma {:induction false} StrLessAsymmetric(a: string, b: string)
    requires StrLess(a, b)
    ensures !StrLess(b, a)
  {
    if |a| > 0 && |b| > 0 && a[0] == b[0] {
      StrLessAsymmetric(a[1..], b[1..]);
    }
  }

  /** One entry of the ranking index: GatewayRankItem of the source. */
  datatype RankItem = RankItem(rank: int, id: string)

  /** GatewayRankItem.Less: by rank, and by id only between equal ranks. */
  predicate Less(a: RankItem, b: RankItem)
  {
    if a.rank == b.rank then StrLess(a.id, b.id) else a.rank < b.rank
  }

  /** Less never relates an item to itself. */
  lemma LessIrreflexive(a: RankItem)
    ensures !Less(a, a)
  {
    StrLessIrreflexive(a.id);
  }

  lemma LessTransitive(a: RankItem, b: RankItem, c: RankItem)
    requires Less(a, b) && Less(b, c)
    ensures Less(a, c)
  {
    if a.rank == b.rank == c.rank {
      StrLessTransitive(a.id, b.id, c.id);
    }
  }

  /** For any two items exactly one of: a before b, b before a, a and b equal. */
  lemma LessTrichotomous(a: RankItem, b: RankItem)
    ensures a == b || Less(a, b) || Less(b, a)
    ensures !(Less(a, b) && Less(b, a))
    ensures a == b ==> !Less(a, b)
  {
    if a.rank == b.rank {
      StrLessTotal(a.id, b.id);
      if StrLess(a.id, b.id) {
        StrLessAsymmetric(a.id, b.id);
      }
    }
    LessIrreflexive(a);
  }

  /**
   * The B-tree treats two items as the same entry when neither is less than
   * the other; under Less that happens only for equal (rank, id) pairs, so an
   * index holds at most one entry per pair.
   */
  lemma EquivalentIffEqual(a: RankItem, b: RankItem)
    ensures (!Less(a, b) && !Less(b, a)) <==> a == b
  {
    LessTrichotomous(a, b);
  }
}
