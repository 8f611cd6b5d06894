/**
 * Tie-averaged ranking (`rankArray`, evals/sprint-b-bench.ts).
 *
 * `MidRank` defines the rank of a value by counting: the number of smaller values
 * plus the middle of its tie group. `RankArray` is the source's sort-and-scan
 * algorithm, proved to fill its array with exactly those ranks. The laws about
 * ranks are proved on integers: twice the rank minus (n + 1) is the *balance* of
 * the value, the number of smaller values minus the number of larger ones.
 */
module Ranking {
  import StableSort

  // ---- Ranks by counting ----------------------------------------------------

  function Below(values: seq<real>, x: real): nat {
    if values == [] then 0
    else Below(values[..|values| - 1], x) + if values[|values| - 1] < x then 1 else 0
  }

  function Ties(values: seq<real>, x: real): nat {
    if values == [] then 0
    else Ties(values[..|values| - 1], x) + if values[|values| - 1] == x then 1 else 0
  }

  function Above(values: seq<real>, x: real): nat {
    if values == [] then 0
    else Above(values[..|values| - 1], x) + if values[|values| - 1] > x then 1 else 0
  }

  /** The rank of `x` among `values`: 1-based, and the mean position of its tie group. */
  function MidRank(values: seq<real>, x: real): real {
    Below(values, x) as real + (Ties(values, x) + 1) as real / 2.0
  }

  function Balance(values: seq<real>, x: real): int {
    Below(values, x) - Above(values, x)
  }

  lemma {:induction false} CountsPartition(values: seq<real>, x: real)
    ensures Below(values, x) + Ties(values, x) + Above(values, x) == |values|
  {
    if values != [] {
      CountsPartition(values[..|values| - 1], x);
    }
  }

  /** Twice the distance of a rank from the mean rank is the balance of the value. */
  lemma RankIsBalance(values: seq<real>, x: real)
    ensures 2.0 * MidRank(values, x) == (|values| + 1 + Balance(values, x)) as real
  {
    CountsPartition(values, x);
  }

  lemma {:induction false} CountsConcat(s: seq<real>, t: seq<real>, x: real)
    ensures Below(s + t, x) == Below(s, x) + Below(t, x)
    ensures Ties(s + t, x) == Ties(s, x) + Ties(t, x)
    ensures Above(s + t, x) == Above(s, x) + Above(t, x)
  {
    if t == [] {
      assert s + t == s;
    } else {
      assert (s + t)[..|s + t| - 1] == s + t[..|t| - 1];
      CountsConcat(s, t[..|t| - 1], x);
    }
  }

  // ---- The sort-and-scan algorithm -------------------------------------------

  datatype Entry = Entry(v: real, i: nat)

  ghost function Vals(s: seq<Entry>): seq<real>
  {
    seq(|s|, k requires 0 <= k < |s| => s[k].v)
  }

  function ByValue(): (Entry, Entry) -> bool {
    (a: Entry, b: Entry) => a.v <= b.v
  }

  lemma {:induction false} InsertKeepsCounts(e: Entry, s: seq<Entry>, x: real)
    ensures Below(Vals(StableSort.Insert(ByValue(), e, s)), x) == Below([e.v] + Vals(s), x)
    ensures Ties(Vals(StableSort.Insert(ByValue(), e, s)), x) == Ties([e.v] + Vals(s), x)
  {
    if s == [] {
      assert Vals([e]) == [e.v] + Vals(s);
    } else if ByValue()(e, s[0]) {
      assert Vals([e] + s) == [e.v] + Vals(s);
    } else {
      var rest := StableSort.Insert(ByValue(), e, s[1..]);
      InsertKeepsCounts(e, s[1..], x);
      assert Vals([s[0]] + rest) == [s[0].v] + Vals(rest);
      assert Vals(s) == [s[0].v] + Vals(s[1..]);
      CountsSwap(s[0].v, e.v, Vals(s[1..]), Vals(rest), x);
    }
  }

  lemma {:induction false} CountsSwap(a: real, b: real, s: seq<real>, t: seq<real>, x: real)
    requires Below(t, x) == Below([b] + s, x) && Ties(t, x) == Ties([b] + s, x)
    ensures Below([a] + t, x) == Below([b] + ([a] + s), x)
    ensures Ties([a] + t, x) == Ties([b] + ([a] + s), x)
  {
    CountsConcat([a], t, x);
    CountsConcat([b], s, x);
    CountsConcat([a], s, x);
    CountsConcat([b], [a] + s, x);
  }

  lemma {:induction false} SortKeepsCounts(s: seq<Entry>, x: real)
    ensures Below(Vals(StableSort.Sort(ByValue(), s)), x) == Below(Vals(s), x)
    ensures Ties(Vals(StableSort.Sort(ByValue(), s)), x) == Ties(Vals(s), x)
  {
    if s != [] {
      var rest := StableSort.Sort(ByValue(), s[1..]);
      SortKeepsCounts(s[1..], x);
      InsertKeepsCounts(s[0], rest, x);
      assert Vals(s) == [s[0].v] + Vals(s[1..]);
      CountsConcat([s[0].v], Vals(s[1..]), x);
      CountsConcat([s[0].v], Vals(rest), x);
    }
  }

  /** In a sorted list the tie group [pos, end] of a value ends at its counts. */
  lemma {:induction false} TieBlock(w: seq<real>, pos: nat, end: nat, x: real)
    requires pos <= end <= |w|
    requires forall k | 0 <= k < pos :: w[k] < x
    requires forall k | pos <= k < end :: w[k] == x
    requires forall k | end <= k < |w| :: w[k] > x
    ensures Below(w, x) == pos && Ties(w, x) == end - pos
    decreases |w|
  {
    if w != [] {
      var m := |w| - 1;
      if end == |w| {
        TieBlock(w[..m], if pos == |w| then m else pos, m, x);
      } else {
        TieBlock(w[..m], pos, end, x);
      }
    }
  }

  /** The (value, index) pairs in the order the comparator `a.v - b.v` sorts them. */
  function Indexed(values: seq<real>): (indexed: seq<Entry>)
    ensures |indexed| == |values|
  {
    var tagged := seq(|values|, i requires 0 <= i < |values| => Entry(values[i], i));
    StableSort.SortIsPermutation(ByValue(), tagged);
    StableSort.Sort(ByValue(), tagged)
  }

  lemma IndexedIsSorted(values: seq<real>)
    ensures forall k, m | 0 <= k < m < |values| :: Indexed(values)[k].v <= Indexed(values)[m].v
    ensures forall k | 0 <= k < |values| ::
      Indexed(values)[k].i < |values| && Indexed(values)[k].v == values[Indexed(values)[k].i]
    ensures forall i | 0 <= i < |values| :: Entry(values[i], i) in Indexed(values)
  {
    var tagged := seq(|values|, i requires 0 <= i < |values| => Entry(values[i], i));
    StableSort.SortIsPermutation(ByValue(), tagged);
    StableSort.SortIsSorted(ByValue(), tagged);
    var indexed := Indexed(values);
    forall k, m | 0 <= k < m < |values|
      ensures indexed[k].v <= indexed[m].v
    {
      assert ByValue()(indexed[k], indexed[m]);
    }
    forall k | 0 <= k < |values|
      ensures indexed[k].i < |values| && indexed[k].v == values[indexed[k].i]
    {
      assert indexed[k] in multiset(tagged);
    }
    forall i | 0 <= i < |values|
      ensures Entry(values[i], i) in indexed
    {
      assert tagged[i] in multiset(indexed);
    }
  }

  lemma {:induction false} CountsOfIndexed(values: seq<real>, x: real)
    ensures Below(Vals(Indexed(values)), x) == Below(values, x) && Ties(Vals(Indexed(values)), x) == Ties(values, x)
  {
    var tagged := seq(|values|, i requires 0 <= i < |values| => Entry(values[i], i));
    assert Vals(tagged) == values;
    SortKeepsCounts(tagged, x);
  }

  /** The average of the positions of a tie group, made 1-based, is the counted rank. */
  lemma BlockRank(values: seq<real>, pos: nat, end: nat)
    requires pos <= end < |values|
    requires forall k | 0 <= k < pos :: Indexed(values)[k].v < Indexed(values)[pos].v
    requires forall k | pos <= k <= end :: Indexed(values)[k].v == Indexed(values)[pos].v
    requires end + 1 < |values| ==> Indexed(values)[end + 1].v != Indexed(values)[pos].v
    ensures (pos + end) as real / 2.0 + 1.0 == MidRank(values, Indexed(values)[pos].v)
  {
    var w, x := Vals(Indexed(values)), Indexed(values)[pos].v;
    forall k | end < k < |w|
      ensures w[k] > x
    {
      IndexedIsSorted(values);
    }
    TieBlock(w, pos, end + 1, x);
    CountsOfIndexed(values, x);
  }

  /** The last position of the tie group that starts at `pos`. */
  method TieEnd(indexed: seq<Entry>, pos: nat) returns (end: nat)
    requires pos < |indexed|
    ensures pos <= end < |indexed|
    ensures forall k | pos <= k <= end :: indexed[k].v == indexed[pos].v
    ensures end + 1 < |indexed| ==> indexed[end + 1].v != indexed[pos].v
  {
    end := pos;
    while end + 1 < |indexed| && indexed[end + 1].v == indexed[pos].v
      invariant pos <= end < |indexed|
      invariant forall k | pos <= k <= end :: indexed[k].v == indexed[pos].v
    {
      end := end + 1;
    }
  }

  /** The first k entries of the sorted list have their ranks. */
  ghost predicate Ranked(values: seq<real>, ranks: seq<real>, k: nat) {
    && |ranks| == |values| && k <= |values|
    && forall m | 0 <= m < k ::
         Indexed(values)[m].i < |values| && ranks[Indexed(values)[m].i] == MidRank(values, Indexed(values)[m].v)
  }

  lemma RankedStep(values: seq<real>, ranks: seq<real>, k: nat, rank: real)
    requires Ranked(values, ranks, k) && k < |values| && rank == MidRank(values, Indexed(values)[k].v)
    ensures Indexed(values)[k].i < |values|
    ensures Ranked(values, ranks[Indexed(values)[k].i := rank], k + 1)
  {
    IndexedIsSorted(values);
  }

  lemma AllRanked(values: seq<real>, ranks: seq<real>)
    requires Ranked(values, ranks, |values|)
    ensures forall i | 0 <= i < |values| :: ranks[i] == MidRank(values, values[i])
  {
    IndexedIsSorted(values);
    forall i | 0 <= i < |values|
      ensures ranks[i] == MidRank(values, values[i])
    {
      var k :| 0 <= k < |values| && Indexed(values)[k] == Entry(values[i], i);
    }
  }

  /** A tie group starts here: everything before is smaller. */
  ghost predicate GroupStart(values: seq<real>, pos: nat) {
    pos < |values| ==> forall k | 0 <= k < pos :: Indexed(values)[k].v < Indexed(values)[pos].v
  }

  lemma NextGroup(values: seq<real>, pos: nat, end: nat)
    requires pos <= end < |values| && Indexed(values)[end].v == Indexed(values)[pos].v
    requires end + 1 < |values| ==> Indexed(values)[end + 1].v != Indexed(values)[pos].v
    ensures GroupStart(values, end + 1)
  {
    IndexedIsSorted(values);
  }

  method RankArray(values: seq<real>) returns (ranks: array<real>)
    ensures fresh(ranks) && ranks.Length == |values|
    ensures forall i | 0 <= i < |values| :: ranks[i] == MidRank(values, values[i])
  {
    var n := |values|;
    var indexed := Indexed(values);
    ranks := new real[n];
    var pos := 0;
    while pos < n
      invariant 0 <= pos <= n && GroupStart(values, pos)
      invariant Ranked(values, ranks[..], pos)
    {
      var end := TieEnd(indexed, pos);
      var avgRank := (pos + end) as real / 2.0 + 1.0;
      BlockRank(values, pos, end);
      NextGroup(values, pos, end);
      for k := pos to end + 1
        invariant Ranked(values, ranks[..], k)
      {
        RankedStep(values, ranks[..], k, avgRank);
        ranks[indexed[k].i] := avgRank;
      }
      pos := end + 1;
    }
    AllRanked(values, ranks[..]);
  }
}
