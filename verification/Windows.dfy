/** How many well-separated instants fit into a window of time. */
module Windows {

  /** The instants at the given indices are pairwise at least `gap` apart, in index order. */
  ghost predicate Spaced(at: seq<int>, indices: set<nat>, gap: int) {
    && (forall i :: i in indices ==> i < |at|)
    && (forall i, j :: i in indices && j in indices && i < j ==> at[j] - at[i] >= gap)
  }

  ghost predicate Within(at: seq<int>, indices: set<nat>, from: int, length: nat) {
    forall i :: i in indices ==> i < |at| && from <= at[i] <= from + length
  }

  lemma {:induction false} LastIndex(indices: set<nat>) returns (last: nat)
    requires indices != {}
    ensures last in indices && forall i :: i in indices ==> i <= last
    decreases |indices|
  {
    last :| last in indices;
    var others := indices - {last};
    if others != {} {
      var rest := LastIndex(others);
      last := if rest > last then rest else last;
    }
    assert forall i :: i in indices ==> i in others || i <= last;
  }

  lemma QuotientBound(n: nat, gap: nat, length: nat)
    requires gap >= 1 && n * gap <= length
    ensures n <= length / gap
  {
    assert length < (length / gap + 1) * gap;
    CancelFactor(n, length / gap + 1, gap);
  }

  lemma CancelFactor(n: nat, m: nat, gap: nat)
    requires n * gap < m * gap
    ensures n < m
  {
  }

  lemma OneMoreGap(n: nat, gap: nat, length: int)
    requires (n - 1) * gap <= length - gap
    ensures n * gap <= length
  {
    assert n * gap == (n - 1) * gap + gap;
  }

  lemma {:induction false} SpreadBound(at: seq<int>, indices: set<nat>, gap: nat, from: int, length: nat)
    requires indices != {}
    requires Spaced(at, indices, gap)
    requires Within(at, indices, from, length)
    ensures (|indices| - 1) * gap <= length
    decreases |indices|
  {
    var last := LastIndex(indices);
    var earlier := indices - {last};
    assert |indices| == |earlier| + 1;
    if earlier != {} {
      var i :| i in earlier;
      assert at[last] - at[i] >= gap;
      SpreadBound(at, earlier, gap, from, length - gap);
      OneMoreGap(|earlier|, gap, length);
    }
  }

  /** A window of length `length` holds at most `length / gap + 1` instants that are `gap` apart. */
  lemma WindowBound(at: seq<int>, indices: set<nat>, gap: nat, from: int, length: nat)
    requires gap >= 1
    requires Spaced(at, indices, gap)
    requires Within(at, indices, from, length)
    ensures |indices| <= length / gap + 1
  {
    if indices != {} {
      SpreadBound(at, indices, gap, from, length);
      QuotientBound(|indices| - 1, gap, length);
    }
  }
}
