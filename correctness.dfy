/**
 * Which comparator tables sort. For each supported length the table is
 * replayed comparator by comparator on symbolic elements, recording after
 * every step which positions are already known to be in order; the tables
 * for 2, 3, 4, 5 and 7 end with every position in order, while the tables
 * for 6 and 8 have concrete inputs they leave out of order.
 */
module Correctness {
  import opened Catalog
  import opened Network

  /** The values a compare-swap leaves on its left and right position. */
  function Min(x: int, y: int): (m: int) { if y < x then y else x }
  function Max(x: int, y: int): (m: int) { if y < x then x else y }

  /** A compare-swap with `left < right` puts the smaller value on the left
      and the larger on the right, and leaves every other position alone. */
  lemma CompareSwapAt(s: seq<int>, left: nat, right: nat)
    requires left < right < |s|
    ensures CompareSwapped(s, left, right)[left] == Min(s[left], s[right])
    ensures CompareSwapped(s, left, right)[right] == Max(s[left], s[right])
    ensures forall i :: 0 <= i < |s| && i != left && i != right ==> CompareSwapped(s, left, right)[i] == s[i]
  {
  }

  /** One more comparator of the list is one more compare-swap. */
  lemma RunStep(net: seq<IndexPair>, k: nat, s: seq<int>)
    requires k < |net| && WellFormed(net, |s|)
    ensures Run(net, k + 1, s) == CompareSwapped(Run(net, k, s), net[k].left, net[k].right)
  {
  }

  /** Order of neighbours is order of every pair. */
  lemma {:induction false} SortedFromAdjacent(s: seq<int>)
    requires forall i :: 0 <= i < |s| - 1 ==> s[i] <= s[i + 1]
    ensures Sorted(s)
  {
    if |s| > 1 {
      SortedFromAdjacent(s[1..]);
      forall i, j | 0 <= i < j < |s|
        ensures s[i] <= s[j]
      {
        if 0 < i {
          assert s[i] == s[1..][i - 1] && s[j] == s[1..][j - 1];
        } else if 1 < j {
          assert s[1] == s[1..][0] && s[j] == s[1..][j - 1];
        }
      }
    }
  }

  /** The table for 2 replayed comparator by comparator. */
  lemma {:induction false} Network2Trace(s: seq<int>)
    requires |s| == 2
    ensures Run(SwapSequence(2), 1, s) ==
      CompareSwapped(
        s, 0, 1)
  {
    var net := SwapSequence(2);
    assert net == [
      IndexPair(0, 1)];
    RunStep(net, 0, s);
  }

  /** The table for 3 replayed comparator by comparator. */
  lemma {:induction false} Network3Trace(s: seq<int>)
    requires |s| == 3
    ensures Run(SwapSequence(3), 3, s) ==
      CompareSwapped(CompareSwapped(CompareSwapped(
        s, 1, 2), 0, 1), 1, 2)
  {
    var net := SwapSequence(3);
    assert net == [
      IndexPair(1, 2), IndexPair(0, 1), IndexPair(1, 2)];
    RunStep(net, 0, s);
    RunStep(net, 1, s);
    RunStep(net, 2, s);
  }

  /** The table for 4 replayed comparator by comparator. */
  lemma {:induction false} Network4Trace(s: seq<int>)
    requires |s| == 4
    ensures Run(SwapSequence(4), 5, s) ==
      CompareSwapped(CompareSwapped(CompareSwapped(CompareSwapped(CompareSwapped(
        s, 0, 1), 2, 3), 1, 3), 0, 2),
        1, 2)
  {
    var net := SwapSequence(4);
    assert net == [
      IndexPair(0, 1), IndexPair(2, 3), IndexPair(1, 3), IndexPair(0, 2), IndexPair(1, 2)];
    RunStep(net, 0, s);
    RunStep(net, 1, s);
    RunStep(net, 2, s);
    RunStep(net, 3, s);
    RunStep(net, 4, s);
  }

  /** The table for 5 replayed comparator by comparator. */
  lemma {:induction false} Network5Trace(s: seq<int>)
    requires |s| == 5
    ensures Run(SwapSequence(5), 9, s) ==
      CompareSwapped(CompareSwapped(CompareSwapped(CompareSwapped(CompareSwapped(CompareSwapped(CompareSwapped(CompareSwapped(CompareSwapped(
        s, 1, 2), 3, 4), 1, 3), 0, 2),
        2, 4), 0, 3), 0, 1), 2, 3),
        1, 2)
  {
    var net := SwapSequence(5);
    assert net == [
      IndexPair(1, 2), IndexPair(3, 4), IndexPair(1, 3), IndexPair(0, 2), IndexPair(2, 4), IndexPair(0, 3), IndexPair(0, 1), IndexPair(2, 3), IndexPair(1, 2)];
    RunStep(net, 0, s);
    RunStep(net, 1, s);
    RunStep(net, 2, s);
    RunStep(net, 3, s);
    RunStep(net, 4, s);
    RunStep(net, 5, s);
    RunStep(net, 6, s);
    RunStep(net, 7, s);
    RunStep(net, 8, s);
  }

  /** The table for 6 replayed comparator by comparator. */
  lemma {:induction false} Network6Trace(s: seq<int>)
    requires |s| == 6
    ensures Run(SwapSequence(6), 12, s) ==
      CompareSwapped(CompareSwapped(CompareSwapped(CompareSwapped(CompareSwapped(CompareSwapped(CompareSwapped(CompareSwapped(CompareSwapped(CompareSwapped(CompareSwapped(CompareSwapped(
        s, 0, 1), 2, 3), 4, 5), 0, 2),
        3, 5), 2, 4), 0, 1), 2, 3),
        4, 5), 1, 2), 3, 4), 2, 3)
  {
    var net := SwapSequence(6);
    assert net == [
      IndexPair(0, 1), IndexPair(2, 3), IndexPair(4, 5), IndexPair(0, 2), IndexPair(3, 5), IndexPair(2, 4), IndexPair(0, 1), IndexPair(2, 3), IndexPair(4, 5), IndexPair(1, 2), IndexPair(3, 4), IndexPair(2, 3)];
    RunStep(net, 0, s);
    RunStep(net, 1, s);
    RunStep(net, 2, s);
    RunStep(net, 3, s);
    RunStep(net, 4, s);
    RunStep(net, 5, s);
    RunStep(net, 6, s);
    RunStep(net, 7, s);
    RunStep(net, 8, s);
    RunStep(net, 9, s);
    RunStep(net, 10, s);
    RunStep(net, 11, s);
  }

  /** The table for 7 replayed comparator by comparator. */
  lemma {:induction false} Network7Trace(s: seq<int>)
    requires |s| == 7
    ensures Run(SwapSequence(7), 16, s) ==
      CompareSwapped(CompareSwapped(CompareSwapped(CompareSwapped(CompareSwapped(CompareSwapped(CompareSwapped(CompareSwapped(CompareSwapped(CompareSwapped(CompareSwapped(CompareSwapped(CompareSwapped(CompareSwapped(CompareSwapped(CompareSwapped(
        s, 1, 2), 3, 4), 5, 6), 0, 2),
        3, 5), 4, 6), 2, 6), 1, 5),
        0, 4), 2, 5), 0, 3), 2, 4),
        1, 3), 0, 1), 2, 3), 4, 5)
  {
    var net := SwapSequence(7);
    assert net == [
      IndexPair(1, 2), IndexPair(3, 4), IndexPair(5, 6), IndexPair(0, 2), IndexPair(3, 5), IndexPair(4, 6), IndexPair(2, 6), IndexPair(1, 5), IndexPair(0, 4), IndexPair(2, 5), IndexPair(0, 3), IndexPair(2, 4), IndexPair(1, 3), IndexPair(0, 1), IndexPair(2, 3), IndexPair(4, 5)];
    RunStep(net, 0, s);
    RunStep(net, 1, s);
    RunStep(net, 2, s);
    RunStep(net, 3, s);
    RunStep(net, 4, s);
    RunStep(net, 5, s);
    RunStep(net, 6, s);
    RunStep(net, 7, s);
    RunStep(net, 8, s);
    RunStep(net, 9, s);
    RunStep(net, 10, s);
    RunStep(net, 11, s);
    RunStep(net, 12, s);
    RunStep(net, 13, s);
    RunStep(net, 14, s);
    RunStep(net, 15, s);
  }

  /** The table for 8 replayed comparator by comparator. */
  lemma {:induction false} Network8Trace(s: seq<int>)
    requires |s| == 8
    ensures Run(SwapSequence(8), 19, s) ==
      CompareSwapped(CompareSwapped(CompareSwapped(CompareSwapped(CompareSwapped(CompareSwapped(CompareSwapped(CompareSwapped(CompareSwapped(CompareSwapped(CompareSwapped(CompareSwapped(CompareSwapped(CompareSwapped(CompareSwapped(CompareSwapped(CompareSwapped(CompareSwapped(CompareSwapped(
        s, 0, 7), 1, 6), 2, 5), 3, 4),
        0, 3), 1, 2), 4, 7), 5, 6),
        0, 1), 2, 3), 4, 5), 6, 7),
        3, 5), 2, 4), 1, 2), 3, 4),
        5, 6), 2, 3), 4, 5)
  {
    var net := SwapSequence(8);
    assert net == [
      IndexPair(0, 7), IndexPair(1, 6), IndexPair(2, 5), IndexPair(3, 4), IndexPair(0, 3), IndexPair(1, 2), IndexPair(4, 7), IndexPair(5, 6), IndexPair(0, 1), IndexPair(2, 3), IndexPair(4, 5), IndexPair(6, 7), IndexPair(3, 5), IndexPair(2, 4), IndexPair(1, 2), IndexPair(3, 4), IndexPair(5, 6), IndexPair(2, 3), IndexPair(4, 5)];
    RunStep(net, 0, s);
    RunStep(net, 1, s);
    RunStep(net, 2, s);
    RunStep(net, 3, s);
    RunStep(net, 4, s);
    RunStep(net, 5, s);
    RunStep(net, 6, s);
    RunStep(net, 7, s);
    RunStep(net, 8, s);
    RunStep(net, 9, s);
    RunStep(net, 10, s);
    RunStep(net, 11, s);
    RunStep(net, 12, s);
    RunStep(net, 13, s);
    RunStep(net, 14, s);
    RunStep(net, 15, s);
    RunStep(net, 16, s);
    RunStep(net, 17, s);
    RunStep(net, 18, s);
  }

  /** What the table for 2 leaves at each position, and that it is in order. */
  lemma {:induction false} Network2Outputs(s: seq<int>) returns (w0: int, w1: int)
    requires |s| == 2
    ensures [w0, w1] ==
      CompareSwapped(
        s, 0, 1)
    ensures w0 <= w1
  {
    var v0, v1 := s[0], s[1];
    var t := s;
    CompareSwapAt(t, 0, 1);
    t := CompareSwapped(t, 0, 1);
    v0, v1 := Min(v0, v1), Max(v0, v1);
    assert t[0] == v0 && t[1] == v1;
    assert v0 <= v1;
    assert t == [v0, v1];
    w0, w1 := v0, v1;
  }

  /** What the table for 3 leaves at each position, and that it is in order. */
  lemma {:induction false} Network3Outputs(s: seq<int>) returns (w0: int, w1: int, w2: int)
    requires |s| == 3
    ensures [w0, w1, w2] ==
      CompareSwapped(CompareSwapped(CompareSwapped(
        s, 1, 2), 0, 1), 1, 2)
    ensures w0 <= w1 && w1 <= w2
  {
    var v0, v1, v2 := s[0], s[1], s[2];
    var t := s;
    CompareSwapAt(t, 1, 2);
    t := CompareSwapped(t, 1, 2);
    v1, v2 := Min(v1, v2), Max(v1, v2);
    assert t[0] == v0 && t[1] == v1 && t[2] == v2;
    assert v1 <= v2;
    CompareSwapAt(t, 0, 1);
    t := CompareSwapped(t, 0, 1);
    v0, v1 := Min(v0, v1), Max(v0, v1);
    assert t[0] == v0 && t[1] == v1 && t[2] == v2;
    assert v0 <= v1 && v0 <= v2;
    CompareSwapAt(t, 1, 2);
    t := CompareSwapped(t, 1, 2);
    v1, v2 := Min(v1, v2), Max(v1, v2);
    assert t[0] == v0 && t[1] == v1 && t[2] == v2;
    assert v0 <= v1 && v1 <= v2;
    assert t == [v0, v1, v2];
    w0, w1, w2 := v0, v1, v2;
  }

  /** What the table for 4 leaves at each position, and that it is in order. */
  lemma {:induction false} Network4Outputs(s: seq<int>) returns (w0: int, w1: int, w2: int, w3: int)
    requires |s| == 4
    ensures [w0, w1, w2, w3] ==
      CompareSwapped(CompareSwapped(CompareSwapped(CompareSwapped(CompareSwapped(
        s, 0, 1), 2, 3), 1, 3), 0, 2),
        1, 2)
    ensures w0 <= w1 && w1 <= w2 && w2 <= w3
  {
    var v0, v1, v2, v3 := s[0], s[1], s[2], s[3];
    var t := s;
    CompareSwapAt(t, 0, 1);
    t := CompareSwapped(t, 0, 1);
    v0, v1 := Min(v0, v1), Max(v0, v1);
    assert t[0] == v0 && t[1] == v1 && t[2] == v2 && t[3] == v3;
    assert v0 <= v1;
    CompareSwapAt(t, 2, 3);
    t := CompareSwapped(t, 2, 3);
    v2, v3 := Min(v2, v3), Max(v2, v3);
    assert t[0] == v0 && t[1] == v1 && t[2] == v2 && t[3] == v3;
    assert v0 <= v1 && v2 <= v3;
    CompareSwapAt(t, 1, 3);
    t := CompareSwapped(t, 1, 3);
    v1, v3 := Min(v1, v3), Max(v1, v3);
    assert t[0] == v0 && t[1] == v1 && t[2] == v2 && t[3] == v3;
    assert v0 <= v3 && v1 <= v3 && v2 <= v3;
    CompareSwapAt(t, 0, 2);
    t := CompareSwapped(t, 0, 2);
    v0, v2 := Min(v0, v2), Max(v0, v2);
    assert t[0] == v0 && t[1] == v1 && t[2] == v2 && t[3] == v3;
    assert v0 <= v1 && v0 <= v2 && v1 <= v3 && v2 <= v3;
    CompareSwapAt(t, 1, 2);
    t := CompareSwapped(t, 1, 2);
    v1, v2 := Min(v1, v2), Max(v1, v2);
    assert t[0] == v0 && t[1] == v1 && t[2] == v2 && t[3] == v3;
    assert v0 <= v1 && v1 <= v2 && v2 <= v3;
    assert t == [v0, v1, v2, v3];
    w0, w1, w2, w3 := v0, v1, v2, v3;
  }

  /** What the table for 5 leaves at each position, and that it is in order. */
  lemma {:induction false} Network5Outputs(s: seq<int>) returns (w0: int, w1: int, w2: int, w3: int, w4: int)
    requires |s| == 5
    ensures [w0, w1, w2, w3, w4] ==
      CompareSwapped(CompareSwapped(CompareSwapped(CompareSwapped(CompareSwapped(CompareSwapped(CompareSwapped(CompareSwapped(CompareSwapped(
        s, 1, 2), 3, 4), 1, 3), 0, 2),
        2, 4), 0, 3), 0, 1), 2, 3),
        1, 2)
    ensures w0 <= w1 && w1 <= w2 && w2 <= w3 && w3 <= w4
  {
    var v0, v1, v2, v3, v4 := s[0], s[1], s[2], s[3], s[4];
    var t := s;
    CompareSwapAt(t, 1, 2);
    t := CompareSwapped(t, 1, 2);
    v1, v2 := Min(v1, v2), Max(v1, v2);
    assert t[0] == v0 && t[1] == v1 && t[2] == v2 && t[3] == v3 && t[4] == v4;
    assert v1 <= v2;
    CompareSwapAt(t, 3, 4);
    t := CompareSwapped(t, 3, 4);
    v3, v4 := Min(v3, v4), Max(v3, v4);
    assert t[0] == v0 && t[1] == v1 && t[2] == v2 && t[3] == v3 && t[4] == v4;
    assert v1 <= v2 && v3 <= v4;
    CompareSwapAt(t, 1, 3);
    t := CompareSwapped(t, 1, 3);
    v1, v3 := Min(v1, v3), Max(v1, v3);
    assert t[0] == v0 && t[1] == v1 && t[2] == v2 && t[3] == v3 && t[4] == v4;
    assert v1 <= v2 && v1 <= v3 && v1 <= v4;
    CompareSwapAt(t, 0, 2);
    t := CompareSwapped(t, 0, 2);
    v0, v2 := Min(v0, v2), Max(v0, v2);
    assert t[0] == v0 && t[1] == v1 && t[2] == v2 && t[3] == v3 && t[4] == v4;
    assert v0 <= v2 && v1 <= v2 && v1 <= v3 && v1 <= v4;
    CompareSwapAt(t, 2, 4);
    t := CompareSwapped(t, 2, 4);
    v2, v4 := Min(v2, v4), Max(v2, v4);
    assert t[0] == v0 && t[1] == v1 && t[2] == v2 && t[3] == v3 && t[4] == v4;
    assert v0 <= v4 && v1 <= v2 && v1 <= v3 && v2 <= v4 && v3 <= v4;
    CompareSwapAt(t, 0, 3);
    t := CompareSwapped(t, 0, 3);
    v0, v3 := Min(v0, v3), Max(v0, v3);
    assert t[0] == v0 && t[1] == v1 && t[2] == v2 && t[3] == v3 && t[4] == v4;
    assert v0 <= v3 && v1 <= v2 && v1 <= v3 && v2 <= v4 && v3 <= v4;
    CompareSwapAt(t, 0, 1);
    t := CompareSwapped(t, 0, 1);
    v0, v1 := Min(v0, v1), Max(v0, v1);
    assert t[0] == v0 && t[1] == v1 && t[2] == v2 && t[3] == v3 && t[4] == v4;
    assert v0 <= v1 && v0 <= v2 && v1 <= v3 && v2 <= v4 && v3 <= v4;
    CompareSwapAt(t, 2, 3);
    t := CompareSwapped(t, 2, 3);
    v2, v3 := Min(v2, v3), Max(v2, v3);
    assert t[0] == v0 && t[1] == v1 && t[2] == v2 && t[3] == v3 && t[4] == v4;
    assert v0 <= v1 && v0 <= v2 && v1 <= v3 && v2 <= v3 && v3 <= v4;
    CompareSwapAt(t, 1, 2);
    t := CompareSwapped(t, 1, 2);
    v1, v2 := Min(v1, v2), Max(v1, v2);
    assert t[0] == v0 && t[1] == v1 && t[2] == v2 && t[3] == v3 && t[4] == v4;
    assert v0 <= v1 && v1 <= v2 && v2 <= v3 && v3 <= v4;
    assert t == [v0, v1, v2, v3, v4];
    w0, w1, w2, w3, w4 := v0, v1, v2, v3, v4;
  }

  /** What the first nine comparators of the table for 7 leave, and the order they establish. */
  lemma {:induction false} Network7FirstNine(s: seq<int>) returns (w0: int, w1: int, w2: int, w3: int, w4: int, w5: int, w6: int)
    requires |s| == 7
    ensures [w0, w1, w2, w3, w4, w5, w6] ==
      CompareSwapped(CompareSwapped(CompareSwapped(CompareSwapped(CompareSwapped(CompareSwapped(CompareSwapped(CompareSwapped(CompareSwapped(
        s, 1, 2), 3, 4), 5, 6), 0, 2),
        3, 5), 4, 6), 2, 6), 1, 5),
        0, 4)
    ensures w0 <= w2 && w0 <= w4 && w1 <= w2 && w1 <= w5 && w2 <= w6 && w3 <= w4 && w3 <= w5 && w4 <= w6 && w5 <= w6
  {
    var v0, v1, v2, v3, v4, v5, v6 := s[0], s[1], s[2], s[3], s[4], s[5], s[6];
    var t := s;
    CompareSwapAt(t, 1, 2);
    t := CompareSwapped(t, 1, 2);
    v1, v2 := Min(v1, v2), Max(v1, v2);
    assert t[0] == v0 && t[1] == v1 && t[2] == v2 && t[3] == v3 && t[4] == v4 && t[5] == v5 && t[6] == v6;
    assert v1 <= v2;
    CompareSwapAt(t, 3, 4);
    t := CompareSwapped(t, 3, 4);
    v3, v4 := Min(v3, v4), Max(v3, v4);
    assert t[0] == v0 && t[1] == v1 && t[2] == v2 && t[3] == v3 && t[4] == v4 && t[5] == v5 && t[6] == v6;
    assert v1 <= v2 && v3 <= v4;
    CompareSwapAt(t, 5, 6);
    t := CompareSwapped(t, 5, 6);
    v5, v6 := Min(v5, v6), Max(v5, v6);
    assert t[0] == v0 && t[1] == v1 && t[2] == v2 && t[3] == v3 && t[4] == v4 && t[5] == v5 && t[6] == v6;
    assert v1 <= v2 && v3 <= v4 && v5 <= v6;
    CompareSwapAt(t, 0, 2);
    t := CompareSwapped(t, 0, 2);
    v0, v2 := Min(v0, v2), Max(v0, v2);
    assert t[0] == v0 && t[1] == v1 && t[2] == v2 && t[3] == v3 && t[4] == v4 && t[5] == v5 && t[6] == v6;
    assert v0 <= v2 && v1 <= v2 && v3 <= v4 && v5 <= v6;
    CompareSwapAt(t, 3, 5);
    t := CompareSwapped(t, 3, 5);
    v3, v5 := Min(v3, v5), Max(v3, v5);
    assert t[0] == v0 && t[1] == v1 && t[2] == v2 && t[3] == v3 && t[4] == v4 && t[5] == v5 && t[6] == v6;
    assert v0 <= v2 && v1 <= v2 && v3 <= v4 && v3 <= v5 && v3 <= v6;
    CompareSwapAt(t, 4, 6);
    t := CompareSwapped(t, 4, 6);
    v4, v6 := Min(v4, v6), Max(v4, v6);
    assert t[0] == v0 && t[1] == v1 && t[2] == v2 && t[3] == v3 && t[4] == v4 && t[5] == v5 && t[6] == v6;
    assert v0 <= v2 && v1 <= v2 && v3 <= v4 && v3 <= v5 && v4 <= v6 && v5 <= v6;
    CompareSwapAt(t, 2, 6);
    t := CompareSwapped(t, 2, 6);
    v2, v6 := Min(v2, v6), Max(v2, v6);
    assert t[0] == v0 && t[1] == v1 && t[2] == v2 && t[3] == v3 && t[4] == v4 && t[5] == v5 && t[6] == v6;
    assert v0 <= v6 && v1 <= v6 && v2 <= v6 && v3 <= v4 && v3 <= v5 && v4 <= v6 && v5 <= v6;
    CompareSwapAt(t, 1, 5);
    t := CompareSwapped(t, 1, 5);
    v1, v5 := Min(v1, v5), Max(v1, v5);
    assert t[0] == v0 && t[1] == v1 && t[2] == v2 && t[3] == v3 && t[4] == v4 && t[5] == v5 && t[6] == v6;
    assert v0 <= v6 && v1 <= v2 && v1 <= v5 && v2 <= v6 && v3 <= v4 && v3 <= v5 && v4 <= v6 && v5 <= v6;
    CompareSwapAt(t, 0, 4);
    t := CompareSwapped(t, 0, 4);
    v0, v4 := Min(v0, v4), Max(v0, v4);
    assert t[0] == v0 && t[1] == v1 && t[2] == v2 && t[3] == v3 && t[4] == v4 && t[5] == v5 && t[6] == v6;
    assert v0 <= v2 && v0 <= v4 && v1 <= v2 && v1 <= v5 && v2 <= v6 && v3 <= v4 && v3 <= v5 && v4 <= v6 && v5 <= v6;
    assert t == [v0, v1, v2, v3, v4, v5, v6];
    w0, w1, w2, w3, w4, w5, w6 := v0, v1, v2, v3, v4, v5, v6;
  }

  /** From the order left by the first nine comparators of the table for 7, its last seven sort. */
  lemma {:induction false} Network7LastSeven(a0: int, a1: int, a2: int, a3: int, a4: int, a5: int, a6: int) returns (w0: int, w1: int, w2: int, w3: int, w4: int, w5: int, w6: int)
    requires a0 <= a2 && a0 <= a4 && a1 <= a2 && a1 <= a5 && a2 <= a6 && a3 <= a4 && a3 <= a5 && a4 <= a6 && a5 <= a6
    ensures [w0, w1, w2, w3, w4, w5, w6] ==
      CompareSwapped(CompareSwapped(CompareSwapped(CompareSwapped(CompareSwapped(CompareSwapped(CompareSwapped(
        [a0, a1, a2, a3, a4, a5, a6], 2, 5), 0, 3), 2, 4), 1, 3),
        0, 1), 2, 3), 4, 5)
    ensures w0 <= w1 && w1 <= w2 && w2 <= w3 && w3 <= w4 && w4 <= w5 && w5 <= w6
  {
    var v0, v1, v2, v3, v4, v5, v6 := a0, a1, a2, a3, a4, a5, a6;
    var t := [a0, a1, a2, a3, a4, a5, a6];
    CompareSwapAt(t, 2, 5);
    t := CompareSwapped(t, 2, 5);
    v2, v5 := Min(v2, v5), Max(v2, v5);
    assert t[0] == v0 && t[1] == v1 && t[2] == v2 && t[3] == v3 && t[4] == v4 && t[5] == v5 && t[6] == v6;
    assert v0 <= v4 && v0 <= v5 && v1 <= v2 && v2 <= v5 && v3 <= v4 && v3 <= v5 && v4 <= v6 && v5 <= v6;
    CompareSwapAt(t, 0, 3);
    t := CompareSwapped(t, 0, 3);
    v0, v3 := Min(v0, v3), Max(v0, v3);
    assert t[0] == v0 && t[1] == v1 && t[2] == v2 && t[3] == v3 && t[4] == v4 && t[5] == v5 && t[6] == v6;
    assert v0 <= v2 && v0 <= v3 && v1 <= v2 && v2 <= v5 && v3 <= v4 && v3 <= v5 && v4 <= v6 && v5 <= v6;
    CompareSwapAt(t, 2, 4);
    t := CompareSwapped(t, 2, 4);
    v2, v4 := Min(v2, v4), Max(v2, v4);
    assert t[0] == v0 && t[1] == v1 && t[2] == v2 && t[3] == v3 && t[4] == v4 && t[5] == v5 && t[6] == v6;
    assert v0 <= v2 && v0 <= v3 && v1 <= v4 && v1 <= v5 && v2 <= v4 && v2 <= v5 && v3 <= v4 && v3 <= v5 && v4 <= v6 && v5 <= v6;
    CompareSwapAt(t, 1, 3);
    t := CompareSwapped(t, 1, 3);
    v1, v3 := Min(v1, v3), Max(v1, v3);
    assert t[0] == v0 && t[1] == v1 && t[2] == v2 && t[3] == v3 && t[4] == v4 && t[5] == v5 && t[6] == v6;
    assert v0 <= v2 && v0 <= v3 && v1 <= v2 && v1 <= v3 && v2 <= v4 && v2 <= v5 && v3 <= v4 && v3 <= v5 && v4 <= v6 && v5 <= v6;
    CompareSwapAt(t, 0, 1);
    t := CompareSwapped(t, 0, 1);
    v0, v1 := Min(v0, v1), Max(v0, v1);
    assert t[0] == v0 && t[1] == v1 && t[2] == v2 && t[3] == v3 && t[4] == v4 && t[5] == v5 && t[6] == v6;
    assert v0 <= v1 && v1 <= v2 && v1 <= v3 && v2 <= v4 && v2 <= v5 && v3 <= v4 && v3 <= v5 && v4 <= v6 && v5 <= v6;
    CompareSwapAt(t, 2, 3);
    t := CompareSwapped(t, 2, 3);
    v2, v3 := Min(v2, v3), Max(v2, v3);
    assert t[0] == v0 && t[1] == v1 && t[2] == v2 && t[3] == v3 && t[4] == v4 && t[5] == v5 && t[6] == v6;
    assert v0 <= v1 && v1 <= v2 && v2 <= v3 && v3 <= v4 && v3 <= v5 && v4 <= v6 && v5 <= v6;
    CompareSwapAt(t, 4, 5);
    t := CompareSwapped(t, 4, 5);
    v4, v5 := Min(v4, v5), Max(v4, v5);
    assert t[0] == v0 && t[1] == v1 && t[2] == v2 && t[3] == v3 && t[4] == v4 && t[5] == v5 && t[6] == v6;
    assert v0 <= v1 && v1 <= v2 && v2 <= v3 && v3 <= v4 && v4 <= v5 && v5 <= v6;
    assert t == [v0, v1, v2, v3, v4, v5, v6];
    w0, w1, w2, w3, w4, w5, w6 := v0, v1, v2, v3, v4, v5, v6;
  }

  /** The table for 6 leaves [6, 1, 2, 3, 4, 5] as
      [1, 2, 3, 6, 4, 5]: the largest value is stuck at position 3. */
  lemma Network6Counterexample(s: seq<int>)
    requires s == [6, 1, 2, 3, 4, 5]
    ensures Run(SwapSequence(6), 12, s) == [1, 2, 3, 6, 4, 5]
    ensures !Sorted(Run(SwapSequence(6), 12, s))
  {
    Network6Trace(s);
    var t := s;
    CompareSwapAt(t, 0, 1);
    t := CompareSwapped(t, 0, 1);
    assert t[0] == 1 && t[1] == 6;
    CompareSwapAt(t, 2, 3);
    t := CompareSwapped(t, 2, 3);
    assert t[2] == 2 && t[3] == 3;
    CompareSwapAt(t, 4, 5);
    t := CompareSwapped(t, 4, 5);
    assert t[4] == 4 && t[5] == 5;
    CompareSwapAt(t, 0, 2);
    t := CompareSwapped(t, 0, 2);
    assert t[0] == 1 && t[2] == 2;
    CompareSwapAt(t, 3, 5);
    t := CompareSwapped(t, 3, 5);
    assert t[3] == 3 && t[5] == 5;
    CompareSwapAt(t, 2, 4);
    t := CompareSwapped(t, 2, 4);
    assert t[2] == 2 && t[4] == 4;
    CompareSwapAt(t, 0, 1);
    t := CompareSwapped(t, 0, 1);
    assert t[0] == 1 && t[1] == 6;
    CompareSwapAt(t, 2, 3);
    t := CompareSwapped(t, 2, 3);
    assert t[2] == 2 && t[3] == 3;
    CompareSwapAt(t, 4, 5);
    t := CompareSwapped(t, 4, 5);
    assert t[4] == 4 && t[5] == 5;
    CompareSwapAt(t, 1, 2);
    t := CompareSwapped(t, 1, 2);
    assert t[1] == 2 && t[2] == 6;
    CompareSwapAt(t, 3, 4);
    t := CompareSwapped(t, 3, 4);
    assert t[3] == 3 && t[4] == 4;
    CompareSwapAt(t, 2, 3);
    t := CompareSwapped(t, 2, 3);
    assert t[2] == 3 && t[3] == 6;
    assert t == [1, 2, 3, 6, 4, 5];
    assert t[3] > t[4];
  }

  /** The same failure of the table for 6 on zeros and ones: a single 1 at
      position 0 ends at position 3, ahead of two zeros. */
  lemma Network6CounterexampleZeroOne(s: seq<int>)
    requires s == [1, 0, 0, 0, 0, 0]
    ensures Run(SwapSequence(6), 12, s) == [0, 0, 0, 1, 0, 0]
    ensures !Sorted(Run(SwapSequence(6), 12, s))
  {
    Network6Trace(s);
    var t := s;
    CompareSwapAt(t, 0, 1);
    t := CompareSwapped(t, 0, 1);
    assert t[0] == 0 && t[1] == 1;
    CompareSwapAt(t, 2, 3);
    t := CompareSwapped(t, 2, 3);
    assert t[2] == 0 && t[3] == 0;
    CompareSwapAt(t, 4, 5);
    t := CompareSwapped(t, 4, 5);
    assert t[4] == 0 && t[5] == 0;
    CompareSwapAt(t, 0, 2);
    t := CompareSwapped(t, 0, 2);
    assert t[0] == 0 && t[2] == 0;
    CompareSwapAt(t, 3, 5);
    t := CompareSwapped(t, 3, 5);
    assert t[3] == 0 && t[5] == 0;
    CompareSwapAt(t, 2, 4);
    t := CompareSwapped(t, 2, 4);
    assert t[2] == 0 && t[4] == 0;
    CompareSwapAt(t, 0, 1);
    t := CompareSwapped(t, 0, 1);
    assert t[0] == 0 && t[1] == 1;
    CompareSwapAt(t, 2, 3);
    t := CompareSwapped(t, 2, 3);
    assert t[2] == 0 && t[3] == 0;
    CompareSwapAt(t, 4, 5);
    t := CompareSwapped(t, 4, 5);
    assert t[4] == 0 && t[5] == 0;
    CompareSwapAt(t, 1, 2);
    t := CompareSwapped(t, 1, 2);
    assert t[1] == 0 && t[2] == 1;
    CompareSwapAt(t, 3, 4);
    t := CompareSwapped(t, 3, 4);
    assert t[3] == 0 && t[4] == 0;
    CompareSwapAt(t, 2, 3);
    t := CompareSwapped(t, 2, 3);
    assert t[2] == 0 && t[3] == 1;
    assert t == [0, 0, 0, 1, 0, 0];
    assert t[3] > t[4];
  }

  /** The table for 8 leaves [5, 1, 2, 6, 7, 3, 4, 8] as
      [1, 2, 3, 5, 4, 6, 7, 8]: positions 3 and 4 are out of order. */
  lemma Network8Counterexample(s: seq<int>)
    requires s == [5, 1, 2, 6, 7, 3, 4, 8]
    ensures Run(SwapSequence(8), 19, s) == [1, 2, 3, 5, 4, 6, 7, 8]
    ensures !Sorted(Run(SwapSequence(8), 19, s))
  {
    Network8Trace(s);
    var t := s;
    CompareSwapAt(t, 0, 7);
    t := CompareSwapped(t, 0, 7);
    assert t[0] == 5 && t[7] == 8;
    CompareSwapAt(t, 1, 6);
    t := CompareSwapped(t, 1, 6);
    assert t[1] == 1 && t[6] == 4;
    CompareSwapAt(t, 2, 5);
    t := CompareSwapped(t, 2, 5);
    assert t[2] == 2 && t[5] == 3;
    CompareSwapAt(t, 3, 4);
    t := CompareSwapped(t, 3, 4);
    assert t[3] == 6 && t[4] == 7;
    CompareSwapAt(t, 0, 3);
    t := CompareSwapped(t, 0, 3);
    assert t[0] == 5 && t[3] == 6;
    CompareSwapAt(t, 1, 2);
    t := CompareSwapped(t, 1, 2);
    assert t[1] == 1 && t[2] == 2;
    CompareSwapAt(t, 4, 7);
    t := CompareSwapped(t, 4, 7);
    assert t[4] == 7 && t[7] == 8;
    CompareSwapAt(t, 5, 6);
    t := CompareSwapped(t, 5, 6);
    assert t[5] == 3 && t[6] == 4;
    CompareSwapAt(t, 0, 1);
    t := CompareSwapped(t, 0, 1);
    assert t[0] == 1 && t[1] == 5;
    CompareSwapAt(t, 2, 3);
    t := CompareSwapped(t, 2, 3);
    assert t[2] == 2 && t[3] == 6;
    CompareSwapAt(t, 4, 5);
    t := CompareSwapped(t, 4, 5);
    assert t[4] == 3 && t[5] == 7;
    CompareSwapAt(t, 6, 7);
    t := CompareSwapped(t, 6, 7);
    assert t[6] == 4 && t[7] == 8;
    CompareSwapAt(t, 3, 5);
    t := CompareSwapped(t, 3, 5);
    assert t[3] == 6 && t[5] == 7;
    CompareSwapAt(t, 2, 4);
    t := CompareSwapped(t, 2, 4);
    assert t[2] == 2 && t[4] == 3;
    CompareSwapAt(t, 1, 2);
    t := CompareSwapped(t, 1, 2);
    assert t[1] == 2 && t[2] == 5;
    CompareSwapAt(t, 3, 4);
    t := CompareSwapped(t, 3, 4);
    assert t[3] == 3 && t[4] == 6;
    CompareSwapAt(t, 5, 6);
    t := CompareSwapped(t, 5, 6);
    assert t[5] == 4 && t[6] == 7;
    CompareSwapAt(t, 2, 3);
    t := CompareSwapped(t, 2, 3);
    assert t[2] == 3 && t[3] == 5;
    CompareSwapAt(t, 4, 5);
    t := CompareSwapped(t, 4, 5);
    assert t[4] == 4 && t[5] == 6;
    assert t == [1, 2, 3, 5, 4, 6, 7, 8];
    assert t[3] > t[4];
  }

  /** The same failure of the table for 8 on zeros and ones:
      [1, 0, 0, 1, 1, 0, 0, 1] ends as [0, 0, 0, 1, 0, 1, 1, 1]. */
  lemma Network8CounterexampleZeroOne(s: seq<int>)
    requires s == [1, 0, 0, 1, 1, 0, 0, 1]
    ensures Run(SwapSequence(8), 19, s) == [0, 0, 0, 1, 0, 1, 1, 1]
    ensures !Sorted(Run(SwapSequence(8), 19, s))
  {
    Network8Trace(s);
    var t := s;
    CompareSwapAt(t, 0, 7);
    t := CompareSwapped(t, 0, 7);
    assert t[0] == 1 && t[7] == 1;
    CompareSwapAt(t, 1, 6);
    t := CompareSwapped(t, 1, 6);
    assert t[1] == 0 && t[6] == 0;
    CompareSwapAt(t, 2, 5);
    t := CompareSwapped(t, 2, 5);
    assert t[2] == 0 && t[5] == 0;
    CompareSwapAt(t, 3, 4);
    t := CompareSwapped(t, 3, 4);
    assert t[3] == 1 && t[4] == 1;
    CompareSwapAt(t, 0, 3);
    t := CompareSwapped(t, 0, 3);
    assert t[0] == 1 && t[3] == 1;
    CompareSwapAt(t, 1, 2);
    t := CompareSwapped(t, 1, 2);
    assert t[1] == 0 && t[2] == 0;
    CompareSwapAt(t, 4, 7);
    t := CompareSwapped(t, 4, 7);
    assert t[4] == 1 && t[7] == 1;
    CompareSwapAt(t, 5, 6);
    t := CompareSwapped(t, 5, 6);
    assert t[5] == 0 && t[6] == 0;
    CompareSwapAt(t, 0, 1);
    t := CompareSwapped(t, 0, 1);
    assert t[0] == 0 && t[1] == 1;
    CompareSwapAt(t, 2, 3);
    t := CompareSwapped(t, 2, 3);
    assert t[2] == 0 && t[3] == 1;
    CompareSwapAt(t, 4, 5);
    t := CompareSwapped(t, 4, 5);
    assert t[4] == 0 && t[5] == 1;
    CompareSwapAt(t, 6, 7);
    t := CompareSwapped(t, 6, 7);
    assert t[6] == 0 && t[7] == 1;
    CompareSwapAt(t, 3, 5);
    t := CompareSwapped(t, 3, 5);
    assert t[3] == 1 && t[5] == 1;
    CompareSwapAt(t, 2, 4);
    t := CompareSwapped(t, 2, 4);
    assert t[2] == 0 && t[4] == 0;
    CompareSwapAt(t, 1, 2);
    t := CompareSwapped(t, 1, 2);
    assert t[1] == 0 && t[2] == 1;
    CompareSwapAt(t, 3, 4);
    t := CompareSwapped(t, 3, 4);
    assert t[3] == 0 && t[4] == 1;
    CompareSwapAt(t, 5, 6);
    t := CompareSwapped(t, 5, 6);
    assert t[5] == 0 && t[6] == 1;
    CompareSwapAt(t, 2, 3);
    t := CompareSwapped(t, 2, 3);
    assert t[2] == 0 && t[3] == 1;
    CompareSwapAt(t, 4, 5);
    t := CompareSwapped(t, 4, 5);
    assert t[4] == 0 && t[5] == 1;
    assert t == [0, 0, 0, 1, 0, 1, 1, 1];
    assert t[3] > t[4];
  }

  /** The table for 2 sorts every input of length 2. */
  lemma Network2Sorts(s: seq<int>)
    requires |s| == 2
    ensures Sorted(Run(SwapSequence(2), 1, s))
  {
    Network2Trace(s);
    var w0, w1 := Network2Outputs(s);
    SortedFromAdjacent([w0, w1]);
  }

  /** The table for 3 sorts every input of length 3. */
  lemma Network3Sorts(s: seq<int>)
    requires |s| == 3
    ensures Sorted(Run(SwapSequence(3), 3, s))
  {
    Network3Trace(s);
    var w0, w1, w2 := Network3Outputs(s);
    SortedFromAdjacent([w0, w1, w2]);
  }

  /** The table for 4 sorts every input of length 4. */
  lemma Network4Sorts(s: seq<int>)
    requires |s| == 4
    ensures Sorted(Run(SwapSequence(4), 5, s))
  {
    Network4Trace(s);
    var w0, w1, w2, w3 := Network4Outputs(s);
    SortedFromAdjacent([w0, w1, w2, w3]);
  }

  /** The table for 5 sorts every input of length 5. */
  lemma Network5Sorts(s: seq<int>)
    requires |s| == 5
    ensures Sorted(Run(SwapSequence(5), 9, s))
  {
    Network5Trace(s);
    var w0, w1, w2, w3, w4 := Network5Outputs(s);
    SortedFromAdjacent([w0, w1, w2, w3, w4]);
  }

  /** The table for 7 sorts every input of length 7. */
  lemma Network7Sorts(s: seq<int>)
    requires |s| == 7
    ensures Sorted(Run(SwapSequence(7), 16, s))
  {
    Network7Trace(s);
    var a0, a1, a2, a3, a4, a5, a6 := Network7FirstNine(s);
    var w0, w1, w2, w3, w4, w5, w6 := Network7LastSeven(a0, a1, a2, a3, a4, a5, a6);
    SortedSeven(w0, w1, w2, w3, w4, w5, w6);
  }

  /** Seven values in order of neighbours form a sorted sequence. Kept apart
      from the lemma above so that this step is proved without the replay's
      facts in view. */
  lemma SortedSeven(w0: int, w1: int, w2: int, w3: int, w4: int, w5: int, w6: int)
    requires w0 <= w1 && w1 <= w2 && w2 <= w3 && w3 <= w4 && w4 <= w5 && w5 <= w6
    ensures Sorted([w0, w1, w2, w3, w4, w5, w6])
  {
    SortedFromAdjacent([w0, w1, w2, w3, w4, w5, w6]);
  }

  /** The tables for 2, 3, 4, 5 and 7 sort every input of their length. */
  lemma NetworkSorts(n: nat, s: seq<int>)
    requires 2 <= n <= MaxSupportedArraySize && n != 6 && n != 8 && |s| == n
    ensures Sorted(Run(SwapSequence(n), |SwapSequence(n)|, s))
  {
    if n == 2 {
      Network2Sorts(s);
    } else if n == 3 {
      Network3Sorts(s);
    } else if n == 4 {
      Network4Sorts(s);
    } else if n == 5 {
      Network5Sorts(s);
    } else {
      Network7Sorts(s);
    }
  }

  /** `sort<n>` for n in {0, 1, 2, 3, 4, 5, 7} leaves its `n` elements in
      non-descending order. */
  lemma SortAtSorts(s: seq<int>, begin: nat, n: nat)
    requires n <= MaxSupportedArraySize && n != 6 && n != 8 && begin + n <= |s|
    ensures |SortAt(s, begin, n)| == |s|
    ensures Sorted(SortAt(s, begin, n)[begin..begin + n])
  {
    SortAtFrame(s, begin, n);
    if n > 1 {
      var net := SwapSequence(n);
      var w := s[begin..begin + n];
      assert SortAt(s, begin, n)[begin..begin + n] == Run(net, |net|, w);
      NetworkSorts(n, w);
    }
  }
}
