/**
 * What replaying a comparator list does to a sequence of elements: the
 * specification functions that the in-place engine is proved against, and
 * the properties that hold for every well-formed comparator list.
 */
module Network {
  import opened Catalog

  /** Non-descending order of every pair of positions. */
  predicate Sorted(s: seq<int>)
  {
    forall i, j :: 0 <= i < j < |s| ==> s[i] <= s[j]
  }

  /** `detail::compare_swap` on values, in its conditional-move shape: the
      comparison is made once and both positions are written under it. */
  function CompareSwapped(s: seq<int>, left: nat, right: nat): (t: seq<int>)
    requires left < |s| && right < |s|
    ensures |t| == |s|
  {
    var exchange := s[right] < s[left];
    s[left := if exchange then s[right] else s[left]][right := if exchange then s[left] else s[right]]
  }

  /** The first `k` comparators of `net` applied one by one, in listed order
      (the loop of `sort<N>` after `k` iterations). */
  function Run(net: seq<IndexPair>, k: nat, s: seq<int>): (t: seq<int>)
    requires k <= |net| && WellFormed(net, |s|)
    ensures |t| == |s|
  {
    if k == 0 then s
    else CompareSwapped(Run(net, k - 1, s), net[k - 1].left, net[k - 1].right)
  }

  /** The whole storage after `sort<n>` on the `n` elements from `begin`:
      lengths up to 1 leave it alone, longer ones replay the table for `n`
      on those elements. */
  function SortAt(s: seq<int>, begin: nat, n: nat): (t: seq<int>)
    requires n <= MaxSupportedArraySize && begin + n <= |s|
    ensures |t| == |s|
  {
    if n <= 1 then s
    else
      var net := SwapSequence(n);
      s[..begin] + Run(net, |net|, s[begin..begin + n]) + s[begin + n..]
  }

  /** A compare-swap exchanges the two values exactly when the right one is
      less than the left one, leaves them in order either way, touches no
      other position, and so only rearranges the values. */
  lemma CompareSwapExchanges(s: seq<int>, left: nat, right: nat)
    requires left < |s| && right < |s| && left != right
    ensures var t := CompareSwapped(s, left, right);
      && (s[right] < s[left] ==> t[left] == s[right] && t[right] == s[left])
      && (!(s[right] < s[left]) ==> t == s)
      && !(t[right] < t[left])
      && (forall k :: 0 <= k < |s| && k != left && k != right ==> t[k] == s[k])
      && multiset(t) == multiset(s)
  {
  }

  /** Replaying any prefix of a well-formed list only rearranges the values. */
  lemma {:induction false} RunPermutes(net: seq<IndexPair>, k: nat, s: seq<int>)
    requires k <= |net| && WellFormed(net, |s|)
    ensures multiset(Run(net, k, s)) == multiset(s)
  {
    if k > 0 {
      RunPermutes(net, k - 1, s);
      CompareSwapExchanges(Run(net, k - 1, s), net[k - 1].left, net[k - 1].right);
    }
  }

  /** No comparator with `left < right` fires on a sorted sequence, so every
      prefix of a well-formed list leaves a sorted input unchanged. */
  lemma {:induction false} RunKeepsSorted(net: seq<IndexPair>, k: nat, s: seq<int>)
    requires k <= |net| && WellFormed(net, |s|) && Sorted(s)
    ensures Run(net, k, s) == s
  {
    if k > 0 {
      RunKeepsSorted(net, k - 1, s);
      var p := net[k - 1];
      assert p.left < p.right < |s|;
      assert !(s[p.right] < s[p.left]);
    }
  }

  /** A compare-swap on positions of a window inside larger storage is the
      compare-swap of the window, with the storage around it kept. */
  lemma CompareSwapInWindow(pre: seq<int>, w: seq<int>, post: seq<int>, left: nat, right: nat)
    requires left < |w| && right < |w|
    ensures CompareSwapped(pre + w + post, |pre| + left, |pre| + right)
         == pre + CompareSwapped(w, left, right) + post
  {
  }

  /** `sort<n>` writes only the `n` positions from `begin` on. */
  lemma SortAtFrame(s: seq<int>, begin: nat, n: nat)
    requires n <= MaxSupportedArraySize && begin + n <= |s|
    ensures |SortAt(s, begin, n)| == |s|
    ensures forall k :: 0 <= k < |s| && !(begin <= k < begin + n) ==> SortAt(s, begin, n)[k] == s[k]
  {
  }

  /** `sort<n>` leaves the multiset of the `n` elements unchanged. */
  lemma SortAtPermutes(s: seq<int>, begin: nat, n: nat)
    requires n <= MaxSupportedArraySize && begin + n <= |s|
    ensures |SortAt(s, begin, n)| == |s|
    ensures multiset(SortAt(s, begin, n)[begin..begin + n]) == multiset(s[begin..begin + n])
  {
    if n > 1 {
      var net := SwapSequence(n);
      var t := SortAt(s, begin, n);
      assert t[begin..begin + n] == Run(net, |net|, s[begin..begin + n]);
      RunPermutes(net, |net|, s[begin..begin + n]);
    }
  }

  /** Every table leaves `n` elements that are already non-descending where
      they are, the storage unchanged (the tables for 6 and 8 included). */
  lemma SortAtKeepsSorted(s: seq<int>, begin: nat, n: nat)
    requires n <= MaxSupportedArraySize && begin + n <= |s|
    requires Sorted(s[begin..begin + n])
    ensures SortAt(s, begin, n) == s
  {
    if n > 1 {
      var net := SwapSequence(n);
      RunKeepsSorted(net, |net|, s[begin..begin + n]);
      assert s[..begin] + s[begin..begin + n] + s[begin + n..] == s;
    }
  }
}
