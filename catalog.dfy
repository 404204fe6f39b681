/**
 * The network catalog of osn.hpp: for every supported length N (2..8) the
 * ordered list of comparators (`network_info<N>::swap_sequence`) and the
 * derived `network_traits<N>::required_swap_count`.
 */
module Catalog {

  /** One comparator: compare positions `left` and `right` and exchange them
      when the element at `right` is smaller (`detail::index_pair`). */
  datatype IndexPair = IndexPair(left: nat, right: nat)

  /** The largest length for which a network is tabulated (`max_supported_array_size`). */
  const MaxSupportedArraySize: nat := 8

  /** Every comparator of `net` names two distinct positions below `n`, the
      smaller one first. */
  predicate WellFormed(net: seq<IndexPair>, n: nat)
  {
    forall i :: 0 <= i < |net| ==> net[i].left < net[i].right < n
  }

  /** The comparator list tabulated for length `n` (`network_info<n>::swap_sequence`).
      The header specialises `network_info<7>` twice with identical lists; the
      model holds it once. */
  function SwapSequence(n: nat): (net: seq<IndexPair>)
    requires 2 <= n <= MaxSupportedArraySize
    ensures WellFormed(net, n)
  {
    if n == 2 then
      [IndexPair(0, 1)]
    else if n == 3 then
      [IndexPair(1, 2),
       IndexPair(0, 1),
       IndexPair(1, 2)]
    else if n == 4 then
      [IndexPair(0, 1), IndexPair(2, 3),
       IndexPair(1, 3),
       IndexPair(0, 2),
       IndexPair(1, 2)]
    else if n == 5 then
      [IndexPair(1, 2), IndexPair(3, 4),
       IndexPair(1, 3), IndexPair(0, 2),
       IndexPair(2, 4), IndexPair(0, 3),
       IndexPair(0, 1), IndexPair(2, 3),
       IndexPair(1, 2)]
    else if n == 6 then
      [IndexPair(0, 1), IndexPair(2, 3), IndexPair(4, 5),
       IndexPair(0, 2), IndexPair(3, 5),
       IndexPair(2, 4),
       IndexPair(0, 1), IndexPair(2, 3), IndexPair(4, 5),
       IndexPair(1, 2), IndexPair(3, 4),
       IndexPair(2, 3)]
    else if n == 7 then
      [IndexPair(1, 2), IndexPair(3, 4), IndexPair(5, 6),
       IndexPair(0, 2), IndexPair(3, 5), IndexPair(4, 6),
       IndexPair(2, 6), IndexPair(1, 5), IndexPair(0, 4),
       IndexPair(2, 5), IndexPair(0, 3),
       IndexPair(2, 4), IndexPair(1, 3),
       IndexPair(0, 1), IndexPair(2, 3), IndexPair(4, 5)]
    else
      [IndexPair(0, 7), IndexPair(1, 6), IndexPair(2, 5), IndexPair(3, 4),
       IndexPair(0, 3), IndexPair(1, 2), IndexPair(4, 7), IndexPair(5, 6),
       IndexPair(0, 1), IndexPair(2, 3), IndexPair(4, 5), IndexPair(6, 7),
       IndexPair(3, 5), IndexPair(2, 4),
       IndexPair(1, 2), IndexPair(3, 4), IndexPair(5, 6),
       IndexPair(2, 3), IndexPair(4, 5)]
  }

  /** `network_traits<n>::required_swap_count`: the number of entries of the
      table for `n` (what `detail::array_size` computes from the array type). */
  function RequiredSwapCount(n: nat): (count: nat)
    requires 2 <= n <= MaxSupportedArraySize
    ensures count == |SwapSequence(n)|
    ensures count == [1, 3, 5, 9, 12, 16, 19][n - 2]
  {
    |SwapSequence(n)|
  }
}
