/**
 * The sorting engine on storage that is updated in place: the two shapes of
 * `detail::compare_swap`, `sort<N>(begin)` replaying a table through them,
 * and `sort(begin, end)` choosing the table from the length of the range.
 * Each method is proved to leave the array exactly as the functions of
 * module Network say, and the properties proved about those functions are
 * restated on the array.
 */
module Engine {
  import opened Catalog
  import opened Network
  import opened Correctness

  /** `compare_swap` for element types that fit a conditional move: compare
      once, keep the left value aside, then write each side under the same
      condition. */
  method CompareSwap(a: array<int>, left: nat, right: nat)
    requires left < a.Length && right < a.Length
    modifies a
    ensures a[..] == CompareSwapped(old(a[..]), left, right)
  {
    var exchange := a[right] < a[left];
    var kept := a[left];
    if exchange {
      a[left] := a[right];
    }
    if exchange {
      a[right] := kept;
    }
  }

  /** `compare_swap` for other element types: one exchange of the two
      positions when the right value is less than the left one. It leaves
      the array exactly as the conditional-move shape does. */
  method CompareSwapByExchange(a: array<int>, left: nat, right: nat)
    requires left < a.Length && right < a.Length
    modifies a
    ensures a[..] == CompareSwapped(old(a[..]), left, right)
  {
    if a[right] < a[left] {
      a[left], a[right] := a[right], a[left];
    }
  }

  /** The loop of `sort<n>`: each comparator of `net`, in listed order,
      applied to the positions `begin + left` and `begin + right`. */
  method Replay(a: array<int>, begin: nat, n: nat, net: seq<IndexPair>)
    requires begin + n <= a.Length && WellFormed(net, n)
    modifies a
    ensures a[..] == old(a[..begin]) + Run(net, |net|, old(a[begin..begin + n])) + old(a[begin + n..])
  {
    ghost var pre, w, post := a[..begin], a[begin..begin + n], a[begin + n..];
    assert a[..] == pre + w + post;
    for i := 0 to |net|
      invariant a[..] == pre + Run(net, i, w) + post
    {
      var pair := net[i];
      CompareSwapInWindow(pre, Run(net, i, w), post, pair.left, pair.right);
      CompareSwap(a, begin + pair.left, begin + pair.right);
    }
  }

  /** `sort<n>(begin)`: the table for `n` replayed on the `n` positions from
      `begin`. Only those positions change, their values are only
      rearranged, already ordered values stay where they are, and for every
      `n` except 6 and 8 they end up sorted. */
  method Sort(a: array<int>, begin: nat, n: nat)
    requires n <= MaxSupportedArraySize && begin + n <= a.Length
    modifies a
    ensures a[..] == SortAt(old(a[..]), begin, n)
    ensures a[..begin] == old(a[..begin]) && a[begin + n..] == old(a[begin + n..])
    ensures multiset(a[begin..begin + n]) == multiset(old(a[begin..begin + n]))
    ensures Sorted(old(a[begin..begin + n])) ==> a[..] == old(a[..])
    ensures n <= 1 ==> a[..] == old(a[..])
    ensures n != 6 && n != 8 ==> Sorted(a[begin..begin + n])
  {
    ghost var s := a[..];
    if n > 1 {
      Replay(a, begin, n, SwapSequence(n));
    }
    ghost var t := a[..];
    assert t == SortAt(s, begin, n);
    SortAtFrame(s, begin, n);
    SortAtPermutes(s, begin, n);
    if Sorted(s[begin..begin + n]) {
      SortAtKeepsSorted(s, begin, n);
    }
    if n != 6 && n != 8 {
      SortAtSorts(s, begin, n);
    }
    assert t[..begin] == s[..begin] && t[begin + n..] == s[begin + n..];
  }

  /** `sort(begin, end)`: ranges of 2 to 8 elements are handed to the table
      of their length; shorter, longer and reversed ranges are left alone. */
  method SortRange(a: array<int>, begin: nat, end: nat)
    requires begin <= a.Length && end <= a.Length
    modifies a
    ensures 2 <= end - begin <= MaxSupportedArraySize ==> a[..] == SortAt(old(a[..]), begin, end - begin)
    ensures !(2 <= end - begin <= MaxSupportedArraySize) ==> a[..] == old(a[..])
    ensures begin <= end && end - begin <= MaxSupportedArraySize && end - begin != 6 && end - begin != 8
      ==> Sorted(a[begin..end])
    ensures begin <= end ==> multiset(a[begin..end]) == multiset(old(a[begin..end]))
  {
    var size: int := end - begin;
    if size < 2 {
      assert begin <= end ==> a[begin..end] == [] || a[begin..end] == [a[begin]];
      return;
    }
    match size {
      case 2 => Sort(a, begin, 2);
      case 3 => Sort(a, begin, 3);
      case 4 => Sort(a, begin, 4);
      case 5 => Sort(a, begin, 5);
      case 6 => Sort(a, begin, 6);
      case 7 => Sort(a, begin, 7);
      case 8 => Sort(a, begin, 8);
      case _ =>
    }
  }
}
