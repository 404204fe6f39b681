# osn — optimal sorting networks, modelled in Dafny

`osn.hpp` sorts a run of 2 to 8 elements in place. For each length it
replays a fixed, hard-coded sorting network. A network is an ordered list of
`index_pair{left, right}` comparators. Each comparator is applied by
`detail::compare_swap`, which exchanges the two positions when the right
element is less than the left one. There are two entry points:

- `sort<N>(begin)` walks the table for `N`.
- `sort(begin, end)` measures the range. For lengths 2 to 8 it dispatches to
  `sort<N>`; every other length is left alone.

The model has four modules:

- **Catalog** (`catalog.dfy`) holds the seven comparator tables
  (`network_info<N>::swap_sequence`), `max_supported_array_size` and
  `network_traits<N>::required_swap_count`.
- **Network** (`network.dfy`) gives the meaning of a compare-swap, of
  replaying the first `k` comparators of a table, and of `sort<n>` on a
  whole storage sequence (`SortAt`). It also proves the properties that hold
  for every well-formed table:
  - only the window changes;
  - the values are only rearranged;
  - sorted input stays unchanged.
- **Correctness** (`correctness.dfy`) replays each table comparator by
  comparator on symbolic elements. It proves that the tables for 2, 3, 4, 5
  and 7 sort every input. It also proves concrete inputs that the tables for
  6 and 8 leave unsorted.
- **Engine** (`engine.dfy`) holds the in-place code, on an `array<int>`:
  - both shapes of `compare_swap`;
  - the loop of `sort<N>`;
  - the `switch` of `sort(begin, end)`.

  Each method is proved to leave the array exactly as the Network functions
  say. The sortedness, permutation and frame properties are restated on the
  array.

The tables for 6 (`osn.hpp:105-113`) and 8 (`osn.hpp:153-161`) are modelled
exactly as written, and neither one sorts:

- For 6, `[6, 1, 2, 3, 4, 5]` becomes `[1, 2, 3, 6, 4, 5]`.
- For 8, `[5, 1, 2, 6, 7, 3, 4, 8]` becomes `[1, 2, 3, 5, 4, 6, 7, 8]`.

So sortedness is stated only for the other lengths.

The header does not compile as written. The model follows its evident intent
in three places:

- `compare_swap` names its element type through `Iterator` (line 25 says `I`).
- The check in `sort<N>` is against `max_supported_array_size` (line 184
  says `max_supported_size`).
- `network_info<7>` is specialised twice with identical lists (lines 118-132
  and 134-148). The model holds one table.

## Model

| member | source | states |
|---|---|---|
| Catalog.SwapSequence | osn.hpp:46-164 | every comparator of the table for `n` has `left < right < n`, so `sort<n>` only touches positions `begin .. begin + n - 1` |
| Catalog.RequiredSwapCount | osn.hpp:17-20 | `required_swap_count` is the length of the table: 1, 3, 5, 9, 12, 16, 19 for lengths 2 to 8 |
| Network.CompareSwapped | osn.hpp:30-43 | `compare_swap` on values: one comparison, both positions written under it; its contract keeps the length, and Network.CompareSwapExchanges, Correctness.CompareSwapAt and the two Engine shapes state what it does to each position |
| Network.Run | osn.hpp:191-194 | the `sort<N>` loop after `k` iterations: the first `k` comparators applied in listed order; its contract keeps the length, and Network.RunPermutes and Network.RunKeepsSorted state that it only rearranges values and leaves sorted input alone |
| Network.SortAt | osn.hpp:181-196 | `sort<n>` on the whole storage: nothing for `n <= 1`, otherwise the table for `n` replayed on the `n` elements from `begin`; its contract keeps the length, and Network.SortAtFrame, Network.SortAtPermutes, Network.SortAtKeepsSorted and Correctness.SortAtSorts state its frame, permutation, sorted-input and sortedness properties |
| Network.CompareSwapExchanges | osn.hpp:22-44 | a compare-swap exchanges the two values exactly when the right one is less, leaves them otherwise, ends with `!(right < left)`, changes no other position and keeps the multiset |
| Network.RunPermutes | osn.hpp:191-194 | replaying any prefix of a table only rearranges the values |
| Network.RunKeepsSorted | osn.hpp:191-194 | no comparator fires on sorted input, so every prefix of every table leaves it unchanged |
| Network.CompareSwapInWindow | osn.hpp:193 | a compare-swap at `begin + left`, `begin + right` is the compare-swap of the window, with the rest of the storage kept |
| Network.SortAtFrame | osn.hpp:181-196 | `sort<n>` keeps the length and every position outside the `n` from `begin` |
| Network.SortAtPermutes | osn.hpp:181-196 | `sort<n>` keeps the multiset of the `n` elements |
| Network.SortAtKeepsSorted | osn.hpp:181-196 | `sort<n>` leaves storage whose window is already non-descending unchanged, for every table including 6 and 8 |
| Correctness.CompareSwapAt | osn.hpp:30-37 | after a compare-swap with `left < right` the left position holds the minimum and the right one the maximum of the two values, and the rest is unchanged |
| Correctness.Network2Outputs | osn.hpp:54 | the table for 2 leaves its two outputs in non-descending order |
| Correctness.Network3Outputs | osn.hpp:65-67 | the table for 3 leaves neighbouring outputs in non-descending order |
| Correctness.Network4Outputs | osn.hpp:78-81 | the table for 4 leaves neighbouring outputs in non-descending order |
| Correctness.Network5Outputs | osn.hpp:92-96 | the table for 5 leaves neighbouring outputs in non-descending order |
| Correctness.Network7FirstNine | osn.hpp:123-126 | the first nine comparators of the table for 7 establish nine order relations between positions |
| Correctness.Network7LastSeven | osn.hpp:126-128 | from those relations, the last seven comparators of the table for 7 leave neighbouring outputs in non-descending order |
| Correctness.Network2Sorts | osn.hpp:52-55 | the table for 2 sorts every input of length 2 |
| Correctness.Network3Sorts | osn.hpp:63-68 | the table for 3 sorts every input of length 3 |
| Correctness.Network4Sorts | osn.hpp:76-82 | the table for 4 sorts every input of length 4 |
| Correctness.Network5Sorts | osn.hpp:90-97 | the table for 5 sorts every input of length 5 |
| Correctness.Network7Sorts | osn.hpp:121-129 | the table for 7 sorts every input of length 7 |
| Correctness.NetworkSorts | osn.hpp:46-164 | the tables for 2, 3, 4, 5 and 7 sort every input of their length |
| Correctness.Network6Counterexample | osn.hpp:105-113 | the table for 6 turns `[6, 1, 2, 3, 4, 5]` into `[1, 2, 3, 6, 4, 5]`, which is not sorted |
| Correctness.Network6CounterexampleZeroOne | osn.hpp:105-113 | the table for 6 turns `[1, 0, 0, 0, 0, 0]` into `[0, 0, 0, 1, 0, 0]`, which is not sorted |
| Correctness.Network8Counterexample | osn.hpp:153-161 | the table for 8 turns `[5, 1, 2, 6, 7, 3, 4, 8]` into `[1, 2, 3, 5, 4, 6, 7, 8]`, which is not sorted |
| Correctness.Network8CounterexampleZeroOne | osn.hpp:153-161 | the table for 8 turns `[1, 0, 0, 1, 1, 0, 0, 1]` into `[0, 0, 0, 1, 0, 1, 1, 1]`, which is not sorted |
| Correctness.SortAtSorts | osn.hpp:181-196 | `sort<n>` for `n` in {0, 1, 2, 3, 4, 5, 7} leaves its `n` elements non-descending |
| Engine.CompareSwap | osn.hpp:30-38 | the conditional-move shape (one comparison, the left value kept aside, two guarded writes) leaves the array as `CompareSwapped` says |
| Engine.CompareSwapByExchange | osn.hpp:39-43 | the `iter_swap` shape leaves the array exactly as the conditional-move shape does |
| Engine.Replay | osn.hpp:191-194 | the loop applies the comparators in listed order to the window from `begin`, and the rest of the array is kept |
| Engine.Sort | osn.hpp:181-196 | `sort<n>` in place: the array becomes `SortAt`; only the window changes; its values are rearranged; a sorted window stays, so `n <= 1` changes nothing; for `n` other than 6 and 8 the window ends sorted |
| Engine.SortRange | osn.hpp:198-230 | `sort(begin, end)` is `sort<n>` for lengths `n` from 2 to 8 and a no-op for every other length (negative included); the range keeps its multiset and ends sorted unless its length is 6 or 8 |

## Left out

- Iterator genericity: the range is an `array<int>` with an offset and a
  length, and the elements are integers under their usual order. Custom
  element types, `<` overloads, `std::iterator_traits`, `std::distance` and
  `std::iter_swap` are not modelled.
- The compile-time choice between the two shapes of `compare_swap`
  (`is_fundamental`, `is_trivial`, the size test) is a performance hint. Both
  shapes are modelled as separate methods with the same postcondition.
- The `depth` constants and `network_traits<N>::depth` are informational and
  unused by the sort. No depth property is stated.
- `alignas` on `index_pair` is a layout concern and is not modelled.
- `static_assert` and `if constexpr` are modelled as preconditions
  (`n <= MaxSupportedArraySize`) and as case splits on `n`.
- Correctness.NetworkSorts: states sortedness only for the tables for 2, 3,
  4, 5 and 7, because the tables for 6 and 8 do not sort. The counterexample
  lemmas record those two.
- Correctness.SortAtSorts: excludes `n` = 6 and `n` = 8 for the same reason.
- Engine.Sort: promises a sorted window only when `n` is neither 6 nor 8.
- Engine.SortRange: promises a sorted range only when its length is neither
  6 nor 8.
