# Calepinage prototype in Dafny

This project models the early prototype of the deck plank-layout routine
("calepinage") in `rust/src/calepinage.rs`. The prototype has three types:

- a `Deck` with a length;
- a `Plank` identified by an id;
- a `PlankHeap` holding planks in order.

It has two operations. `PlankHeap::new(size)` builds the planks `0..size` in
order. `calepine(heap, deck)` returns a layout of exactly one row: the first
`deck.length` planks of the heap.

The model lives in `calepinage.dfy`, module `Calepinage`. The three types are
datatypes, and a layout (`Vec<Vec<Plank>>`) is a `seq<seq<Plank>>`. Both
operations are pure functions. The slice `[0..deck.length]` panics when the
heap is shorter than the deck, so `Calepine` has the precondition
`deck.length <= |heap.planks|`. Rust's `usize` is modelled as `nat`. Every id
the prototype creates is below a `usize` size, so no wrap-around is involved.

## Model

| member | source | states |
|---|---|---|
| Calepinage.NewHeap | rust/src/calepinage.rs:10-13 | a fresh heap of `size` planks holds exactly `size` planks |
| Calepinage.NewHeapIds | rust/src/calepinage.rs:11 | in a fresh heap, the plank at position `i` has id `i` |
| Calepinage.NewHeapIdsIncrease | rust/src/calepinage.rs:11 | the ids of a fresh heap strictly increase, so no plank appears twice |
| Calepinage.NewHeapIsRange | rust/src/calepinage.rs:11-12 | a fresh heap equals the range `0..size` mapped to planks |
| Calepinage.Calepine | rust/src/calepinage.rs:16-18 | with `deck.length` at most the heap size (else the slice panics), the layout has exactly one row; that row has `deck.length` planks, and its plank `i` is plank `i` of the heap |
| Calepinage.CalepineRowIsPrefix | rust/src/calepinage.rs:17 | the row followed by the unused planks is the heap again, so the row uses only heap planks, each at most once |
| Calepinage.CalepineEmptyDeck | rust/src/calepinage.rs:17 | a deck of length 0 gives one empty row |
| Calepinage.CalepineFreshHeap | rust/src/calepinage.rs:11-17 | on a fresh heap of `n >= deck.length` planks, the row holds ids `0 .. deck.length-1` in order, without duplicates |
| Calepinage.CalepineSmallestDeck | rust/tests/calepinageTest.rs:6-14 | a heap of 1 plank on a deck of length 1 gives `[[id 0]]` |
| Calepinage.CalepineTwoPlankDeck | rust/tests/calepinageTest.rs:17-25 | a heap of 2 planks on a deck of length 2 gives `[[id 0, id 1]]` |

## Left out

- The longest-first greedy row filler is left out. So are carry-over of planks between rows, the `NotEnoughPlanks` and `OnlyUnusablePlanksRemaining` errors, and the reversal of alternate rows. `rust/tests/calepinage_test.rs` expects all of these, but their implementation is not part of this model; only the one-row prototype is.
- `PlankHeap::add`, `PlankHeap::from_planks`, `Deck::new`, `Line`, `Calepinage`, `Junction` and `Line::compute_junction` are left out. They appear only in the tests, and their code is not part of this model.
- The junction-adjacency helpers and the QuickCheck generators in `rust/tests/calepinage_test.rs` are test code, not behaviour of the prototype.
- `rust/tests/calepinageTest.rs` names the types `Terrasse`, `TasDePlanches` and `Planche`, which the prototype does not define. Its two expected layouts are used only as the concrete lemmas `CalepineSmallestDeck` and `CalepineTwoPlankDeck`, stated with the prototype's own types.
- The derived `Debug`, `PartialEq` and `Clone` traits and the `.clone()` in `calepine` only copy values, so the model works on values directly.
- The panic of the out-of-range slice is not modelled as an outcome; it is the precondition of `Calepine`.
