/**
 * The plank-layout ("calepinage") prototype: a heap of planks numbered in
 * order, and a layout routine that lays the first `deck.length` planks of the
 * heap as a single row.
 *
 * Rust's `usize` is modelled as `nat`; every id produced is below a `usize`
 * size, so no wrap-around can occur in the modelled code.
 */
module Calepinage {

  /** The surface to cover; the prototype only knows its length, in planks. */
  datatype Deck = Deck(length: nat)

  /** A plank, identified by its position in the heap it was created in. */
  datatype Plank = Plank(id: nat)

  /** The planks available for a layout, in heap order. */
  datatype PlankHeap = PlankHeap(planks: seq<Plank>)

  /** A layout is a sequence of rows, each row a sequence of planks. */
  type Layout = seq<seq<Plank>>

  /** True when no two positions of `planks` hold the same plank. */
  predicate Distinct(planks: seq<Plank>)
  {
    forall i, j :: 0 <= i < j < |planks| ==> planks[i] != planks[j]
  }

  /**
   * `PlankHeap::new(size)`: the planks `0..size`, collected in order.
   * Written as the range grown at its upper end, one plank per step.
   */
  function NewHeap(size: nat): (heap: PlankHeap)
    ensures |heap.planks| == size
  {
    if size == 0 then PlankHeap([])
    else PlankHeap(NewHeap(size - 1).planks + [Plank(size - 1)])
  }

  /** The plank at position `i` of a fresh heap has id `i`. */
  lemma {:induction false} NewHeapIds(size: nat, i: nat)
    requires i < size
    ensures NewHeap(size).planks[i] == Plank(i)
  {
    if i < size - 1 {
      NewHeapIds(size - 1, i);
    }
  }

  /** A fresh heap lists its ids in strictly increasing order, hence without duplicates. */
  lemma NewHeapIdsIncrease(size: nat)
    ensures forall i, j :: 0 <= i < j < size ==>
      NewHeap(size).planks[i].id < NewHeap(size).planks[j].id
    ensures Distinct(NewHeap(size).planks)
  {
    forall i | 0 <= i < size {
      NewHeapIds(size, i);
    }
  }

  /** A fresh heap is exactly the range `0..size`, plank by plank. */
  lemma NewHeapIsRange(size: nat)
    ensures NewHeap(size).planks == seq(size, i requires 0 <= i => Plank(i))
  {
  }

  /**
   * `calepine(heap, deck)`: a layout of one row made of the first
   * `deck.length` planks of the heap. The source slices `[0..deck.length]`,
   * which panics when the heap is shorter than the deck; that is the
   * precondition here.
   */
  function Calepine(heap: PlankHeap, deck: Deck): (layout: Layout)
    requires deck.length <= |heap.planks|
    ensures |layout| == 1
    ensures |layout[0]| == deck.length
    ensures forall i :: 0 <= i < deck.length ==> layout[0][i] == heap.planks[i]
  {
    [heap.planks[0..deck.length]]
  }

  /**
   * The row is a prefix of the heap: putting the planks left over after it
   * back behind it gives the heap again, so every plank of the row comes
   * from the heap and none is used twice.
   */
  lemma CalepineRowIsPrefix(heap: PlankHeap, deck: Deck)
    requires deck.length <= |heap.planks|
    ensures Calepine(heap, deck)[0] + heap.planks[deck.length..] == heap.planks
    ensures multiset(Calepine(heap, deck)[0]) <= multiset(heap.planks)
  {
  }

  /** On a deck of length zero the layout is one empty row. */
  lemma CalepineEmptyDeck(heap: PlankHeap)
    ensures Calepine(heap, Deck(0)) == [[]]
  {
  }

  /**
   * On a fresh heap of `n` planks, the single row holds the planks with ids
   * `0, 1, ..., deck.length - 1`: the fresh heap of `deck.length` planks.
   */
  lemma CalepineFreshHeap(n: nat, deck: Deck)
    requires deck.length <= n
    ensures Calepine(NewHeap(n), deck) == [NewHeap(deck.length).planks]
    ensures Distinct(Calepine(NewHeap(n), deck)[0])
  {
    var row := Calepine(NewHeap(n), deck)[0];
    forall i | 0 <= i < deck.length
      ensures row[i] == NewHeap(deck.length).planks[i]
    {
      NewHeapIds(n, i);
      NewHeapIds(deck.length, i);
    }
    assert row == NewHeap(deck.length).planks;
    NewHeapIdsIncrease(deck.length);
  }

  /** A one-plank heap on a one-plank deck gives the row `[id 0]`. */
  lemma CalepineSmallestDeck()
    ensures Calepine(NewHeap(1), Deck(1)) == [[Plank(0)]]
  {
    CalepineFreshHeap(1, Deck(1));
    NewHeapIds(1, 0);
    assert NewHeap(1).planks == [Plank(0)];
  }

  /** A two-plank heap on a two-plank deck gives the row `[id 0, id 1]`. */
  lemma CalepineTwoPlankDeck()
    ensures Calepine(NewHeap(2), Deck(2)) == [[Plank(0), Plank(1)]]
  {
    CalepineFreshHeap(2, Deck(2));
    NewHeapIds(2, 0);
    NewHeapIds(2, 1);
    assert NewHeap(2).planks == [Plank(0), Plank(1)];
  }
}
