/** Regrouping of sequence concatenations, stated once for any element
    type, so that proofs about built strings and byte buffers move their
    pieces around by name instead of element by element. */
module Sequences {

  lemma Associate<T>(a: seq<T>, b: seq<T>, c: seq<T>)
    ensures a + b + c == a + (b + c)
  {
  }

  lemma Regroup<T>(a: seq<T>, b: seq<T>, c: seq<T>, d: seq<T>, e: seq<T>)
    ensures a + b + c + d + e == a + (b + c + d + e)
  {
  }

  lemma MoveMiddle<T>(x: seq<T>, v: seq<T>, c: seq<T>, w: seq<T>)
    ensures x + (v + c) + w == (x + v) + (c + w)
  {
  }

  lemma EmptyLeft<T>(a: seq<T>)
    ensures [] + a == a
  {
  }
}
