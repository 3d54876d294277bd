/** The byte range of something in the source text, and the union of two ranges. */
module Span {
  datatype Span = Span(start: nat, end: nat)

  /** A span whose start does not lie after its end. */
  predicate WellFormed(s: Span) { s.start <= s.end }

  /** `inner` lies within `outer`. */
  predicate Covers(outer: Span, inner: Span) {
    outer.start <= inner.start && inner.end <= outer.end
  }

  /** `a | b`: the smallest start and the largest end of the two spans. */
  function Union(a: Span, b: Span): (r: Span)
    ensures r.start <= a.start && r.start <= b.start
    ensures r.start == a.start || r.start == b.start
    ensures r.end >= a.end && r.end >= b.end
    ensures r.end == a.end || r.end == b.end
  {
    Span(if a.start <= b.start then a.start else b.start,
         if a.end >= b.end then a.end else b.end)
  }

  lemma UnionCommutative(a: Span, b: Span)
    ensures Union(a, b) == Union(b, a)
  {
  }

  lemma UnionIdempotent(a: Span)
    ensures Union(a, a) == a
  {
  }

  lemma UnionAssociative(a: Span, b: Span, c: Span)
    ensures Union(Union(a, b), c) == Union(a, Union(b, c))
  {
  }

  /** The union covers both operands, and is well formed when they are. */
  lemma UnionCovers(a: Span, b: Span)
    ensures Covers(Union(a, b), a) && Covers(Union(a, b), b)
    ensures WellFormed(a) && WellFormed(b) ==> WellFormed(Union(a, b))
  {
  }

  /** Any span covering both operands covers their union: the union is the least such span. */
  lemma UnionLeast(a: Span, b: Span, c: Span)
    requires Covers(c, a) && Covers(c, b)
    ensures Covers(c, Union(a, b))
  {
  }
}
