/** Time spans and the test that decides whether two of them overlap
    (clinic/common.py, `are_not_spans_intersected`). */
module Spans {
  import opened Clock

  /** The `[start, end]` pair an appointment occupies on its day. */
  datatype Span = Span(start: Time, end: Time)

  predicate WellFormed(s: Span) {
    s.start <= s.end
  }

  /** The span occupies instant `t`, both ends included. */
  predicate Covers(s: Span, t: int) {
    s.start <= t <= s.end
  }

  /** True when one span lies strictly after or strictly before the other:
      spans that merely share an end instant are reported as overlapping. */
  function AreNotSpansIntersected(a: Span, b: Span): bool {
    a.start > b.end || a.end < b.start
  }

  /** For well-formed spans the test holds exactly when no instant belongs
      to both closed spans; it is symmetric, and spans that touch at an
      end instant are reported as intersecting. */
  lemma DisjointIffNoCommonInstant(a: Span, b: Span)
    requires WellFormed(a) && WellFormed(b)
    ensures AreNotSpansIntersected(a, b) <==> forall t :: !(Covers(a, t) && Covers(b, t))
    ensures AreNotSpansIntersected(a, b) == AreNotSpansIntersected(b, a)
    ensures a.start == b.end || a.end == b.start ==> !AreNotSpansIntersected(a, b)
  {
    if !AreNotSpansIntersected(a, b) {
      var t := if a.start < b.start then b.start else a.start;
      assert Covers(a, t) && Covers(b, t);
    }
  }
}
