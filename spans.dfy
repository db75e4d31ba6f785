/** The span matcher `match_span`. */
module Spans {
  import opened Annotations

  /** The two matching policies. `match_span` tests `matching == 'relaxed'`,
      so every other string behaves as strict; batch_agreement admits only
      the two names below. */
  datatype Matching = Strict | Relaxed

  /** The mode check of batch_agreement: only "strict" and "relaxed" pass. */
  function ParseMatching(s: string): (r: Option<Matching>)
    ensures r.Some? <==> s in ["strict", "relaxed"]
    ensures r == Some(Relaxed) <==> s == "relaxed"
  {
    if s == "strict" then Some(Strict)
    else if s == "relaxed" then Some(Relaxed)
    else None
  }

  /** Whether `a1` and `a2` count as the same span. The diagnostic string
      that the source returns alongside is left out. */
  function MatchSpan(a1: Annotation, a2: Annotation, m: Matching): (r: bool)
    // strict matching is exact equality of both offsets
    ensures m == Strict ==> (r <==> a1.start == a2.start && a1.end == a2.end)
    // the exact-match test runs before the mode test, in both modes
    ensures a1.start == a2.start && a1.end == a2.end ==> r
    // on well-formed spans, relaxed matching is closed-interval overlap
    ensures m == Relaxed && a1.start <= a1.end && a2.start <= a2.end ==>
              (r <==> a1.start <= a2.end && a2.start <= a1.end)
  {
    var s1, e1, s2, e2 := a1.start, a1.end, a2.start, a2.end;
    if s1 == s2 && e1 == e2 then true
    else if m == Relaxed then
      if s1 <= s2 && e1 >= e2 then true        // a1 includes a2
      else if s1 >= s2 && e1 <= e2 then true   // a2 includes a1
      else if s1 <= s2 && e1 >= s2 then true   // a1 overlaps the start of a2
      else if s1 >= s2 && s1 <= e2 then true   // a1 starts inside a2
      else false
    else false
  }

  /** Strict matching implies relaxed matching. */
  lemma StrictImpliesRelaxed(a1: Annotation, a2: Annotation)
    ensures MatchSpan(a1, a2, Strict) ==> MatchSpan(a1, a2, Relaxed)
  {
  }

  /** Both policies are symmetric in their two spans, for all offsets, even
      when a span has start > end. */
  lemma MatchSpanSymmetric(a1: Annotation, a2: Annotation, m: Matching)
    ensures MatchSpan(a1, a2, m) == MatchSpan(a2, a1, m)
  {
  }

  /** Spans that only touch (the end of one is the start of the other) match
      under the relaxed policy. */
  lemma TouchingSpansMatch(a1: Annotation, a2: Annotation)
    requires a1.start <= a1.end && a2.start <= a2.end
    requires a1.end == a2.start
    ensures MatchSpan(a1, a2, Relaxed)
  {
  }
}
