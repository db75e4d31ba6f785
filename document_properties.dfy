/** What the two passes of `count_agreements` guarantee: which records end
    up matched, that the second pass never adds a pair, and how the tp, fp
    and fn counts relate to the sizes of the two record sequences. */
module DocumentProperties {
  import opened Annotations
  import opened Spans
  import opened Documents

  /** Some record of `tags2` has a span that `t` matches. */
  predicate HasMatch(t: Annotation, tags2: seq<Annotation>, m: Matching) {
    exists j | 0 <= j < |tags2| :: MatchSpan(t, tags2[j], m)
  }

  /** Some pair of `ps` holds a record equal to `t`. */
  predicate Paired(t: Annotation, ps: seq<Pair>) {
    exists k | 0 <= k < |ps| :: Same(ps[k].tag1, t) || Same(ps[k].tag2, t)
  }

  /** The first records of the pairs, in order. */
  function Tag1s(ps: seq<Pair>): (r: seq<Annotation>)
    ensures |r| == |ps| && forall k | 0 <= k < |ps| :: r[k] == ps[k].tag1
  {
    seq(|ps|, k requires 0 <= k < |ps| => ps[k].tag1)
  }

  /** The second records of the pairs, in order. */
  function Tag2s(ps: seq<Pair>): (r: seq<Annotation>)
    ensures |r| == |ps| && forall k | 0 <= k < |ps| :: r[k] == ps[k].tag2
  {
    seq(|ps|, k requires 0 <= k < |ps| => ps[k].tag2)
  }

  /** A first-pass pair: its first record comes from `tags1`, and its second
      record is the first record of `tags2` that the first one matches. */
  predicate FirstPair(p: Pair, tags1: seq<Annotation>, tags2: seq<Annotation>, m: Matching) {
    var j := FirstFit(p.tag1, tags2, [], m, false, 0);
    p.tag1 in tags1 && !p.second && j.Some? && p.tag2 == tags2[j.value]
  }

  /** The first-pass scan finds a record exactly when some record matches. */
  lemma FirstFitFound(t: Annotation, tags2: seq<Annotation>, m: Matching)
    ensures FirstFit(t, tags2, [], m, false, 0).Some? <==> HasMatch(t, tags2, m)
  {
    var r := FirstFit(t, tags2, [], m, false, 0);
    if r.Some? {
      assert MatchSpan(t, tags2[r.value], m);
    }
  }

  /** Membership in the `matched` list is membership in some pair. */
  lemma {:induction false} MemberFlatten(t: Annotation, ps: seq<Pair>)
    ensures Member(t, Flatten(ps)) <==> Paired(t, ps)
    decreases |ps|
  {
    if ps != [] {
      var init, p := ps[..|ps| - 1], ps[|ps| - 1];
      MemberFlatten(t, init);
      MemberAppend(t, Flatten(init), p.tag1);
      MemberAppend(t, Flatten(init) + [p.tag1], p.tag2);
      assert Flatten(ps) == Flatten(init) + [p.tag1] + [p.tag2];
      if Paired(t, init) {
        var k :| 0 <= k < |init| && (Same(init[k].tag1, t) || Same(init[k].tag2, t));
        assert ps[k] == init[k];
      }
      if Paired(t, ps) {
        var k :| 0 <= k < |ps| && (Same(ps[k].tag1, t) || Same(ps[k].tag2, t));
        if k < |init| {
          assert init[k] == ps[k];
        }
      }
    }
  }

  /** Every pair of the first pass is a first-pass pair. */
  lemma {:induction false} Pass1Shape(tags1: seq<Annotation>, tags2: seq<Annotation>, m: Matching)
    ensures forall k | 0 <= k < |Pass1(tags1, tags2, m)| :: FirstPair(Pass1(tags1, tags2, m)[k], tags1, tags2, m)
    decreases |tags1|
  {
    if tags1 != [] {
      var init, t := tags1[..|tags1| - 1], tags1[|tags1| - 1];
      Pass1Shape(init, tags2, m);
      var before := Pass1(init, tags2, m);
      forall k | 0 <= k < |Pass1(tags1, tags2, m)|
        ensures FirstPair(Pass1(tags1, tags2, m)[k], tags1, tags2, m)
      {
        if k < |before| {
          assert Pass1(tags1, tags2, m)[k] == before[k];
          assert before[k].tag1 in init;
          assert tags1 == init + [t];
        }
      }
    }
  }

  /** A record of `tags1` that matches some record of `tags2` is the first
      record of a first-pass pair. */
  lemma {:induction false} Pass1Covers(tags1: seq<Annotation>, tags2: seq<Annotation>, m: Matching, i: nat)
    requires i < |tags1| && HasMatch(tags1[i], tags2, m)
    ensures Paired(tags1[i], Pass1(tags1, tags2, m))
    decreases |tags1|
  {
    var init, t := tags1[..|tags1| - 1], tags1[|tags1| - 1];
    var before := Pass1(init, tags2, m);
    if i == |tags1| - 1 {
      FirstFitFound(t, tags2, m);
      var j := FirstFit(t, tags2, [], m, false, 0).value;
      assert Pass1(tags1, tags2, m)[|before|] == Pair(t, tags2[j], false);
    } else {
      assert init[i] == tags1[i];
      Pass1Covers(init, tags2, m, i);
      var k :| 0 <= k < |before| && (Same(before[k].tag1, tags1[i]) || Same(before[k].tag2, tags1[i]));
      assert Pass1(tags1, tags2, m)[k] == before[k];
    }
  }

  /** A record of `tags1` that matches some record of `tags2` forms a
      first-pass pair with the first record of `tags2` it matches. */
  lemma {:induction false} Pass1PairOf(tags1: seq<Annotation>, tags2: seq<Annotation>, m: Matching, i: nat)
    requires i < |tags1| && HasMatch(tags1[i], tags2, m)
    ensures FirstFit(tags1[i], tags2, [], m, false, 0).Some?
    ensures exists k | 0 <= k < |Pass1(tags1, tags2, m)| ::
              Pass1(tags1, tags2, m)[k] == Pair(tags1[i], tags2[FirstFit(tags1[i], tags2, [], m, false, 0).value], false)
    decreases |tags1|
  {
    FirstFitFound(tags1[i], tags2, m);
    var init, t := tags1[..|tags1| - 1], tags1[|tags1| - 1];
    var before := Pass1(init, tags2, m);
    var j := FirstFit(tags1[i], tags2, [], m, false, 0).value;
    if i == |tags1| - 1 {
      assert Pass1(tags1, tags2, m)[|before|] == Pair(t, tags2[j], false);
    } else {
      assert init[i] == tags1[i];
      Pass1PairOf(init, tags2, m, i);
      var k :| 0 <= k < |before| && before[k] == Pair(tags1[i], tags2[j], false);
      assert Pass1(tags1, tags2, m)[k] == before[k];
    }
  }

  /** Anything in the first pass's `matched` list matches some record of
      `tags2`: equal records have equal spans. */
  lemma Pass1Sound(tags1: seq<Annotation>, tags2: seq<Annotation>, m: Matching, x: Annotation)
    requires Member(x, Flatten(Pass1(tags1, tags2, m)))
    ensures HasMatch(x, tags2, m)
  {
    var ps := Pass1(tags1, tags2, m);
    MemberFlatten(x, ps);
    Pass1Shape(tags1, tags2, m);
    var k :| 0 <= k < |ps| && (Same(ps[k].tag1, x) || Same(ps[k].tag2, x));
    var j := FirstFit(ps[k].tag1, tags2, [], m, false, 0).value;
    assert MatchSpan(ps[k].tag1, tags2[j], m);
    assert MatchSpan(x, tags2[j], m);
  }

  /** After the first pass a record of `tags1` is matched exactly when its
      span matches some record of `tags2`. */
  lemma Pass1Matched(tags1: seq<Annotation>, tags2: seq<Annotation>, m: Matching, i: nat)
    requires i < |tags1|
    ensures Member(tags1[i], Flatten(Pass1(tags1, tags2, m))) <==> HasMatch(tags1[i], tags2, m)
  {
    if HasMatch(tags1[i], tags2, m) {
      Pass1Covers(tags1, tags2, m, i);
      MemberFlatten(tags1[i], Pass1(tags1, tags2, m));
    }
    if Member(tags1[i], Flatten(Pass1(tags1, tags2, m))) {
      Pass1Sound(tags1, tags2, m, tags1[i]);
    }
  }

  /** The second pass over a prefix of `tags2` adds nothing. */
  lemma {:induction false} Pass2InertPrefix(tags1: seq<Annotation>, tags2: seq<Annotation>, m: Matching, n: nat)
    requires n <= |tags2|
    ensures Pass2(Pass1(tags1, tags2, m), tags1, tags2[..n], m) == Pass1(tags1, tags2, m)
    decreases n
  {
    var ps := Pass1(tags1, tags2, m);
    if n == 0 {
      assert tags2[..0] == [];
    } else {
      Pass2InertPrefix(tags1, tags2, m, n - 1);
      Pass2Snoc(ps, tags1, tags2, m, n - 1);
      var t := tags2[n - 1];
      if !Member(t, Flatten(ps)) {
        var r := FirstFit(t, tags1, Flatten(ps), m, true, 0);
        if r.Some? {
          var k := r.value;
          MatchSpanSymmetric(t, tags1[k], m);
          assert MatchSpan(tags1[k], tags2[n - 1], m);
          Pass1Matched(tags1, tags2, m, k);
          assert false;
        }
      }
    }
  }

  /** The second pass never adds a pair: every record of `tags1` that the
      span of an unmatched record of `tags2` meets was matched already. */
  lemma Pass2Inert(tags1: seq<Annotation>, tags2: seq<Annotation>, m: Matching)
    ensures Pairs(tags1, tags2, m) == Pass1(tags1, tags2, m)
  {
    Pass2InertPrefix(tags1, tags2, m, |tags2|);
    assert tags2[..|tags2|] == tags2;
  }

  /** The first records of the first pass are, in order, the records of
      `tags1` that end up matched. */
  lemma {:induction false} Tag1sPrefix(tags1: seq<Annotation>, tags2: seq<Annotation>, m: Matching, n: nat)
    requires n <= |tags1|
    ensures Tag1s(Pass1(tags1[..n], tags2, m)) == Filter(tags1[..n], Flatten(Pass1(tags1, tags2, m)), true)
    decreases n
  {
    var matched := Flatten(Pass1(tags1, tags2, m));
    if n == 0 {
      assert tags1[..0] == [];
    } else {
      var i := n - 1;
      var before := Pass1(tags1[..i], tags2, m);
      Tag1sPrefix(tags1, tags2, m, i);
      Pass1Snoc(tags1, tags2, m, i);
      FilterSnoc(tags1, matched, true, i);
      Pass1Matched(tags1, tags2, m, i);
      Tag1sStep1(before, tags1[i], tags2, m);
      assert Pass1(tags1[..n], tags2, m) == Step1(before, tags1[i], tags2, m);
    }
  }

  /** One step of the first pass adds `t` to the first records exactly when
      `t` matches some record. */
  lemma Tag1sStep1(ps: seq<Pair>, t: Annotation, tags2: seq<Annotation>, m: Matching)
    ensures Tag1s(Step1(ps, t, tags2, m)) == if HasMatch(t, tags2, m) then Tag1s(ps) + [t] else Tag1s(ps)
  {
    FirstFitFound(t, tags2, m);
    var r := FirstFit(t, tags2, [], m, false, 0);
    if r.Some? {
      assert Tag1s(ps + [Pair(t, tags2[r.value], false)]) == Tag1s(ps) + [t];
    }
  }

  /** The kept and the dropped records of a filter together are the whole
      sequence. */
  lemma {:induction false} FilterPartition(s: seq<Annotation>, matched: seq<Annotation>)
    ensures |Filter(s, matched, true)| + |Filter(s, matched, false)| == |s|
    ensures forall x | x in s :: if Member(x, matched) then x in Filter(s, matched, true) else x in Filter(s, matched, false)
    decreases |s|
  {
    if s != [] {
      var init := s[..|s| - 1];
      FilterPartition(init, matched);
      assert s == init + [s[|s| - 1]];
    }
  }

  /** Filtering keeps records pairwise different. */
  lemma {:induction false} FilterDistinct(s: seq<Annotation>, matched: seq<Annotation>, present: bool)
    requires Distinct(s)
    ensures Distinct(Filter(s, matched, present))
    decreases |s|
  {
    if s != [] {
      var init, x := s[..|s| - 1], s[|s| - 1];
      assert Distinct(init) by {
        forall i, j | 0 <= i < j < |init| ensures !Same(init[i], init[j]) {
          assert init[i] == s[i] && init[j] == s[j];
        }
      }
      FilterDistinct(init, matched, present);
      var before := Filter(init, matched, present);
      if Member(x, matched) == present {
        forall i, j | 0 <= i < j < |before + [x]| ensures !Same((before + [x])[i], (before + [x])[j]) {
          if j == |before| {
            var i' :| 0 <= i' < |init| && init[i'] == before[i];
            assert s[i'] == init[i'];
          }
        }
      }
    }
  }

  /** At most one record of a sequence of pairwise different records equals
      a given one. */
  lemma AtMostOneSame(u: seq<Annotation>, p: Annotation)
    requires Distinct(u)
    requires forall i | 0 <= i < |u| :: Same(p, u[i])
    ensures |u| <= 1
  {
    if |u| >= 2 {
      SameTwice(u, p);
      assert false;
    }
  }

  lemma SameTwice(u: seq<Annotation>, p: Annotation)
    ensures |u| >= 2 && Same(p, u[0]) && Same(p, u[1]) ==> Same(u[0], u[1])
  {
  }

  lemma NotMemberOfEmpty(u: seq<Annotation>)
    ensures |u| > 0 ==> !Member(u[0], [])
  {
  }

  /** Pigeonhole: pairwise different records that all occur in `s` are no
      more than the records of `s`. */
  lemma {:induction false} Pigeonhole(u: seq<Annotation>, s: seq<Annotation>)
    requires Distinct(u)
    requires forall i | 0 <= i < |u| :: Member(u[i], s)
    ensures |u| <= |s|
    decreases |s|
  {
    if s == [] {
      if u != [] {
        NotMemberOfEmpty(u);
        assert false;
      }
    } else {
      var init, p := s[..|s| - 1], s[|s| - 1];
      assert s == init + [p];
      var rest, hit := Filter(u, [p], false), Filter(u, [p], true);
      FilterPartition(u, [p]);
      FilterDistinct(u, [p], false);
      FilterDistinct(u, [p], true);
      forall i | 0 <= i < |rest| ensures Member(rest[i], init) {
        var i' :| 0 <= i' < |u| && u[i'] == rest[i];
        MemberAppend(rest[i], init, p);
        MemberAppend(rest[i], [], p);
        assert [] + [p] == [p];
      }
      Pigeonhole(rest, init);
      forall i | 0 <= i < |hit| ensures Same(p, hit[i]) {
        MemberAppend(hit[i], [], p);
        assert [] + [p] == [p];
      }
      AtMostOneSame(hit, p);
    }
  }

  /** `t` first matches the record of `tags2` at index `j`. */
  predicate FirstMatchAt(t: Annotation, tags2: seq<Annotation>, m: Matching, j: nat) {
    j < |tags2| && MatchSpan(t, tags2[j], m) && forall i | 0 <= i < j :: !MatchSpan(t, tags2[i], m)
  }

  /** Every pair comes from the first pass: its first record is a record of
      `tags1`, and its second record is the first record of `tags2` whose
      span the first one matches, taken whether or not it was matched
      before. */
  lemma PairsAreFirstMatches(tags1: seq<Annotation>, tags2: seq<Annotation>, m: Matching)
    ensures forall k | 0 <= k < |Pairs(tags1, tags2, m)| ::
              var p := Pairs(tags1, tags2, m)[k];
              p.tag1 in tags1 && !p.second &&
              exists j | 0 <= j < |tags2| :: p.tag2 == tags2[j] && FirstMatchAt(p.tag1, tags2, m, j)
  {
    Pass2Inert(tags1, tags2, m);
    Pass1Shape(tags1, tags2, m);
    var ps := Pairs(tags1, tags2, m);
    forall k | 0 <= k < |ps|
      ensures exists j | 0 <= j < |tags2| :: ps[k].tag2 == tags2[j] && FirstMatchAt(ps[k].tag1, tags2, m, j)
    {
      var j := FirstFit(ps[k].tag1, tags2, [], m, false, 0).value;
      assert FirstMatchAt(ps[k].tag1, tags2, m, j);
    }
  }

  /** A record of `tags1` ends up matched exactly when its span matches some
      record of `tags2`. */
  lemma MatchedIffHasMatch(tags1: seq<Annotation>, tags2: seq<Annotation>, m: Matching, i: nat)
    requires i < |tags1|
    ensures Member(tags1[i], Flatten(Pairs(tags1, tags2, m))) <==> HasMatch(tags1[i], tags2, m)
  {
    Pass2Inert(tags1, tags2, m);
    Pass1Matched(tags1, tags2, m, i);
  }

  /** The missing records are the records of `tags1` whose span matches no
      record of `tags2`. */
  lemma MissingMatchNothing(tags1: seq<Annotation>, tags2: seq<Annotation>, m: Matching)
    ensures forall x | x in Filter(tags1, Flatten(Pairs(tags1, tags2, m)), false) ::
              forall j | 0 <= j < |tags2| :: !MatchSpan(x, tags2[j], m)
  {
    var missing := Filter(tags1, Flatten(Pairs(tags1, tags2, m)), false);
    forall x | x in missing
      ensures forall j | 0 <= j < |tags2| :: !MatchSpan(x, tags2[j], m)
    {
      var i :| 0 <= i < |tags1| && tags1[i] == x;
      MatchedIffHasMatch(tags1, tags2, m, i);
    }
  }

  /** A spurious record of `tags2` may well overlap records of `tags1`, but
      only records that are matched already, each with an earlier record of
      `tags2`, which is why the second pass finds nothing to pair it with. */
  lemma SpuriousMeetsOnlyMatched(tags1: seq<Annotation>, tags2: seq<Annotation>, m: Matching)
    ensures forall y, i | y in Filter(tags2, Flatten(Pairs(tags1, tags2, m)), false) && 0 <= i < |tags1| ::
              MatchSpan(tags1[i], y, m) ==> Member(tags1[i], Flatten(Pairs(tags1, tags2, m)))
    ensures forall b, i | 0 <= b < |tags2| && tags2[b] in Filter(tags2, Flatten(Pairs(tags1, tags2, m)), false) &&
                          0 <= i < |tags1| && MatchSpan(tags1[i], tags2[b], m) ::
              exists k, j | 0 <= k < |Pairs(tags1, tags2, m)| && 0 <= j < b ::
                Pairs(tags1, tags2, m)[k] == Pair(tags1[i], tags2[j], false)
  {
    var ps := Pairs(tags1, tags2, m);
    var spurious := Filter(tags2, Flatten(ps), false);
    forall y, i | y in spurious && 0 <= i < |tags1| && MatchSpan(tags1[i], y, m)
      ensures Member(tags1[i], Flatten(ps))
    {
      var j :| 0 <= j < |tags2| && tags2[j] == y;
      assert HasMatch(tags1[i], tags2, m);
      MatchedIffHasMatch(tags1, tags2, m, i);
    }
    forall b, i | 0 <= b < |tags2| && tags2[b] in spurious && 0 <= i < |tags1| && MatchSpan(tags1[i], tags2[b], m)
      ensures exists k, j | 0 <= k < |ps| && 0 <= j < b :: ps[k] == Pair(tags1[i], tags2[j], false)
    {
      assert HasMatch(tags1[i], tags2, m);
      Pass2Inert(tags1, tags2, m);
      Pass1PairOf(tags1, tags2, m, i);
      var j := FirstFit(tags1[i], tags2, [], m, false, 0).value;
      var k :| 0 <= k < |ps| && ps[k] == Pair(tags1[i], tags2[j], false);
      assert Same(ps[k].tag2, tags2[j]);
      MemberFlatten(tags2[j], ps);
      assert !Member(tags2[b], Flatten(ps));
      assert j < b;
    }
  }

  /** The pairs list, in order, the records of `tags1` that end up matched,
      one pair per record. */
  lemma Tag1sOfPairs(tags1: seq<Annotation>, tags2: seq<Annotation>, m: Matching)
    ensures Tag1s(Pairs(tags1, tags2, m)) == Filter(tags1, Flatten(Pairs(tags1, tags2, m)), true)
  {
    Pass2Inert(tags1, tags2, m);
    Tag1sPrefix(tags1, tags2, m, |tags1|);
    assert tags1[..|tags1|] == tags1;
  }

  /** No record of `tags1` is paired twice when the records of `tags1` are
      pairwise different. */
  lemma EachTag1Once(tags1: seq<Annotation>, tags2: seq<Annotation>, m: Matching)
    requires Distinct(tags1)
    ensures forall i, j | 0 <= i < j < |Pairs(tags1, tags2, m)| ::
              !Same(Pairs(tags1, tags2, m)[i].tag1, Pairs(tags1, tags2, m)[j].tag1)
  {
    var ps := Pairs(tags1, tags2, m);
    Tag1sOfPairs(tags1, tags2, m);
    FilterDistinct(tags1, Flatten(ps), true);
    forall i, j | 0 <= i < j < |ps| ensures !Same(ps[i].tag1, ps[j].tag1) {
      assert Tag1s(ps)[i] == ps[i].tag1 && Tag1s(ps)[j] == ps[j].tag1;
    }
  }

  /** The counts of `count_agreements`: one tp per pair, one fp per record
      of `tags2` outside `matched`, one fn per record of `tags1` outside it. */
  lemma AgreementCounts(tags1: seq<Annotation>, tags2: seq<Annotation>, report: seq<Line>, m: Matching, vocab: set<string>)
    ensures Agreement(tags1, tags2, report, m, vocab).tp == |Pairs(tags1, tags2, m)|
    ensures Agreement(tags1, tags2, report, m, vocab).fp == |Filter(tags2, Flatten(Pairs(tags1, tags2, m)), false)|
    ensures Agreement(tags1, tags2, report, m, vocab).fn == |Filter(tags1, Flatten(Pairs(tags1, tags2, m)), false)|
  {
    AccShape(Pairs(tags1, tags2, m), report + [Heading(MatchingSection)], vocab);
  }

  /** Every record of `tags1` is counted exactly once, as a tp or as a fn:
      tp + fn == |tags1|, whatever the records. */
  lemma TpPlusFnIsFirstCount(tags1: seq<Annotation>, tags2: seq<Annotation>, report: seq<Line>, m: Matching, vocab: set<string>)
    ensures Agreement(tags1, tags2, report, m, vocab).tp + Agreement(tags1, tags2, report, m, vocab).fn == |tags1|
  {
    var ps := Pairs(tags1, tags2, m);
    AccShape(ps, report + [Heading(MatchingSection)], vocab);
    Tag1sOfPairs(tags1, tags2, m);
    FilterPartition(tags1, Flatten(ps));
  }

  /** Every record of `tags2` is counted at least once, as a tp or as a fp:
      tp + fp >= |tags2| when the records of `tags2` are pairwise different
      and none equals a record of `tags1`. The count can exceed |tags2|,
      because several records of `tags1` may take one record of `tags2`. */
  lemma TpPlusFpCoversSecond(tags1: seq<Annotation>, tags2: seq<Annotation>, report: seq<Line>, m: Matching, vocab: set<string>)
    requires Distinct(tags2) && Disjoint(tags1, tags2)
    ensures Agreement(tags1, tags2, report, m, vocab).tp + Agreement(tags1, tags2, report, m, vocab).fp >= |tags2|
  {
    var ps := Pairs(tags1, tags2, m);
    var matched := Flatten(ps);
    Pass2Inert(tags1, tags2, m);
    Pass1Shape(tags1, tags2, m);
    AccShape(ps, report + [Heading(MatchingSection)], vocab);
    var kept := Filter(tags2, matched, true);
    FilterPartition(tags2, matched);
    FilterDistinct(tags2, matched, true);
    forall i | 0 <= i < |kept| ensures Member(kept[i], Tag2s(ps)) {
      var y := kept[i];
      MemberFlatten(y, ps);
      var k :| 0 <= k < |ps| && (Same(ps[k].tag1, y) || Same(ps[k].tag2, y));
      assert FirstPair(ps[k], tags1, tags2, m);
      var a :| 0 <= a < |tags1| && tags1[a] == ps[k].tag1;
      var b :| 0 <= b < |tags2| && tags2[b] == y;
      assert !Same(tags1[a], tags2[b]);
      assert Tag2s(ps)[k] == ps[k].tag2;
    }
    Pigeonhole(kept, Tag2s(ps));
  }

  /** Two records of `tags1` on the span of the one record of `tags2` both
      take it in the first pass, since equal spans match in either mode. */
  lemma SharedPartnerPairs(a: Annotation, b: Annotation, c: Annotation, m: Matching)
    requires a.start == b.start == c.start && a.end == b.end == c.end
    ensures Pairs([a, b], [c], m) == [Pair(a, c, false), Pair(b, c, false)]
  {
    var tags1, tags2 := [a, b], [c];
    assert FirstFit(a, tags2, [], m, false, 0) == Some(0);
    assert FirstFit(b, tags2, [], m, false, 0) == Some(0);
    assert tags1[..1] == [a];
    assert Pass1([a], tags2, m) == [Pair(a, c, false)];
    Pass2Inert(tags1, tags2, m);
  }

  /** The bound on tp + fp is not an equality: two different records of
      `tags1` on one span both take the single record of `tags2` on that
      span in either mode, so tp == 2 while |tags2| == 1, with no fp
      and no fn. */
  lemma SharedPartnerCountsTwice(a: Annotation, b: Annotation, c: Annotation, m: Matching, vocab: set<string>)
    requires a.start == b.start == c.start && a.end == b.end == c.end
    requires Distinct([a, b]) && Disjoint([a, b], [c])
    ensures Agreement([a, b], [c], [], m, vocab).tp == 2
    ensures Agreement([a, b], [c], [], m, vocab).fp == 0
    ensures Agreement([a, b], [c], [], m, vocab).fn == 0
  {
    var tags1, tags2 := [a, b], [c];
    SharedPartnerPairs(a, b, c, m);
    var ps := Pairs(tags1, tags2, m);
    var matched := Flatten(ps);
    AgreementCounts(tags1, tags2, [], m, vocab);
    TpPlusFnIsFirstCount(tags1, tags2, [], m, vocab);
    assert Same(ps[0].tag2, c);
    MemberFlatten(c, ps);
    FilterSnoc(tags2, matched, false, 0);
    assert tags2[..1] == tags2 && tags2[..0] == [];
    assert Filter(tags2, matched, false) == [];
  }
}
