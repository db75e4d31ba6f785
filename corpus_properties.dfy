/** What `batch_agreement` guarantees: the mode check comes first, the
    totals are sums of the per-document results over every pair of files
    with equal base names, and the vectors stay in lockstep. */
module CorpusProperties {
  import opened Annotations
  import opened Spans
  import opened Attributes
  import opened Metrics
  import opened Documents
  import opened DocumentProperties
  import opened Corpus

  datatype Counts = Counts(tp: nat, fp: nat, fn: nat)

  /** The counts of one compared pair of files, read off its pairs and
      its unmatched records; no report takes part. */
  function DocCounts(c: Couple, m: Matching): Counts {
    var ps := Pairs(c.file1.records, c.file2.records, m);
    Counts(|ps|, |Filter(c.file2.records, Flatten(ps), false)|, |Filter(c.file1.records, Flatten(ps), false)|)
  }

  /** The counts of the pairs `cs`, added up. */
  function SumCounts(cs: seq<Couple>, m: Matching): Counts
    decreases |cs|
  {
    if cs == [] then Counts(0, 0, 0)
    else
      var s, d := SumCounts(cs[..|cs| - 1], m), DocCounts(cs[|cs| - 1], m);
      Counts(s.tp + d.tp, s.fp + d.fp, s.fn + d.fn)
  }

  /** The number of records on the first side of the pairs `cs`. */
  function FirstRecords(cs: seq<Couple>): nat
    decreases |cs|
  {
    if cs == [] then 0 else FirstRecords(cs[..|cs| - 1]) + |cs[|cs| - 1].file1.records|
  }

  /** The number of records on the second side of the pairs `cs`. */
  function SecondRecords(cs: seq<Couple>): nat
    decreases |cs|
  {
    if cs == [] then 0 else SecondRecords(cs[..|cs| - 1]) + |cs[|cs| - 1].file2.records|
  }

  /** `tp_g`, `fp_g` and `fn_g` are the starting counts plus the sums of the
      per-document counts. */
  lemma {:induction false} FoldCounts(t0: Totals, cs: seq<Couple>, m: Matching, vocab: set<string>)
    ensures Fold(t0, cs, m, vocab).tp == t0.tp + SumCounts(cs, m).tp
    ensures Fold(t0, cs, m, vocab).fp == t0.fp + SumCounts(cs, m).fp
    ensures Fold(t0, cs, m, vocab).fn == t0.fn + SumCounts(cs, m).fn
    decreases |cs|
  {
    if cs != [] {
      var prev, c := Fold(t0, cs[..|cs| - 1], m, vocab), cs[|cs| - 1];
      FoldCounts(t0, cs[..|cs| - 1], m, vocab);
      AgreementCounts(c.file1.records, c.file2.records, prev.report + [FilePair(c.file1.path, c.file2.path)], m, vocab);
    }
  }

  /** Over the compared pairs, every record of the first side is counted
      once, as a tp or as a fn. */
  lemma {:induction false} SumCountsCoverFirst(cs: seq<Couple>, m: Matching)
    ensures SumCounts(cs, m).tp + SumCounts(cs, m).fn == FirstRecords(cs)
    decreases |cs|
  {
    if cs != [] {
      var c := cs[|cs| - 1];
      SumCountsCoverFirst(cs[..|cs| - 1], m);
      AgreementCounts(c.file1.records, c.file2.records, [], m, {});
      TpPlusFnIsFirstCount(c.file1.records, c.file2.records, [], m, {});
    }
  }

  /** Over the compared pairs, every record of the second side is counted
      at least once, as a tp or as a fp, when within each pair the second
      records are pairwise different and equal no first record. */
  lemma {:induction false} SumCountsCoverSecond(cs: seq<Couple>, m: Matching)
    requires forall k | 0 <= k < |cs| :: Distinct(cs[k].file2.records) && Disjoint(cs[k].file1.records, cs[k].file2.records)
    ensures SumCounts(cs, m).tp + SumCounts(cs, m).fp >= SecondRecords(cs)
    decreases |cs|
  {
    if cs != [] {
      var init, c := cs[..|cs| - 1], cs[|cs| - 1];
      forall k | 0 <= k < |init|
        ensures Distinct(init[k].file2.records) && Disjoint(init[k].file1.records, init[k].file2.records)
      {
        assert init[k] == cs[k];
      }
      SumCountsCoverSecond(init, m);
      AgreementCounts(c.file1.records, c.file2.records, [], m, {});
      TpPlusFpCoversSecond(c.file1.records, c.file2.records, [], m, {});
    }
  }

  /** The tallies of one compared pair of files; neither the report nor the
      vocabulary takes part. */
  function DocTallies(c: Couple, m: Matching): map<string, Tally> {
    AccOf(Pairs(c.file1.records, c.file2.records, m), [], {}).agr
  }

  /** The tallies of one attribute over the pairs `cs`, added up. */
  function SumTally(cs: seq<Couple>, m: Matching, a: string): Tally
    decreases |cs|
  {
    if cs == [] then NoCounts() else Add(SumTally(cs[..|cs| - 1], m, a), Lookup(DocTallies(cs[|cs| - 1], m), a))
  }

  /** The tallies of the bookkeeping depend on the pairs alone. */
  lemma {:induction false} AccTalliesIndependent(ps: seq<Pair>, out0: seq<Line>, vocab: set<string>)
    ensures AccOf(ps, out0, vocab).agr == AccOf(ps, [], {}).agr
    decreases |ps|
  {
    if ps != [] {
      AccTalliesIndependent(ps[..|ps| - 1], out0, vocab);
    }
  }

  /** Comparing one more pair of files merges its tallies in. */
  lemma AbsorbTallies(t: Totals, c: Couple, m: Matching, vocab: set<string>)
    ensures Absorb(t, c, m, vocab).agr == MergeAgr(t.agr, DocTallies(c, m))
  {
    var report := t.report + [FilePair(c.file1.path, c.file2.path)];
    AccTalliesIndependent(Pairs(c.file1.records, c.file2.records, m), report + [Heading(MatchingSection)], vocab);
  }

  lemma FoldTallyStep(t0: Totals, cs: seq<Couple>, m: Matching, vocab: set<string>, a: string)
    requires cs != []
    ensures Lookup(Fold(t0, cs, m, vocab).agr, a) ==
            Add(Lookup(Fold(t0, cs[..|cs| - 1], m, vocab).agr, a), Lookup(DocTallies(cs[|cs| - 1], m), a))
  {
    var prev, c := Fold(t0, cs[..|cs| - 1], m, vocab), cs[|cs| - 1];
    AbsorbTallies(prev, c, m, vocab);
    LookupMerge(prev.agr, DocTallies(c, m), a);
  }

  /** `attr_agr_g` is the Counter sum of the per-document tallies: for every
      attribute, its counts are the starting counts plus the sum of its
      counts in each compared pair of files. */
  lemma {:induction false} FoldTallies(t0: Totals, cs: seq<Couple>, m: Matching, vocab: set<string>, a: string)
    ensures Lookup(Fold(t0, cs, m, vocab).agr, a) == Add(Lookup(t0.agr, a), SumTally(cs, m, a))
    decreases |cs|
  {
    if cs != [] {
      var init := cs[..|cs| - 1];
      FoldTallies(t0, init, m, vocab, a);
      FoldTallyStep(t0, cs, m, vocab, a);
      var start, before, doc := Lookup(t0.agr, a), SumTally(init, m, a), Lookup(DocTallies(cs[|cs| - 1], m), a);
      assert SumTally(cs, m, a) == Add(before, doc);
      AddAssociative(start, before, doc);
    }
  }

  /** A mode other than "strict" or "relaxed" is rejected with a
      ValueError, and only such a mode is; the vocabulary is then left as
      it was. */
  lemma BatchModeCheck(files1: seq<CorpusFile>, files2: seq<CorpusFile>, matching: string, compareAttributes: bool,
                       prior: set<string>)
    ensures Batch(files1, files2, matching, compareAttributes, prior) == Failure(InvalidMatching(matching)) <==>
              matching != "strict" && matching != "relaxed"
    ensures matching != "strict" && matching != "relaxed" ==> BatchAttrs(files1, files2, matching, prior) == prior
  {
  }

  /** The vocabulary after `batch_agreement` keeps everything it held and
      gains no ignored name. */
  lemma BatchVocabulary(files1: seq<CorpusFile>, files2: seq<CorpusFile>, matching: string, prior: set<string>)
    ensures prior <= BatchAttrs(files1, files2, matching, prior)
    ensures forall a | a in IgnoreAttrs && a in BatchAttrs(files1, files2, matching, prior) :: a in prior
  {
    forall a | a in IgnoreAttrs && a in BatchAttrs(files1, files2, matching, prior)
      ensures a in prior
    {
      VocabularyMembers(files1, a);
      VocabularyMembers(files2, a);
    }
  }

  /** On a valid mode, `batch_agreement` fails exactly when `prf` divides
      by zero on the totals of every pair of files with equal base names;
      otherwise it returns those totals and `prf` of them as the spans
      scores. */
  lemma BatchOutcome(files1: seq<CorpusFile>, files2: seq<CorpusFile>, matching: string, compareAttributes: bool,
                     prior: set<string>)
    requires matching == "strict" || matching == "relaxed"
    ensures var t := Fold(Opening(), Joined(files1, files2), ParseMatching(matching).value,
                          prior + Vocabulary(files1) + Vocabulary(files2));
            var r := Batch(files1, files2, matching, compareAttributes, prior);
            && (r.Failure? <==> t.tp == 0 && t.fp > 0 && t.fn > 0)
            && (r.Failure? ==> r.error == ZeroDivision)
            && (r.Success? ==> r.value.totals == t && Prf(t.tp, t.fp, t.fn) == Success(r.value.spans))
  {
  }

  /** The totals `batch_agreement` scores are the sums over every pair of
      files with equal base names, every record of the first side of those
      pairs is a tp or a fn, and the vectors are in lockstep, so the
      source's `assert` holds. */
  lemma BatchTotals(files1: seq<CorpusFile>, files2: seq<CorpusFile>, m: Matching, vocab: set<string>)
    ensures var cs := Joined(files1, files2);
            var t := Fold(Opening(), cs, m, vocab);
            && t.tp == SumCounts(cs, m).tp && t.fp == SumCounts(cs, m).fp && t.fn == SumCounts(cs, m).fn
            && t.tp + t.fn == FirstRecords(cs)
            && |t.vals1| == t.tp && |t.vals2| == t.tp
  {
    var cs := Joined(files1, files2);
    FoldCounts(Opening(), cs, m, vocab);
    SumCountsCoverFirst(cs, m);
    FoldLockstep(Opening(), cs, m, vocab);
  }
}
