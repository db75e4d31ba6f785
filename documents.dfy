/** The document matcher `count_agreements`: greedy first-fit pairing in two
    passes, the missing and spurious listings, and the per-document tallies,
    attribute vectors and report. */
module Documents {
  import opened Annotations
  import opened Spans
  import opened Attributes
  import opened Metrics

  /** A matched pair. `second` marks a pair found by the second pass, which
      scans from the second record's side. */
  datatype Pair = Pair(tag1: Annotation, tag2: Annotation, second: bool)

  /** The banners of the report. */
  datatype Section = Title | MatchingSection | MissingSection | SpuriousSection | SpansSection | AttributesSection

  /** One event of the agreement report; the text of each line is left out. */
  datatype Line =
    | Heading(section: Section)
    | FilePair(path1: string, path2: string)                // "File1: ..." and "File2: ..."
    | SpanMatch(first: Annotation, second: Annotation)      // the string of a span match
    | AttrLine(diag: Diag)                                  // "-- attribute disagreement on ..."
    | Listed(tag: Annotation)                               // a missing or spurious record
    | DocEnd                                                // "=========="
    | SpanScores(scores: Scores)                            // precision, recall, f-score of spans
    | NoAttributes                                          // "-- No attributes to compare"

  /** The `matched` list: the two records of every pair, in order. */
  function Flatten(ps: seq<Pair>): (r: seq<Annotation>)
    ensures |r| == 2 * |ps|
  {
    if ps == [] then []
    else Flatten(ps[..|ps| - 1]) + [ps[|ps| - 1].tag1, ps[|ps| - 1].tag2]
  }

  /** Whether candidate `c` is taken for `t`: its span matches and, in the
      second pass, it is not yet matched. */
  predicate Fits(t: Annotation, c: Annotation, matched: seq<Annotation>, m: Matching, free: bool) {
    (!free || !Member(c, matched)) && MatchSpan(t, c, m)
  }

  /** The scan with `break`: the first index from `j` on whose candidate fits. */
  function FirstFit(t: Annotation, cands: seq<Annotation>, matched: seq<Annotation>, m: Matching, free: bool, j: nat): (r: Option<nat>)
    ensures r.Some? ==> j <= r.value < |cands| && Fits(t, cands[r.value], matched, m, free)
    ensures forall k | j <= k < |cands| && (r.None? || k < r.value) :: !Fits(t, cands[k], matched, m, free)
    decreases |cands| - j
  {
    if j >= |cands| then None
    else if Fits(t, cands[j], matched, m, free) then Some(j)
    else FirstFit(t, cands, matched, m, free, j + 1)
  }

  lemma FirstFitStep(t: Annotation, cands: seq<Annotation>, matched: seq<Annotation>, m: Matching, free: bool, j: nat)
    requires j < |cands|
    ensures FirstFit(t, cands, matched, m, free, j) ==
            if Fits(t, cands[j], matched, m, free) then Some(j) else FirstFit(t, cands, matched, m, free, j + 1)
  {
  }

  /** One record of the first pass: `t` is paired with the first record of
      `tags2` whose span it matches, matched or not. */
  function Step1(ps: seq<Pair>, t: Annotation, tags2: seq<Annotation>, m: Matching): seq<Pair> {
    match FirstFit(t, tags2, [], m, false, 0)
    case None => ps
    case Some(j) => ps + [Pair(t, tags2[j], false)]
  }

  /** The first pass over every record of `tags1`, in order. */
  function Pass1(tags1: seq<Annotation>, tags2: seq<Annotation>, m: Matching): seq<Pair>
    decreases |tags1|
  {
    if tags1 == [] then []
    else Step1(Pass1(tags1[..|tags1| - 1], tags2, m), tags1[|tags1| - 1], tags2, m)
  }

  /** One record of the second pass: a `t` not yet matched is paired with
      the first unmatched record of `tags1` that its span matches (the span
      test takes `t` first). */
  function Step2(ps: seq<Pair>, t: Annotation, tags1: seq<Annotation>, m: Matching): seq<Pair> {
    if Member(t, Flatten(ps)) then ps
    else
      match FirstFit(t, tags1, Flatten(ps), m, true, 0)
      case None => ps
      case Some(k) => ps + [Pair(tags1[k], t, true)]
  }

  /** The second pass over every record of `tags2`, after the pairs `ps`. */
  function Pass2(ps: seq<Pair>, tags1: seq<Annotation>, tags2: seq<Annotation>, m: Matching): seq<Pair>
    decreases |tags2|
  {
    if tags2 == [] then ps
    else Step2(Pass2(ps, tags1, tags2[..|tags2| - 1], m), tags2[|tags2| - 1], tags1, m)
  }

  function Pairs(tags1: seq<Annotation>, tags2: seq<Annotation>, m: Matching): seq<Pair> {
    Pass2(Pass1(tags1, tags2, m), tags1, tags2, m)
  }

  /** The records of `s`, in order, whose membership in `matched` is
      `present`; with `present` false these are the missing (or spurious)
      records that the source lists and counts. */
  function Filter(s: seq<Annotation>, matched: seq<Annotation>, present: bool): (r: seq<Annotation>)
    ensures |r| <= |s|
    ensures forall k | 0 <= k < |r| :: r[k] in s && Member(r[k], matched) == present
    decreases |s|
  {
    if s == [] then []
    else
      var before := Filter(s[..|s| - 1], matched, present);
      if Member(s[|s| - 1], matched) == present then before + [s[|s| - 1]] else before
  }

  /** The report lines of one diagnostic string. */
  function DiagLines(ds: seq<Diag>): (r: seq<Line>)
    ensures |r| == |ds| && forall k | 0 <= k < |r| :: r[k] == AttrLine(ds[k])
  {
    seq(|ds|, k requires 0 <= k < |ds| => AttrLine(ds[k]))
  }

  /** The report lines of one pair: the span match, with the records in the
      order `match_span` received them, then the attribute diagnostics. */
  function PairReport(p: Pair): seq<Line> {
    var first := if p.second then SpanMatch(p.tag2, p.tag1) else SpanMatch(p.tag1, p.tag2);
    [first] + DiagLines(Disagreements(p.tag1, p.tag2, CheckedAttrs(p.tag1)))
  }

  /** One listed line per record. */
  function ListLines(u: seq<Annotation>): (r: seq<Line>)
    ensures |r| == |u| && forall k | 0 <= k < |r| :: r[k] == Listed(u[k])
  {
    seq(|u|, k requires 0 <= k < |u| => Listed(u[k]))
  }

  /** The bookkeeping of `count_agreements` during the two passes. */
  datatype Acc = Acc(matched: seq<Annotation>, tp: nat, agr: map<string, Tally>,
                     vals1: seq<Vector>, vals2: seq<Vector>, report: seq<Line>)

  /** The state of the bookkeeping before any pair is recorded. */
  function Start(out0: seq<Line>): Acc {
    Acc([], 0, map[], [], [], out0)
  }

  /** Recording one more pair: report it, append both records to
      `matched`, count a tp, merge its tallies and append its two vectors. */
  function Advance(acc: Acc, p: Pair, vocab: set<string>): Acc {
    Acc(acc.matched + [p.tag1, p.tag2], acc.tp + 1, MergeAgr(acc.agr, AttrScores(p.tag1, p.tag2)),
        acc.vals1 + [TagAttrs(p.tag1, vocab)], acc.vals2 + [TagAttrs(p.tag2, vocab)], acc.report + PairReport(p))
  }

  /** The bookkeeping once the pairs `ps` have been recorded after the
      report `out0`. */
  function AccOf(ps: seq<Pair>, out0: seq<Line>, vocab: set<string>): Acc
    decreases |ps|
  {
    if ps == [] then Start(out0) else Advance(AccOf(ps[..|ps| - 1], out0, vocab), ps[|ps| - 1], vocab)
  }

  lemma AccOfSnoc(ps: seq<Pair>, p: Pair, out0: seq<Line>, vocab: set<string>)
    ensures AccOf(ps + [p], out0, vocab) == Advance(AccOf(ps, out0, vocab), p, vocab)
  {
    assert (ps + [p])[..|ps|] == ps;
  }

  /** The `matched` list of the bookkeeping is the records of the pairs. */
  lemma {:induction false} AccMatched(ps: seq<Pair>, out0: seq<Line>, vocab: set<string>)
    ensures AccOf(ps, out0, vocab).matched == Flatten(ps)
    decreases |ps|
  {
    if ps != [] {
      AccMatched(ps[..|ps| - 1], out0, vocab);
    }
  }

  /** The body of both passes once a match is found: report the span match,
      append both records to `matched`, count a tp, compare and merge the
      attributes, and append the two attribute vectors. */
  method AddPair(acc: Acc, p: Pair, vocab: set<string>) returns (next: Acc)
    ensures next == Advance(acc, p, vocab)
  {
    var tag1, tag2 := p.tag1, p.tag2;
    var report := acc.report + [if p.second then SpanMatch(tag2, tag1) else SpanMatch(tag1, tag2)];
    var matched := acc.matched + [tag1];
    matched := matched + [tag2];
    var a, diags := MatchAttributes(tag1, tag2);
    report := report + DiagLines(diags);
    var agr := MergeTallies(acc.agr, a);
    var vals1 := GetTagAttrs(tag1, vocab);
    var vals2 := GetTagAttrs(tag2, vocab);
    next := Acc(matched, acc.tp + 1, agr, acc.vals1 + [vals1], acc.vals2 + [vals2], report);
  }

  /** The inner loop of the first pass for one `tag1`, up to its `break`. */
  method FirstPassScan(tag1: Annotation, tags2: seq<Annotation>, m: Matching, vocab: set<string>, out0: seq<Line>,
                       acc0: Acc, ghost ps0: seq<Pair>)
    returns (acc: Acc, ghost ps: seq<Pair>)
    requires acc0 == AccOf(ps0, out0, vocab)
    ensures ps == Step1(ps0, tag1, tags2, m)
    ensures acc == AccOf(ps, out0, vocab)
  {
    acc, ps := acc0, ps0;
    var j := 0;
    while j < |tags2|
      invariant 0 <= j <= |tags2|
      invariant FirstFit(tag1, tags2, [], m, false, j) == FirstFit(tag1, tags2, [], m, false, 0)
    {
      var tag2 := tags2[j];
      FirstFitStep(tag1, tags2, [], m, false, j);
      var matches := MatchSpan(tag1, tag2, m);
      if matches {
        var p := Pair(tag1, tag2, false);
        AccOfSnoc(ps, p, out0, vocab);
        acc := AddPair(acc, p, vocab);
        ps := ps + [p];
        return;
      }
      j := j + 1;
    }
  }

  /** The first pass (the loops at the top of `count_agreements`). */
  method MatchPass1(tags1: seq<Annotation>, tags2: seq<Annotation>, m: Matching, vocab: set<string>, out0: seq<Line>)
    returns (acc: Acc, ghost ps: seq<Pair>)
    ensures ps == Pass1(tags1, tags2, m)
    ensures acc == AccOf(ps, out0, vocab)
  {
    acc := Start(out0);
    ps := [];
    var i := 0;
    while i < |tags1|
      invariant 0 <= i <= |tags1|
      invariant ps == Pass1(tags1[..i], tags2, m)
      invariant acc == AccOf(ps, out0, vocab)
    {
      Pass1Snoc(tags1, tags2, m, i);
      acc, ps := FirstPassScan(tags1[i], tags2, m, vocab, out0, acc, ps);
      i := i + 1;
    }
    assert tags1[..i] == tags1;
  }

  lemma Pass1Snoc(tags1: seq<Annotation>, tags2: seq<Annotation>, m: Matching, i: nat)
    requires i < |tags1|
    ensures Pass1(tags1[..i + 1], tags2, m) == Step1(Pass1(tags1[..i], tags2, m), tags1[i], tags2, m)
  {
    assert tags1[..i + 1][..i] == tags1[..i];
  }

  /** The body of the second pass for one `tag2`: skipped when matched,
      otherwise the inner loop over unmatched `tags1` up to its `break`. */
  method SecondPassScan(tag2: Annotation, tags1: seq<Annotation>, m: Matching, vocab: set<string>, out0: seq<Line>,
                        acc0: Acc, ghost ps0: seq<Pair>)
    returns (acc: Acc, ghost ps: seq<Pair>)
    requires acc0 == AccOf(ps0, out0, vocab)
    ensures ps == Step2(ps0, tag2, tags1, m)
    ensures acc == AccOf(ps, out0, vocab)
  {
    acc, ps := acc0, ps0;
    AccMatched(ps0, out0, vocab);
    if Member(tag2, acc.matched) {
      return;
    }
    var k := 0;
    while k < |tags1|
      invariant 0 <= k <= |tags1|
      invariant FirstFit(tag2, tags1, acc0.matched, m, true, k) == FirstFit(tag2, tags1, acc0.matched, m, true, 0)
    {
      var tag1 := tags1[k];
      FirstFitStep(tag2, tags1, acc0.matched, m, true, k);
      if !Member(tag1, acc.matched) {
        var matches := MatchSpan(tag2, tag1, m);
        if matches {
          var p := Pair(tag1, tag2, true);
          AccOfSnoc(ps, p, out0, vocab);
          acc := AddPair(acc, p, vocab);
          ps := ps + [p];
          return;
        }
      }
      k := k + 1;
    }
  }

  /** The second pass (the loops over `tags2` restricted to unmatched
      records). */
  method MatchPass2(tags1: seq<Annotation>, tags2: seq<Annotation>, m: Matching, vocab: set<string>, out0: seq<Line>,
                    acc0: Acc, ghost ps0: seq<Pair>)
    returns (acc: Acc, ghost ps: seq<Pair>)
    requires acc0 == AccOf(ps0, out0, vocab)
    ensures ps == Pass2(ps0, tags1, tags2, m)
    ensures acc == AccOf(ps, out0, vocab)
  {
    acc := acc0;
    ps := ps0;
    var i := 0;
    while i < |tags2|
      invariant 0 <= i <= |tags2|
      invariant ps == Pass2(ps0, tags1, tags2[..i], m)
      invariant acc == AccOf(ps, out0, vocab)
    {
      Pass2Snoc(ps0, tags1, tags2, m, i);
      acc, ps := SecondPassScan(tags2[i], tags1, m, vocab, out0, acc, ps);
      i := i + 1;
    }
    assert tags2[..i] == tags2;
  }

  lemma Pass2Snoc(ps0: seq<Pair>, tags1: seq<Annotation>, tags2: seq<Annotation>, m: Matching, i: nat)
    requires i < |tags2|
    ensures Pass2(ps0, tags1, tags2[..i + 1], m) == Step2(Pass2(ps0, tags1, tags2[..i], m), tags2[i], tags1, m)
  {
    assert tags2[..i + 1][..i] == tags2[..i];
  }

  /** The listing loops: every record of `s` not in `matched` is listed and
      counted. */
  method ReportUnmatched(s: seq<Annotation>, matched: seq<Annotation>, out0: seq<Line>) returns (count: nat, out: seq<Line>)
    ensures count == |Filter(s, matched, false)|
    ensures out == out0 + ListLines(Filter(s, matched, false))
  {
    count := 0;
    out := out0;
    var i := 0;
    while i < |s|
      invariant 0 <= i <= |s|
      invariant count == |Filter(s[..i], matched, false)|
      invariant out == out0 + ListLines(Filter(s[..i], matched, false))
    {
      FilterSnoc(s, matched, false, i);
      if !Member(s[i], matched) {
        out := out + [Listed(s[i])];
        count := count + 1;
      }
      i := i + 1;
    }
    assert s[..i] == s;
  }

  lemma FilterSnoc(s: seq<Annotation>, matched: seq<Annotation>, present: bool, i: nat)
    requires i < |s|
    ensures Filter(s[..i + 1], matched, present) ==
            if Member(s[i], matched) == present then Filter(s[..i], matched, present) + [s[i]]
            else Filter(s[..i], matched, present)
  {
    assert s[..i + 1][..i] == s[..i];
  }

  /** What `count_agreements` returns. */
  datatype DocResult = DocResult(tp: nat, fp: nat, fn: nat, agr: map<string, Tally>,
                                 vals1: seq<Vector>, vals2: seq<Vector>, report: seq<Line>)

  /** The reference result of `count_agreements` on two record sequences,
      after the report `report`, under the vocabulary `vocab`. */
  function Agreement(tags1: seq<Annotation>, tags2: seq<Annotation>, report: seq<Line>, m: Matching, vocab: set<string>): DocResult {
    var ps := Pairs(tags1, tags2, m);
    var acc := AccOf(ps, report + [Heading(MatchingSection)], vocab);
    var missing := Filter(tags1, Flatten(ps), false);
    var spurious := Filter(tags2, Flatten(ps), false);
    DocResult(acc.tp, |spurious|, |missing|, acc.agr, acc.vals1, acc.vals2,
              acc.report + [Heading(MissingSection)] + ListLines(missing)
              + [Heading(SpuriousSection)] + ListLines(spurious) + [DocEnd])
  }

  /** `count_agreements(pin1, pin2, report_string, matching)` on the two
      loaded record sequences. */
  method CountAgreements(tags1: seq<Annotation>, tags2: seq<Annotation>, report: seq<Line>, m: Matching, vocab: set<string>)
    returns (r: DocResult)
    ensures r == Agreement(tags1, tags2, report, m, vocab)
  {
    var out0 := report + [Heading(MatchingSection)];
    var acc, ps := MatchPass1(tags1, tags2, m, vocab, out0);
    acc, ps := MatchPass2(tags1, tags2, m, vocab, out0, acc, ps);
    AccMatched(ps, out0, vocab);
    var out := acc.report + [Heading(MissingSection)];
    var fn, fp;
    fn, out := ReportUnmatched(tags1, acc.matched, out);
    out := out + [Heading(SpuriousSection)];
    fp, out := ReportUnmatched(tags2, acc.matched, out);
    out := out + [DocEnd];
    r := DocResult(acc.tp, fp, fn, acc.agr, acc.vals1, acc.vals2, out);
  }

  /** The bookkeeping counts one tp per pair and keeps one vector pair per
      pair, each holding the vocabulary. */
  lemma {:induction false} AccShape(ps: seq<Pair>, out0: seq<Line>, vocab: set<string>)
    ensures AccOf(ps, out0, vocab).tp == |ps|
    ensures |AccOf(ps, out0, vocab).vals1| == |ps| && |AccOf(ps, out0, vocab).vals2| == |ps|
    ensures forall k | 0 <= k < |ps| ::
              AccOf(ps, out0, vocab).vals1[k] == TagAttrs(ps[k].tag1, vocab) &&
              AccOf(ps, out0, vocab).vals2[k] == TagAttrs(ps[k].tag2, vocab)
    decreases |ps|
  {
    if ps != [] {
      var init := ps[..|ps| - 1];
      AccShape(init, out0, vocab);
      forall k | 0 <= k < |init|
        ensures AccOf(ps, out0, vocab).vals1[k] == TagAttrs(ps[k].tag1, vocab)
        ensures AccOf(ps, out0, vocab).vals2[k] == TagAttrs(ps[k].tag2, vocab)
      {
        assert ps[k] == init[k];
      }
    }
  }

  /** The attribute vectors grow in lockstep with the tp count: one vector
      of each side per pair, each holding exactly the vocabulary names. */
  lemma VectorsLockstep(tags1: seq<Annotation>, tags2: seq<Annotation>, report: seq<Line>, m: Matching, vocab: set<string>)
    ensures |Agreement(tags1, tags2, report, m, vocab).vals1| == Agreement(tags1, tags2, report, m, vocab).tp
    ensures |Agreement(tags1, tags2, report, m, vocab).vals2| == Agreement(tags1, tags2, report, m, vocab).tp
    ensures forall k | 0 <= k < Agreement(tags1, tags2, report, m, vocab).tp ::
              Agreement(tags1, tags2, report, m, vocab).vals1[k].Keys == vocab &&
              Agreement(tags1, tags2, report, m, vocab).vals2[k].Keys == vocab
  {
    AccShape(Pairs(tags1, tags2, m), report + [Heading(MatchingSection)], vocab);
  }
}
