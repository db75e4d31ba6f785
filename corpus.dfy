/** The corpus level of the agreement engine: the attribute vocabulary of
    `get_all_annotated_attributes`, the pairing of the two file lists on
    their base names, and the totals, span scores and report of
    `batch_agreement`. */
module Corpus {
  import opened Annotations
  import opened Spans
  import opened Attributes
  import opened Metrics
  import opened Documents

  /** One annotation file: its path and the records it loads to, in the
      order `convert_file_annotations` lists them. */
  datatype CorpusFile = CorpusFile(path: string, records: seq<Annotation>)

  /** The names never taken into the vocabulary. */
  const IgnoreAttrs: set<string> := {"start", "end", "class", "annotator", "comment", "text"}

  /** The names one record contributes: its keys, less the ignored ones
      (the `start` and `end` keys of the record are among those). */
  function RecordNames(t: Annotation): set<string> {
    t.fields.Keys - IgnoreAttrs
  }

  /** The names the records of one file contribute. */
  function FileNames(records: seq<Annotation>): set<string> {
    if records == [] then {} else FileNames(records[..|records| - 1]) + RecordNames(records[|records| - 1])
  }

  /** The names all files of a list contribute. */
  function Vocabulary(files: seq<CorpusFile>): set<string> {
    if files == [] then {} else Vocabulary(files[..|files| - 1]) + FileNames(files[|files| - 1].records)
  }

  /** Some record of some file of `files` has the key `a`. */
  predicate Annotated(files: seq<CorpusFile>, a: string) {
    exists i, j | 0 <= i < |files| && 0 <= j < |files[i].records| :: a in files[i].records[j].fields
  }

  lemma {:induction false} FileNamesMembers(records: seq<Annotation>, a: string)
    ensures a in FileNames(records) <==> a !in IgnoreAttrs && exists j | 0 <= j < |records| :: a in records[j].fields
    decreases |records|
  {
    if records != [] {
      var init := records[..|records| - 1];
      FileNamesMembers(init, a);
      if exists j | 0 <= j < |init| :: a in init[j].fields {
        var j :| 0 <= j < |init| && a in init[j].fields;
        assert records[j] == init[j];
      }
      if exists j | 0 <= j < |records| :: a in records[j].fields {
        var j :| 0 <= j < |records| && a in records[j].fields;
        if j < |init| {
          assert init[j] == records[j];
        }
      }
    }
  }

  /** The vocabulary holds exactly the names, not ignored, that some record
      of some file has as a key. */
  lemma {:induction false} VocabularyMembers(files: seq<CorpusFile>, a: string)
    ensures a in Vocabulary(files) <==> a !in IgnoreAttrs && Annotated(files, a)
    decreases |files|
  {
    if files != [] {
      var init, f := files[..|files| - 1], files[|files| - 1];
      VocabularyMembers(init, a);
      FileNamesMembers(f.records, a);
      if Annotated(init, a) {
        var i, j :| 0 <= i < |init| && 0 <= j < |init[i].records| && a in init[i].records[j].fields;
        assert files[i] == init[i];
      }
      if Annotated(files, a) {
        var i, j :| 0 <= i < |files| && 0 <= j < |files[i].records| && a in files[i].records[j].fields;
        if i < |init| {
          assert init[i] == files[i];
        } else {
          assert exists j | 0 <= j < |f.records| :: a in f.records[j].fields;
        }
      }
    }
  }

  /** The names one file adds: the union over its records, one record at a
      time. */
  method FileAttributes(records: seq<Annotation>) returns (names: set<string>)
    ensures names == FileNames(records)
  {
    names := {};
    var j := 0;
    while j < |records|
      invariant 0 <= j <= |records|
      invariant names == FileNames(records[..j])
    {
      assert records[..j + 1][..j] == records[..j];
      names := names + (records[j].fields.Keys - IgnoreAttrs);
      j := j + 1;
    }
    assert records[..j] == records;
  }

  /** `ATTRS = ATTRS.union(...)` for every file of one list. */
  method AddFileAttributes(attrs0: set<string>, files: seq<CorpusFile>) returns (attrs: set<string>)
    ensures attrs == attrs0 + Vocabulary(files)
  {
    attrs := attrs0;
    var i := 0;
    while i < |files|
      invariant 0 <= i <= |files|
      invariant attrs == attrs0 + Vocabulary(files[..i])
    {
      assert files[..i + 1][..i] == files[..i];
      var names := FileAttributes(files[i].records);
      attrs := attrs + names;
      i := i + 1;
    }
    assert files[..i] == files;
  }

  /** `get_all_annotated_attributes(files1, files2)`, with the value
      `prior` that the global `ATTRS` holds before the call. */
  method GetAllAnnotatedAttributes(prior: set<string>, files1: seq<CorpusFile>, files2: seq<CorpusFile>)
    returns (attrs: set<string>)
    ensures attrs == prior + Vocabulary(files1) + Vocabulary(files2)
  {
    attrs := AddFileAttributes(prior, files1);
    attrs := AddFileAttributes(attrs, files2);
  }

  /** The vocabulary only grows, and what it gains is exactly the names,
      not ignored, that a record of either list has as a key. */
  lemma VocabularyGrowth(prior: set<string>, files1: seq<CorpusFile>, files2: seq<CorpusFile>, a: string)
    ensures prior <= prior + Vocabulary(files1) + Vocabulary(files2)
    ensures a in prior + Vocabulary(files1) + Vocabulary(files2) <==>
              a in prior || (a !in IgnoreAttrs && (Annotated(files1, a) || Annotated(files2, a)))
  {
    VocabularyMembers(files1, a);
    VocabularyMembers(files2, a);
  }

  /** `os.path.basename` on POSIX paths: what follows the last `/`. */
  function Basename(path: string): string {
    if path == [] then []
    else if path[|path| - 1] == '/' then []
    else Basename(path[..|path| - 1]) + [path[|path| - 1]]
  }

  /** The base name is the longest suffix of the path without a `/`: it
      holds no `/`, ends the path, and is preceded by a `/` unless it is the
      whole path. */
  lemma {:induction false} BasenameIsLastSegment(path: string)
    ensures '/' !in Basename(path)
    ensures |Basename(path)| <= |path| && Basename(path) == path[|path| - |Basename(path)|..]
    ensures |Basename(path)| < |path| ==> path[|path| - |Basename(path)| - 1] == '/'
    decreases |path|
  {
    if path != [] && path[|path| - 1] != '/' {
      var init, last := path[..|path| - 1], path[|path| - 1];
      BasenameIsLastSegment(init);
      var b := Basename(init);
      assert Basename(path) == b + [last];
      var k := |init| - |b|;
      assert path[k..] == init[k..] + [last];
      if |b| < |init| {
        assert path[k - 1] == init[k - 1];
      }
    }
  }

  /** Two files compared by `batch_agreement`. */
  datatype Couple = Couple(file1: CorpusFile, file2: CorpusFile)

  predicate SameBase(f1: CorpusFile, f2: CorpusFile) {
    Basename(f1.path) == Basename(f2.path)
  }

  /** The inner loop of the join: the files of `files2` whose base name is
      the base name of `f1`, in order. */
  function Partners(f1: CorpusFile, files2: seq<CorpusFile>): seq<Couple> {
    if files2 == [] then []
    else
      var before := Partners(f1, files2[..|files2| - 1]);
      var f2 := files2[|files2| - 1];
      if SameBase(f1, f2) then before + [Couple(f1, f2)] else before
  }

  /** The nested loops of the join: every pair of files with equal base
      names, in the order the loops meet them. */
  function Joined(files1: seq<CorpusFile>, files2: seq<CorpusFile>): seq<Couple> {
    if files1 == [] then [] else Joined(files1[..|files1| - 1], files2) + Partners(files1[|files1| - 1], files2)
  }

  /** The positions in `files2` of the files whose base name is that of
      `f1`, in increasing order. */
  function PartnerPositions(f1: CorpusFile, files2: seq<CorpusFile>): seq<nat> {
    if files2 == [] then []
    else
      var before := PartnerPositions(f1, files2[..|files2| - 1]);
      if SameBase(f1, files2[|files2| - 1]) then before + [|files2| - 1] else before
  }

  /** The files `f1` is compared with are the files of `files2` with its
      base name, each once, in the order of `files2`: couple `k` holds the
      file at the `k`-th such position, and the positions increase. */
  lemma {:induction false} PartnersMembers(f1: CorpusFile, files2: seq<CorpusFile>)
    ensures forall k | 0 <= k < |Partners(f1, files2)| ::
              Partners(f1, files2)[k].file1 == f1 && Partners(f1, files2)[k].file2 in files2 &&
              SameBase(f1, Partners(f1, files2)[k].file2)
    ensures forall j | 0 <= j < |files2| && SameBase(f1, files2[j]) :: Couple(f1, files2[j]) in Partners(f1, files2)
    ensures |PartnerPositions(f1, files2)| == |Partners(f1, files2)|
    ensures forall k | 0 <= k < |Partners(f1, files2)| ::
              PartnerPositions(f1, files2)[k] < |files2| &&
              Partners(f1, files2)[k] == Couple(f1, files2[PartnerPositions(f1, files2)[k]])
    ensures forall k, l | 0 <= k < l < |PartnerPositions(f1, files2)| ::
              PartnerPositions(f1, files2)[k] < PartnerPositions(f1, files2)[l]
    ensures forall j | 0 <= j < |files2| :: j in PartnerPositions(f1, files2) <==> SameBase(f1, files2[j])
    decreases |files2|
  {
    if files2 != [] {
      var init := files2[..|files2| - 1];
      PartnersMembers(f1, init);
      var pos := PartnerPositions(f1, init);
      forall k | 0 <= k < |pos| ensures files2[pos[k]] == init[pos[k]] { }
      forall j | 0 <= j < |init| ensures files2[j] == init[j] { }
      var before := Partners(f1, init);
      var f2 := files2[|files2| - 1];
      assert files2 == init + [f2];
      forall k | 0 <= k < |Partners(f1, files2)|
        ensures Partners(f1, files2)[k].file1 == f1 && Partners(f1, files2)[k].file2 in files2
        ensures SameBase(f1, Partners(f1, files2)[k].file2)
      {
        if k < |before| {
          assert Partners(f1, files2)[k] == before[k];
          assert before[k].file2 in init;
        }
      }
      forall j | 0 <= j < |files2| && SameBase(f1, files2[j])
        ensures Couple(f1, files2[j]) in Partners(f1, files2)
      {
        if j < |init| {
          assert files2[j] == init[j];
        }
      }
    }
  }

  /** The join pairs exactly the files with equal base names: every pair it
      lists has them, and every such pair of positions is listed, so files
      that share a base name are compared in every combination. */
  lemma {:induction false} JoinedMembers(files1: seq<CorpusFile>, files2: seq<CorpusFile>)
    ensures forall k | 0 <= k < |Joined(files1, files2)| ::
              Joined(files1, files2)[k].file1 in files1 && Joined(files1, files2)[k].file2 in files2 &&
              SameBase(Joined(files1, files2)[k].file1, Joined(files1, files2)[k].file2)
    ensures forall i, j | 0 <= i < |files1| && 0 <= j < |files2| && SameBase(files1[i], files2[j]) ::
              Couple(files1[i], files2[j]) in Joined(files1, files2)
    decreases |files1|
  {
    if files1 != [] {
      var init, f1 := files1[..|files1| - 1], files1[|files1| - 1];
      JoinedMembers(init, files2);
      PartnersMembers(f1, files2);
      var before: seq<Couple>, added: seq<Couple> := Joined(init, files2), Partners(f1, files2);
      forall k | 0 <= k < |before + added|
        ensures (before + added)[k].file1 in files1 && (before + added)[k].file2 in files2
        ensures SameBase((before + added)[k].file1, (before + added)[k].file2)
      {
        if k < |before| {
          assert (before + added)[k] == before[k];
          assert before[k].file1 in init;
          assert files1 == init + [f1];
        } else {
          assert (before + added)[k] == added[k - |before|];
        }
      }
      forall i, j | 0 <= i < |files1| && 0 <= j < |files2| && SameBase(files1[i], files2[j])
        ensures Couple(files1[i], files2[j]) in before + added
      {
        if i < |init| {
          assert files1[i] == init[i];
        }
      }
    }
  }

  /** The running totals of `batch_agreement`. */
  datatype Totals = Totals(tp: nat, fp: nat, fn: nat, agr: map<string, Tally>,
                           vals1: seq<Vector>, vals2: seq<Vector>, report: seq<Line>)

  /** One compared pair of files: report both paths, run
      `count_agreements`, and add its counts, tallies and vectors. */
  function Absorb(t: Totals, c: Couple, m: Matching, vocab: set<string>): Totals {
    var r := Agreement(c.file1.records, c.file2.records, t.report + [FilePair(c.file1.path, c.file2.path)], m, vocab);
    Totals(t.tp + r.tp, t.fp + r.fp, t.fn + r.fn, MergeAgr(t.agr, r.agr), t.vals1 + r.vals1, t.vals2 + r.vals2, r.report)
  }

  /** The totals after the pairs `cs`, from `t0`. */
  function Fold(t0: Totals, cs: seq<Couple>, m: Matching, vocab: set<string>): Totals
    decreases |cs|
  {
    if cs == [] then t0 else Absorb(Fold(t0, cs[..|cs| - 1], m, vocab), cs[|cs| - 1], m, vocab)
  }

  lemma FoldSnoc(t0: Totals, cs: seq<Couple>, c: Couple, m: Matching, vocab: set<string>)
    ensures Fold(t0, cs + [c], m, vocab) == Absorb(Fold(t0, cs, m, vocab), c, m, vocab)
  {
    assert (cs + [c])[..|cs|] == cs;
  }

  lemma PartnersSnoc(f1: CorpusFile, files2: seq<CorpusFile>, j: nat)
    requires j < |files2|
    ensures Partners(f1, files2[..j + 1]) ==
            if SameBase(f1, files2[j]) then Partners(f1, files2[..j]) + [Couple(f1, files2[j])] else Partners(f1, files2[..j])
  {
    assert files2[..j + 1][..j] == files2[..j];
  }

  lemma JoinedSnoc(files1: seq<CorpusFile>, files2: seq<CorpusFile>, i: nat)
    requires i < |files1|
    ensures Joined(files1[..i + 1], files2) == Joined(files1[..i], files2) + Partners(files1[i], files2)
  {
    assert files1[..i + 1][..i] == files1[..i];
  }

  /** The totals after comparing `f1` with every file of `files2` that has
      its base name, from `t`. */
  function Scan(t: Totals, f1: CorpusFile, files2: seq<CorpusFile>, m: Matching, vocab: set<string>): Totals
    decreases |files2|
  {
    if files2 == [] then t
    else
      var prev := Scan(t, f1, files2[..|files2| - 1], m, vocab);
      var f2 := files2[|files2| - 1];
      if SameBase(f1, f2) then Absorb(prev, Couple(f1, f2), m, vocab) else prev
  }

  lemma ScanSnoc(t: Totals, f1: CorpusFile, files2: seq<CorpusFile>, j: nat, m: Matching, vocab: set<string>)
    requires j < |files2|
    ensures Scan(t, f1, files2[..j + 1], m, vocab) ==
            if SameBase(f1, files2[j]) then Absorb(Scan(t, f1, files2[..j], m, vocab), Couple(f1, files2[j]), m, vocab)
            else Scan(t, f1, files2[..j], m, vocab)
  {
    assert files2[..j + 1][..j] == files2[..j];
  }

  /** Scanning the partners of `f1` is folding over them. */
  lemma {:induction false} FoldPartners(s0: Totals, done: seq<Couple>, f1: CorpusFile, files2: seq<CorpusFile>,
                                        m: Matching, vocab: set<string>)
    ensures Fold(s0, done + Partners(f1, files2), m, vocab) == Scan(Fold(s0, done, m, vocab), f1, files2, m, vocab)
    decreases |files2|
  {
    if files2 == [] {
      assert done + Partners(f1, files2) == done;
    } else {
      var init, f2 := files2[..|files2| - 1], files2[|files2| - 1];
      FoldPartners(s0, done, f1, init, m, vocab);
      if SameBase(f1, f2) {
        FoldSnoc(s0, done + Partners(f1, init), Couple(f1, f2), m, vocab);
        assert done + Partners(f1, files2) == done + Partners(f1, init) + [Couple(f1, f2)];
      }
    }
  }

  /** The body of the join for one matching pair of files. */
  method AddDocument(t: Totals, c: Couple, m: Matching, vocab: set<string>) returns (next: Totals)
    ensures next == Absorb(t, c, m, vocab)
  {
    var report := t.report + [FilePair(c.file1.path, c.file2.path)];
    var r := CountAgreements(c.file1.records, c.file2.records, report, m, vocab);
    var agr := MergeTallies(t.agr, r.agr);
    next := Totals(t.tp + r.tp, t.fp + r.fp, t.fn + r.fn, agr, t.vals1 + r.vals1, t.vals2 + r.vals2, r.report);
  }

  /** The inner loop of the join for one file of the first list. */
  method ComparePartners(f1: CorpusFile, files2: seq<CorpusFile>, m: Matching, vocab: set<string>, t0: Totals)
    returns (t: Totals)
    ensures t == Scan(t0, f1, files2, m, vocab)
  {
    t := t0;
    var j := 0;
    while j < |files2|
      invariant 0 <= j <= |files2|
      invariant t == Scan(t0, f1, files2[..j], m, vocab)
    {
      ScanSnoc(t0, f1, files2, j, m, vocab);
      var f2 := files2[j];
      if Basename(f1.path) == Basename(f2.path) {
        t := AddDocument(t, Couple(f1, f2), m, vocab);
      }
      j := j + 1;
    }
    assert files2[..j] == files2;
  }

  /** The nested loops of `batch_agreement` over the two file lists. */
  method CompareCorpus(files1: seq<CorpusFile>, files2: seq<CorpusFile>, m: Matching, vocab: set<string>, s0: Totals)
    returns (t: Totals)
    ensures t == Fold(s0, Joined(files1, files2), m, vocab)
  {
    t := s0;
    var i := 0;
    while i < |files1|
      invariant 0 <= i <= |files1|
      invariant t == Fold(s0, Joined(files1[..i], files2), m, vocab)
    {
      JoinedSnoc(files1, files2, i);
      FoldPartners(s0, Joined(files1[..i], files2), files1[i], files2, m, vocab);
      t := ComparePartners(files1[i], files2, m, vocab, t);
      i := i + 1;
    }
    assert files1[..i] == files1;
  }

  /** The vectors of the totals grow in lockstep with the tp count, one per
      pair on either side, each holding exactly the vocabulary names. */
  predicate Lockstep(t: Totals, vocab: set<string>) {
    && |t.vals1| == t.tp && |t.vals2| == t.tp
    && (forall k | 0 <= k < |t.vals1| :: t.vals1[k].Keys == vocab)
    && (forall k | 0 <= k < |t.vals2| :: t.vals2[k].Keys == vocab)
  }

  /** Every compared pair of files keeps the vectors in lockstep, which is
      what the `assert` after the loops of `batch_agreement` checks. */
  lemma {:induction false} FoldLockstep(t0: Totals, cs: seq<Couple>, m: Matching, vocab: set<string>)
    requires Lockstep(t0, vocab)
    ensures Lockstep(Fold(t0, cs, m, vocab), vocab)
    decreases |cs|
  {
    if cs != [] {
      var prev, c := Fold(t0, cs[..|cs| - 1], m, vocab), cs[|cs| - 1];
      FoldLockstep(t0, cs[..|cs| - 1], m, vocab);
      var report := prev.report + [FilePair(c.file1.path, c.file2.path)];
      VectorsLockstep(c.file1.records, c.file2.records, report, m, vocab);
      var r := Agreement(c.file1.records, c.file2.records, report, m, vocab);
      var next := Fold(t0, cs, m, vocab);
      assert next.vals1 == prev.vals1 + r.vals1 && next.vals2 == prev.vals2 + r.vals2;
      forall k | 0 <= k < |next.vals1| ensures next.vals1[k].Keys == vocab {
        if k >= |prev.vals1| {
          assert next.vals1[k] == r.vals1[k - |prev.vals1|];
        }
      }
      forall k | 0 <= k < |next.vals2| ensures next.vals2[k].Keys == vocab {
        if k >= |prev.vals2| {
          assert next.vals2[k] == r.vals2[k - |prev.vals2|];
        }
      }
    }
  }

  /** What a `batch_agreement` run that reaches its end computes: the
      totals, the span scores of the totals and the whole report. */
  datatype BatchReport = BatchReport(totals: Totals, spans: Scores, report: seq<Line>)

  /** Nothing counted yet, after the banner of the report. */
  function Opening(): Totals {
    Totals(0, 0, 0, map[], [], [], [Heading(Title)])
  }

  /** The attributes section: emitted only when attributes are compared,
      with a notice when the vocabulary is empty. The per-attribute scores
      that follow it come from a library and are not part of this model. */
  function AttributesLines(compareAttributes: bool, vocab: set<string>): seq<Line> {
    if !compareAttributes then []
    else if vocab == {} then [Heading(AttributesSection), NoAttributes]
    else [Heading(AttributesSection)]
  }

  /** The value of the global `ATTRS` after `batch_agreement`: the mode is
      checked before the vocabulary is collected, so a rejected mode leaves
      it as it was. */
  function BatchAttrs(files1: seq<CorpusFile>, files2: seq<CorpusFile>, matching: string, prior: set<string>): set<string> {
    if ParseMatching(matching).None? then prior else prior + Vocabulary(files1) + Vocabulary(files2)
  }

  /** The reference result of `batch_agreement` on two file lists. */
  function Batch(files1: seq<CorpusFile>, files2: seq<CorpusFile>, matching: string, compareAttributes: bool,
                 prior: set<string>): Result<BatchReport, Error>
  {
    match ParseMatching(matching)
    case None => Failure(InvalidMatching(matching))
    case Some(m) =>
      var vocab := prior + Vocabulary(files1) + Vocabulary(files2);
      var t := Fold(Opening(), Joined(files1, files2), m, vocab);
      match Prf(t.tp, t.fp, t.fn)
      case Failure(e) => Failure(e)
      case Success(s) =>
        Success(BatchReport(t, s, t.report + [Heading(SpansSection), SpanScores(s)] + AttributesLines(compareAttributes, vocab)))
  }

  /** `batch_agreement(ann_dir1, ann_dir2, matching=..., compare_attributes=...)`
      on the two loaded file lists, with `prior` the value of `ATTRS` before
      the call; `attrs` is its value after. */
  method BatchAgreement(files1: seq<CorpusFile>, files2: seq<CorpusFile>, matching: string, compareAttributes: bool,
                        prior: set<string>)
    returns (r: Result<BatchReport, Error>, attrs: set<string>)
    ensures r == Batch(files1, files2, matching, compareAttributes, prior)
    ensures attrs == BatchAttrs(files1, files2, matching, prior)
  {
    var mode := ParseMatching(matching);
    if mode.None? {
      return Failure(InvalidMatching(matching)), prior;
    }
    attrs := GetAllAnnotatedAttributes(prior, files1, files2);
    var t := CompareCorpus(files1, files2, mode.value, attrs, Opening());
    FoldLockstep(Opening(), Joined(files1, files2), mode.value, attrs);
    assert |t.vals1| == |t.vals2|;
    var scores := Prf(t.tp, t.fp, t.fn);
    if scores.Failure? {
      return Failure(scores.error), attrs;
    }
    var report := t.report + [Heading(SpansSection), SpanScores(scores.value)];
    if compareAttributes {
      report := report + [Heading(AttributesSection)];
      if |attrs| == 0 {
        report := report + [NoAttributes];
      }
    }
    assert report == t.report + [Heading(SpansSection), SpanScores(scores.value)] + AttributesLines(compareAttributes, attrs);
    r := Success(BatchReport(t, scores.value, report));
  }
}
