/** The collection helpers of the eHOST annotation reader: flattening the
    loader's nested dictionaries into one record list, counting mention
    classes in a document and across a directory, and indexing records by
    their start offset. The XML parsing itself is not modelled: a parsed
    document is given as the class names of its mention nodes. */
module Reader {
  import opened Annotations

  /** One key/value pair of a Python dict; a dict is the sequence of its
      pairs in insertion order, which is the order iteration visits them. */
  datatype Entry<V> = Entry(key: string, value: V)

  /** What `load_mentions_with_attributes` returns: a dict from file key to
      a dict from annotation id to record. */
  type FileAnnotations = seq<Entry<seq<Entry<Annotation>>>>

  /*** convert_file_annotations ***/

  /** The values of one inner dict, in annotation-id order. */
  function Records(d: seq<Entry<Annotation>>): (r: seq<Annotation>)
    ensures |r| == |d|
    ensures forall j | 0 <= j < |d| :: r[j] == d[j].value
  {
    seq(|d|, j requires 0 <= j < |d| => d[j].value)
  }

  /** The inner values, file after file. */
  function Flattened(fa: FileAnnotations): seq<Annotation>
    decreases |fa|
  {
    if fa == [] then [] else Flattened(fa[..|fa| - 1]) + Records(fa[|fa| - 1].value)
  }

  /** The number of records over all files. */
  function Size(fa: FileAnnotations): nat
    decreases |fa|
  {
    if fa == [] then 0 else Size(fa[..|fa| - 1]) + |fa[|fa| - 1].value|
  }

  /** The flattened list holds one entry per record, so an input without
      records gives the empty list. */
  lemma {:induction false} FlattenedLength(fa: FileAnnotations)
    ensures |Flattened(fa)| == Size(fa)
    decreases |fa|
  {
    if fa != [] {
      FlattenedLength(fa[..|fa| - 1]);
    }
  }

  /** Record `j` of file `i` sits right after the records of the files
      before `i` and the records before `j` in file `i`: outer-key order
      first, then annotation-id order. */
  lemma {:induction false} FlattenedAt(fa: FileAnnotations, i: nat, j: nat)
    requires i < |fa| && j < |fa[i].value|
    ensures Size(fa[..i]) + j < |Flattened(fa)|
    ensures Flattened(fa)[Size(fa[..i]) + j] == fa[i].value[j].value
    decreases |fa|
  {
    var init := fa[..|fa| - 1];
    FlattenedLength(fa);
    FlattenedLength(init);
    if i == |fa| - 1 {
      assert init == fa[..i];
    } else {
      FlattenedAt(init, i, j);
      assert init[..i] == fa[..i];
      assert init[i] == fa[i];
    }
  }

  /** Every entry of the flattened list is some record of some file. */
  lemma {:induction false} FlattenedFrom(fa: FileAnnotations, k: nat)
    requires k < |Flattened(fa)|
    ensures exists i, j | 0 <= i < |fa| && 0 <= j < |fa[i].value| :: Flattened(fa)[k] == fa[i].value[j].value
    decreases |fa|
  {
    var init := fa[..|fa| - 1];
    var last := fa[|fa| - 1];
    if k < |Flattened(init)| {
      FlattenedFrom(init, k);
      var i, j :| 0 <= i < |init| && 0 <= j < |init[i].value| && Flattened(init)[k] == init[i].value[j].value;
      assert init[i] == fa[i];
    } else {
      var j := k - |Flattened(init)|;
      assert Flattened(fa)[k] == Records(last.value)[j];
      assert fa[|fa| - 1] == last;
    }
  }

  /** `convert_file_annotations`: the nested loop appends the records of
      each file in turn, in annotation-id order. */
  method ConvertFileAnnotations(fa: FileAnnotations) returns (all: seq<Annotation>)
    ensures all == Flattened(fa)
    ensures |all| == Size(fa)
    ensures fa == [] ==> all == []
  {
    all := [];
    var i := 0;
    while i < |fa|
      invariant 0 <= i <= |fa|
      invariant all == Flattened(fa[..i])
    {
      var annotations := fa[i].value;
      var j := 0;
      while j < |annotations|
        invariant 0 <= j <= |annotations|
        invariant all == Flattened(fa[..i]) + Records(annotations[..j])
      {
        assert Records(annotations[..j + 1]) == Records(annotations[..j]) + [annotations[j].value];
        all := all + [annotations[j].value];
        j := j + 1;
      }
      assert annotations[..j] == annotations;
      assert fa[..i + 1][..i] == fa[..i];
      i := i + 1;
    }
    assert fa[..i] == fa;
    FlattenedLength(fa);
  }

  /*** count_mentions ***/

  /** A parsed document: the class ids of its mention nodes in document
      order, or None when ElementTree raises a ParseError. */
  type Parsed = Option<seq<string>>

  /** `counts.get(key, 0)` */
  function CountOf(counts: map<string, nat>, key: string): nat {
    if key in counts then counts[key] else 0
  }

  /** The counts after the mention loop has seen the classes `names`. */
  function Tallied(names: seq<string>): map<string, nat>
    decreases |names|
  {
    if names == [] then map[]
    else
      var counts, c := Tallied(names[..|names| - 1]), names[|names| - 1];
      counts[c := CountOf(counts, c) + 1]
  }

  /** What `count_mentions` returns for a parsed document. */
  function Mentions(parsed: Parsed): map<string, nat> {
    if parsed.None? then map[] else Tallied(parsed.value)
  }

  /** The sum of the values of a counts dict. */
  ghost function SumValues(counts: map<string, nat>): nat
    decreases |counts.Keys|
  {
    if counts == map[] then 0
    else
      var k :| k in counts;
      assert (counts - {k}).Keys == counts.Keys - {k};
      counts[k] + SumValues(counts - {k})
  }

  /** The sum does not depend on which key is taken out first. */
  lemma {:induction false} SumValuesRemove(counts: map<string, nat>, k: string)
    requires k in counts
    ensures SumValues(counts) == counts[k] + SumValues(counts - {k})
    decreases |counts.Keys|
  {
    var j :| j in counts && SumValues(counts) == counts[j] + SumValues(counts - {j});
    if j != k {
      assert (counts - {j}).Keys == counts.Keys - {j};
      assert (counts - {k}).Keys == counts.Keys - {k};
      SumValuesRemove(counts - {j}, k);
      SumValuesRemove(counts - {k}, j);
      assert counts - {j} - {k} == counts - {k} - {j};
    }
  }

  /** Raising one count by one raises the sum by one. */
  lemma SumValuesBump(counts: map<string, nat>, c: string)
    ensures SumValues(counts[c := CountOf(counts, c) + 1]) == SumValues(counts) + 1
  {
    var next := counts[c := CountOf(counts, c) + 1];
    SumValuesRemove(next, c);
    if c in counts {
      SumValuesRemove(counts, c);
      assert next - {c} == counts - {c};
    } else {
      assert next - {c} == counts;
    }
  }

  /** Each class seen gets a key, and its count is the number of nodes of
      that class, so at least one; no other name gets a key. */
  lemma {:induction false} TalliedCount(names: seq<string>, c: string)
    ensures c in Tallied(names) <==> c in names
    ensures CountOf(Tallied(names), c) == multiset(names)[c]
    ensures c in Tallied(names) ==> Tallied(names)[c] >= 1
    decreases |names|
  {
    if names != [] {
      var init, last := names[..|names| - 1], names[|names| - 1];
      TalliedCount(init, c);
      assert names == init + [last];
      assert c in names <==> c in init || c == last;
    }
  }

  /** The counts add up to the number of mention nodes. */
  lemma {:induction false} TalliedSum(names: seq<string>)
    ensures SumValues(Tallied(names)) == |names|
    decreases |names|
  {
    if names != [] {
      var init := names[..|names| - 1];
      TalliedSum(init);
      SumValuesBump(Tallied(init), names[|names| - 1]);
    }
  }

  /** `count_mentions`: a document that does not parse gives the empty
      dict; otherwise each node's class count goes up by one. */
  method CountMentions(parsed: Parsed) returns (counts: map<string, nat>)
    ensures counts == Mentions(parsed)
    ensures parsed.None? ==> counts == map[]
  {
    counts := map[];
    if parsed.None? {
      return;
    }
    var nodes := parsed.value;
    var i := 0;
    while i < |nodes|
      invariant 0 <= i <= |nodes|
      invariant counts == Tallied(nodes[..i])
    {
      var n := CountOf(counts, nodes[i]) + 1;
      counts := counts[nodes[i] := n];
      assert nodes[..i + 1][..i] == nodes[..i];
      i := i + 1;
    }
    assert nodes[..i] == nodes;
  }

  /*** batch_count_mentions ***/

  /** `global_counts` after a file whose counts have the keys `keys`: each
      of those keys goes up by one, whatever its count in the file. */
  function Bump(global: map<string, nat>, keys: set<string>): map<string, nat> {
    map k | k in global.Keys + keys :: CountOf(global, k) + if k in keys then 1 else 0
  }

  /** `global_counts` after the files `files`. */
  function Spread(files: seq<Parsed>): map<string, nat>
    decreases |files|
  {
    if files == [] then map[] else Bump(Spread(files[..|files| - 1]), Mentions(files[|files| - 1]).Keys)
  }

  /** The number of files among `files` that mention class `c`. */
  function FilesWith(files: seq<Parsed>, c: string): (n: nat)
    ensures n <= |files|
    decreases |files|
  {
    if files == [] then 0
    else FilesWith(files[..|files| - 1], c) + if files[|files| - 1].Some? && c in files[|files| - 1].value then 1 else 0
  }

  /** Some file mentions class `c`. */
  predicate Mentioned(files: seq<Parsed>, c: string) {
    exists i | 0 <= i < |files| :: files[i].Some? && c in files[i].value
  }

  lemma BumpNothing(global: map<string, nat>)
    ensures Bump(global, {}) == global
  {
  }

  lemma BumpStep(before: map<string, nat>, done: set<string>, key: string, global: map<string, nat>)
    requires key !in done && global == Bump(before, done)
    ensures global[key := CountOf(global, key) + 1] == Bump(before, done + {key})
  {
    var l, r := Bump(before, done + {key}), global[key := CountOf(global, key) + 1];
    assert l.Keys == r.Keys;
    forall k | k in l ensures l[k] == r[k] {
    }
  }

  lemma SpreadSnoc(files: seq<Parsed>, i: nat)
    requires i < |files|
    ensures Spread(files[..i + 1]) == Bump(Spread(files[..i]), Mentions(files[i]).Keys)
  {
    assert files[..i + 1][..i] == files[..i];
  }

  /** Each class gets the number of files that mention it, which is at
      least one and at most the number of files; a class no file mentions
      gets no key. */
  lemma {:induction false} SpreadCount(files: seq<Parsed>, c: string)
    ensures c in Spread(files) <==> Mentioned(files, c)
    ensures CountOf(Spread(files), c) == FilesWith(files, c)
    ensures c in Spread(files) ==> 1 <= Spread(files)[c] <= |files|
    decreases |files|
  {
    if files != [] {
      var init, last := files[..|files| - 1], files[|files| - 1];
      SpreadCount(init, c);
      if last.Some? {
        TalliedCount(last.value, c);
      }
      if Mentioned(files, c) {
        var i :| 0 <= i < |files| && files[i].Some? && c in files[i].value;
        if i < |init| {
          assert init[i] == files[i];
        }
      }
      if Mentioned(init, c) {
        var i :| 0 <= i < |init| && init[i].Some? && c in init[i].value;
        assert files[i] == init[i];
      }
    }
  }

  /** `batch_count_mentions` over the parsed files of a directory, in
      listing order: every class of each file's counts goes up by one. */
  method BatchCountMentions(files: seq<Parsed>) returns (global: map<string, nat>)
    ensures global == Spread(files)
  {
    global := map[];
    var i := 0;
    while i < |files|
      invariant 0 <= i <= |files|
      invariant global == Spread(files[..i])
    {
      var counts := CountMentions(files[i]);
      var before := global;
      var remaining, done := counts.Keys, {};
      BumpNothing(before);
      while remaining != {}
        invariant remaining + done == counts.Keys && remaining !! done
        invariant global == Bump(before, done)
        decreases remaining
      {
        var key :| key in remaining;
        var tmp := CountOf(global, key) + 1;
        BumpStep(before, done, key, global);
        global := global[key := tmp];
        remaining, done := remaining - {key}, done + {key};
      }
      assert done == counts.Keys;
      SpreadSnoc(files, i);
      i := i + 1;
    }
    assert files[..i] == files;
  }

  /*** annotations_by_start_offset ***/

  /** The dict after the loop has stored the records `anns`. */
  function ByStart(anns: seq<Annotation>): map<int, Annotation>
    decreases |anns|
  {
    if anns == [] then map[] else ByStart(anns[..|anns| - 1])[anns[|anns| - 1].start := anns[|anns| - 1]]
  }

  /** The keys are exactly the start offsets of the records. */
  lemma {:induction false} ByStartKeys(anns: seq<Annotation>, s: int)
    ensures s in ByStart(anns) <==> exists i | 0 <= i < |anns| :: anns[i].start == s
    decreases |anns|
  {
    if anns != [] {
      var init := anns[..|anns| - 1];
      ByStartKeys(init, s);
      if exists i | 0 <= i < |anns| :: anns[i].start == s {
        var i :| 0 <= i < |anns| && anns[i].start == s;
        if i < |init| {
          assert init[i] == anns[i];
        }
      }
      if exists i | 0 <= i < |init| :: init[i].start == s {
        var i :| 0 <= i < |init| && init[i].start == s;
        assert anns[i] == init[i];
      }
    }
  }

  /** Of several records with the same start offset, the one stored is the
      last of them. */
  lemma {:induction false} ByStartLastWins(anns: seq<Annotation>, i: nat)
    requires i < |anns|
    requires forall j | i < j < |anns| :: anns[j].start != anns[i].start
    ensures anns[i].start in ByStart(anns) && ByStart(anns)[anns[i].start] == anns[i]
    decreases |anns|
  {
    if i < |anns| - 1 {
      var init := anns[..|anns| - 1];
      forall j | i < j < |init| ensures init[j].start != init[i].start {
        assert init[j] == anns[j];
      }
      ByStartLastWins(init, i);
      assert anns[|anns| - 1].start != anns[i].start;
    }
  }

  /** `annotations_by_start_offset`: each record is stored under its start
      offset, overwriting any earlier one. */
  method AnnotationsByStartOffset(anns: seq<Annotation>) returns (annDict: map<int, Annotation>)
    ensures annDict == ByStart(anns)
  {
    annDict := map[];
    var i := 0;
    while i < |anns|
      invariant 0 <= i <= |anns|
      invariant annDict == ByStart(anns[..i])
    {
      var start := anns[i].start;
      annDict := annDict[start := anns[i]];
      assert anns[..i + 1][..i] == anns[..i];
      i := i + 1;
    }
    assert anns[..i] == anns;
  }
}
