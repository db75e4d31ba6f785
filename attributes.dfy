/** The attribute comparator `match_attributes`, the per-attribute tallies
    and their Counter-style merge, and the attribute vectors of
    `get_tag_attrs`. */
module Attributes {
  import opened Annotations

  /** Keys that `match_attributes` does not compare. `class` is not among
      them, so the annotation class is compared like any attribute. */
  const CompareExcluded: set<string> := {"start", "end", "text", "comment", "annotator"}

  /** Per-attribute outcome counts. A count of 0 stands for a key that the
      source's score dict does not hold (its `.get(key, 0)`). */
  datatype Tally = Tally(tp: nat, fp: nat, fn: nat, tn: nat)

  function NoCounts(): Tally { Tally(0, 0, 0, 0) }

  /** `Counter(x) + Counter(y)` on counts that are never negative. */
  function Add(x: Tally, y: Tally): Tally {
    Tally(x.tp + y.tp, x.fp + y.fp, x.fn + y.fn, x.tn + y.tn)
  }

  lemma AddAssociative(x: Tally, y: Tally, z: Tally)
    ensures Add(Add(x, y), z) == Add(x, Add(y, z))
  {
  }

  /** `attr_agr.get(attr, {})` */
  function Lookup(agr: map<string, Tally>, attr: string): Tally {
    if attr in agr then agr[attr] else NoCounts()
  }

  /** A diagnostic line: the attribute and the two values it shows. */
  datatype Diag = Disagreement(attr: string, v1: Option<string>, v2: Option<string>)

  /** The only outcome that emits no diagnostic: both values set and equal. */
  predicate Agree(v1: Option<string>, v2: Option<string>) {
    v1.Some? && v2.Some? && v1 == v2
  }

  /** The tally one comparison of two values contributes. A value on the
      first record only counts as fn, a value on the second only as fp, two
      different values as both. */
  function Outcome(v1: Option<string>, v2: Option<string>): Tally {
    if v1.Some? && v2.Some? then
      if v1 == v2 then Tally(1, 0, 0, 0) else Tally(0, 1, 1, 0)
    else if v1.None? && v2.Some? then Tally(0, 1, 0, 0)
    else if v1.Some? && v2.None? then Tally(0, 0, 1, 0)
    else Tally(0, 0, 0, 1)
  }

  /** The list comprehension of `attrs_to_check`: the keys, in order, that
      are not excluded from comparison. */
  function CheckedKeys(keys: seq<string>): (r: seq<string>)
    ensures forall a :: a in r <==> a in keys && a !in CompareExcluded
    ensures (forall i, j | 0 <= i < j < |keys| :: keys[i] != keys[j]) ==>
              forall i, j | 0 <= i < j < |r| :: r[i] != r[j]
  {
    if keys == [] then []
    else if keys[0] in CompareExcluded then CheckedKeys(keys[1..])
    else
      assert (forall i, j | 0 <= i < j < |keys| :: keys[i] != keys[j]) ==> keys[0] !in keys[1..] by {
        if keys[0] in keys[1..] {
          var j :| 0 <= j < |keys[1..]| && keys[1..][j] == keys[0];
          assert keys[j + 1] == keys[0];
        }
      }
      [keys[0]] + CheckedKeys(keys[1..])
  }

  function CheckedAttrs(t: Annotation): seq<string> {
    CheckedKeys(t.order)
  }

  /** The tally map that `match_attributes` returns, as a comprehension. */
  function AttrTallies(t1: Annotation, t2: Annotation): map<string, Tally> {
    map a | a in t1.order && a !in CompareExcluded :: Outcome(Get(t1, a), Get(t2, a))
  }

  /** The diagnostics for `attrs`, in order: one per attribute that does not
      agree. */
  function Disagreements(t1: Annotation, t2: Annotation, attrs: seq<string>): seq<Diag>
    decreases |attrs|
  {
    if attrs == [] then []
    else
      var rest := Disagreements(t1, t2, attrs[..|attrs| - 1]);
      var a := attrs[|attrs| - 1];
      if Agree(Get(t1, a), Get(t2, a)) then rest else rest + [Disagreement(a, Get(t1, a), Get(t2, a))]
  }

  /** The tallies of `attrs`, built one key at a time as the loop of
      `match_attributes` builds them: get the attribute's counts (none
      yet is all zero), add the outcome, put them back. */
  function TalliesOf(t1: Annotation, t2: Annotation, attrs: seq<string>): map<string, Tally>
    decreases |attrs|
  {
    if attrs == [] then map[]
    else
      var prev := TalliesOf(t1, t2, attrs[..|attrs| - 1]);
      var a := attrs[|attrs| - 1];
      prev[a := Add(Lookup(prev, a), Outcome(Get(t1, a), Get(t2, a)))]
  }

  /** The tally map `match_attributes(t1, t2)` returns. */
  function AttrScores(t1: Annotation, t2: Annotation): map<string, Tally> {
    TalliesOf(t1, t2, CheckedAttrs(t1))
  }

  /** One branch of the comparison: the old counts of the attribute plus the
      outcome of its two values, and whether a diagnostic is due. */
  method Score(scores: Tally, val1: Option<string>, val2: Option<string>) returns (r: Tally, disagreement: bool)
    ensures r == Add(scores, Outcome(val1, val2))
    ensures disagreement <==> !Agree(val1, val2)
  {
    r := scores;
    disagreement := true;
    if val1.Some? && val2.Some? {
      if val1 == val2 {
        r := r.(tp := r.tp + 1);
        disagreement := false;
      } else {
        // a disagreement counts both ways
        r := r.(fp := r.fp + 1);
        r := r.(fn := r.fn + 1);
      }
    } else if val1.None? && val2.Some? {
      r := r.(fp := r.fp + 1);
    } else if val1.Some? && val2.None? {
      r := r.(fn := r.fn + 1);
    } else {
      // both absent: a tn, still reported as a disagreement line
      r := r.(tn := r.tn + 1);
    }
  }

  /** `match_attributes(tag1, tag2)`: the tallies are `AttrScores` and the
      diagnostics are `Disagreements` over the checked keys in order (what
      these say is proved in `AttrScoresReference`, `AttrTalliesKeys`,
      `DiagnosticsIffNoTp` and `DisagreementsCharacterized`). */
  method MatchAttributes(tag1: Annotation, tag2: Annotation) returns (agr: map<string, Tally>, diags: seq<Diag>)
    ensures agr == AttrScores(tag1, tag2)
    ensures diags == Disagreements(tag1, tag2, CheckedAttrs(tag1))
  {
    agr := map[];
    diags := [];
    var attrs := CheckedAttrs(tag1);
    var i := 0;
    while i < |attrs|
      invariant 0 <= i <= |attrs|
      invariant agr == TalliesOf(tag1, tag2, attrs[..i])
      invariant diags == Disagreements(tag1, tag2, attrs[..i])
    {
      var attr := attrs[i];
      assert attrs[..i + 1][..i] == attrs[..i];
      var val1 := Get(tag1, attr);
      var val2 := Get(tag2, attr);
      var scores := Lookup(agr, attr);
      var disagreement;
      scores, disagreement := Score(scores, val1, val2);
      agr := agr[attr := scores];
      if disagreement {
        diags := diags + [Disagreement(attr, val1, val2)];
      }
      i := i + 1;
    }
    assert attrs[..i] == attrs;
  }

  /** Over keys without repeats, each key of `attrs` gets exactly the
      outcome of its two values, and no other key gets an entry. */
  lemma {:induction false} TalliesOfDistinct(t1: Annotation, t2: Annotation, attrs: seq<string>)
    requires forall j, k | 0 <= j < k < |attrs| :: attrs[j] != attrs[k]
    ensures forall a :: a in TalliesOf(t1, t2, attrs) <==> a in attrs
    ensures forall a | a in TalliesOf(t1, t2, attrs) :: TalliesOf(t1, t2, attrs)[a] == Outcome(Get(t1, a), Get(t2, a))
    decreases |attrs|
  {
    if attrs != [] {
      var init := attrs[..|attrs| - 1];
      var last := attrs[|attrs| - 1];
      forall j, k | 0 <= j < k < |init|
        ensures init[j] != init[k]
      {
        assert init[j] == attrs[j] && init[k] == attrs[k];
      }
      TalliesOfDistinct(t1, t2, init);
      forall j | 0 <= j < |init|
        ensures init[j] != last
      {
        assert init[j] == attrs[j];
      }
      var prev := TalliesOf(t1, t2, init);
      assert last !in prev;
      assert TalliesOf(t1, t2, attrs) == prev[last := Outcome(Get(t1, last), Get(t2, last))];
      assert attrs == init + [last];
    }
  }

  /** For a well-formed first record the tallies of the loop are the
      reference comprehension: one outcome per checked key. */
  lemma AttrScoresReference(t1: Annotation, t2: Annotation)
    requires WellFormed(t1)
    ensures AttrScores(t1, t2) == AttrTallies(t1, t2)
  {
    TalliesOfDistinct(t1, t2, CheckedAttrs(t1));
  }

  /** Each tally is exactly one of the five outcomes, and it holds a tp
      exactly when the two values agree. */
  lemma OutcomeCases(v1: Option<string>, v2: Option<string>)
    ensures var o := Outcome(v1, v2);
            && (o == Tally(1, 0, 0, 0) <==> v1.Some? && v1 == v2)
            && (o == Tally(0, 1, 1, 0) <==> v1.Some? && v2.Some? && v1 != v2)
            && (o == Tally(0, 1, 0, 0) <==> v1.None? && v2.Some?)
            && (o == Tally(0, 0, 1, 0) <==> v1.Some? && v2.None?)
            && (o == Tally(0, 0, 0, 1) <==> v1.None? && v2.None?)
            && (o.tp == 1 <==> Agree(v1, v2))
            && (o.tp == 0 <==> !Agree(v1, v2))
  {
  }

  /** The tallies have one entry per key of the first record that is not
      excluded; keys found only on the second record get none. */
  lemma AttrTalliesKeys(t1: Annotation, t2: Annotation)
    requires WellFormed(t1)
    ensures AttrTallies(t1, t2).Keys == (set a | a in t1.fields && a !in CompareExcluded)
  {
    KeysOfRecord(t1);
  }

  /** No diagnostic at all exactly when every checked attribute scored a tp;
      an attribute has a diagnostic exactly when its tally has no tp. */
  lemma DiagnosticsIffNoTp(t1: Annotation, t2: Annotation)
    ensures var agr, ds := AttrTallies(t1, t2), Disagreements(t1, t2, CheckedAttrs(t1));
            && (ds == [] <==> forall a | a in agr :: agr[a].tp == 1)
            && forall a :: Mentions(ds, a) <==> a in agr && agr[a].tp == 0
  {
    var agr, ds := AttrTallies(t1, t2), Disagreements(t1, t2, CheckedAttrs(t1));
    DisagreementsCharacterized(t1, t2, CheckedAttrs(t1));
    forall a | a in agr
      ensures agr[a].tp == 1 <==> Agree(Get(t1, a), Get(t2, a))
      ensures agr[a].tp == 0 <==> !Agree(Get(t1, a), Get(t2, a))
    {
      OutcomeCases(Get(t1, a), Get(t2, a));
    }
  }

  /** A diagnostic shows the two values of its attribute, and they do not
      agree. */
  predicate Shows(t1: Annotation, t2: Annotation, d: Diag) {
    d.v1 == Get(t1, d.attr) && d.v2 == Get(t2, d.attr) && !Agree(d.v1, d.v2)
  }

  /** Some diagnostic of `ds` is about attribute `a`. */
  predicate Mentions(ds: seq<Diag>, a: string) {
    exists k | 0 <= k < |ds| :: ds[k].attr == a
  }

  /** Every diagnostic is for an attribute of `attrs` that disagrees, and
      shows the two values compared. */
  lemma {:induction false} DisagreementsSound(t1: Annotation, t2: Annotation, attrs: seq<string>)
    ensures forall k | 0 <= k < |Disagreements(t1, t2, attrs)| ::
              Disagreements(t1, t2, attrs)[k].attr in attrs && Shows(t1, t2, Disagreements(t1, t2, attrs)[k])
    decreases |attrs|
  {
    if attrs != [] {
      var init := attrs[..|attrs| - 1];
      DisagreementsSound(t1, t2, init);
      assert attrs == init + [attrs[|attrs| - 1]];
    }
  }

  /** Every attribute of `attrs` that disagrees has a diagnostic. */
  lemma {:induction false} DisagreementsComplete(t1: Annotation, t2: Annotation, attrs: seq<string>)
    ensures forall a | a in attrs && !Agree(Get(t1, a), Get(t2, a)) :: Mentions(Disagreements(t1, t2, attrs), a)
    decreases |attrs|
  {
    if attrs != [] {
      var init := attrs[..|attrs| - 1];
      var last := attrs[|attrs| - 1];
      DisagreementsComplete(t1, t2, init);
      var rest := Disagreements(t1, t2, init);
      var ds := Disagreements(t1, t2, attrs);
      assert attrs == init + [last];
      forall a | a in attrs && !Agree(Get(t1, a), Get(t2, a))
        ensures Mentions(ds, a)
      {
        if a == last {
          assert ds[|ds| - 1].attr == a;
        } else {
          assert a in init;
          var k :| 0 <= k < |rest| && rest[k].attr == a;
          assert ds[k] == rest[k];
        }
      }
    }
  }

  /** The diagnostics name exactly the attributes of `attrs` that disagree,
      with the two values compared, and are empty exactly when all agree. */
  lemma DisagreementsCharacterized(t1: Annotation, t2: Annotation, attrs: seq<string>)
    ensures var ds := Disagreements(t1, t2, attrs);
            && (forall k | 0 <= k < |ds| :: ds[k].attr in attrs && Shows(t1, t2, ds[k]))
            && (forall a | a in attrs && !Agree(Get(t1, a), Get(t2, a)) :: Mentions(ds, a))
            && (ds == [] <==> forall a | a in attrs :: Agree(Get(t1, a), Get(t2, a)))
  {
    DisagreementsSound(t1, t2, attrs);
    DisagreementsComplete(t1, t2, attrs);
  }

  /** Swapping the two records swaps the fp and fn roles of every attribute
      checked on both sides. */
  lemma AttrTalliesSwap(t1: Annotation, t2: Annotation, a: string)
    requires a in AttrTallies(t1, t2) && a in AttrTallies(t2, t1)
    ensures var x, y := AttrTallies(t1, t2)[a], AttrTallies(t2, t1)[a];
            y == Tally(x.tp, x.fn, x.fp, x.tn)
  {
  }

  /** Merging two tally maps as the source does with
      `dict(Counter(curr_agr) + Counter(new_agr))` per attribute. */
  function MergeAgr(g: map<string, Tally>, d: map<string, Tally>): map<string, Tally> {
    map k | k in g.Keys + d.Keys :: Add(Lookup(g, k), Lookup(d, k))
  }

  /** The merge loop `for attr in a: attr_agr[attr] = curr + new`: the keys
      become the union and each tally the pointwise sum. */
  method MergeTallies(g: map<string, Tally>, d: map<string, Tally>) returns (r: map<string, Tally>)
    ensures r == MergeAgr(g, d)
  {
    r := g;
    var todo := d.Keys;
    while todo != {}
      invariant todo <= d.Keys
      invariant r.Keys == g.Keys + (d.Keys - todo)
      invariant forall k | k in r :: r[k] == if k in d && k !in todo then Add(Lookup(g, k), d[k]) else g[k]
      decreases todo
    {
      var attr :| attr in todo;
      r := r[attr := Add(Lookup(r, attr), d[attr])];
      todo := todo - {attr};
    }
    assert r.Keys == g.Keys + d.Keys;
  }

  lemma LookupMerge(g: map<string, Tally>, d: map<string, Tally>, k: string)
    ensures Lookup(MergeAgr(g, d), k) == Add(Lookup(g, k), Lookup(d, k))
  {
  }

  /** Tally merging is commutative, associative and has the empty map as
      identity, so per-document tallies can be summed in any order. */
  lemma MergeAgrCommutative(x: map<string, Tally>, y: map<string, Tally>)
    ensures MergeAgr(x, y) == MergeAgr(y, x)
  {
  }

  lemma MergeAgrAssociative(x: map<string, Tally>, y: map<string, Tally>, z: map<string, Tally>)
    ensures MergeAgr(MergeAgr(x, y), z) == MergeAgr(x, MergeAgr(y, z))
  {
    var l, r := MergeAgr(MergeAgr(x, y), z), MergeAgr(x, MergeAgr(y, z));
    assert l.Keys == r.Keys;
    forall k | k in l
      ensures l[k] == r[k]
    {
      LookupMerge(x, y, k);
      LookupMerge(y, z, k);
    }
  }

  lemma MergeAgrIdentity(x: map<string, Tally>)
    ensures MergeAgr(x, map[]) == x && MergeAgr(map[], x) == x
  {
  }

  /** An attribute vector: one entry per vocabulary name. */
  type Vector = map<string, Option<string>>

  /** The projection `get_tag_attrs` computes. */
  function TagAttrs(tag: Annotation, vocab: set<string>): Vector {
    map a | a in vocab :: Get(tag, a)
  }

  /** `get_tag_attrs(tag)`: exactly the vocabulary names as keys, with the
      record's value or None when the record lacks the key. */
  method GetTagAttrs(tag: Annotation, vocab: set<string>) returns (values: Vector)
    ensures values == TagAttrs(tag, vocab)
  {
    values := map[];
    var todo := vocab;
    while todo != {}
      invariant todo <= vocab
      invariant values.Keys == vocab - todo
      invariant forall a | a in values :: values[a] == Get(tag, a)
      decreases todo
    {
      var attr :| attr in todo;
      var val := Get(tag, attr);
      values := values[attr := val];
      todo := todo - {attr};
    }
    assert values.Keys == vocab;
  }
}
