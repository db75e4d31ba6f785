/** Annotation records as the eHOST loader produces them, and Python-style
    value equality on them. */
module Annotations {

  datatype Option<+T> = None | Some(value: T)

  datatype Result<+T, +E> = Success(value: T) | Failure(error: E)

  /** The errors the agreement engine can raise. */
  datatype Error =
    | InvalidMatching(matching: string)  // ValueError raised by batch_agreement
    | ZeroDivision                       // ZeroDivisionError raised by prf

  /** One annotation record: a Python dict from field name to an optional
      string, in key order. The `start` and `end` offsets are kept apart as
      the integers the engine reads them as; `order` lists the remaining keys
      in insertion order and `fields` gives their values (None is a value). */
  datatype Annotation = Annotation(start: int, end: int, order: seq<string>, fields: map<string, Option<string>>)

  /** The set of names listed in `order`. */
  function KeySet(order: seq<string>): set<string> {
    if order == [] then {} else KeySet(order[..|order| - 1]) + {order[|order| - 1]}
  }

  /** A record as the loader builds it: its key list has no repeats, lists
      exactly the keys that hold a value, and the offsets are not among them. */
  predicate WellFormed(a: Annotation) {
    && (forall i, j | 0 <= i < j < |a.order| :: a.order[i] != a.order[j])
    && KeySet(a.order) == a.fields.Keys
    && "start" !in a.fields && "end" !in a.fields
  }

  /** `tag.get(key, None)`: absent keys and keys holding None both give None. */
  function Get(a: Annotation, key: string): Option<string> {
    if key in a.fields then a.fields[key] else None
  }

  /** Python `==` on two records: same offsets and same key/value pairs; the
      key order does not take part. */
  predicate Same(a: Annotation, b: Annotation) {
    a.start == b.start && a.end == b.end && a.fields == b.fields
  }

  /** Python `t in s` for a list of records. */
  predicate Member(t: Annotation, s: seq<Annotation>) {
    exists i | 0 <= i < |s| :: Same(s[i], t)
  }

  /** No two records of `s` are equal as Python values. */
  ghost predicate Distinct(s: seq<Annotation>) {
    forall i, j | 0 <= i < j < |s| :: !Same(s[i], s[j])
  }

  /** No record of `s` equals a record of `u` as a Python value. */
  ghost predicate Disjoint(s: seq<Annotation>, u: seq<Annotation>) {
    forall i, j | 0 <= i < |s| && 0 <= j < |u| :: !Same(s[i], u[j])
  }

  lemma MemberAppend(t: Annotation, s: seq<Annotation>, x: Annotation)
    ensures Member(t, s + [x]) <==> Member(t, s) || Same(x, t)
  {
    if Member(t, s) {
      var i :| 0 <= i < |s| && Same(s[i], t);
      assert (s + [x])[i] == s[i];
    }
    if Same(x, t) {
      assert (s + [x])[|s|] == x;
    }
    if Member(t, s + [x]) {
      var i :| 0 <= i < |s + [x]| && Same((s + [x])[i], t);
      if i < |s| {
        assert s[i] == (s + [x])[i];
      }
    }
  }

  /** `KeySet` holds exactly the names of the list. */
  lemma {:induction false} KeySetMembers(order: seq<string>)
    ensures forall k :: k in KeySet(order) <==> k in order
  {
    if order != [] {
      var init := order[..|order| - 1];
      KeySetMembers(init);
      assert order == init + [order[|order| - 1]];
    }
  }

  /** The keys of a well-formed record are the names of its key list. */
  lemma KeysOfRecord(a: Annotation)
    requires WellFormed(a)
    ensures forall k :: k in a.fields <==> k in a.order
  {
    KeySetMembers(a.order);
  }
}
