/** The part of schema validation the forms use: each failed check yields an
    issue naming the offending field and the message the schema gives for it. */
module Validation {
  import opened Text

  datatype Issue<F> = Issue(field: F, message: string)

  /** `z.string().min(n, message)`, which compares the string's `length`, a
      count of UTF-16 code units. */
  function MinLength<F>(field: F, s: string, n: nat, message: string): (r: seq<Issue<F>>)
    ensures r == [] <==> Utf16Length(s) >= n
    ensures |r| <= 1 && forall k :: 0 <= k < |r| ==> r[k] == Issue(field, message)
  {
    if Utf16Length(s) < n then [Issue(field, message)] else []
  }

  /** `z.string().max(n, message)`, on the same `length`. */
  function MaxLength<F>(field: F, s: string, n: nat, message: string): (r: seq<Issue<F>>)
    ensures r == [] <==> Utf16Length(s) <= n
    ensures |r| <= 1 && forall k :: 0 <= k < |r| ==> r[k] == Issue(field, message)
  {
    if Utf16Length(s) > n then [Issue(field, message)] else []
  }

  /** `z.number().min(n, message)`. */
  function AtLeast<F>(field: F, x: int, n: int, message: string): (r: seq<Issue<F>>)
    ensures r == [] <==> x >= n
    ensures |r| <= 1 && forall k :: 0 <= k < |r| ==> r[k] == Issue(field, message)
  {
    if x < n then [Issue(field, message)] else []
  }

  /** A `.refine(check, {message, path})` on the whole object. */
  function Refinement<F>(holds: bool, field: F, message: string): (r: seq<Issue<F>>)
    ensures r == [] <==> holds
    ensures |r| <= 1 && forall k :: 0 <= k < |r| ==> r[k] == Issue(field, message)
  {
    if holds then [] else [Issue(field, message)]
  }

  /** The fields some issue of `issues` names. */
  function FieldsOf<F>(issues: seq<Issue<F>>): set<F> {
    set k | 0 <= k < |issues| :: issues[k].field
  }

  /** The fields named by a concatenation of issue lists. */
  lemma FieldsOfAppend<F>(a: seq<Issue<F>>, b: seq<Issue<F>>)
    ensures FieldsOf(a + b) == FieldsOf(a) + FieldsOf(b)
  {
    var ab := a + b;
    forall f | f in FieldsOf(ab) ensures f in FieldsOf(a) + FieldsOf(b) {
      var k :| 0 <= k < |ab| && ab[k].field == f;
      if k >= |a| { assert b[k - |a|] == ab[k]; }
    }
    forall f | f in FieldsOf(b) ensures f in FieldsOf(ab) {
      var k :| 0 <= k < |b| && b[k].field == f;
      assert ab[k + |a|] == b[k];
    }
    forall f | f in FieldsOf(a) ensures f in FieldsOf(ab) {
      var k :| 0 <= k < |a| && a[k].field == f;
      assert ab[k] == a[k];
    }
  }

  /** No two issues of the list name the same field. */
  ghost predicate DistinctFields<F>(issues: seq<Issue<F>>) {
    forall i, j :: 0 <= i < j < |issues| ==> issues[i].field != issues[j].field
  }

  /** Two lists without repeated fields, naming disjoint sets of fields, concatenate
      into one without repeated fields. */
  lemma DistinctAppend<F>(a: seq<Issue<F>>, b: seq<Issue<F>>)
    requires DistinctFields(a) && DistinctFields(b) && FieldsOf(a) !! FieldsOf(b)
    ensures DistinctFields(a + b)
  {
    var ab := a + b;
    forall i, j | 0 <= i < j < |ab| ensures ab[i].field != ab[j].field {
      if j < |a| {
        assert ab[i] == a[i] && ab[j] == a[j];
      } else if i >= |a| {
        assert ab[i] == b[i - |a|] && ab[j] == b[j - |a|];
      } else {
        assert ab[i] == a[i] && a[i].field in FieldsOf(a);
        assert ab[j] == b[j - |a|] && b[j - |a|].field in FieldsOf(b);
      }
    }
  }

  /** An issue list of one check names that check's field exactly when it is not empty. */
  lemma FieldsOfSingle<F>(issues: seq<Issue<F>>, field: F)
    requires |issues| <= 1
    requires forall k :: 0 <= k < |issues| ==> issues[k].field == field
    ensures FieldsOf(issues) == if issues == [] then {} else {field}
  {
    if issues != [] { assert issues[0].field in FieldsOf(issues); }
  }
}
