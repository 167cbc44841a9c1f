/**
 * What the group and label summaries share: the `(classification, note)`
 * pairs they list, the `is_intermittent` rule, and `sum` over durations.
 */
module Summaries {
  import opened Wrappers
  import opened Tasks

  /** A `(classification, classification_note)` pair. */
  datatype Classification = Classification(classification: Option<string>, note: Option<string>)

  function ClassificationOf(t: Task): Classification
  {
    Classification(t.classification, t.classificationNote)
  }

  /** `is_intermittent`: the status is INTERMITTENT, or some listed classification (not note) is `intermittent`. */
  predicate IsIntermittent(status: Option<Status>, cls: seq<Classification>)
  {
    status == Some(Intermittent) || exists k | 0 <= k < |cls| :: cls[k].classification == Some("intermittent")
  }

  /** `sum(durations)`, which is defined only when no duration is `None`. */
  function Total(ds: seq<Option<int>>): int
    requires forall k | 0 <= k < |ds| :: ds[k].Some?
    decreases |ds|
  {
    if ds == [] then 0 else Total(ds[..|ds| - 1]) + ds[|ds| - 1].value
  }

  /** The total of a concatenation is the sum of the totals. */
  lemma {:induction false} TotalAppend(a: seq<Option<int>>, b: seq<Option<int>>)
    requires forall k | 0 <= k < |a| :: a[k].Some?
    requires forall k | 0 <= k < |b| :: b[k].Some?
    ensures Total(a + b) == Total(a) + Total(b)
    decreases |b|
  {
    if b == [] {
      assert a + b == a;
    } else {
      var b' := b[..|b| - 1];
      TotalAppend(a, b');
      assert (a + b)[..|a + b| - 1] == a + b';
    }
  }

  /** With no negative duration, the total is at least every single duration. */
  lemma {:induction false} TotalBounds(ds: seq<Option<int>>)
    requires forall k | 0 <= k < |ds| :: ds[k].Some? && ds[k].value >= 0
    ensures Total(ds) >= 0
    ensures forall k | 0 <= k < |ds| :: Total(ds) >= ds[k].value
    decreases |ds|
  {
    if ds != [] {
      var init := ds[..|ds| - 1];
      TotalBounds(init);
      assert forall k | 0 <= k < |init| :: init[k] == ds[k];
    }
  }

  lemma {:induction false} TotalBoundsWhenNonNegative(ds: seq<Option<int>>)
    requires forall k | 0 <= k < |ds| :: ds[k].Some?
    ensures (forall k | 0 <= k < |ds| :: ds[k].value >= 0) ==> Total(ds) >= 0 && forall k | 0 <= k < |ds| :: Total(ds) >= ds[k].value
  {
    if forall k | 0 <= k < |ds| :: ds[k].value >= 0 {
      TotalBounds(ds);
    }
  }
}
