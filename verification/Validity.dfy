/** Validity assertions and the toggle walk over them: which Bound, if any, closes a claim's
    window at an instant, and where the window then ends. */
module Validity {
  import opened Ledger
  import opened StableSort

  datatype DateGranularity = Year | Month | Day | FullInstant

  datatype AssertionKind =
    | Bound(boundAt: Instant, granularity: Option<DateGranularity>)
    | Reopen(reopenAt: Instant)
  {
    function At(): Instant {
      match this
      case Bound(at, _) => at
      case Reopen(at) => at
    }
  }

  datatype Assertion = Assertion(ref: Uuid, target: ClaimRef, kind: AssertionKind, assertedAt: Instant)

  datatype BoundState = BoundState(boundAt: Instant, assertionRef: Uuid, granularity: Option<DateGranularity>)

  /** Time order with the assertion's identifier as tie-breaker. */
  predicate AssertedBefore(a: Assertion, b: Assertion) {
    a.assertedAt < b.assertedAt || (a.assertedAt == b.assertedAt && a.ref < b.ref)
  }

  function Toggle(state: Option<BoundState>, a: Assertion, asOf: Instant): Option<BoundState> {
    if a.assertedAt > asOf then state
    else match a.kind
      case Bound(at, granularity) => if at <= asOf then Some(BoundState(at, a.ref, granularity)) else state
      case Reopen(at) => if at <= asOf then None else state
  }

  function Walk(sorted: seq<Assertion>, asOf: Instant): Option<BoundState> {
    if sorted == [] then None
    else Toggle(Walk(sorted[..|sorted| - 1], asOf), sorted[|sorted| - 1], asOf)
  }

  function ActiveBoundAt(assertions: seq<Assertion>, asOf: Instant): Option<BoundState> {
    Walk(Sort(assertions, AssertedBefore), asOf)
  }

  /** `active_bound_at`: sort, then one pass over the visible assertions. */
  method ComputeActiveBoundAt(assertions: seq<Assertion>, asOf: Instant) returns (state: Option<BoundState>)
    ensures state == ActiveBoundAt(assertions, asOf)
  {
    var sorted := Sort(assertions, AssertedBefore);
    state := None;
    for n := 0 to |sorted|
      invariant state == Walk(sorted[..n], asOf)
    {
      assert sorted[..n + 1][..n] == sorted[..n];
      var a := sorted[n];
      if a.assertedAt <= asOf {
        match a.kind
        case Bound(at, granularity) =>
          if at <= asOf {
            state := Some(BoundState(at, a.ref, granularity));
          }
        case Reopen(at) =>
          if at <= asOf {
            state := None;
          }
      }
    }
    assert sorted[..|sorted|] == sorted;
  }

  /** Asserted by `asOf`, about an instant that has come by `asOf`. */
  predicate Effective(a: Assertion, asOf: Instant) {
    a.assertedAt <= asOf && a.kind.At() <= asOf
  }

  ghost predicate LastEffectiveAt(sorted: seq<Assertion>, asOf: Instant, i: int) {
    && 0 <= i < |sorted| && Effective(sorted[i], asOf)
    && forall j :: i < j < |sorted| ==> !Effective(sorted[j], asOf)
  }

  /** The walk's answer is its last effective assertion: a Bound is active exactly when that one is
      a Bound, that is, when no effective Reopen follows it. */
  lemma {:induction false} WalkFindsLastEffective(sorted: seq<Assertion>, asOf: Instant)
    ensures match Walk(sorted, asOf)
            case Some(b) => exists i :: LastEffectiveAt(sorted, asOf, i) && sorted[i].kind.Bound?
                                        && b == BoundState(sorted[i].kind.boundAt, sorted[i].ref, sorted[i].kind.granularity)
            case None => forall i :: LastEffectiveAt(sorted, asOf, i) ==> sorted[i].kind.Reopen?
  {
    if sorted != [] {
      var p, n := sorted[..|sorted| - 1], |sorted| - 1;
      WalkFindsLastEffective(p, asOf);
      if Effective(sorted[n], asOf) {
        assert LastEffectiveAt(sorted, asOf, n);
      } else {
        forall i ensures LastEffectiveAt(p, asOf, i) <==> LastEffectiveAt(sorted, asOf, i) {
          assert 0 <= i < n ==> p[i] == sorted[i];
        }
        if Walk(p, asOf).Some? {
          var i :| LastEffectiveAt(p, asOf, i) && p[i].kind.Bound?
                && Walk(p, asOf).value == BoundState(p[i].kind.boundAt, p[i].ref, p[i].kind.granularity);
          assert sorted[i] == p[i];
        } else {
          forall i | LastEffectiveAt(sorted, asOf, i) ensures sorted[i].kind.Reopen? {
            assert p[i] == sorted[i];
          }
        }
      }
    }
  }

  ghost predicate SomeEffective(aas: seq<Assertion>, asOf: Instant) {
    exists k :: 0 <= k < |aas| && Effective(aas[k], asOf)
  }

  /** An effective Bound in the middle of a log that leaves the claim open: it holds unless an effective
      assertion, which must be a Reopen then, comes after it. */
  lemma {:induction false} WalkWithBound(pre: seq<Assertion>, a: Assertion, post: seq<Assertion>, asOf: Instant)
    requires a.kind.Bound? && Effective(a, asOf) && Walk(pre + post, asOf).None?
    ensures Walk(pre + [a] + post, asOf)
            == if SomeEffective(post, asOf) then None else Some(BoundState(a.kind.boundAt, a.ref, a.kind.granularity))
  {
    if post == [] {
      assert pre + [a] + post == pre + [a] && (pre + [a])[..|pre|] == pre;
    } else {
      var q, y := post[..|post| - 1], post[|post| - 1];
      assert (pre + post)[..|pre + post| - 1] == pre + q;
      assert (pre + [a] + post)[..|pre + [a] + post| - 1] == pre + [a] + q;
      if Effective(y, asOf) {
        assert Effective(post[|post| - 1], asOf);
      } else {
        WalkWithBound(pre, a, q, asOf);
        assert SomeEffective(post, asOf) <==> SomeEffective(q, asOf) by {
          forall k | 0 <= k < |q| ensures post[k] == q[k] {
          }
        }
      }
    }
  }

  /** An assertion that is effective at `now` stands behind one made at `now` under reference `ref`. */
  ghost predicate Overtaken(aas: seq<Assertion>, ref: Uuid, now: Instant) {
    exists k :: 0 <= k < |aas| && Effective(aas[k], now) && aas[k].assertedAt == now && ref < aas[k].ref
  }

  /** The walk takes a new assertion between the stored ones it is not before and the ones it is. */
  lemma WalkedBetween(aas: seq<Assertion>, a: Assertion, asOf: Instant) returns (pre: seq<Assertion>, post: seq<Assertion>)
    ensures ActiveBoundAt(aas, asOf) == Walk(pre + post, asOf)
    ensures ActiveBoundAt(aas + [a], asOf) == Walk(pre + [a] + post, asOf)
    ensures multiset(pre + post) == multiset(aas)
    ensures (forall b :: b in pre ==> !AssertedBefore(a, b)) && (forall b :: b in post ==> AssertedBefore(a, b))
  {
    pre, post := SortSplits(aas, a, AssertedBefore);
  }

  /** A Bound that is asserted on an open claim and is effective at once closes it, unless an assertion
      made in the same instant overtakes it. This holds of every log, in order or not. */
  lemma BoundOnOpenClaim(aas: seq<Assertion>, a: Assertion, now: Instant)
    requires a.kind.Bound? && a.assertedAt == now && a.kind.boundAt <= now && ActiveBoundAt(aas, now).None?
    ensures ActiveBoundAt(aas + [a], now)
            == if Overtaken(aas, a.ref, now) then None else Some(BoundState(a.kind.boundAt, a.ref, a.kind.granularity))
  {
    hide ActiveBoundAt, Walk;
    var pre, post := WalkedBetween(aas, a, now);
    WalkWithBound(pre, a, post, now);
    OvertakenInOrder(aas, a, now, pre, post);
  }

  lemma OvertakenInOrder(aas: seq<Assertion>, a: Assertion, now: Instant, pre: seq<Assertion>, post: seq<Assertion>)
    requires multiset(pre + post) == multiset(aas) && a.assertedAt == now
    requires (forall b :: b in pre ==> !AssertedBefore(a, b)) && (forall b :: b in post ==> AssertedBefore(a, b))
    ensures SomeEffective(post, now) <==> Overtaken(aas, a.ref, now)
  {
    if SomeEffective(post, now) {
      var k :| 0 <= k < |post| && Effective(post[k], now);
      assert post[k] in multiset(pre + post);
      var i :| 0 <= i < |aas| && aas[i] == post[k];
      assert AssertedBefore(a, aas[i]);
    }
    if Overtaken(aas, a.ref, now) {
      var k :| 0 <= k < |aas| && Effective(aas[k], now) && aas[k].assertedAt == now && a.ref < aas[k].ref;
      assert aas[k] in multiset(pre + post) && AssertedBefore(a, aas[k]);
      var i :| 0 <= i < |post| && post[i] == aas[k];
    }
  }

  // ---- The window of a claim ----------------------------------------------------------------

  /** A claim's valid-time window; `confident` says its extraction confidence meets the threshold. */
  datatype ValidTime = ValidTime(start: Option<Instant>, end: Option<Instant>, confident: bool,
                                 startGranularity: Option<DateGranularity>, endGranularity: Option<DateGranularity>)

  /** `narrowed_valid_end`: a bound only ever narrows the claim's own end. */
  function NarrowedValidEnd(vt: ValidTime, bound: Option<Instant>, boundGranularity: Option<DateGranularity>):
      (Option<Instant>, Option<DateGranularity>)
  {
    match (vt.end, bound)
    case (Some(own), Some(at)) => if at < own then (Some(at), boundGranularity) else (Some(own), vt.endGranularity)
    case (Some(own), None) => (Some(own), vt.endGranularity)
    case (None, Some(at)) => (Some(at), boundGranularity)
    case (None, None) => (None, None)
  }

  /** The earlier of the two ends, the claim's own on a tie, with the precision it was given at. */
  lemma NarrowedIsEarlier(vt: ValidTime, bound: Option<Instant>, g: Option<DateGranularity>)
    ensures var (end, endG) := NarrowedValidEnd(vt, bound, g);
            && (end.None? <==> vt.end.None? && bound.None?)
            && (end.Some? && vt.end.Some? ==> end.value <= vt.end.value)
            && (end.Some? && bound.Some? ==> end.value <= bound.value)
            && ((end == vt.end && endG == if end.Some? then vt.endGranularity else None)
                || (end == bound && endG == g && (vt.end.Some? && bound.Some? ==> bound.value < vt.end.value)))
  {
  }

  /** Where a claim's window ends when its assertions are read at `asOf`. */
  function WindowEnd(vt: ValidTime, assertions: seq<Assertion>, asOf: Instant): Option<Instant> {
    var b := ActiveBoundAt(assertions, asOf);
    NarrowedValidEnd(vt, if b.Some? then Some(b.value.boundAt) else None,
                     if b.Some? then b.value.granularity else None).0
  }
}
