/** Do a claim's assertion log and its ledger tell the same story when verdicts write to both of them
    too? Over whole runs of the engine, and exactly when. */
module Agreement {
  import opened Ledger
  import opened LedgerReadings
  import opened Validity
  import opened Store
  import opened SubmitAdjudication
  import opened Reconcile
  import opened Denial
  import AV = AssertValidity

  // ---- What a step asserts ------------------------------------------------------------------

  /** The assertion a step appends to the log of `c`, if any. */
  function AssertedFor(t: Tables, s: Step, c: ClaimRef): seq<Assertion> {
    match s
    case HostAssert(req, now, uuid) => if AV.WritesTo(t, req, now, c) then [Assertion(uuid, c, AV.WrittenKind(req, now), now)] else []
    case Verdict(handle, verdict, now, uuid) => AssertedByPlan(t, PlanFor(t, handle, now), verdict, now, uuid, c)
    case _ => []
  }

  function AssertedByPlan(t: Tables, p: Plan, verdict: SubmitAdjudication.Verdict, now: Instant, uuid: Uuid, c: ClaimRef): seq<Assertion>
    requires p.Resolve? ==> p.row.challenger in t.claims
  {
    if p.Resolve? && verdict == Affirm && c == p.row.incumbent then [Assertion(uuid, c, AffirmKind(t, p.row, now), now)]
    else if p.Resolve? && verdict == Deny && c == p.row.challenger then [Assertion(uuid, c, Bound(now, None), now)]
    else []
  }

  function AffirmKind(t: Tables, row: Pending, now: Instant): AssertionKind
    requires row.challenger in t.claims
  {
    var (at, g) := AffirmBound(t.claims[row.challenger].validTime, now);
    Bound(at, g)
  }

  lemma AssertOne(aas: seq<Assertion>, a: Assertion, c: ClaimRef)
    ensures AssertionsFor(aas + [a], c) == AssertionsFor(aas, c) + (if a.target == c then [a] else [])
  {
    assert (aas + [a])[..|aas|] == aas;
  }

  lemma PlanOnAssertions(t: Tables, p: Plan, verdict: SubmitAdjudication.Verdict, now: Instant, uuid: Uuid, c: ClaimRef)
    requires p.Resolve? ==> p.row.challenger in t.claims && p.row.challenger != p.row.incumbent
    ensures var t' := Commits(t, p, verdict, now, uuid);
            AssertionsFor(t'.assertions, c) == AssertionsFor(t.assertions, c) + AssertedByPlan(t, p, verdict, now, uuid, c)
  {
    assert AssertionsFor(t.assertions, c) + [] == AssertionsFor(t.assertions, c);
    if p.Resolve? {
      match verdict
      case Affirm => AssertOne(t.assertions, Assertion(uuid, p.row.incumbent, AffirmKind(t, p.row, now), now), c);
      case Deny => AssertOne(t.assertions, Assertion(uuid, p.row.challenger, Bound(now, None), now), c);
      case Unknown =>
    }
  }

  lemma StepOnAssertions(t: Tables, s: Step, c: ClaimRef)
    requires WellFormed(t)
    ensures AssertionsFor(Do(t, s).assertions, c) == AssertionsFor(t.assertions, c) + AssertedFor(t, s, c)
  {
    assert AssertionsFor(t.assertions, c) + [] == AssertionsFor(t.assertions, c);
    match s
    case HostAssert(req, now, uuid) => AV.CallOnLogs(t, req, now, uuid, c);
    case Verdict(handle, verdict, now, uuid) => PlanOnAssertions(t, PlanFor(t, handle, now), verdict, now, uuid, c);
    case _ =>
  }

  // ---- One claim's two logs -----------------------------------------------------------------

  /** The two logs are in time order, nothing asserted is still to come, and they tell the same story,
      all as of the last entry. */
  ghost predicate Told(es: seq<Entry>, aas: seq<Assertion>) {
    if es == [] then aas == []
    else
      var last := es[|es| - 1].recordedAt;
      && AV.EntriesInOrder(es, last) && AV.AssertionsInOrder(aas, last)
      && (forall a :: a in aas ==> Effective(a, last))
      && AV.SameStory(es, aas, last)
  }

  /** Every entry of the log was made before `now`. */
  ghost predicate Past(es: seq<Entry>, now: Instant) {
    forall e :: e in es ==> e.recordedAt < now
  }

  /** Read at or after the last entry, the claim is bound exactly when that entry is Superseded. */
  lemma ToldBound(es: seq<Entry>, aas: seq<Assertion>, now: Instant)
    requires Told(es, aas) && Past(es, now)
    ensures ActiveBoundAt(aas, now).Some? <==> es != [] && es[|es| - 1].disposition == Superseded
  {
    if es != [] {
      AV.BoundWhenLastIsBound(aas, es[|es| - 1].recordedAt, now);
    }
  }

  lemma PlainInOrder(es: seq<Entry>, aas: seq<Assertion>, e: Entry)
    requires Told(es, aas) && Past(es, e.recordedAt)
    ensures AV.EntriesInOrder(es + [e], e.recordedAt) && AV.AssertionsInOrder(aas, e.recordedAt)
    ensures forall a :: a in aas ==> Effective(a, e.recordedAt)
  {
  }

  /** An entry without an assertion goes with the story exactly when the claim is not bound. */
  lemma PlainEntry(es: seq<Entry>, aas: seq<Assertion>, e: Entry)
    requires Told(es, aas) && Past(es, e.recordedAt)
    requires e.event != ValidityAsserted && e.disposition != Superseded
    ensures AV.SameStory(es + [e], aas, e.recordedAt) <==> ActiveBoundAt(aas, e.recordedAt).None?
    ensures ActiveBoundAt(aas, e.recordedAt).None? ==> Told(es + [e], aas)
  {
    hide ActiveBoundAt;
    assert (es + [e])[..|es|] == es;
    assert AV.ValidityEntries(es + [e]) == AV.ValidityEntries(es);
    PlainInOrder(es, aas, e);
  }

  /** A Bound or Reopen with its entry goes with the story exactly when it is a Bound of an open claim
      at an instant that has come, or a Reopen of a bound one. */
  lemma PairEntry(es: seq<Entry>, aas: seq<Assertion>, a: Assertion, e: Entry)
    requires es != [] && Told(es, aas) && Past(es, e.recordedAt) && a.assertedAt == e.recordedAt
    requires e.event == ValidityAsserted && AV.Matches(a, e)
    requires a.kind.Reopen? ==> a.kind.reopenAt == a.assertedAt && ActiveBoundAt(aas, a.assertedAt).Some?
    ensures var fits := a.kind.Bound? ==> ActiveBoundAt(aas, a.assertedAt).None? && a.kind.boundAt <= a.assertedAt;
            && (AV.SameStory(es + [e], aas + [a], e.recordedAt) <==> fits)
            && (fits ==> Told(es + [e], aas + [a]))
  {
    var last, now := es[|es| - 1].recordedAt, e.recordedAt;
    if a.kind.Bound? && ActiveBoundAt(aas, now).Some? {
      BoundTwice(aas, a, last, now);
    } else {
      AV.StoryAfterAppend(es, aas, a, e, last);
      AV.LogsStayInOrder(es, e, aas, a, last);
    }
  }

  lemma BoundTwice(aas: seq<Assertion>, a: Assertion, last: Instant, now: Instant)
    requires AV.AssertionsInOrder(aas, last) && last <= now && forall b :: b in aas ==> Effective(b, last)
    requires a.kind.Bound? && ActiveBoundAt(aas, now).Some?
    ensures !AV.Alternate(aas + [a])
  {
    AV.BoundWhenLastIsBound(aas, last, now);
    var n := |aas|;
    assert (aas + [a])[n - 1].kind.Bound? && (aas + [a])[n].kind.Bound?;
    assert (n - 1) % 2 == 0 ==> n % 2 == 1;
  }

  // ---- When a step fits ---------------------------------------------------------------------

  /** Read off the tables before the step: an `assert_validity` writes no Bound that is still to come,
      and a verdict that writes to its incumbent finds it open and, if it is an Affirm, closes it at an
      instant that has come. Every other step fits. */
  predicate Fits(t: Tables, s: Step, c: ClaimRef) {
    match s
    case HostAssert(req, now, uuid) => !AV.WritesFutureBound(t, AV.Call(req, now, uuid), c)
    case Verdict(handle, verdict, now, _) => PlanFits(t, PlanFor(t, handle, now), verdict, now, c)
    case _ => true
  }

  predicate PlanFits(t: Tables, p: Plan, verdict: SubmitAdjudication.Verdict, now: Instant, c: ClaimRef)
    requires p.Resolve? ==> p.row.challenger in t.claims
  {
    p.Resolve? && verdict != Deny && c == p.row.incumbent ==>
      && ActiveBoundAt(AssertionsFor(t.assertions, c), now).None?
      && (verdict == Affirm ==> AffirmBound(t.claims[p.row.challenger].validTime, now).0 <= now)
  }

  ghost predicate ToldOf(t: Tables, c: ClaimRef) {
    Told(EntriesOf(t.ledger, c), AssertionsFor(t.assertions, c))
  }

  /** What a step appends to the two logs of a claim, and whether it fits there. */
  ghost predicate Appends(es: seq<Entry>, aas: seq<Assertion>, added: seq<Entry>, asserted: seq<Assertion>, now: Instant, fits: bool) {
    || (added == [] && asserted == [] && fits)
    || (|added| == 1 && asserted == [] && added[0].recordedAt == now
        && added[0].event != ValidityAsserted && added[0].disposition != Superseded
        && (fits <==> ActiveBoundAt(aas, now).None?))
    || (|added| == 1 && |asserted| == 1 && es != [] && added[0].recordedAt == now == asserted[0].assertedAt
        && added[0].event == ValidityAsserted && AV.Matches(asserted[0], added[0])
        && (asserted[0].kind.Reopen? ==> asserted[0].kind.reopenAt == now && ActiveBoundAt(aas, now).Some?)
        && (fits <==> (asserted[0].kind.Bound? ==> ActiveBoundAt(aas, now).None? && asserted[0].kind.boundAt <= now)))
  }

  lemma StoryGoesOn(es: seq<Entry>, aas: seq<Assertion>, added: seq<Entry>, asserted: seq<Assertion>, now: Instant, fits: bool)
    requires Told(es, aas) && (added != [] ==> Past(es, now)) && Appends(es, aas, added, asserted, now, fits)
    ensures var es', aas' := es + added, aas + asserted;
            && (fits ==> Told(es', aas'))
            && (!fits ==> es' != [] && !AV.SameStory(es', aas', es'[|es'| - 1].recordedAt))
            && (es' != [] ==> AV.EntriesInOrder(es', es'[|es'| - 1].recordedAt) && AV.AssertionsInOrder(aas', es'[|es'| - 1].recordedAt))
  {
    hide AV.SameStory, ActiveBoundAt, AV.Matches;
    if added == [] {
      assert es + added == es && aas + asserted == aas;
    } else if asserted == [] {
      PlainEntry(es, aas, added[0]);
      PlainInOrder(es, aas, added[0]);
      assert added == [added[0]] && aas + asserted == aas;
    } else {
      PairEntry(es, aas, asserted[0], added[0]);
      AV.LogsStayInOrder(es, added[0], aas, asserted[0], es[|es| - 1].recordedAt);
      assert added == [added[0]] && asserted == [asserted[0]];
    }
  }

  /** Every stored claim has an entry. */
  ghost predicate Documented(t: Tables) {
    forall c :: c in t.claims ==> EntriesOf(t.ledger, c) != []
  }

  // ---- What each step appends ---------------------------------------------------------------

  /** A queued claim is open. */
  lemma QueuedIsOpen(t: Tables, c: ClaimRef, now: Instant)
    requires ToldOf(t, c) && Past(EntriesOf(t.ledger, c), now) && IsQueued(t, c)
    ensures EntriesOf(t.ledger, c) != [] && ActiveBoundAt(AssertionsFor(t.assertions, c), now).None?
  {
    var es := EntriesOf(t.ledger, c);
    ToldBound(es, AssertionsFor(t.assertions, c), now);
    if es == [] {
      GuardsReadNothing(t, c);
    } else {
      AV.LoadedInOrder(t, c, es[|es| - 1].recordedAt);
    }
  }

  lemma PlanAppends(t: Tables, p: Plan, verdict: SubmitAdjudication.Verdict, now: Instant, uuid: Uuid, c: ClaimRef,
                    es: seq<Entry>, aas: seq<Assertion>)
    requires p.Resolve? ==> p.row.challenger in t.claims
    requires p.Expire? || p.Resolve? ==> p.row.challenger != p.row.incumbent
    requires (p.Expire? || p.Resolve?) && c == p.row.challenger ==> es != [] && ActiveBoundAt(aas, now).None?
    requires p.Resolve? && c == p.row.incumbent ==> es != []
    requires aas == AssertionsFor(t.assertions, c)
    ensures Appends(es, aas, PlanEntry(p, verdict, now, c), AssertedByPlan(t, p, verdict, now, uuid, c), now, PlanFits(t, p, verdict, now, c))
  {
    hide ActiveBoundAt, AssertionsFor;
  }

  lemma VerdictStepAppends(t: Tables, s: Step, c: ClaimRef)
    requires WellFormed(t) && ToldOf(t, c) && (NewFor(t, s, c) != [] ==> Past(EntriesOf(t.ledger, c), TimeOf(s)))
    requires s.Verdict? && Documented(t)
    ensures Appends(EntriesOf(t.ledger, c), AssertionsFor(t.assertions, c), NewFor(t, s, c), AssertedFor(t, s, c), TimeOf(s), Fits(t, s, c))
  {
    hide IsQueued, EntriesOf, AssertionsFor, ActiveBoundAt, ToldOf;
    var p := PlanFor(t, s.handle, s.now);
    if (p.Expire? || p.Resolve?) && c == p.row.challenger {
      if NewFor(t, s, c) != [] {
        QueuedIsOpen(t, c, s.now);
        PlanAppends(t, p, s.verdict, s.now, s.uuid, c, EntriesOf(t.ledger, c), AssertionsFor(t.assertions, c));
      }
    } else {
      PlanAppends(t, p, s.verdict, s.now, s.uuid, c, EntriesOf(t.ledger, c), AssertionsFor(t.assertions, c));
    }
  }

  lemma HostStepAppends(t: Tables, s: Step, c: ClaimRef)
    requires s.HostAssert? && Documented(t)
    ensures Appends(EntriesOf(t.ledger, c), AssertionsFor(t.assertions, c), NewFor(t, s, c), AssertedFor(t, s, c), TimeOf(s), Fits(t, s, c))
  {
    var k := AV.Call(s.req, s.now, s.uuid);
    AV.FutureBoundIsWritten(t, k, c);
    hide AV.WritesFutureBound;
    if AV.WritesTo(t, s.req, s.now, c) {
      AV.GatesPassed(t, s.req, s.now);
      AV.WrittenPair(t, k, c);
    }
  }

  lemma OtherStepAppends(t: Tables, s: Step, c: ClaimRef)
    requires !s.HostAssert? && !s.Verdict?
    requires WellFormed(t) && ToldOf(t, c) && (NewFor(t, s, c) != [] ==> Past(EntriesOf(t.ledger, c), TimeOf(s)))
    ensures Appends(EntriesOf(t.ledger, c), AssertionsFor(t.assertions, c), NewFor(t, s, c), AssertedFor(t, s, c), TimeOf(s), Fits(t, s, c))
  {
    hide IsQueued, AssertionsFor, ActiveBoundAt, ToldOf;
    if NewFor(t, s, c) != [] {
      if s.Ingest? {
        NoEntriesOf(t.ledger, c);
        OpenWithoutEntries(t, c, s.now);
      } else if s.Revert? {
        QueuedIsOpen(t, c, s.now);
      }
    }
  }

  lemma OpenWithoutEntries(t: Tables, c: ClaimRef, now: Instant)
    requires EntriesOf(t.ledger, c) == [] && ToldOf(t, c)
    ensures ActiveBoundAt(AssertionsFor(t.assertions, c), now).None?
  {
    ToldBound([], AssertionsFor(t.assertions, c), now);
  }

  lemma StepAppends(t: Tables, s: Step, c: ClaimRef)
    requires WellFormed(t) && ToldOf(t, c) && Later(t, s) && Documented(t)
    ensures Appends(EntriesOf(t.ledger, c), AssertionsFor(t.assertions, c), NewFor(t, s, c), AssertedFor(t, s, c), TimeOf(s), Fits(t, s, c))
  {
    hide NewFor, AssertedFor, ToldOf, Fits, WellFormed, Appends;
    if s.HostAssert? {
      HostStepAppends(t, s, c);
    } else if s.Verdict? {
      VerdictStepAppends(t, s, c);
    } else {
      OtherStepAppends(t, s, c);
    }
  }

  // ---- The two logs over a run --------------------------------------------------------------

  /** The assertion log and the ledger tell the same story about `c`, read at its last entry. */
  ghost predicate Agrees(t: Tables, c: ClaimRef) {
    var es := EntriesOf(t.ledger, c);
    if es == [] then AssertionsFor(t.assertions, c) == [] else AV.LogsAgree(t, c, es[|es| - 1].recordedAt)
  }

  lemma AgreesInOrder(t: Tables, c: ClaimRef)
    requires WellFormed(t)
    requires var es, aas := EntriesOf(t.ledger, c), AssertionsFor(t.assertions, c);
             es != [] ==> AV.EntriesInOrder(es, es[|es| - 1].recordedAt) && AV.AssertionsInOrder(aas, es[|es| - 1].recordedAt)
    ensures var es, aas := EntriesOf(t.ledger, c), AssertionsFor(t.assertions, c);
            Agrees(t, c) <==> if es == [] then aas == [] else AV.SameStory(es, aas, es[|es| - 1].recordedAt)
  {
    hide AV.LogsAgree, AV.SameStory, AV.EntriesInOrder, AV.AssertionsInOrder;
    var es := EntriesOf(t.ledger, c);
    if es != [] {
      assert es[0] in es;
      AV.SameStoryInOrder(t, c, es[|es| - 1].recordedAt, es[|es| - 1].recordedAt);
    }
  }

  /** One step at a later clock reading keeps a claim's two logs in agreement exactly when it fits. */
  lemma StepAgreesExactly(t: Tables, s: Step, c: ClaimRef)
    requires WellFormed(t) && Documented(t) && ToldOf(t, c) && Later(t, s)
    ensures Agrees(Do(t, s), c) <==> Fits(t, s, c)
    ensures Fits(t, s, c) ==> ToldOf(Do(t, s), c)
  {
    hide Do, NewFor, AssertedFor, Fits, WellFormed, Appends, Agrees, EntriesOf, AssertionsFor, AV.SameStory, AV.EntriesInOrder, AV.AssertionsInOrder;
    StepOnEntries(t, s, c);
    StepOnAssertions(t, s, c);
    StepAppends(t, s, c);
    StoryGoesOn(EntriesOf(t.ledger, c), AssertionsFor(t.assertions, c), NewFor(t, s, c), AssertedFor(t, s, c), TimeOf(s), Fits(t, s, c));
    AgreesInOrder(Do(t, s), c);
  }

  lemma ClaimsAfterStep(t: Tables, s: Step, c: ClaimRef)
    requires WellFormed(t)
    ensures c in Do(t, s).claims ==> c in t.claims || NewFor(t, s, c) != []
  {
    hide IsQueued, EntriesOf, AssertionsFor, PlanFor, Live;
    match s {
      case HostAssert(req, now, uuid) => AV.CallAppends(t, req, now, uuid);
      case Verdict(handle, verdict, now, uuid) => VerdictKeepsClaims(t, PlanFor(t, handle, now), verdict, now, uuid);
      case _ =>
    }
  }

  lemma VerdictKeepsClaims(t: Tables, p: Plan, verdict: SubmitAdjudication.Verdict, now: Instant, uuid: Uuid)
    requires p.Resolve? ==> p.row.challenger in t.claims
    ensures Commits(t, p, verdict, now, uuid).claims == t.claims
  {
  }

  lemma StepKeepsDocumented(t: Tables, s: Step)
    requires WellFormed(t) && Documented(t)
    ensures Documented(Do(t, s))
  {
    hide Do, NewFor, EntriesOf, WellFormed;
    forall c | c in Do(t, s).claims ensures EntriesOf(Do(t, s).ledger, c) != [] {
      ClaimsAfterStep(t, s, c);
      StepOnEntries(t, s, c);
    }
  }

  /** Every step reads its clock after what the claims it writes to have recorded. */
  ghost predicate InTimeOrder(steps: seq<Step>) {
    forall k :: 0 <= k < |steps| ==> Later(After(steps[..k]), steps[k])
  }

  ghost predicate AllFit(steps: seq<Step>, c: ClaimRef, n: nat)
    requires n <= |steps|
  {
    forall k :: 0 <= k < n ==> Fits(After(steps[..k]), steps[k], c)
  }

  lemma OneMoreStep(steps: seq<Step>, n: nat)
    requires n < |steps|
    ensures After(steps[..n + 1]) == Do(After(steps[..n]), steps[n])
  {
    assert steps[..n + 1][..n] == steps[..n];
  }

  lemma {:induction false} RunIsDocumented(steps: seq<Step>, n: nat)
    requires n <= |steps|
    ensures WellFormed(After(steps[..n])) && Documented(After(steps[..n]))
  {
    hide Do, NewFor;
    if n > 0 {
      RunIsDocumented(steps, n - 1);
      OneMoreStep(steps, n - 1);
      StepKeepsDocumented(After(steps[..n - 1]), steps[n - 1]);
      StepOnEntries(After(steps[..n - 1]), steps[n - 1], 0);
    }
  }

  lemma {:induction false} RunTellsOneStory(steps: seq<Step>, c: ClaimRef, n: nat)
    requires InTimeOrder(steps) && n <= |steps| && AllFit(steps, c, n)
    ensures ToldOf(After(steps[..n]), c) && Agrees(After(steps[..n]), c)
  {
    hide Do, Fits, Later, WellFormed, Documented, AV.LogsAgree, AV.SameStory;
    if n > 0 {
      RunTellsOneStory(steps, c, n - 1);
      RunIsDocumented(steps, n - 1);
      OneMoreStep(steps, n - 1);
      StepAgreesExactly(After(steps[..n - 1]), steps[n - 1], c);
    }
  }

  lemma {:induction false} FirstMisfit(steps: seq<Step>, c: ClaimRef, n: nat) returns (k: nat)
    requires n <= |steps| && !AllFit(steps, c, n)
    ensures k < n && !Fits(After(steps[..k]), steps[k], c) && AllFit(steps, c, k)
  {
    hide Fits, After;
    if AllFit(steps, c, n - 1) {
      k := n - 1;
    } else {
      k := FirstMisfit(steps, c, n - 1);
    }
  }

  /** Over every run of ingests, host assertions, verdicts, reverts and reconcile entries from the empty
      store, a claim's two logs agree after every step exactly when every step fits. */
  lemma RunAgreesExactly(steps: seq<Step>, c: ClaimRef)
    requires InTimeOrder(steps)
    ensures (forall n :: 0 <= n <= |steps| ==> Agrees(After(steps[..n]), c)) <==> AllFit(steps, c, |steps|)
  {
    hide Do, Fits, Later, Agrees, After;
    if AllFit(steps, c, |steps|) {
      forall n | 0 <= n <= |steps| ensures Agrees(After(steps[..n]), c) {
        RunTellsOneStory(steps, c, n);
      }
    } else {
      var k := FirstMisfit(steps, c, |steps|);
      RunTellsOneStory(steps, c, k);
      RunIsDocumented(steps, k);
      StepAgreesExactly(After(steps[..k]), steps[k], c);
      OneMoreStep(steps, k);
      assert !Agrees(After(steps[..k + 1]), c);
    }
  }

  lemma ToldLater(t: Tables, c: ClaimRef, asOf: Instant)
    requires WellFormed(t) && ToldOf(t, c)
    requires var es := EntriesOf(t.ledger, c); es != [] && es[|es| - 1].recordedAt <= asOf
    ensures AV.LogsAgree(t, c, asOf)
  {
    hide AV.LogsAgree, ActiveBoundAt;
    var es := EntriesOf(t.ledger, c);
    assert es[0] in es;
    AV.BoundWhenLastIsBound(AssertionsFor(t.assertions, c), es[|es| - 1].recordedAt, asOf);
    AV.SameStoryInOrder(t, c, asOf, es[|es| - 1].recordedAt);
  }

  /** And then they agree at every reading from the last entry on, not only at that entry. */
  lemma AgreesFromThenOn(steps: seq<Step>, c: ClaimRef, asOf: Instant)
    requires InTimeOrder(steps) && AllFit(steps, c, |steps|)
    requires var es := EntriesOf(After(steps).ledger, c); es != [] && es[|es| - 1].recordedAt <= asOf
    ensures AV.LogsAgree(After(steps), c, asOf)
  {
    hide InTimeOrder, AllFit, After, Documented, Agrees, AV.LogsAgree, AV.SameStory;
    assert steps[..|steps|] == steps;
    RunTellsOneStory(steps, c, |steps|);
    RunIsDocumented(steps, |steps|);
    ToldLater(After(steps), c, asOf);
  }
}
