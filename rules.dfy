/**
 The classification rules of the application detector, as pure functions.

 An application is described by three integer features. Three independent
 checks (permissions, then reviews, then interactions) each yield no finding,
 a Neutral finding or an Evil finding, with one reason when they fire. The
 verdict starts at Good and combines the findings worst-case-wins; when it is
 still Good at the end, the single sentinel reason is recorded instead.
 */
module Rules {

  /** The three verdicts, ordered by severity Good < Neutral < Evil. */
  datatype Verdict = Good | Neutral | Evil

  function Rank(v: Verdict): nat {
    match v
    case Good => 0
    case Neutral => 1
    case Evil => 2
  }

  /** The more severe of two verdicts: the order's maximum. */
  function Worst(a: Verdict, b: Verdict): (r: Verdict)
    ensures Rank(r) >= Rank(a) && Rank(r) >= Rank(b)
    ensures r == a || r == b
  {
    if Rank(a) >= Rank(b) then a else b
  }

  /** The observed features of one application. */
  datatype AppFeatures = AppFeatures(permissions: int, userInteractions: int, appReviews: int)

  /** The detector's configured thresholds. */
  datatype Policy = Policy(thresholdPermissions: int, minReviews: int, neutralReviewThreshold: int)

  /** The thresholds a detector gets when none are given. */
  const DefaultPolicy := Policy(5, 100, 200)

  /** The interaction limits are fixed, not configurable. */
  const VeryLowInteractionLimit := 5
  const LowInteractionLimit := 10

  /**
   One entry of the audit trail. The configurable ones carry the threshold
   value that their text shows.
   */
  datatype Reason =
    | TooManyPermissions(limit: int)
    | ModeratelyHighPermissions(limit: int)
    | TooFewReviews(limit: int)
    | ModeratelyLowReviews(limit: int)
    | VeryLowInteractions
    | LowInteractions
    | AllCriteriaMet

  /** The position of the check a reason comes from; the sentinel comes last. */
  function Origin(r: Reason): nat {
    match r
    case TooManyPermissions(_) => 0
    case ModeratelyHighPermissions(_) => 0
    case TooFewReviews(_) => 1
    case ModeratelyLowReviews(_) => 1
    case VeryLowInteractions => 2
    case LowInteractions => 2
    case AllCriteriaMet => 3
  }

  /** What one check yields: nothing, or a severity with its reason. */
  datatype Finding = Pass | Flag(severity: Verdict, reason: Reason)

  function Severity(f: Finding): Verdict {
    if f.Pass? then Good else f.severity
  }

  /** The reasons a finding adds to the audit trail. */
  function Recorded(f: Finding): seq<Reason> {
    if f.Flag? then [f.reason] else []
  }

  function PermissionsCheck(p: Policy, app: AppFeatures): Finding {
    if app.permissions > p.thresholdPermissions + 2 then
      Flag(Evil, TooManyPermissions(p.thresholdPermissions + 2))
    else if app.permissions > p.thresholdPermissions then
      Flag(Neutral, ModeratelyHighPermissions(p.thresholdPermissions))
    else
      Pass
  }

  function ReviewsCheck(p: Policy, app: AppFeatures): Finding {
    if app.appReviews < p.minReviews then
      Flag(Evil, TooFewReviews(p.minReviews))
    else if app.appReviews < p.neutralReviewThreshold then
      Flag(Neutral, ModeratelyLowReviews(p.neutralReviewThreshold))
    else
      Pass
  }

  function InteractionsCheck(app: AppFeatures): Finding {
    if app.userInteractions < VeryLowInteractionLimit then
      Flag(Evil, VeryLowInteractions)
    else if app.userInteractions < LowInteractionLimit then
      Flag(Neutral, LowInteractions)
    else
      Pass
  }

  /** The three findings, in the order the checks run. */
  function Findings(p: Policy, app: AppFeatures): seq<Finding> {
    [PermissionsCheck(p, app), ReviewsCheck(p, app), InteractionsCheck(app)]
  }

  /**
   One combination step as the detector performs it: an Evil finding sets
   Evil; a Neutral finding sets Neutral unless the verdict is already Evil.
   It is the maximum of the order, so a later check never lowers the verdict.
   */
  function Step(v: Verdict, f: Finding): (r: Verdict)
    ensures r == Worst(v, Severity(f))
    ensures Rank(r) >= Rank(v)
  {
    match f
    case Pass => v
    case Flag(s, _) =>
      if s == Evil then Evil
      else if s == Neutral && v != Evil then Neutral
      else v
  }

  /** The verdict after the findings, starting from `v`. */
  function Combine(v: Verdict, fs: seq<Finding>): Verdict
    decreases |fs|
  {
    if fs == [] then v else Combine(Step(v, fs[0]), fs[1..])
  }

  /** The reasons of the findings that fired, in order. */
  function Collect(fs: seq<Finding>): seq<Reason> {
    if fs == [] then [] else Recorded(fs[0]) + Collect(fs[1..])
  }

  datatype Classification = Classification(verdict: Verdict, reasons: seq<Reason>)

  /** The classification of `app` under the thresholds `p`. */
  function Classify(p: Policy, app: AppFeatures): Classification {
    var fs := Findings(p, app);
    var v := Combine(Good, fs);
    Classification(v, Collect(fs) + if v == Good then [AllCriteriaMet] else [])
  }

  // ---------------------------------------------------------------------
  // The rules, read directly off the thresholds

  /** Some check finds the application Evil. */
  predicate EvilCondition(p: Policy, app: AppFeatures) {
    || app.permissions > p.thresholdPermissions + 2
    || app.appReviews < p.minReviews
    || app.userInteractions < VeryLowInteractionLimit
  }

  /** Some feature lies in its middle band or beyond. */
  predicate MiddleBandCondition(p: Policy, app: AppFeatures) {
    || app.permissions > p.thresholdPermissions
    || app.appReviews < p.neutralReviewThreshold
    || app.userInteractions < LowInteractionLimit
  }

  /** `r` is a reason the rules give for `app`, with the value it must carry. */
  predicate Justified(p: Policy, app: AppFeatures, r: Reason) {
    match r
    case TooManyPermissions(n) =>
      n == p.thresholdPermissions + 2 && app.permissions > n
    case ModeratelyHighPermissions(n) =>
      n == p.thresholdPermissions && n < app.permissions <= n + 2
    case TooFewReviews(n) =>
      n == p.minReviews && app.appReviews < n
    case ModeratelyLowReviews(n) =>
      n == p.neutralReviewThreshold && p.minReviews <= app.appReviews < n
    case VeryLowInteractions =>
      app.userInteractions < VeryLowInteractionLimit
    case LowInteractions =>
      VeryLowInteractionLimit <= app.userInteractions < LowInteractionLimit
    case AllCriteriaMet =>
      !EvilCondition(p, app) && !MiddleBandCondition(p, app)
  }

  // ---------------------------------------------------------------------
  // Worst case wins

  /**
   The fold computes the maximum: it is at least the seed and every finding's
   severity, and it is one of them.
   */
  lemma {:induction false} CombineIsMaximum(v: Verdict, fs: seq<Finding>)
    ensures Rank(Combine(v, fs)) >= Rank(v)
    ensures forall i :: 0 <= i < |fs| ==> Rank(Combine(v, fs)) >= Rank(Severity(fs[i]))
    ensures Combine(v, fs) == v || exists i :: 0 <= i < |fs| && Combine(v, fs) == Severity(fs[i])
    decreases |fs|
  {
    if fs != [] {
      var w := Step(v, fs[0]);
      CombineIsMaximum(w, fs[1..]);
      var r := Combine(v, fs);
      assert r == Combine(w, fs[1..]);
      forall i | 0 <= i < |fs|
        ensures Rank(r) >= Rank(Severity(fs[i]))
      {
        if i > 0 {
          assert fs[1..][i - 1] == fs[i];
        }
      }
      if r != w {
        var j :| 0 <= j < |fs[1..]| && r == Severity(fs[1..][j]);
        assert r == Severity(fs[j + 1]);
      } else if w != v {
        assert r == Severity(fs[0]);
      }
    }
  }

  /** Evil is absorbing: once reached, no later finding changes it. */
  lemma {:induction false} CombineEvilAbsorbing(fs: seq<Finding>)
    ensures Combine(Evil, fs) == Evil
    decreases |fs|
  {
    if fs != [] {
      CombineEvilAbsorbing(fs[1..]);
    }
  }

  /** Starting higher never ends lower. */
  lemma {:induction false} CombineMonotone(v: Verdict, w: Verdict, fs: seq<Finding>)
    requires Rank(v) <= Rank(w)
    ensures Rank(Combine(v, fs)) <= Rank(Combine(w, fs))
    decreases |fs|
  {
    if fs != [] {
      CombineMonotone(Step(v, fs[0]), Step(w, fs[0]), fs[1..]);
    }
  }

  /** The reasons are those of the findings that fired, one per finding at most. */
  lemma {:induction false} CollectAtMostOnePerFinding(fs: seq<Finding>)
    ensures |Collect(fs)| <= |fs|
    ensures Collect(fs) == [] <==> forall i :: 0 <= i < |fs| ==> fs[i].Pass?
  {
    if fs != [] {
      CollectAtMostOnePerFinding(fs[1..]);
      assert forall i :: 0 < i < |fs| ==> fs[1..][i - 1] == fs[i];
    }
  }

  // ---------------------------------------------------------------------
  // The classification

  /** The classification unrolled into the three sequential checks. */
  lemma ClassifyInSteps(p: Policy, app: AppFeatures)
    ensures
      var f1, f2, f3 := PermissionsCheck(p, app), ReviewsCheck(p, app), InteractionsCheck(app);
      var v := Step(Step(Step(Good, f1), f2), f3);
      Classify(p, app) == Classification(
        v,
        Recorded(f1) + Recorded(f2) + Recorded(f3) + if v == Good then [AllCriteriaMet] else [])
    ensures
      Collect(Findings(p, app))
        == Recorded(PermissionsCheck(p, app)) + Recorded(ReviewsCheck(p, app)) + Recorded(InteractionsCheck(app))
  {
    var fs := Findings(p, app);
    var v1 := Step(Good, fs[0]);
    var v2 := Step(v1, fs[1]);
    assert fs[1..] == [fs[1], fs[2]];
    assert fs[1..][1..] == [fs[2]];
    assert fs[1..][1..][1..] == [];
    assert Combine(Good, fs) == Combine(v1, fs[1..]);
    assert Combine(v1, fs[1..]) == Combine(v2, fs[1..][1..]);
    assert Combine(v2, fs[1..][1..]) == Combine(Step(v2, fs[2]), []);
    assert Collect(fs) == Recorded(fs[0]) + Collect(fs[1..]);
    assert Collect(fs[1..]) == Recorded(fs[1]) + Collect(fs[1..][1..]);
    assert Collect(fs[1..][1..]) == Recorded(fs[2]) + Collect([]);
  }

  /**
   The verdict exactly: Evil iff some check is Evil, whatever the others
   say; Neutral iff none is Evil and some feature is in its middle band;
   Good iff no check fires.
   */
  lemma VerdictExact(p: Policy, app: AppFeatures)
    ensures Classify(p, app).verdict == Evil <==> EvilCondition(p, app)
    ensures Classify(p, app).verdict == Neutral <==> !EvilCondition(p, app) && MiddleBandCondition(p, app)
    ensures Classify(p, app).verdict == Good <==> !EvilCondition(p, app) && !MiddleBandCondition(p, app)
  {
    var fs := Findings(p, app);
    CombineIsMaximum(Good, fs);
    assert Severity(fs[0]) == Severity(PermissionsCheck(p, app));
    assert Severity(fs[1]) == Severity(ReviewsCheck(p, app));
    assert Severity(fs[2]) == Severity(InteractionsCheck(app));
  }

  /**
   The audit trail exactly: a reason is recorded iff the rules justify it,
   with the threshold value it must carry.
   */
  lemma ReasonsExact(p: Policy, app: AppFeatures)
    ensures forall r :: r in Classify(p, app).reasons <==> Justified(p, app, r)
  {
    forall r
      ensures r in Classify(p, app).reasons <==> Justified(p, app, r)
    {
      ReasonExact(p, app, r);
    }
  }

  /** One reason at a time. */
  lemma ReasonExact(p: Policy, app: AppFeatures, r: Reason)
    ensures r in Classify(p, app).reasons <==> Justified(p, app, r)
  {
    ClassifyInSteps(p, app);
    VerdictExact(p, app);
    var f1, f2, f3 := PermissionsCheck(p, app), ReviewsCheck(p, app), InteractionsCheck(app);
    var v := Classify(p, app).verdict;
    var tail := if v == Good then [AllCriteriaMet] else [];
    assert r in Classify(p, app).reasons <==>
      r in Recorded(f1) || r in Recorded(f2) || r in Recorded(f3) || r in tail;
  }

  /**
   The reasons come in check order, at most one per check and the sentinel
   last, so there are one to three of them and never none.
   */
  lemma ReasonsOrdered(p: Policy, app: AppFeatures)
    ensures 1 <= |Classify(p, app).reasons| <= 3
    ensures forall i, j :: 0 <= i < j < |Classify(p, app).reasons| ==>
      Origin(Classify(p, app).reasons[i]) < Origin(Classify(p, app).reasons[j])
  {
    ClassifyInSteps(p, app);
  }

  /**
   The sentinel is exact: the verdict is Good iff the reasons are just the
   sentinel, iff no check recorded a reason; and the sentinel never stands
   beside another reason.
   */
  lemma SentinelExact(p: Policy, app: AppFeatures)
    ensures Classify(p, app).verdict == Good <==> Classify(p, app).reasons == [AllCriteriaMet]
    ensures AllCriteriaMet in Classify(p, app).reasons ==> Classify(p, app).reasons == [AllCriteriaMet]
    ensures Classify(p, app).verdict == Good <==> Collect(Findings(p, app)) == []
  {
    ClassifyInSteps(p, app);
    VerdictExact(p, app);
    var f1, f2, f3 := PermissionsCheck(p, app), ReviewsCheck(p, app), InteractionsCheck(app);
    var fired := Recorded(f1) + Recorded(f2) + Recorded(f3);
    assert AllCriteriaMet !in fired;
    if Classify(p, app).verdict == Good {
      assert f1 == Pass && f2 == Pass && f3 == Pass;
      assert fired == [];
    } else {
      assert f1.Flag? || f2.Flag? || f3.Flag?;
      assert fired != [];
      assert Classify(p, app).reasons == fired;
    }
  }

  /** A middle-band reason is recorded even when another check made the verdict Evil. */
  lemma BandReasonKeptUnderEvil(p: Policy, app: AppFeatures)
    requires EvilCondition(p, app)
    requires p.minReviews <= app.appReviews < p.neutralReviewThreshold
    ensures Classify(p, app).verdict == Evil
    ensures ModeratelyLowReviews(p.neutralReviewThreshold) in Classify(p, app).reasons
  {
    VerdictExact(p, app);
    ReasonsExact(p, app);
  }

  // ---------------------------------------------------------------------
  // Boundaries

  /** Permissions: the threshold itself is fine, +1 and +2 are Neutral, +3 is Evil. */
  lemma PermissionBoundaries(p: Policy, interactions: int, reviews: int)
    ensures PermissionsCheck(p, AppFeatures(p.thresholdPermissions, interactions, reviews)) == Pass
    ensures PermissionsCheck(p, AppFeatures(p.thresholdPermissions + 1, interactions, reviews))
         == Flag(Neutral, ModeratelyHighPermissions(p.thresholdPermissions))
    ensures PermissionsCheck(p, AppFeatures(p.thresholdPermissions + 2, interactions, reviews))
         == Flag(Neutral, ModeratelyHighPermissions(p.thresholdPermissions))
    ensures PermissionsCheck(p, AppFeatures(p.thresholdPermissions + 3, interactions, reviews))
         == Flag(Evil, TooManyPermissions(p.thresholdPermissions + 2))
  {
  }

  /**
   Reviews: exactly the minimum is not Evil; exactly the neutral threshold
   gives no reason, provided the neutral threshold is not below the minimum.
   */
  lemma ReviewBoundaries(p: Policy, permissions: int, interactions: int)
    ensures Severity(ReviewsCheck(p, AppFeatures(permissions, interactions, p.minReviews))) != Evil
    ensures Severity(ReviewsCheck(p, AppFeatures(permissions, interactions, p.minReviews - 1))) == Evil
    ensures p.minReviews <= p.neutralReviewThreshold ==>
      ReviewsCheck(p, AppFeatures(permissions, interactions, p.neutralReviewThreshold)) == Pass
  {
  }

  /** Interactions: 4 is Evil, 5 and 9 are Neutral, 10 gives no reason. */
  lemma InteractionBoundaries(permissions: int, reviews: int)
    ensures InteractionsCheck(AppFeatures(permissions, 4, reviews)) == Flag(Evil, VeryLowInteractions)
    ensures InteractionsCheck(AppFeatures(permissions, 5, reviews)) == Flag(Neutral, LowInteractions)
    ensures InteractionsCheck(AppFeatures(permissions, 9, reviews)) == Flag(Neutral, LowInteractions)
    ensures InteractionsCheck(AppFeatures(permissions, 10, reviews)) == Pass
  {
  }
}
