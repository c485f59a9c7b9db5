/**
 The detector object: three thresholds fixed at construction, and the
 classification operation, which builds its verdict and its list of reason
 texts step by step, one check after the other.
 */
module Detector {
  import opened Rules
  import opened Messages

  class AppDetector {
    const thresholdPermissions: int
    const minReviews: int
    const neutralReviewThreshold: int

    constructor (thresholdPermissions: int := 5, minReviews: int := 100, neutralReviewThreshold: int := 200)
      ensures this.thresholdPermissions == thresholdPermissions
      ensures this.minReviews == minReviews
      ensures this.neutralReviewThreshold == neutralReviewThreshold
    {
      this.thresholdPermissions := thresholdPermissions;
      this.minReviews := minReviews;
      this.neutralReviewThreshold := neutralReviewThreshold;
    }

    function Thresholds(): Policy {
      Policy(thresholdPermissions, minReviews, neutralReviewThreshold)
    }

    /**
     Classifies `app`. The result is the rules' classification, with each
     reason rendered as text; the verdict is Good exactly when the texts are
     the sentinel alone. The detector changes nothing.
     */
    method ClassifyApp(app: AppFeatures) returns (result: Verdict, reasons: seq<string>)
      ensures result == Classify(Thresholds(), app).verdict
      ensures reasons == Render(Classify(Thresholds(), app).reasons)
      ensures result == Good <==> reasons == [Message(AllCriteriaMet)]
    {
      ghost var p := Thresholds();
      ghost var trail: seq<Reason> := [];
      reasons := [];
      result := Good;

      if app.permissions > thresholdPermissions + 2 {
        reasons := reasons + [Message(TooManyPermissions(thresholdPermissions + 2))];
        trail := trail + [TooManyPermissions(thresholdPermissions + 2)];
        result := Evil;
      } else if app.permissions > thresholdPermissions {
        reasons := reasons + [Message(ModeratelyHighPermissions(thresholdPermissions))];
        trail := trail + [ModeratelyHighPermissions(thresholdPermissions)];
        if result != Evil {
          result := Neutral;
        }
      }
      ghost var f1 := PermissionsCheck(p, app);
      assert result == Step(Good, f1) && trail == Recorded(f1);
      assert reasons == Render(trail);

      ghost var before := trail;
      if app.appReviews < minReviews {
        RenderAppend(trail, TooFewReviews(minReviews));
        reasons := reasons + [Message(TooFewReviews(minReviews))];
        trail := trail + [TooFewReviews(minReviews)];
        result := Evil;
      } else if app.appReviews < neutralReviewThreshold {
        RenderAppend(trail, ModeratelyLowReviews(neutralReviewThreshold));
        reasons := reasons + [Message(ModeratelyLowReviews(neutralReviewThreshold))];
        trail := trail + [ModeratelyLowReviews(neutralReviewThreshold)];
        if result != Evil {
          result := Neutral;
        }
      }
      ghost var f2 := ReviewsCheck(p, app);
      assert result == Step(Step(Good, f1), f2) && trail == before + Recorded(f2);
      assert reasons == Render(trail);

      before := trail;
      if app.userInteractions < VeryLowInteractionLimit {
        RenderAppend(trail, VeryLowInteractions);
        reasons := reasons + [Message(VeryLowInteractions)];
        trail := trail + [VeryLowInteractions];
        result := Evil;
      } else if app.userInteractions < LowInteractionLimit {
        RenderAppend(trail, LowInteractions);
        reasons := reasons + [Message(LowInteractions)];
        trail := trail + [LowInteractions];
        if result != Evil {
          result := Neutral;
        }
      }
      ghost var f3 := InteractionsCheck(app);
      assert result == Step(Step(Step(Good, f1), f2), f3) && trail == before + Recorded(f3);
      assert reasons == Render(trail);

      before := trail;
      if result == Good {
        RenderAppend(trail, AllCriteriaMet);
        reasons := reasons + [Message(AllCriteriaMet)];
        trail := trail + [AllCriteriaMet];
      }

      ClassifyInSteps(p, app);
      assert trail == Classify(p, app).reasons;
      RenderedSentinelExact(p, app);
    }
  }
}
