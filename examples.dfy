/**
 The detector's test cases, under the default thresholds 5, 100 and 200.
 Features are written in the order permissions, interactions, reviews.
 */
module Examples {
  import opened Rules
  import opened Messages
  import opened Detector

  /** The unit-test cases, with their whole classification. */
  lemma UnitTestCases()
    ensures Classify(DefaultPolicy, AppFeatures(8, 20, 250)) == Classification(Evil, [TooManyPermissions(7)])
    ensures Classify(DefaultPolicy, AppFeatures(4, 20, 50)) == Classification(Evil, [TooFewReviews(100)])
    ensures Classify(DefaultPolicy, AppFeatures(6, 15, 300)) == Classification(Neutral, [ModeratelyHighPermissions(5)])
    ensures Classify(DefaultPolicy, AppFeatures(3, 30, 250)) == Classification(Good, [AllCriteriaMet])
  {
  }

  /** The white-box cases. */
  lemma WhiteBoxCases()
    ensures Classify(DefaultPolicy, AppFeatures(10, 50, 500)) == Classification(Evil, [TooManyPermissions(7)])
    ensures Classify(DefaultPolicy, AppFeatures(4, 30, 80)) == Classification(Evil, [TooFewReviews(100)])
    ensures Classify(DefaultPolicy, AppFeatures(6, 20, 300)) == Classification(Neutral, [ModeratelyHighPermissions(5)])
    ensures Classify(DefaultPolicy, AppFeatures(3, 30, 250)) == Classification(Good, [AllCriteriaMet])
  {
  }

  /**
   The black-box cases, with the verdicts their comments expect. The first
   also records the middle-band review reason beside the Evil one.
   */
  lemma BlackBoxCases()
    ensures Classify(DefaultPolicy, AppFeatures(9, 25, 100))
         == Classification(Evil, [TooManyPermissions(7), ModeratelyLowReviews(200)])
    ensures Classify(DefaultPolicy, AppFeatures(5, 15, 150)) == Classification(Neutral, [ModeratelyLowReviews(200)])
    ensures Classify(DefaultPolicy, AppFeatures(4, 30, 400)) == Classification(Good, [AllCriteriaMet])
    ensures Classify(DefaultPolicy, AppFeatures(5, 9, 250)) == Classification(Neutral, [LowInteractions])
  {
  }

  /** The reason texts for the default thresholds. */
  lemma DefaultMessages()
    ensures Message(TooManyPermissions(7)) == "Too many permissions requested (> 7)"
    ensures Message(ModeratelyHighPermissions(5)) == "Moderately high permissions (> 5)"
    ensures Message(TooFewReviews(100)) == "Too few reviews (< 100)"
    ensures Message(ModeratelyLowReviews(200)) == "Moderately low reviews (< 200)"
    ensures Message(ModeratelyHighPermissions(-3)) == "Moderately high permissions (> -3)"
  {
  }

  /** The white-box cases through a detector built with the default thresholds. */
  method WhiteBoxTest() {
    var detector := new AppDetector();
    assert detector.Thresholds() == DefaultPolicy;
    WhiteBoxCases();
    DefaultMessages();
    var result, reasons := detector.ClassifyApp(AppFeatures(10, 50, 500));
    assert result == Evil && reasons == ["Too many permissions requested (> 7)"];
    result, reasons := detector.ClassifyApp(AppFeatures(4, 30, 80));
    assert result == Evil && reasons == ["Too few reviews (< 100)"];
    result, reasons := detector.ClassifyApp(AppFeatures(6, 20, 300));
    assert result == Neutral && reasons == ["Moderately high permissions (> 5)"];
    result, reasons := detector.ClassifyApp(AppFeatures(3, 30, 250));
    assert result == Good && reasons == ["All criteria met"];
  }

  /** Classifying twice gives the same answer: the call changes nothing. */
  method RepeatTest(thresholdPermissions: int, minReviews: int, neutralReviewThreshold: int, app: AppFeatures) {
    var detector := new AppDetector(thresholdPermissions, minReviews, neutralReviewThreshold);
    var result1, reasons1 := detector.ClassifyApp(app);
    var result2, reasons2 := detector.ClassifyApp(app);
    assert result1 == result2 && reasons1 == reasons2;
    assert detector.Thresholds() == Policy(thresholdPermissions, minReviews, neutralReviewThreshold);
  }
}
