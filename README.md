# Evil-application detector: the classification rules

This project models the rule engine that classifies an online-social-network
application as Good, Neutral or Evil. An application is described by three
integer features: requested permissions, user interactions and app reviews.
The detector holds three thresholds: a permission threshold (default 5), a
minimum review count (default 100) and a neutral review threshold (default 200).

Classification runs three checks in a fixed order: permissions, then reviews,
then interactions. Each check yields nothing, a Neutral finding or an Evil
finding, and every finding appends one reason text. The interaction limits
are the fixed constants 5 and 10. The verdict starts at Good. An Evil finding
sets it to Evil; a Neutral finding sets it to Neutral unless it is already
Evil. If the verdict is still Good at the end, the single reason
"All criteria met" is appended.

Layout:

- `rules.dfy` (module `Rules`): the pure specification. It defines the
  verdict order, the feature and threshold records, and reasons as a datatype
  that carries the threshold value shown in its text. It also defines the
  three checks, the combination step, the fold over the findings
  (`Combine`), the collected reasons (`Collect`) and `Classify`. `Rules` also
  restates the rules directly from the thresholds (`EvilCondition`,
  `MiddleBandCondition`, `Justified`), and the lemmas relate `Classify` to
  those restatements.
- `decimal.dfy` (module `Decimal`): how a threshold is written inside a
  reason text, as Python's `str` writes an integer. A parser reads the text
  back (round trip).
- `messages.dfy` (module `Messages`): the exact text of each reason.
  Rendering is injective, so the list of texts determines the list of
  reasons, and every property of the reasons carries over to the texts.
- `detector.dfy` (module `Detector`): the detector class. Its three
  thresholds are constant fields set by the constructor, with the source's
  defaults. `ClassifyApp` builds the verdict and the list of reason texts
  step by step, as the source does, and is proved equal to `Classify`
  followed by rendering.
- `examples.dfy` (module `Examples`): the repository's unit, white-box and
  black-box cases.

The verdict is a closed enumeration rather than the strings "Good",
"Neutral" and "Evil". Python integers are unbounded, and so is Dafny's `int`:
`threshold + 2` cannot overflow in either. Negative features and thresholds
are accepted, as in the source.

Details of the source the model keeps:

- The reason texts are capitalised exactly as the f-strings and literals at
  testing.py:32-59 write them, for example "All criteria met" and
  "Too many permissions requested (> 7)".
- The thresholds are stored as given at testing.py:20-23, so any integer is
  accepted, negative ones included.
- The sentinel test is `result == "Good"` (testing.py:58), not "no reason was
  recorded". `SentinelExact` proves the two tests agree: the verdict is Good
  exactly when no check recorded a reason.

## Model

| member | source | states |
|---|---|---|
| `Rules.AppFeatures` | testing.py:6-11 | The feature record: the three integer fields the constructor stores (permissions, user interactions, app reviews), in the source's order. They are the only fields that classification reads. |
| `Rules.PermissionsCheck` | testing.py:31-37 | The permissions check. `PermissionBoundaries` fixes its finding at the threshold t and at t+1, t+2 and t+3. `ReasonsExact` shows its reason is recorded exactly when `Justified` allows it, carrying t+2 or t. |
| `Rules.ReviewsCheck` | testing.py:40-46 | The reviews check. `ReviewBoundaries` fixes its finding at the minimum, one below it and the neutral threshold. `ReasonsExact` shows its reason is recorded exactly when `Justified` allows it, carrying the minimum or the neutral threshold. |
| `Rules.InteractionsCheck` | testing.py:49-55 | The interactions check with the fixed limits 5 and 10. `InteractionBoundaries` fixes its finding at 4, 5, 9 and 10, and `ReasonsExact` ties its reasons to `Justified`. |
| `Rules.Classify` | testing.py:25-61 | The pure classification. Its verdict is fixed by `VerdictExact`. Its reason list is fixed by `ReasonsExact` (which reasons) together with `ReasonsOrdered` (their order, one per check). `SentinelExact` covers the sentinel. |
| `Rules.Worst` | testing.py:28-55 | The combined severity is at least each of its two inputs and is one of them, so it is the maximum of Good < Neutral < Evil. |
| `Rules.Step` | testing.py:31-37 | One check's update: Evil sets Evil, and Neutral sets Neutral unless the verdict is already Evil. This equals the maximum of the current verdict and the finding's severity, so a later check never lowers the verdict. |
| `Rules.CombineIsMaximum` | testing.py:28-55 | The verdict after all checks is at least the starting verdict and at least every finding's severity, and it equals one of them: worst case wins. |
| `Rules.CombineEvilAbsorbing` | testing.py:40-55 | Once the verdict is Evil, no later finding changes it. |
| `Rules.CombineMonotone` | testing.py:28-55 | Starting from a more severe verdict never gives a less severe result. |
| `Rules.CollectAtMostOnePerFinding` | testing.py:27-55 | Each check adds at most one reason. No reason is recorded exactly when no check fires. |
| `Rules.Combine` | testing.py:28-55 | The fold that reassigns the verdict check by check, starting from Good. `CombineIsMaximum` shows the result is the worst of the seed and the findings. `CombineEvilAbsorbing` shows Evil is never left. `CombineMonotone` shows a higher seed never gives a lower result. |
| `Rules.Collect` | testing.py:32-53 | The reasons the checks append, in check order. `CollectAtMostOnePerFinding` bounds them at one per check, and shows the list is empty exactly when every check passes. |
| `Rules.ClassifyInSteps` | testing.py:25-61 | The classification is the three checks applied in order: permissions, reviews, interactions. Each appends its reason, and the sentinel is appended when the verdict is still Good. |
| `Rules.VerdictExact` | testing.py:28-55 | Evil exactly when permissions > threshold+2, reviews < minimum, or interactions < 5, whatever the other checks say. Neutral exactly when none of those holds but permissions > threshold, reviews < neutral threshold, or interactions < 10. Good exactly when none of the six holds. |
| `Rules.ReasonsExact` | testing.py:31-59 | A reason is in the list exactly when the rules justify it. It carries the value its text shows: threshold+2, threshold, the minimum or the neutral threshold. The interaction texts use the fixed limits 5 and 10. |
| `Rules.ReasonExact` | testing.py:31-59 | The same statement for a single given reason. |
| `Rules.ReasonsOrdered` | testing.py:27-59 | There are one to three reasons, never none. They come in check order with at most one per check, and the sentinel is last. |
| `Rules.SentinelExact` | testing.py:57-59 | The verdict is Good exactly when the reasons are just the sentinel, and exactly when no check recorded a reason. The sentinel never appears next to another reason. |
| `Rules.BandReasonKeptUnderEvil` | testing.py:40-46 | A middle-band review reason is still recorded when another check has made the verdict Evil. |
| `Rules.PermissionBoundaries` | testing.py:31-37 | Permissions equal to the threshold give no finding. Threshold+1 and threshold+2 give a Neutral finding that carries the threshold. Threshold+3 gives an Evil finding that carries threshold+2. |
| `Rules.ReviewBoundaries` | testing.py:40-46 | Reviews equal to the minimum are not Evil, and one fewer is Evil. Reviews equal to the neutral threshold give no finding when that threshold is not below the minimum. |
| `Rules.InteractionBoundaries` | testing.py:49-55 | Interactions: 4 is Evil, 5 and 9 are Neutral, 10 gives no finding. |
| `Decimal.NatToString` | testing.py:32 | The rendered number is a non-empty string of decimal digits with no leading zero. |
| `Decimal.IntToString` | testing.py:32-44 | How the f-strings write a threshold: a minus sign when negative, then the digits of the magnitude. `IntToStringRoundTrip` shows `ParseInt` reads every integer back. |
| `Decimal.NatToStringRoundTrip` | testing.py:32 | Reading back the digits of a natural number gives the number. |
| `Decimal.IntToStringRoundTrip` | testing.py:32-44 | Reading back the text of any integer, negative ones included, gives the integer. |
| `Decimal.IntToStringInjective` | testing.py:32-44 | Different threshold values give different texts. |
| `Messages.Message` | testing.py:32-59 | The text of each reason, with the threshold value written out. `DefaultMessages` gives the exact texts for the default thresholds, and `MessageInjective` shows different reasons never share a text. |
| `Messages.Render` | testing.py:61 | The returned list of reason strings, one text per reason and in the same order. `RenderInjective` shows the list of texts determines the list of reasons. |
| `Messages.MessageInjective` | testing.py:32-59 | Different reasons, threshold values included, have different texts. |
| `Messages.RenderInjective` | testing.py:27-59 | The list of reason texts determines the list of reasons. |
| `Messages.RenderedSentinelExact` | testing.py:57-61 | The verdict is Good exactly when the returned texts are ["All criteria met"]. |
| `Detector.AppDetector.constructor` | testing.py:20-23 | The detector stores the three thresholds it is given. They default to 5, 100 and 200 and never change afterwards. |
| `Detector.AppDetector.ClassifyApp` | testing.py:25-61 | The step-by-step classification returns the rules' verdict and their reasons rendered as text, in order. The verdict is Good exactly when the texts are the sentinel alone. The call modifies nothing. |
| `Examples.UnitTestCases` | testing.py:72-97 | With thresholds 5/100/200: (8,20,250) is Evil, (4,20,50) is Evil, (6,15,300) is Neutral and (3,30,250) is Good. Each case also has its exact reason list. |
| `Examples.WhiteBoxCases` | testing.py:124-146 | (10,50,500) is Evil, (4,30,80) is Evil, (6,20,300) is Neutral and (3,30,250) is Good, each with its exact reasons. |
| `Examples.BlackBoxCases` | testing.py:107-112 | The black-box inputs get the verdicts their comments expect. (9,25,100) is Evil and also records the moderately-low-reviews reason. |
| `Examples.DefaultMessages` | testing.py:32-44 | The exact reason texts for the default thresholds, and for a negative threshold. |
| `Examples.WhiteBoxTest` | testing.py:120-146 | A detector built with the default thresholds classifies the four white-box inputs. The asserted verdicts hold, together with the exact reason strings, which follow from `ClassifyApp`'s contract alone. |
| `Examples.RepeatTest` | testing.py:25-61 | For any thresholds and any features, classifying the same input twice gives the same verdict and the same reasons. The detector's thresholds are still those it was built with. |

## Left out

- `AppFeatures.__str__`: formats features for console logs and has no effect on classification.
- The `print` calls, the `unittest` class plumbing and the `__main__` driver: console output and test orchestration. Their inputs and expected verdicts are kept as the `Examples` lemmas and the `Examples.WhiteBoxTest` method.
- `black_box_test`: prints and checks nothing. Its inputs, and the verdicts its comments expect, are kept in `Examples.BlackBoxCases`.
- `simulate_app`: draws features with `random.randint`, which is nondeterministic and not part of the rules.
- Dynamic typing: the Python code would also accept a non-integer feature or threshold. The model fixes all of them to integers.
- Decimal.IntToString: always succeeds. Recent CPython releases raise `ValueError` when an f-string converts an integer of more than 4300 digits, and the model does not include that error.
- Detector.AppDetector.constructor: the thresholds are `const` fields, so no caller can reassign them afterwards. In Python a caller could reassign the attributes set at testing.py:21-23, though the source itself never does.
- Rules.AppFeatures: the model is an immutable value compared by structure. Python's `AppFeatures` (testing.py:6-11) is a mutable object with no `__eq__`, so it is compared by identity, and a caller may reassign its fields. Nothing observable is lost: `classify_app` reads each field without changing it (testing.py:31-52) and never compares two records.
