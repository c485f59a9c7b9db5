/**
 The text of each reason, as the detector appends it to its list. The text
 identifies the reason, threshold value included.
 */
module Messages {
  import opened Rules
  import opened Decimal

  function Message(r: Reason): string {
    match r
    case TooManyPermissions(n) => "Too many permissions requested (> " + IntToString(n) + ")"
    case ModeratelyHighPermissions(n) => "Moderately high permissions (> " + IntToString(n) + ")"
    case TooFewReviews(n) => "Too few reviews (< " + IntToString(n) + ")"
    case ModeratelyLowReviews(n) => "Moderately low reviews (< " + IntToString(n) + ")"
    case VeryLowInteractions => "Very low user interactions (< 5)"
    case LowInteractions => "Low user interactions (< 10)"
    case AllCriteriaMet => "All criteria met"
  }

  /** The texts of a list of reasons, in the same order. */
  function Render(rs: seq<Reason>): seq<string> {
    seq(|rs|, i requires 0 <= i < |rs| => Message(rs[i]))
  }

  /** Rendering commutes with appending one reason. */
  lemma RenderAppend(rs: seq<Reason>, r: Reason)
    ensures Render(rs + [r]) == Render(rs) + [Message(r)]
  {
  }

  /** The first and twelfth characters of each text tell the kinds apart. */
  function Marks(r: Reason): (char, char) {
    match r
    case TooManyPermissions(_) => ('T', 'r')
    case ModeratelyHighPermissions(_) => ('M', 'h')
    case TooFewReviews(_) => ('T', 'i')
    case ModeratelyLowReviews(_) => ('M', 'l')
    case VeryLowInteractions => ('V', 'e')
    case LowInteractions => ('L', 't')
    case AllCriteriaMet => ('A', 'a')
  }

  lemma MessageMarks(r: Reason)
    ensures |Message(r)| > 11 && (Message(r)[0], Message(r)[11]) == Marks(r)
  {
  }

  /** Text framed by a fixed prefix and suffix determines what it frames. */
  lemma Unframe(prefix: string, s: string, t: string, suffix: string)
    requires prefix + s + suffix == prefix + t + suffix
    ensures s == t
  {
    var m := prefix + s + suffix;
    assert |s| == |t|;
    assert s == m[|prefix|..|prefix| + |s|];
    assert t == m[|prefix|..|prefix| + |t|];
  }

  /** Different reasons have different texts. */
  lemma MessageInjective(a: Reason, b: Reason)
    requires Message(a) == Message(b)
    ensures a == b
  {
    MessageMarks(a);
    MessageMarks(b);
    assert Marks(a) == Marks(b);
    match a
    case TooManyPermissions(n) =>
      Unframe("Too many permissions requested (> ", IntToString(n), IntToString(b.limit), ")");
      IntToStringInjective(n, b.limit);
    case ModeratelyHighPermissions(n) =>
      Unframe("Moderately high permissions (> ", IntToString(n), IntToString(b.limit), ")");
      IntToStringInjective(n, b.limit);
    case TooFewReviews(n) =>
      Unframe("Too few reviews (< ", IntToString(n), IntToString(b.limit), ")");
      IntToStringInjective(n, b.limit);
    case ModeratelyLowReviews(n) =>
      Unframe("Moderately low reviews (< ", IntToString(n), IntToString(b.limit), ")");
      IntToStringInjective(n, b.limit);
    case VeryLowInteractions =>
    case LowInteractions =>
    case AllCriteriaMet =>
  }

  /** The list of texts determines the list of reasons. */
  lemma RenderInjective(a: seq<Reason>, b: seq<Reason>)
    requires Render(a) == Render(b)
    ensures a == b
  {
    assert |a| == |Render(a)| == |Render(b)| == |b|;
    forall i | 0 <= i < |a|
      ensures a[i] == b[i]
    {
      assert Render(a)[i] == Render(b)[i];
      MessageInjective(a[i], b[i]);
    }
  }

  /** The rendered sentinel is exact too: Good iff the texts are the sentinel's alone. */
  lemma RenderedSentinelExact(p: Policy, app: AppFeatures)
    ensures Classify(p, app).verdict == Good <==> Render(Classify(p, app).reasons) == [Message(AllCriteriaMet)]
  {
    var rs := Classify(p, app).reasons;
    SentinelExact(p, app);
    if Render(rs) == [Message(AllCriteriaMet)] {
      assert Render(rs) == Render([AllCriteriaMet]);
      RenderInjective(rs, [AllCriteriaMet]);
    }
  }
}
