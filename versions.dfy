/**
 * How the two versions' challenge gates differ on the same input.
 * forwarder_bot_v6.py compares the stripped text with str(answer);
 * forwarder_bot_v7.py parses the stripped text with int() and compares
 * numbers.  Every answer v6 accepts v7 accepts too, but not the reverse,
 * and the two treat an update without text differently.
 */
module VersionComparison {
  import opened Wrappers
  import opened PyText
  import V6 = ForwarderV6Spec
  import V7 = ForwarderV7Spec

  /** An answer the string comparison accepts also parses to the sum. */
  lemma V6AnswerPassesV7(text: string, answer: int)
    requires V6.AnswerCorrect(Some(text), answer)
    ensures V7.AnswerMatches(text, answer)
  {
    StrictMatchParses(text, answer);
    V7.AnswerIsIntOfStrip(text, answer);
  }

  /** "042" is a right answer to 42 for v7 and a wrong one for v6. */
  lemma LeadingZeroDiffers()
    ensures V7.AnswerMatches("042", 42)
    ensures !V6.AnswerCorrect(Some("042"), 42)
  {
    DigitsWithLeadingZero();
    assert ParseSigned("042") == Some(42);
    StripFixed("042");
    StrFortyTwo();
  }

  /** A pending user's update without text: v7 ignores it and keeps the
      challenge as it was, v6 counts it as a wrong answer. */
  lemma NoTextUpdate(s7: V7.Store, s6: V6.State, u: int, a: int, b: int, noticeSent: bool)
    requires V7.ChallengeDraw(a, b) && V6.ChallengeDraw(a, b)
    requires u != s7.owner && u !in s7.whitelist && u !in s7.blacklist && u in s7.pending
    requires u != s6.owner && u !in s6.blackLedger && u !in s6.granted && u in s6.examPaper
    requires u !in s6.forbiddenRealm
    ensures V7.RequireAuth(s7, u, None, a, b, noticeSent) == V7.Step(s7, V7.Ignored)
    ensures V6.Firewall(s6, u, None, a, b).out.Graded?
    ensures !V6.Firewall(s6, u, None, a, b).out.grade.Correct?
  {
  }
}
