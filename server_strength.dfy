/**
 * The server's password-strength scorer (`checkPasswordStrength` in the
 * server's crypto utilities). Unlike the browser's it has no bonus, applies
 * both penalties without flooring, takes the label from the raw score, floors
 * only the reported score, and does not single out the empty password.
 */
module ServerStrength {
  import opened Text
  import opened StrengthRules

  /** The score before the final floor; it can be negative. */
  function RawScore(pw: string): int {
    LengthPoints(|pw|) + ClassPoints(pw)
    - (if HasTripleRun(pw) then 1 else 0)
    - (if MatchesDenylist(pw, ServerDenylist) then 2 else 0)
  }

  /** The reference definition of the scorer's result. */
  function Assess(pw: string): Assessment {
    var raw := RawScore(pw);
    var advisories := Messages(Failed(pw, ServerDenylist));
    Assessment(if raw < 0 then 0 else raw, LabelOf(raw), if advisories != [] then advisories else [Good])
  }

  /** The length and character-class tests, accumulated step by step. */
  method AwardPoints(password: string) returns (score: int, feedback: seq<string>)
    ensures score == LengthPoints(|password|) + ClassPoints(password)
    ensures feedback == Advice(Length, password, ServerDenylist) + Advice(Lowercase, password, ServerDenylist)
                      + Advice(Uppercase, password, ServerDenylist) + Advice(Numbers, password, ServerDenylist)
                      + Advice(Special, password, ServerDenylist)
  {
    score := 0;
    feedback := [];
    if |password| >= 8 { score := score + 1; }
    else { feedback := feedback + [Message(Length)]; }
    if |password| >= 12 { score := score + 1; }
    if |password| >= 16 { score := score + 1; }
    ghost var f1 := feedback;
    assert f1 == Advice(Length, password, ServerDenylist);

    if HasLower(password) { score := score + 1; }
    else { feedback := feedback + [Message(Lowercase)]; }
    ghost var f2 := feedback;
    assert f2 == f1 + Advice(Lowercase, password, ServerDenylist);
    if HasUpper(password) { score := score + 1; }
    else { feedback := feedback + [Message(Uppercase)]; }
    ghost var f3 := feedback;
    assert f3 == f2 + Advice(Uppercase, password, ServerDenylist);
    if HasDigit(password) { score := score + 1; }
    else { feedback := feedback + [Message(Numbers)]; }
    ghost var f4 := feedback;
    assert f4 == f3 + Advice(Numbers, password, ServerDenylist);
    if HasSpecial(password) { score := score + 1; }
    else { feedback := feedback + [Message(Special)]; }
    assert feedback == f4 + Advice(Special, password, ServerDenylist);
  }

  /** The scorer as the server runs it: unfloored penalties, then label and result. */
  method CheckPasswordStrength(password: string) returns (r: Assessment)
    ensures r == Assess(password)
  {
    var score, feedback := AwardPoints(password);
    ghost var f5 := feedback;
    if HasTripleRun(password) {
      score := score - 1;
      feedback := feedback + [Message(Repeated)];
    }
    ghost var f6 := feedback;
    assert f6 == f5 + Advice(Repeated, password, ServerDenylist);
    if MatchesDenylist(password, ServerDenylist) {
      score := score - 2;
      feedback := feedback + [Message(Common)];
    }
    assert feedback == f6 + Advice(Common, password, ServerDenylist);
    AdvisoriesUnfolded(password, ServerDenylist);

    var strength := VeryWeak;
    if score >= 6 { strength := Strong; }
    else if score >= 4 { strength := Medium; }
    else if score >= 2 { strength := Weak; }

    r := Assessment(if 0 < score then score else 0, strength, if |feedback| > 0 then feedback else [Good]);
  }

  // ---------------------------------------------------------------------------
  // Properties of the scorer

  /** Without a bonus the raw score is at most 7; the penalties can take it down to -3. */
  lemma ScoreBounds(pw: string)
    ensures -3 <= RawScore(pw) <= 7
    ensures 0 <= Assess(pw).score <= 7
    ensures Assess(pw).score == (if RawScore(pw) < 0 then 0 else RawScore(pw))
  {
  }

  /** The label of the raw score is also the label of the reported, floored score. */
  lemma LabelMatchesReportedScore(pw: string)
    ensures Assess(pw).strength == LabelOf(Assess(pw).score)
    ensures RawScore(pw) < 2 ==> Assess(pw).strength == VeryWeak
  {
  }

  /** The empty password is not singled out: it scores 0 with five advisories. */
  lemma EmptyPassword()
    ensures Assess("") == Assessment(0, VeryWeak, [
      "Password should be at least 8 characters long", "Include lowercase letters",
      "Include uppercase letters", "Include numbers", "Include special characters"])
  {
    var d := ServerDenylist;
    assert !HasTripleRun("");
    forall k | 0 <= k < |d| ensures !Contains(ToLower(""), d[k]) { }
    assert !MatchesDenylist("", d);
    AdvisoriesUnfolded("", d);
  }

  /** 'Good password!' is the whole feedback exactly when no criterion failed. */
  lemma GoodExactlyWhenNothingFailed(pw: string)
    ensures Assess(pw).feedback == [Good] <==> Failed(pw, ServerDenylist) == []
    ensures Failed(pw, ServerDenylist) != [] ==> Assess(pw).feedback == Messages(Failed(pw, ServerDenylist))
  {
    var failed := Failed(pw, ServerDenylist);
    if failed != [] {
      assert Messages(failed)[0] == Message(failed[0]) != Good;
    }
  }

  /** Advisories follow the fixed test order. */
  lemma FeedbackOrdered(pw: string)
    ensures StrictlyRanked(Failed(pw, ServerDenylist))
    ensures forall c :: c in Failed(pw, ServerDenylist) <==> Fails(c, pw, ServerDenylist)
  {
    FailedInTestOrder(pw, ServerDenylist);
    forall c ensures c in Failed(pw, ServerDenylist) <==> Fails(c, pw, ServerDenylist) {
      FailedExactly(pw, ServerDenylist, c);
    }
  }
}
