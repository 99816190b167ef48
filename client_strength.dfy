/**
 * The browser's password-strength scorer (`checkPasswordStrength` of the
 * authentication context): points for length and character classes, a bonus
 * for long passwords using every class, penalties floored at 0 as they are
 * applied, a label, and an ordered list of advisories.
 */
module ClientStrength {
  import opened Text
  import opened StrengthRules

  const EnterPassword := "Enter a password"
  const Excellent := "Excellent password!"
  const TooWeak := "Password is too weak"

  /** +1 when the password is at least 12 long and uses all four classes. */
  function Bonus(pw: string): nat {
    if |pw| >= 12 && AllClasses(pw) then 1 else 0
  }

  /** The points before penalties. */
  function BaseScore(pw: string): nat {
    LengthPoints(|pw|) + ClassPoints(pw) + Bonus(pw)
  }

  /** Each penalty is applied with Math.max(0, ...). */
  function PenalizedScore(pw: string): int {
    var afterRepeat := if HasTripleRun(pw) then Max0(BaseScore(pw) - 1) else BaseScore(pw);
    if MatchesDenylist(pw, ClientDenylist) then Max0(afterRepeat - 2) else afterRepeat
  }

  function Max0(x: int): nat { if x < 0 then 0 else x }

  /** The reference definition of the scorer's result. */
  function Assess(pw: string): Assessment {
    if pw == [] then Assessment(0, VeryWeak, [EnterPassword])
    else
      var score := PenalizedScore(pw);
      var advisories := Messages(Failed(pw, ClientDenylist));
      var feedback :=
        if advisories != [] then advisories
        else if score >= 6 then [Excellent]
        else if score >= 4 then [Good]
        else [TooWeak];
      Assessment(score, LabelOf(score), feedback)
  }

  /** `Assess` on a non-empty password, given its score and advisories. */
  lemma AssessNonEmpty(pw: string, score: int, advisories: seq<string>)
    requires pw != [] && score == PenalizedScore(pw) && advisories == Messages(Failed(pw, ClientDenylist))
    ensures Assess(pw) == Assessment(score, LabelOf(score),
      if advisories != [] then advisories
      else if score >= 6 then [Excellent]
      else if score >= 4 then [Good]
      else [TooWeak])
  {
  }

  /**
   * The length and character-class tests and the bonus: `score` and
   * `feedback` are accumulated step by step as the browser does.
   */
  method AwardPoints(password: string) returns (score: int, feedback: seq<string>)
    ensures score == BaseScore(password)
    ensures feedback == Advice(Length, password, ClientDenylist) + Advice(Lowercase, password, ClientDenylist) + Advice(Uppercase, password, ClientDenylist)
                      + Advice(Numbers, password, ClientDenylist) + Advice(Special, password, ClientDenylist)
  {
    var lower, upper, digit, special := HasLower(password), HasUpper(password), HasDigit(password), HasSpecial(password);
    score := 0;
    feedback := [];
    if |password| >= 8 {
      score := score + 1;
      if |password| >= 12 {
        score := score + 1;
        if |password| >= 16 {
          score := score + 1;
        }
      }
    } else {
      feedback := feedback + [Message(Length)];
    }
    ghost var f1 := feedback;
    assert f1 == Advice(Length, password, ClientDenylist);

    if lower { score := score + 1; }
    else { feedback := feedback + [Message(Lowercase)]; }
    ghost var f2 := feedback;
    assert f2 == f1 + Advice(Lowercase, password, ClientDenylist);
    if upper { score := score + 1; }
    else { feedback := feedback + [Message(Uppercase)]; }
    ghost var f3 := feedback;
    assert f3 == f2 + Advice(Uppercase, password, ClientDenylist);
    if digit { score := score + 1; }
    else { feedback := feedback + [Message(Numbers)]; }
    ghost var f4 := feedback;
    assert f4 == f3 + Advice(Numbers, password, ClientDenylist);
    if special { score := score + 1; }
    else { feedback := feedback + [Message(Special)]; }
    assert feedback == f4 + Advice(Special, password, ClientDenylist);

    if |password| >= 12 && lower && upper && digit && special {
      score := score + 1;
    }
  }

  /** The two penalties, each floored at 0 as it is applied. */
  method Tally(password: string) returns (score: int, feedback: seq<string>)
    ensures score == PenalizedScore(password)
    ensures feedback == Messages(Failed(password, ClientDenylist))
  {
    score, feedback := AwardPoints(password);
    ghost var f5 := feedback;
    if HasTripleRun(password) {
      score := if score - 1 < 0 then 0 else score - 1;
      feedback := feedback + [Message(Repeated)];
    }
    ghost var f6 := feedback;
    assert f6 == f5 + Advice(Repeated, password, ClientDenylist);
    if MatchesDenylist(password, ClientDenylist) {
      score := if score - 2 < 0 then 0 else score - 2;
      feedback := feedback + [Message(Common)];
    }
    assert feedback == f6 + Advice(Common, password, ClientDenylist);
    AdvisoriesUnfolded(password, ClientDenylist);
  }

  /** The scorer as the browser runs it. */
  method CheckPasswordStrength(password: string) returns (r: Assessment)
    ensures r == Assess(password)
  {
    if |password| == 0 {
      return Assessment(0, VeryWeak, [EnterPassword]);
    }
    var score, feedback := Tally(password);
    AssessNonEmpty(password, score, feedback);

    var strength := VeryWeak;
    if score >= 6 { strength := Strong; }
    else if score >= 4 { strength := Medium; }
    else if score >= 2 { strength := Weak; }
    else { strength := VeryWeak; }

    if score >= 6 && |feedback| == 0 {
      feedback := feedback + [Excellent];
    } else if score >= 4 && |feedback| == 0 {
      feedback := feedback + [Good];
    }

    r := Assessment(if score < 0 then 0 else score, strength, if |feedback| > 0 then feedback else [TooWeak]);
  }

  // ---------------------------------------------------------------------------
  // Properties of the scorer

  /** An empty password scores 0, is 'Very Weak', and is told to enter a password. */
  lemma EmptyPassword()
    ensures Assess("") == Assessment(0, VeryWeak, ["Enter a password"])
  {
  }

  /** Any other password scores between 0 and 8: 3 for length, 4 for classes, 1 bonus. */
  lemma ScoreBounds(pw: string)
    ensures 0 <= Assess(pw).score <= 8
    ensures Assess(pw).score <= BaseScore(pw) <= LengthPoints(|pw|) + 5
  {
  }

  /** The two floored penalties together equal one floored subtraction of 3. */
  lemma PenaltiesCompose(pw: string)
    requires HasTripleRun(pw) && MatchesDenylist(pw, ClientDenylist)
    ensures PenalizedScore(pw) == Max0(BaseScore(pw) - 3)
  {
  }

  /** Only a password shorter than 8 (and not empty) gets the length advisory. */
  lemma LengthAdvisory(pw: string)
    requires pw != []
    ensures Message(Length) in Assess(pw).feedback <==> |pw| < 8
  {
    var failed := Failed(pw, ClientDenylist);
    FailedExactly(pw, ClientDenylist, Length);
    if |pw| < 8 {
      assert Length in failed;
      var k :| 0 <= k < |failed| && failed[k] == Length;
      assert Assess(pw).feedback[k] == Message(Length);
    } else {
      forall k | 0 <= k < |failed| ensures Message(failed[k]) != Message(Length) {
        MessageInjective(failed[k], Length);
      }
    }
  }

  /** The repeated-character advisory is given exactly when some character occurs three times in a row. */
  lemma RepeatAdvisory(pw: string)
    requires pw != []
    ensures Message(Repeated) in Assess(pw).feedback <==> HasTripleRun(pw)
  {
    var failed := Failed(pw, ClientDenylist);
    FailedExactly(pw, ClientDenylist, Repeated);
    if HasTripleRun(pw) {
      assert Repeated in failed;
      var k :| 0 <= k < |failed| && failed[k] == Repeated;
      assert Assess(pw).feedback[k] == Message(Repeated);
    } else {
      assert Repeated !in failed;
      forall k | 0 <= k < |failed| ensures Message(failed[k]) != Message(Repeated) {
        MessageInjective(failed[k], Repeated);
      }
    }
  }

  /** The common-pattern advisory is given exactly when the lowered password contains a denylisted word. */
  lemma CommonAdvisory(pw: string)
    requires pw != []
    ensures Message(Common) in Assess(pw).feedback <==> MatchesDenylist(pw, ClientDenylist)
  {
    var failed := Failed(pw, ClientDenylist);
    FailedExactly(pw, ClientDenylist, Common);
    if MatchesDenylist(pw, ClientDenylist) {
      assert Common in failed;
      var k :| 0 <= k < |failed| && failed[k] == Common;
      assert Assess(pw).feedback[k] == Message(Common);
    } else {
      assert Common !in failed;
      forall k | 0 <= k < |failed| ensures Message(failed[k]) != Message(Common) {
        MessageInjective(failed[k], Common);
      }
    }
  }

  /** Feedback is never empty. */
  lemma FeedbackNonEmpty(pw: string)
    ensures |Assess(pw).feedback| >= 1
  {
  }

  /**
   * When no criterion fails the score is at least 5, so the feedback is the
   * single acknowledgement 'Excellent password!' or 'Good password!' and the
   * 'Password is too weak' fallback is never produced.
   */
  lemma NoFailureMeansPraise(pw: string)
    requires pw != [] && Failed(pw, ClientDenylist) == []
    ensures Assess(pw).score >= 5
    ensures Assess(pw).feedback == (if Assess(pw).score >= 6 then [Excellent] else [Good])
  {
    forall c ensures !Fails(c, pw, ClientDenylist) {
      FailedExactly(pw, ClientDenylist, c);
    }
    assert !Fails(Length, pw, ClientDenylist) && !Fails(Lowercase, pw, ClientDenylist);
    assert !Fails(Uppercase, pw, ClientDenylist) && !Fails(Numbers, pw, ClientDenylist);
    assert !Fails(Special, pw, ClientDenylist) && !Fails(Repeated, pw, ClientDenylist);
    assert !Fails(Common, pw, ClientDenylist);
  }

  lemma NeverTooWeakFallback(pw: string)
    ensures TooWeak !in Assess(pw).feedback
  {
    if pw != [] {
      var failed := Failed(pw, ClientDenylist);
      if failed == [] {
        NoFailureMeansPraise(pw);
      } else {
        forall k | 0 <= k < |failed| ensures Message(failed[k]) != TooWeak { }
      }
    }
  }

  /** The feedback lists the failed criteria in the fixed test order. */
  lemma FeedbackOrdered(pw: string)
    requires pw != [] && Failed(pw, ClientDenylist) != []
    ensures Assess(pw).feedback == Messages(Failed(pw, ClientDenylist))
    ensures StrictlyRanked(Failed(pw, ClientDenylist))
  {
    FailedInTestOrder(pw, ClientDenylist);
  }

  /** The label is the threshold label of the reported score. */
  lemma LabelMatchesScore(pw: string)
    ensures Assess(pw).strength == LabelOf(Assess(pw).score)
  {
  }
}
