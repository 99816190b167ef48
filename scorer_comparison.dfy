/**
 * How the browser's and the server's strength scorers relate: the server's
 * common-pattern list is the browser's without 'qwerty' and 'letmein', and
 * 'qwerty' adds nothing because it contains 'qwe'.
 */
module ScorerComparison {
  import opened Text
  import opened StrengthRules
  import ClientStrength
  import ServerStrength

  /** Whatever the server's pattern matches, the browser's matches too. */
  lemma DenylistSubset(pw: string)
    ensures MatchesDenylist(pw, ServerDenylist) ==> MatchesDenylist(pw, ClientDenylist)
  {
    if MatchesDenylist(pw, ServerDenylist) {
      var k :| 0 <= k < |ServerDenylist| && Contains(ToLower(pw), ServerDenylist[k]);
      assert ClientDenylist[k] == ServerDenylist[k];
    }
  }

  /** The browser's pattern matches exactly when the server's does or the input contains 'letmein'. */
  lemma DenylistDifference(pw: string)
    ensures MatchesDenylist(pw, ClientDenylist)
        <==> MatchesDenylist(pw, ServerDenylist) || Contains(ToLower(pw), "letmein")
  {
    var low := ToLower(pw);
    DenylistSubset(pw);
    if MatchesDenylist(pw, ClientDenylist) && !Contains(low, "letmein") {
      var k :| 0 <= k < |ClientDenylist| && Contains(low, ClientDenylist[k]);
      if k < |ServerDenylist| {
        assert ServerDenylist[k] == ClientDenylist[k];
      } else {
        assert ClientDenylist[k] == "qwerty";
        ContainsInfix(low, "qwerty", 0, 3);
        assert "qwerty"[0..3] == ServerDenylist[2];
      }
    }
    if Contains(low, "letmein") {
      assert ClientDenylist[6] == "letmein";
    }
  }

  /**
   * Without the bonus and without 'letmein', a non-empty password gets the same
   * score, label and advisories from both scorers: the browser's stepwise
   * floors agree with the server's single floor because the points before
   * penalties are never negative.
   */
  lemma ScorersAgree(pw: string)
    requires pw != [] && ClientStrength.Bonus(pw) == 0 && !Contains(ToLower(pw), "letmein")
    ensures ClientStrength.Assess(pw).score == ServerStrength.Assess(pw).score
    ensures ClientStrength.Assess(pw).strength == ServerStrength.Assess(pw).strength
    ensures Failed(pw, ClientDenylist) == Failed(pw, ServerDenylist)
    ensures Failed(pw, ClientDenylist) != [] ==> ClientStrength.Assess(pw).feedback == ServerStrength.Assess(pw).feedback
  {
    DenylistDifference(pw);
    assert Fails(Common, pw, ClientDenylist) == Fails(Common, pw, ServerDenylist);
    FailedUnfolded(pw, ClientDenylist);
    FailedUnfolded(pw, ServerDenylist);
  }
}
