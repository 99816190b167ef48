/**
 * The criteria both password-strength scorers test, with the regular
 * expressions they use written as predicates, the advisory messages, and the
 * ordinal strength label.
 */
module StrengthRules {
  import opened Text

  // /[a-z]/, /[A-Z]/, /[0-9]/ and /[^A-Za-z0-9]/
  predicate HasLower(pw: string) { exists i | 0 <= i < |pw| :: IsLower(pw[i]) }
  predicate HasUpper(pw: string) { exists i | 0 <= i < |pw| :: IsUpper(pw[i]) }
  predicate HasDigit(pw: string) { exists i | 0 <= i < |pw| :: IsDigit(pw[i]) }
  predicate HasSpecial(pw: string) { exists i | 0 <= i < |pw| :: !IsAlnum(pw[i]) }

  predicate AllClasses(pw: string) {
    HasLower(pw) && HasUpper(pw) && HasDigit(pw) && HasSpecial(pw)
  }

  /** /(.)\1{2,}/: some character other than a line terminator three times in a row. */
  predicate TripleAt(pw: string, i: int) {
    0 <= i && i + 2 < |pw| && !IsLineTerminator(pw[i]) && pw[i] == pw[i + 1] && pw[i + 1] == pw[i + 2]
  }

  predicate HasTripleRun(pw: string) {
    exists i | 0 <= i < |pw| :: TripleAt(pw, i)
  }

  /** The alternatives of the server's /123|abc|qwe|password|admin/i. */
  const ServerDenylist: seq<string> := ["123", "abc", "qwe", "password", "admin"]

  /** The alternatives of the client's /123|abc|qwe|password|admin|qwerty|letmein/i. */
  const ClientDenylist: seq<string> := ServerDenylist + ["qwerty", "letmein"]

  /**
   * A case-insensitive search for any of the alternatives. Every alternative is
   * lower-case ASCII, and without the `u` flag JavaScript never folds a
   * non-ASCII character onto an ASCII one, so lowering ASCII letters is exact.
   */
  predicate MatchesDenylist(pw: string, denylist: seq<string>) {
    exists k | 0 <= k < |denylist| :: Contains(ToLower(pw), denylist[k])
  }

  // ---------------------------------------------------------------------------
  // Criteria and their advisories, in the order the scorers test them

  datatype Criterion = Length | Lowercase | Uppercase | Numbers | Special | Repeated | Common

  const AllCriteria: seq<Criterion> := [Length, Lowercase, Uppercase, Numbers, Special, Repeated, Common]

  function Message(c: Criterion): string {
    match c
    case Length => "Password should be at least 8 characters long"
    case Lowercase => "Include lowercase letters"
    case Uppercase => "Include uppercase letters"
    case Numbers => "Include numbers"
    case Special => "Include special characters"
    case Repeated => "Avoid repeated characters"
    case Common => "Avoid common patterns"
  }

  lemma MessageInjective(a: Criterion, b: Criterion)
    ensures Message(a) == Message(b) ==> a == b
  {
  }

  /** Whether `pw` fails criterion `c`, given the scorer's denylist. */
  predicate Fails(c: Criterion, pw: string, denylist: seq<string>) {
    match c
    case Length => |pw| < 8
    case Lowercase => !HasLower(pw)
    case Uppercase => !HasUpper(pw)
    case Numbers => !HasDigit(pw)
    case Special => !HasSpecial(pw)
    case Repeated => HasTripleRun(pw)
    case Common => MatchesDenylist(pw, denylist)
  }

  function IfFails(c: Criterion, pw: string, denylist: seq<string>): seq<Criterion> {
    if Fails(c, pw, denylist) then [c] else []
  }

  /** The failed criteria among the first `k` tests, in test order. */
  function FailedUpTo(k: nat, pw: string, denylist: seq<string>): seq<Criterion>
    requires k <= |AllCriteria|
  {
    if k == 0 then [] else FailedUpTo(k - 1, pw, denylist) + IfFails(AllCriteria[k - 1], pw, denylist)
  }

  /** The failed criteria of all seven tests. */
  function Failed(pw: string, denylist: seq<string>): seq<Criterion> {
    FailedUpTo(|AllCriteria|, pw, denylist)
  }

  /** The seven tests written out one after another. */
  lemma FailedUnfolded(pw: string, denylist: seq<string>)
    ensures Failed(pw, denylist)
      == IfFails(Length, pw, denylist) + IfFails(Lowercase, pw, denylist) + IfFails(Uppercase, pw, denylist)
       + IfFails(Numbers, pw, denylist) + IfFails(Special, pw, denylist) + IfFails(Repeated, pw, denylist)
       + IfFails(Common, pw, denylist)
  {
    assert FailedUpTo(1, pw, denylist) == IfFails(Length, pw, denylist);
    assert FailedUpTo(2, pw, denylist) == FailedUpTo(1, pw, denylist) + IfFails(Lowercase, pw, denylist);
    assert FailedUpTo(3, pw, denylist) == FailedUpTo(2, pw, denylist) + IfFails(Uppercase, pw, denylist);
    assert FailedUpTo(4, pw, denylist) == FailedUpTo(3, pw, denylist) + IfFails(Numbers, pw, denylist);
    assert FailedUpTo(5, pw, denylist) == FailedUpTo(4, pw, denylist) + IfFails(Special, pw, denylist);
    assert FailedUpTo(6, pw, denylist) == FailedUpTo(5, pw, denylist) + IfFails(Repeated, pw, denylist);
    assert FailedUpTo(7, pw, denylist) == FailedUpTo(6, pw, denylist) + IfFails(Common, pw, denylist);
  }

  /** Position of a criterion in the fixed test order. */
  function Rank(c: Criterion): (k: nat)
    ensures k < |AllCriteria| && AllCriteria[k] == c
  {
    match c
    case Length => 0
    case Lowercase => 1
    case Uppercase => 2
    case Numbers => 3
    case Special => 4
    case Repeated => 5
    case Common => 6
  }

  predicate StrictlyRanked(cs: seq<Criterion>) {
    forall i, j :: 0 <= i < j < |cs| ==> Rank(cs[i]) < Rank(cs[j])
  }

  lemma {:induction false} FailedUpToSpec(k: nat, pw: string, denylist: seq<string>)
    requires k <= |AllCriteria|
    ensures forall c :: c in FailedUpTo(k, pw, denylist) <==> Rank(c) < k && Fails(c, pw, denylist)
    ensures StrictlyRanked(FailedUpTo(k, pw, denylist))
  {
    if k > 0 {
      FailedUpToSpec(k - 1, pw, denylist);
      var prev := FailedUpTo(k - 1, pw, denylist);
      var c := AllCriteria[k - 1];
      var extra := IfFails(c, pw, denylist);
      assert Rank(c) == k - 1;
      assert FailedUpTo(k, pw, denylist) == prev + extra;
      forall x ensures x in prev + extra <==> Rank(x) < k && Fails(x, pw, denylist) {
        assert x in prev + extra <==> x in prev || x in extra;
        assert x in extra <==> x == c && Fails(c, pw, denylist);
        assert Rank(x) == k - 1 <==> x == c;
      }
      RankedAppend(prev, c, extra);
    }
  }

  /** Appending a criterion ranked after everything already listed keeps the list strictly ranked. */
  lemma RankedAppend(prev: seq<Criterion>, c: Criterion, extra: seq<Criterion>)
    requires StrictlyRanked(prev) && (forall x :: x in prev ==> Rank(x) < Rank(c))
    requires extra == [] || extra == [c]
    ensures StrictlyRanked(prev + extra)
  {
    var r := prev + extra;
    forall i, j | 0 <= i < j < |r| ensures Rank(r[i]) < Rank(r[j]) {
      if j >= |prev| {
        assert r[i] in prev;
      }
    }
  }

  /** A criterion is reported exactly when the password fails it. */
  lemma FailedExactly(pw: string, denylist: seq<string>, c: Criterion)
    ensures c in Failed(pw, denylist) <==> Fails(c, pw, denylist)
  {
    FailedUpToSpec(|AllCriteria|, pw, denylist);
  }

  /** Advisories always come out in the order length, lowercase, uppercase, numbers, special, repeated, common. */
  lemma FailedInTestOrder(pw: string, denylist: seq<string>)
    ensures StrictlyRanked(Failed(pw, denylist))
  {
    FailedUpToSpec(|AllCriteria|, pw, denylist);
  }

  function Messages(cs: seq<Criterion>): (r: seq<string>)
    ensures |r| == |cs|
    ensures forall i :: 0 <= i < |cs| ==> r[i] == Message(cs[i])
  {
    seq(|cs|, i requires 0 <= i < |cs| => Message(cs[i]))
  }

  lemma MessagesSnoc(cs: seq<Criterion>, more: seq<Criterion>)
    ensures Messages(cs + more) == Messages(cs) + Messages(more)
  {
  }

  /** The advisory a single test contributes. */
  function Advice(c: Criterion, pw: string, denylist: seq<string>): seq<string> {
    if Fails(c, pw, denylist) then [Message(c)] else []
  }

  /** The advisories of the seven tests, one piece per test. */
  lemma AdvisoriesUnfolded(pw: string, d: seq<string>)
    ensures Messages(Failed(pw, d))
      == Advice(Length, pw, d) + Advice(Lowercase, pw, d) + Advice(Uppercase, pw, d) + Advice(Numbers, pw, d)
       + Advice(Special, pw, d) + Advice(Repeated, pw, d) + Advice(Common, pw, d)
  {
    FailedUnfolded(pw, d);
    MessagesOfSeven(IfFails(Length, pw, d), IfFails(Lowercase, pw, d), IfFails(Uppercase, pw, d), IfFails(Numbers, pw, d),
                    IfFails(Special, pw, d), IfFails(Repeated, pw, d), IfFails(Common, pw, d));
    AdviceIsMessages(Length, pw, d);
    AdviceIsMessages(Lowercase, pw, d);
    AdviceIsMessages(Uppercase, pw, d);
    AdviceIsMessages(Numbers, pw, d);
    AdviceIsMessages(Special, pw, d);
    AdviceIsMessages(Repeated, pw, d);
    AdviceIsMessages(Common, pw, d);
  }

  lemma AdviceIsMessages(c: Criterion, pw: string, d: seq<string>)
    ensures Messages(IfFails(c, pw, d)) == Advice(c, pw, d)
  {
  }

  lemma MessagesOfSeven(a: seq<Criterion>, b: seq<Criterion>, c: seq<Criterion>, e: seq<Criterion>,
                        f: seq<Criterion>, g: seq<Criterion>, h: seq<Criterion>)
    ensures Messages(a + b + c + e + f + g + h)
      == Messages(a) + Messages(b) + Messages(c) + Messages(e) + Messages(f) + Messages(g) + Messages(h)
  {
    MessagesSnoc(a, b);
    MessagesSnoc(a + b, c);
    MessagesSnoc(a + b + c, e);
    MessagesSnoc(a + b + c + e, f);
    MessagesSnoc(a + b + c + e + f, g);
    MessagesSnoc(a + b + c + e + f + g, h);
  }

  // ---------------------------------------------------------------------------
  // Labels

  datatype Label = VeryWeak | Weak | Medium | Strong {
    function Text(): string {
      match this
      case VeryWeak => "Very Weak"
      case Weak => "Weak"
      case Medium => "Medium"
      case Strong => "Strong"
    }

    function Ordinal(): nat {
      match this
      case VeryWeak => 0
      case Weak => 1
      case Medium => 2
      case Strong => 3
    }
  }

  /** What a scorer returns: `{ score, strength, feedback }`. */
  datatype Assessment = Assessment(score: int, strength: Label, feedback: seq<string>)

  /** The acknowledgement both scorers can give when nothing failed. */
  const Good := "Good password!"

  /** The thresholds 6, 4 and 2 that both scorers use. */
  function LabelOf(score: int): Label {
    if score >= 6 then Strong
    else if score >= 4 then Medium
    else if score >= 2 then Weak
    else VeryWeak
  }

  /** The label is a monotone step function of the score. */
  lemma LabelMonotone(a: int, b: int)
    requires a <= b
    ensures LabelOf(a).Ordinal() <= LabelOf(b).Ordinal()
  {
  }

  /** Points for length: 0, 1, 2 or 3 for lengths below 8, 8 to 11, 12 to 15, and 16 or more. */
  function LengthPoints(n: nat): (p: nat)
    ensures p <= 3
    ensures p == 0 <==> n < 8
    ensures p == 1 <==> 8 <= n < 12
    ensures p == 2 <==> 12 <= n < 16
    ensures p == 3 <==> 16 <= n
  {
    (if n >= 8 then 1 else 0) + (if n >= 12 then 1 else 0) + (if n >= 16 then 1 else 0)
  }

  function ClassPoints(pw: string): (p: nat)
    ensures p <= 4
  {
    (if HasLower(pw) then 1 else 0) + (if HasUpper(pw) then 1 else 0)
    + (if HasDigit(pw) then 1 else 0) + (if HasSpecial(pw) then 1 else 0)
  }

  /** A non-empty password is in at least one character class. */
  lemma NonEmptyHasClass(pw: string)
    requires pw != []
    ensures ClassPoints(pw) >= 1
  {
    var c := pw[0];
    if IsLower(c) { assert HasLower(pw); }
    else if IsUpper(c) { assert HasUpper(pw); }
    else if IsDigit(c) { assert HasDigit(pw); }
    else { assert HasSpecial(pw); }
  }
}
