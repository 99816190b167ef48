/**
 * The card that shows one vault entry: the strength chip (label, colour and
 * icon from the same three buckets), the initials avatar, the card's
 * background, and the password mask.
 */
module PasswordCard {
  import opened Wrappers
  import opened Text
  import opened StrengthRules

  /** The light and dark themes. */
  datatype Mode = Light | Dark

  /** The three buckets the card uses: 4 and above, 2 to 3, below 2. */
  datatype Bucket = High | Middle | Low

  function BucketOf(strength: int): Bucket {
    if strength >= 4 then High else if strength >= 2 then Middle else Low
  }

  /** `password.strength || 0`: a missing strength reads as 0. */
  function Shown(strength: Option<int>): int {
    if strength.Some? then strength.value else 0
  }

  function StrengthLabel(strength: int): string {
    if strength >= 4 then "Strong" else if strength >= 2 then "Medium" else "Weak"
  }

  function StrengthColor(mode: Mode, strength: int): string {
    if strength >= 4 then (if mode == Light then "#10b981" else "#34d399")
    else if strength >= 2 then (if mode == Light then "#f59e0b" else "#fbbf24")
    else (if mode == Light then "#ef4444" else "#f87171")
  }

  datatype Icon = CheckCircle | WarningSign | ErrorSign

  function StrengthIcon(strength: int): Icon {
    if strength >= 4 then CheckCircle else if strength >= 2 then WarningSign else ErrorSign
  }

  /** The label, the colour (in either theme) and the icon each determine the bucket, and so each other. */
  lemma SameBoundaries(mode: Mode, a: int, b: int)
    ensures StrengthLabel(a) == StrengthLabel(b) <==> BucketOf(a) == BucketOf(b)
    ensures StrengthColor(mode, a) == StrengthColor(mode, b) <==> BucketOf(a) == BucketOf(b)
    ensures StrengthIcon(a) == StrengthIcon(b) <==> BucketOf(a) == BucketOf(b)
  {
  }

  /**
   * The card calls "Strong" what the scorer labels Medium or Strong, and
   * "Weak" what the scorer labels Very Weak.
   */
  lemma LabelAgainstScorer(strength: int)
    ensures StrengthLabel(strength) == "Strong" <==> LabelOf(strength) == Medium || LabelOf(strength) == StrengthRules.Strong
    ensures StrengthLabel(strength) == "Medium" <==> LabelOf(strength) == Weak
    ensures StrengthLabel(strength) == "Weak" <==> LabelOf(strength) == VeryWeak
  {
  }

  /** A score of 4 is "Strong" on the card but "Medium" for the scorer that produced it. */
  lemma CardOverstatesMedium()
    ensures StrengthLabel(4) == "Strong" && LabelOf(4).Text() == "Medium"
  {
  }

  // ---------------------------------------------------------------------------
  // Initials

  /** `word.charAt(0)` for each word, joined. */
  function FirstChars(words: seq<string>): string {
    if words == [] then [] else (if words[0] == [] then [] else [words[0][0]]) + FirstChars(words[1..])
  }

  /**
   * The characters of `s` that begin a word: not a space, and either first
   * (when `atStart`) or right after a space.
   */
  function WordStarts(s: string, atStart: bool): (r: string)
    ensures forall k :: 0 <= k < |r| ==> r[k] != ' ' && r[k] in s
  {
    if s == [] then []
    else if s[0] == ' ' then WordStarts(s[1..], true)
    else (if atStart then [s[0]] else []) + WordStarts(s[1..], false)
  }

  /** `getInitials`: the first letters of the space-separated words, upper-cased, at most two. */
  function Initials(title: string): (r: string)
    ensures |r| <= 2
  {
    var letters := ToUpper(FirstChars(Split(title, ' ')));
    if |letters| <= 2 then letters else letters[..2]
  }

  /** Splitting on spaces and taking first characters finds exactly the word starts. */
  lemma {:induction false} FirstCharsAreWordStarts(s: string)
    ensures FirstChars(Split(s, ' ')) == WordStarts(s, true)
    ensures FirstChars(Split(s, ' ')[1..]) == WordStarts(s, false)
  {
    if s != [] {
      var rest := Split(s[1..], ' ');
      FirstCharsAreWordStarts(s[1..]);
      if s[0] == ' ' {
        assert Split(s, ' ') == [""] + rest;
        assert Split(s, ' ')[1..] == rest;
      } else {
        var first := [s[0]] + rest[0];
        assert Split(s, ' ') == [first] + rest[1..];
        assert Split(s, ' ')[1..] == rest[1..];
        assert FirstChars([first] + rest[1..]) == [s[0]] + FirstChars(rest[1..]);
        assert rest == [rest[0]] + rest[1..];
        if rest[0] == [] {
          assert FirstChars(rest) == FirstChars(rest[1..]);
        } else {
          assert FirstChars(rest) == [rest[0][0]] + FirstChars(rest[1..]);
        }
      }
    }
  }

  /** The initials are the first one or two word starts of the title, upper-cased. */
  lemma InitialsAreWordStarts(title: string)
    ensures var w := ToUpper(WordStarts(title, true));
            Initials(title) == if |w| <= 2 then w else w[..2]
    ensures forall k :: 0 <= k < |Initials(title)| ==>
              exists c :: c in title && c != ' ' && Initials(title)[k] == UpperChar(c)
  {
    FirstCharsAreWordStarts(title);
    var starts := WordStarts(title, true);
    forall k | 0 <= k < |Initials(title)|
      ensures exists c :: c in title && c != ' ' && Initials(title)[k] == UpperChar(c)
    {
      assert Initials(title)[k] == UpperChar(starts[k]);
    }
  }

  // ---------------------------------------------------------------------------
  // Background and mask

  datatype Gradient = Amber | Green | Red

  /** `getCardGradient`: a favourite is amber whatever its strength; otherwise by bucket. */
  function CardGradient(favorite: bool, strength: Option<int>): (g: Gradient)
    ensures favorite ==> g == Amber
    ensures !favorite ==> (g == Green <==> BucketOf(Shown(strength)) == High)
    ensures !favorite ==> (g == Amber <==> BucketOf(Shown(strength)) == Middle)
    ensures !favorite ==> (g == Red <==> BucketOf(Shown(strength)) == Low)
  {
    if favorite then Amber
    else if strength.Some? && strength.value >= 4 then Green
    else if strength.Some? && strength.value >= 2 then Amber
    else Red
  }

  /** A favourite's background does not reveal its strength. */
  lemma FavoriteHidesStrength(a: Option<int>, b: Option<int>)
    ensures CardGradient(true, a) == CardGradient(true, b)
  {
  }

  const Bullet: char := '•'

  /** The password text, or sixteen bullets while hidden. */
  function Masked(showPassword: bool, password: string): (r: string)
    ensures showPassword ==> r == password
    ensures !showPassword ==> |r| == 16 && forall k :: 0 <= k < 16 ==> r[k] == Bullet
  {
    if showPassword then password else Repeat(Bullet, 16)
  }

  /** The hidden text is the same for every password, so it leaks not even the length. */
  lemma MaskLeaksNothing(a: string, b: string)
    ensures Masked(false, a) == Masked(false, b)
  {
  }

  /** An entry without a strength shows as "Weak", red, with the error icon. */
  lemma MissingStrengthIsWeak(mode: Mode)
    ensures StrengthLabel(Shown(None)) == "Weak"
    ensures StrengthColor(mode, Shown(None)) == StrengthColor(mode, 0)
    ensures StrengthIcon(Shown(None)) == ErrorSign
    ensures !(exists v :: CardGradient(false, None) == CardGradient(false, Some(v)) && v >= 2)
  {
  }
}
