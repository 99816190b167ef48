/**
 * The password generator dialog: the four class switches (one of which must
 * stay on), the length slider, the strength colour of the generated
 * password, and the three presets.
 */
module PasswordGenerator {
  import opened Wrappers
  import opened Charset
  import opened StrengthRules
  import ClientStrength
  import ClientCrypto

  /** The names `handleOptionChange` is called with. */
  datatype Flag = IncludeUppercase | IncludeLowercase | IncludeNumbers | IncludeSymbols

  function Selected(o: Options, f: Flag): bool {
    match f
    case IncludeUppercase => o.upper
    case IncludeLowercase => o.lower
    case IncludeNumbers => o.numbers
    case IncludeSymbols => o.symbols
  }

  /** `{ ...options, [option]: !options[option] }`. */
  function Flip(o: Options, f: Flag): (r: Options)
    ensures Selected(r, f) == !Selected(o, f)
    ensures forall g :: g != f ==> Selected(r, g) == Selected(o, g)
  {
    match f
    case IncludeUppercase => o.(upper := !o.upper)
    case IncludeLowercase => o.(lower := !o.lower)
    case IncludeNumbers => o.(numbers := !o.numbers)
    case IncludeSymbols => o.(symbols := !o.symbols)
  }

  /** Some switch is on exactly when some flag is selected. */
  lemma AnySelectedByFlag(o: Options)
    ensures AnySelected(o) <==> exists f :: Selected(o, f)
  {
    if o.upper { assert Selected(o, IncludeUppercase); }
    if o.lower { assert Selected(o, IncludeLowercase); }
    if o.numbers { assert Selected(o, IncludeNumbers); }
    if o.symbols { assert Selected(o, IncludeSymbols); }
  }

  /** A flip is undone by flipping the same switch again. */
  lemma FlipTwice(o: Options, f: Flag)
    ensures Flip(Flip(o, f), f) == o
  {
  }

  /** A toggle is refused exactly when it would switch off the only class still on. */
  lemma RefusedOnlyForLastClass(o: Options, f: Flag)
    requires AnySelected(o)
    ensures !AnySelected(Flip(o, f)) <==> Selected(o, f) && forall g :: g != f ==> !Selected(o, g)
  {
    AnySelectedByFlag(o);
    AnySelectedByFlag(Flip(o, f));
  }

  const MinLength := 8
  const MaxLength := 64
  const DefaultLength := 16

  /** The three quick presets. */
  datatype Preset = StandardPreset | StrongPreset | MaximumPreset

  function PresetLength(p: Preset): (n: int)
    ensures MinLength <= n <= MaxLength
  {
    match p
    case StandardPreset => 12
    case StrongPreset => 16
    case MaximumPreset => 32
  }

  function PresetOptions(p: Preset): (o: Options)
    ensures AnySelected(o)
  {
    match p
    case StandardPreset => Options(true, true, true, false)
    case _ => DefaultOptions
  }

  /** The colour of the strength chip: 'default' with no password, then by the scorer's score. */
  function StrengthColor(password: string): (color: string)
    ensures password == [] ==> color == "default"
  {
    if password == [] then "default"
    else
      var score := ClientStrength.Assess(password).score;
      if score >= 6 then "success" else if score >= 4 then "warning" else "error"
  }

  /** The chip colour follows the scorer's label: success for Strong, warning for Medium, error below. */
  lemma StrengthColorFollowsLabel(password: string)
    requires password != []
    ensures StrengthColor(password) == "success" <==> ClientStrength.Assess(password).strength == Strong
    ensures StrengthColor(password) == "warning" <==> ClientStrength.Assess(password).strength == Medium
    ensures StrengthColor(password) == "error" <==> ClientStrength.Assess(password).strength.Ordinal() <= Weak.Ordinal()
  {
  }

  class Generator {
    var password: string
    var length: int
    var options: Options
    var copied: bool

    /** The slider keeps the length within 8..64 and one class is always on. */
    ghost predicate Valid()
      reads this
    {
      MinLength <= length <= MaxLength && AnySelected(options)
    }

    constructor ()
      ensures Valid()
      ensures password == [] && length == DefaultLength && options == DefaultOptions && !copied
    {
      password := [];
      length := DefaultLength;
      options := DefaultOptions;
      copied := false;
    }

    /** `handleOptionChange`: flips one switch unless that would leave none on. */
    method HandleOptionChange(f: Flag)
      requires Valid()
      modifies this
      ensures Valid()
      ensures AnySelected(Flip(old(options), f)) ==> options == Flip(old(options), f)
      ensures !AnySelected(Flip(old(options), f)) ==> options == old(options)
      ensures password == old(password) && length == old(length) && copied == old(copied)
    {
      var newOptions := Flip(options, f);
      if !AnySelected(newOptions) {
        return;
      }
      options := newOptions;
    }

    /** The slider's `onChange`: it only reports values between its min and max. */
    method SetLength(value: int)
      requires Valid() && MinLength <= value <= MaxLength
      modifies this
      ensures Valid() && length == value
      ensures password == old(password) && options == old(options) && copied == old(copied)
    {
      length := value;
    }

    /**
     * `generateNewPassword` with the current length and switches; since a
     * class is always on, the generator never fails here.
     */
    method GenerateNewPassword(random: nat -> ClientCrypto.Draw)
      requires Valid() && forall i :: ClientCrypto.IsUnitDraw(random(i))
      modifies this
      ensures Valid() && length == old(length) && options == old(options) && !copied
      ensures |password| == length
      ensures forall i :: 0 <= i < |password| ==> password[i] in Alphabet(options)
    {
      var r := ClientCrypto.GeneratePassword(length, options, random);
      if r.Ok? {
        password := r.value;
        copied := false;
        ClientCrypto.GeneratedFromSelectedClasses(password, options, random);
      }
    }

    /**
     * A preset button as written: the length and switches are set, but the
     * password is generated by a closure that still sees the values from
     * before the click.
     */
    method ApplyPresetAsWritten(p: Preset, random: nat -> ClientCrypto.Draw)
      requires Valid() && forall i :: ClientCrypto.IsUnitDraw(random(i))
      modifies this
      ensures Valid() && length == PresetLength(p) && options == PresetOptions(p)
      ensures |password| == old(length)
      ensures forall i :: 0 <= i < |password| ==> password[i] in Alphabet(old(options))
    {
      var staleLength, staleOptions := length, options;
      length := PresetLength(p);
      options := PresetOptions(p);
      var r := ClientCrypto.GeneratePassword(staleLength, staleOptions, random);
      if r.Ok? {
        password := r.value;
        copied := false;
        ClientCrypto.GeneratedFromSelectedClasses(password, staleOptions, random);
      }
    }

    /** A preset button as intended: the password is generated with the preset's length and switches. */
    method ApplyPreset(p: Preset, random: nat -> ClientCrypto.Draw)
      requires Valid() && forall i :: ClientCrypto.IsUnitDraw(random(i))
      modifies this
      ensures Valid() && length == PresetLength(p) && options == PresetOptions(p)
      ensures |password| == PresetLength(p)
      ensures forall i :: 0 <= i < |password| ==> password[i] in Alphabet(PresetOptions(p))
    {
      length := PresetLength(p);
      options := PresetOptions(p);
      GenerateNewPassword(random);
    }
  }

  /**
   * From the dialog's initial state, "Standard (12 chars)" as written shows a
   * 16-character password, while the slider reads 12.
   */
  method StalePresetExample() returns (g: Generator)
    ensures g.length == 12 && |g.password| == 16
  {
    g := new Generator();
    g.ApplyPresetAsWritten(StandardPreset, i => ClientCrypto.Draw(0, 1));
  }

  /** The intended preset yields a password as long as the slider shows. */
  method CorrectedPresetExample() returns (g: Generator)
    ensures g.length == 12 && |g.password| == 12
  {
    g := new Generator();
    g.ApplyPreset(StandardPreset, i => ClientCrypto.Draw(0, 1));
  }
}
