/**
 * The character classes both password generators draw from, and the
 * assembly of the generator's alphabet from the four class switches.
 */
module Charset {
  import opened Text

  const Uppercase: string := "ABCDEFGHIJKLMNOPQRSTUVWXYZ"
  const Lowercase: string := "abcdefghijklmnopqrstuvwxyz"
  const Digits: string := "0123456789"
  const Symbols: string := "!@#$%^&*()_+-=[]{}|;:,.<>?"

  /** `{ includeUppercase, includeLowercase, includeNumbers, includeSymbols }`. */
  datatype Options = Options(upper: bool, lower: bool, numbers: bool, symbols: bool)

  /** A missing option defaults to `true`. */
  const DefaultOptions := Options(true, true, true, true)

  const NoClassSelected := "At least one character set must be selected"

  predicate AnySelected(o: Options) {
    o.upper || o.lower || o.numbers || o.symbols
  }

  /** The selected alphabets concatenated in the order upper, lower, digits, symbols. */
  function Alphabet(o: Options): string {
    Part(o.upper, Uppercase) + Part(o.lower, Lowercase) + Part(o.numbers, Digits) + Part(o.symbols, Symbols)
  }

  /** A class's characters when it is selected, nothing otherwise. */
  function Part(selected: bool, chars: string): string {
    if selected then chars else ""
  }

  /** The generators' charset assembly: one `+=` per selected class. */
  method BuildCharset(o: Options) returns (charset: string)
    ensures charset == Alphabet(o)
  {
    charset := "";
    if o.upper { charset := charset + Uppercase; }
    assert charset == Part(o.upper, Uppercase);
    if o.lower { charset := charset + Lowercase; }
    assert charset == Part(o.upper, Uppercase) + Part(o.lower, Lowercase);
    if o.numbers { charset := charset + Digits; }
    assert charset == Part(o.upper, Uppercase) + Part(o.lower, Lowercase) + Part(o.numbers, Digits);
    if o.symbols { charset := charset + Symbols; }
  }

  /** The alphabet is empty exactly when no class is selected. */
  lemma EmptyExactlyWhenNoneSelected(o: Options)
    ensures Alphabet(o) == [] <==> !AnySelected(o)
    ensures |Alphabet(o)| == (if o.upper then 26 else 0) + (if o.lower then 26 else 0)
                           + (if o.numbers then 10 else 0) + (if o.symbols then 26 else 0)
  {
  }

  /** A character is in the alphabet exactly when it belongs to a selected class. */
  lemma AlphabetMembership(o: Options, c: char)
    ensures c in Alphabet(o) <==>
      (o.upper && c in Uppercase) || (o.lower && c in Lowercase)
      || (o.numbers && c in Digits) || (o.symbols && c in Symbols)
  {
    InConcatenation(Part(o.upper, Uppercase), Part(o.lower, Lowercase), Part(o.numbers, Digits), Part(o.symbols, Symbols), c);
  }

  lemma InConcatenation(u: string, l: string, n: string, s: string, c: char)
    ensures c in u + l + n + s <==> c in u || c in l || c in n || c in s
  {
  }
}
