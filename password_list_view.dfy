/**
 * The list layout of the dashboard: one row per entry, with the password
 * masked unless that entry was revealed, and a strength caption on the
 * scorer's own four-step scale.
 */
module PasswordListView {
  import opened Wrappers
  import opened Text
  import opened StrengthRules
  import PasswordCard
  import Dashboard

  function StrengthText(strength: int): string {
    if strength >= 6 then "Strong"
    else if strength >= 4 then "Medium"
    else if strength >= 2 then "Weak"
    else "Very Weak"
  }

  function StrengthColor(mode: PasswordCard.Mode, strength: int): string {
    if strength >= 6 then (if mode == PasswordCard.Light then "#10b981" else "#34d399")
    else if strength >= 4 then (if mode == PasswordCard.Light then "#f59e0b" else "#fbbf24")
    else if strength >= 2 then (if mode == PasswordCard.Light then "#ef4444" else "#f87171")
    else (if mode == PasswordCard.Light then "#6b7280" else "#9ca3af")
  }

  /** The caption is the scorer's own label for the score, at every score. */
  lemma TextIsScorerLabel(strength: int)
    ensures StrengthText(strength) == LabelOf(strength).Text()
  {
  }

  /** In either theme the caption's colour and its text change at the same scores. */
  lemma ColorFollowsText(mode: PasswordCard.Mode, a: int, b: int)
    ensures StrengthColor(mode, a) == StrengthColor(mode, b) <==> StrengthText(a) == StrengthText(b)
  {
  }

  /**
   * The list and the card agree only on "Strong" from 6 up: 4 or 5 is
   * "Medium" here and "Strong" on the card, 2 or 3 is "Weak" here and
   * "Medium" there, and below 2 is "Very Weak" here and "Weak" there.
   */
  lemma ListAgainstCard(strength: int)
    ensures StrengthText(strength) == PasswordCard.StrengthLabel(strength) <==> strength >= 6
  {
  }

  /** The password column of a row. */
  function PasswordText(showPasswords: map<nat, bool>, x: Dashboard.Item): (r: string)
    ensures Dashboard.Revealed(showPasswords, x.id) ==> r == x.password
    ensures !Dashboard.Revealed(showPasswords, x.id) ==> r == PasswordCard.Masked(false, x.password)
  {
    PasswordCard.Masked(Dashboard.Revealed(showPasswords, x.id), x.password)
  }

  /** The strength caption of a row, with a missing strength read as 0. */
  function RowStrengthText(x: Dashboard.Item): (r: string)
    ensures x.strength.None? ==> r == "Very Weak"
  {
    StrengthText(PasswordCard.Shown(x.strength))
  }

  /** The colour of a row's shield and caption, with a missing strength read as 0. */
  function RowStrengthColor(mode: PasswordCard.Mode, x: Dashboard.Item): (r: string)
    ensures x.strength.None? ==> r == StrengthColor(mode, 0)
    ensures x.strength.None? ==> r == (if mode == PasswordCard.Light then "#6b7280" else "#9ca3af")
    ensures forall y: Dashboard.Item {:trigger RowStrengthText(y)} ::
              r == StrengthColor(mode, PasswordCard.Shown(y.strength)) <==> RowStrengthText(x) == RowStrengthText(y)
  {
    ColorFollowsTextAll(mode, PasswordCard.Shown(x.strength));
    StrengthColor(mode, PasswordCard.Shown(x.strength))
  }

  lemma ColorFollowsTextAll(mode: PasswordCard.Mode, a: int)
    ensures forall b :: StrengthColor(mode, a) == StrengthColor(mode, b) <==> StrengthText(a) == StrengthText(b)
  {
    forall b ensures StrengthColor(mode, a) == StrengthColor(mode, b) <==> StrengthText(a) == StrengthText(b) {
      ColorFollowsText(mode, a, b);
    }
  }

  /** Toggling an entry's eye switches its row between the mask and the password and leaves other rows alone. */
  lemma ToggleRevealsRow(showPasswords: map<nat, bool>, x: Dashboard.Item, y: Dashboard.Item)
    requires !Dashboard.Revealed(showPasswords, x.id) && y.id != x.id
    ensures PasswordText(Dashboard.ToggleVisibility(showPasswords, x.id), x) == x.password
    ensures PasswordText(Dashboard.ToggleVisibility(Dashboard.ToggleVisibility(showPasswords, x.id), x.id), x)
            == PasswordCard.Masked(false, x.password)
    ensures PasswordText(Dashboard.ToggleVisibility(showPasswords, x.id), y) == PasswordText(showPasswords, y)
  {
  }
}
