/**
 * The add/edit dialog for a vault entry: the form record, its field updates
 * (a new password is scored again on every change), the submit guard and the
 * tag chips. `""` stands for an empty or missing text field.
 */
module PasswordDialog {
  import opened Wrappers
  import opened Text
  import opened StrengthRules
  import ClientStrength

  /** The dialog's form record. */
  datatype Form = Form(
    title: string,
    username: string,
    password: string,
    notes: string,
    url: string,
    category: string,
    tags: seq<string>,
    favorite: bool,
    expiryDate: string,
    strength: int,
    strengthText: string,
    strengthFeedback: seq<string>)

  /** The form the "add" button opens. */
  const BlankForm := Form("", "", "", "", "", "General", [], false, "", 0, "Very Weak", [])

  /** A call `handleFormChange(field, value)`: the field's name and its new value. */
  datatype Change =
    | SetTitle(text: string)
    | SetUsername(text: string)
    | SetPassword(text: string)
    | SetNotes(text: string)
    | SetUrl(text: string)
    | SetCategory(text: string)
    | SetTags(tags: seq<string>)
    | SetFavorite(flag: bool)
    | SetExpiryDate(text: string)

  /** The form's field names. */
  datatype Field =
    | Title | Username | Password | Notes | Url | Category | Tags | Favorite | ExpiryDate
    | Strength | StrengthText | StrengthFeedback

  function FieldOf(c: Change): Field {
    match c
    case SetTitle(_) => Title
    case SetUsername(_) => Username
    case SetPassword(_) => Password
    case SetNotes(_) => Notes
    case SetUrl(_) => Url
    case SetCategory(_) => Category
    case SetTags(_) => Tags
    case SetFavorite(_) => Favorite
    case SetExpiryDate(_) => ExpiryDate
  }

  /** The fields a change may write: its own, and the three strength fields when it is the password. */
  function Touched(c: Change): set<Field> {
    if c.SetPassword? then {Password, Strength, StrengthText, StrengthFeedback} else {FieldOf(c)}
  }

  /** `a` and `b` agree on every field outside `changed`. */
  predicate AgreeOutside(a: Form, b: Form, changed: set<Field>) {
    (Title !in changed ==> a.title == b.title)
    && (Username !in changed ==> a.username == b.username)
    && (Password !in changed ==> a.password == b.password)
    && (Notes !in changed ==> a.notes == b.notes)
    && (Url !in changed ==> a.url == b.url)
    && (Category !in changed ==> a.category == b.category)
    && (Tags !in changed ==> a.tags == b.tags)
    && (Favorite !in changed ==> a.favorite == b.favorite)
    && (ExpiryDate !in changed ==> a.expiryDate == b.expiryDate)
    && (Strength !in changed ==> a.strength == b.strength)
    && (StrengthText !in changed ==> a.strengthText == b.strengthText)
    && (StrengthFeedback !in changed ==> a.strengthFeedback == b.strengthFeedback)
  }

  /** The form holds the value the change names. */
  predicate Holds(f: Form, c: Change) {
    match c
    case SetTitle(v) => f.title == v
    case SetUsername(v) => f.username == v
    case SetPassword(v) => f.password == v
    case SetNotes(v) => f.notes == v
    case SetUrl(v) => f.url == v
    case SetCategory(v) => f.category == v
    case SetTags(v) => f.tags == v
    case SetFavorite(v) => f.favorite == v
    case SetExpiryDate(v) => f.expiryDate == v
  }

  /** The form's strength fields are the scorer's verdict on its password. */
  predicate Scored(f: Form) {
    var a := ClientStrength.Assess(f.password);
    f.strength == a.score && f.strengthText == a.strength.Text() && f.strengthFeedback == a.feedback
  }

  /** The spread `{...formData, [field]: value}`. */
  function Spread(f: Form, c: Change): Form {
    match c
    case SetTitle(v) => f.(title := v)
    case SetUsername(v) => f.(username := v)
    case SetPassword(v) => f.(password := v)
    case SetNotes(v) => f.(notes := v)
    case SetUrl(v) => f.(url := v)
    case SetCategory(v) => f.(category := v)
    case SetTags(v) => f.(tags := v)
    case SetFavorite(v) => f.(favorite := v)
    case SetExpiryDate(v) => f.(expiryDate := v)
  }

  /**
   * `handleFormChange`: the record is copied with the named field replaced;
   * when that field is the password, the strength fields of the copy are then
   * assigned from the scorer's result for the new value.
   */
  method HandleFormChange(form: Form, change: Change) returns (updated: Form)
    ensures Holds(updated, change)
    ensures AgreeOutside(form, updated, Touched(change))
    ensures change.SetPassword? ==> Scored(updated)
  {
    updated := Spread(form, change);
    if change.SetPassword? {
      var result := ClientStrength.CheckPasswordStrength(change.text);
      updated := updated.(strength := result.score);
      updated := updated.(strengthText := result.strength.Text());
      updated := updated.(strengthFeedback := result.feedback);
    }
  }

  /** A form whose strength was computed from its password stays scored under any change. */
  lemma ScoredPreserved(form: Form, change: Change, updated: Form)
    requires Scored(form)
    requires Holds(updated, change) && AgreeOutside(form, updated, Touched(change))
    requires change.SetPassword? ==> Scored(updated)
    ensures Scored(updated)
  {
  }

  /** Two results of the same change on the same form are the same form. */
  lemma ChangeDeterminesForm(form: Form, change: Change, u1: Form, u2: Form)
    requires Holds(u1, change) && AgreeOutside(form, u1, Touched(change)) && (change.SetPassword? ==> Scored(u1))
    requires Holds(u2, change) && AgreeOutside(form, u2, Touched(change)) && (change.SetPassword? ==> Scored(u2))
    ensures u1 == u2
  {
  }

  /** The dialog's submit: `onSave` is called only when title and password are both non-empty. */
  predicate SubmitCallsSave(form: Form) {
    form.title != [] && form.password != []
  }

  /** The save button's `disabled` flag. */
  predicate SaveDisabled(form: Form) {
    form.title == [] || form.password == []
  }

  /** The enabled save button and the submit guard agree. */
  lemma SaveButtonMatchesSubmit(form: Form)
    ensures !SaveDisabled(form) <==> SubmitCallsSave(form)
  {
  }

  // ---------------------------------------------------------------------------
  // Tags

  /** The most tags the "+ Add Tag" chip allows: it is shown only below this count. */
  const MaxTags := 5

  /** Deleting chip `index`: every tag whose position differs from `index` is kept, in order. */
  function DeleteTag(tags: seq<string>, index: nat): (r: seq<string>)
    requires index < |tags|
    ensures |r| == |tags| - 1
    ensures forall j :: 0 <= j < index ==> r[j] == tags[j]
    ensures forall j :: index <= j < |r| ==> r[j] == tags[j + 1]
    ensures multiset(r) + multiset{tags[index]} == multiset(tags)
  {
    assert tags == tags[..index] + [tags[index]] + tags[index + 1..];
    tags[..index] + tags[index + 1..]
  }

  /**
   * The "+ Add Tag" chip: it exists only while fewer than five tags are
   * present; the prompt's answer (None when cancelled) is appended trimmed,
   * and only when the trimmed text is non-empty.
   */
  function AddTag(tags: seq<string>, answer: Option<string>): (r: seq<string>)
    ensures r != tags <==> |tags| < MaxTags && answer.Some? && Trim(answer.value) != []
    ensures r != tags ==> |r| == |tags| + 1 && r[..|tags|] == tags && r[|tags|] == Trim(answer.value)
  {
    if |tags| < MaxTags && answer.Some? && Trim(answer.value) != [] then tags + [Trim(answer.value)]
    else tags
  }

  /** `r` is `tags` followed by non-empty trimmed tags. */
  predicate Extends(tags: seq<string>, r: seq<string>) {
    |r| >= |tags| && r[..|tags|] == tags
    && forall j :: |tags| <= j < |r| ==> r[j] != [] && Trim(r[j]) == r[j]
  }

  lemma ExtendsTransitive(a: seq<string>, b: seq<string>, c: seq<string>)
    requires Extends(a, b) && Extends(b, c)
    ensures Extends(a, c)
  {
    assert c[..|a|] == c[..|b|][..|a|];
    forall j | |a| <= j < |c| ensures c[j] != [] && Trim(c[j]) == c[j] {
      if j < |b| {
        assert c[j] == c[..|b|][j];
      }
    }
  }

  lemma AddTagExtends(tags: seq<string>, answer: Option<string>)
    ensures Extends(tags, AddTag(tags, answer))
  {
    if AddTag(tags, answer) != tags {
      TrimIdempotent(answer.value);
      assert AddTag(tags, answer)[..|tags|] == tags;
    } else {
      assert tags[..|tags|] == tags;
    }
  }

  /**
   * Any run of answers to the add-tag prompt keeps the existing tags in
   * place, appends only non-empty trimmed tags, and never takes a list of at
   * most five tags above five.
   */
  lemma {:induction false} TagsStayBounded(tags: seq<string>, answers: seq<Option<string>>)
    requires |tags| <= MaxTags
    ensures |AddTags(tags, answers)| <= MaxTags
    ensures Extends(tags, AddTags(tags, answers))
    decreases |answers|
  {
    if answers == [] {
      assert tags[..|tags|] == tags;
    } else {
      var next := AddTag(tags, answers[0]);
      AddTagExtends(tags, answers[0]);
      TagsStayBounded(next, answers[1..]);
      ExtendsTransitive(tags, next, AddTags(next, answers[1..]));
    }
  }

  /** Successive answers to the add-tag prompt. */
  function AddTags(tags: seq<string>, answers: seq<Option<string>>): seq<string>
    decreases |answers|
  {
    if answers == [] then tags else AddTags(AddTag(tags, answers[0]), answers[1..])
  }

  lemma TrimIdempotent(s: string)
    ensures Trim(Trim(s)) == Trim(s)
  {
    var t := Trim(s);
    TrimStartNoop(t);
    TrimEndNoop(TrimStart(t));
  }

  lemma TrimStartNoop(s: string)
    requires s == [] || !IsJsWhitespace(s[0])
    ensures TrimStart(s) == s
  {
  }

  lemma TrimEndNoop(s: string)
    requires s == [] || !IsJsWhitespace(s[|s| - 1])
    ensures TrimEnd(s) == s
  {
  }
}
