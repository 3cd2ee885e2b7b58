/** One editable account setting: the validation rule of each field, the
    character filter of the currency input, and the edit-mode transitions
    (start editing, cancel, submit). The edit field is state the parent owns
    and shares between all its editors; here it is a field of the editor. */
module FieldEditor {
  import opened Values

  datatype FieldName = Name | Slug | MinimumPricePerVisit

  /** The key the field has in the update request and in the edit button's label. */
  function FieldKey(f: FieldName): string {
    match f
    case Name => "name"
    case Slug => "slug"
    case MinimumPricePerVisit => "minimumPricePerVisit"
  }

  /** The update request `{[fieldName]: value}`: one entry, under the field's key. */
  function UpdateRequest(f: FieldName, value: string): map<string, string> {
    map[FieldKey(f) := value]
  }

  /** An update request names its field and value unambiguously: two requests are
      equal only for the same field with the same value, and each holds exactly
      one key. */
  lemma UpdateRequestIdentifiesField(a: FieldName, va: string, b: FieldName, vb: string)
    ensures UpdateRequest(a, va).Keys == {FieldKey(a)} && UpdateRequest(a, va)[FieldKey(a)] == va
    ensures UpdateRequest(a, va) == UpdateRequest(b, vb) <==> a == b && va == vb
  {
    if UpdateRequest(a, va) == UpdateRequest(b, vb) {
      assert FieldKey(b) in UpdateRequest(a, va);
    }
  }

  // ---------------------------------------------------------------------------
  // Validation

  predicate IsSlugChar(c: char) {
    ('a' <= c <= 'z') || ('0' <= c <= '9') || c == '-'
  }

  /** The slug pattern `^[a-z0-9-]+$`, matched character by character. */
  predicate MatchesSlugPattern(s: string)
    decreases |s|
  {
    |s| > 0 && IsSlugChar(s[0]) && (|s| == 1 || MatchesSlugPattern(s[1..]))
  }

  /** The pattern accepts exactly the non-empty strings of slug characters. */
  lemma {:induction false} SlugPatternIff(s: string)
    ensures MatchesSlugPattern(s) <==> |s| > 0 && forall i :: 0 <= i < |s| ==> IsSlugChar(s[i])
    decreases |s|
  {
    if |s| > 1 {
      SlugPatternIff(s[1..]);
      assert forall i :: 1 <= i < |s| ==> s[i] == s[1..][i - 1];
    }
  }

  /** The schema of each field: every field is required (not empty), and a slug
      must also match the slug pattern. */
  function IsValid(field: FieldName, value: string): (ok: bool)
    ensures ok <==> |value| > 0 && (field == Slug ==> forall i :: 0 <= i < |value| ==> IsSlugChar(value[i]))
  {
    SlugPatternIff(value);
    match field
    case Slug => |value| > 0 && MatchesSlugPattern(value)
    case _ => |value| > 0
  }

  /** Upper-case letters, spaces and other punctuation make a slug invalid;
      a name may hold any non-empty text. */
  lemma ValidityExamples()
    ensures IsValid(Slug, "my-account-1")
    ensures !IsValid(Slug, "My Account")
    ensures !IsValid(Slug, "") && !IsValid(Name, "") && !IsValid(MinimumPricePerVisit, "")
    ensures IsValid(Name, "My Account")
  {
    assert !IsSlugChar("My Account"[0]);
  }

  // ---------------------------------------------------------------------------
  // The currency filter

  predicate IsCurrencyChar(c: char) {
    ('0' <= c <= '9') || c == '.' || c == '-'
  }

  /** `value.replace(/[^0-9.-]+/g, '')`: drop every character that is not a
      digit, a point or a minus sign. */
  function CurrencyFilter(s: string): (r: string)
    ensures |r| <= |s|
    ensures forall i :: 0 <= i < |r| ==> IsCurrencyChar(r[i])
  {
    if |s| == 0 then ""
    else if IsCurrencyChar(s[0]) then [s[0]] + CurrencyFilter(s[1..])
    else CurrencyFilter(s[1..])
  }

  /** The filter keeps each allowed character as often as the input has it and
      drops every other character. */
  lemma {:induction false} CurrencyFilterCounts(s: string, c: char)
    ensures multiset(CurrencyFilter(s))[c] == if IsCurrencyChar(c) then multiset(s)[c] else 0
  {
    if |s| > 0 {
      CurrencyFilterCounts(s[1..], c);
      assert s == [s[0]] + s[1..];
    }
  }

  /** Filtering a concatenation filters each part. */
  lemma {:induction false} CurrencyFilterAppend(a: string, b: string)
    ensures CurrencyFilter(a + b) == CurrencyFilter(a) + CurrencyFilter(b)
  {
    if |a| == 0 {
      assert a + b == b;
    } else {
      assert (a + b)[1..] == a[1..] + b;
      CurrencyFilterAppend(a[1..], b);
    }
  }

  /** Input made only of allowed characters passes unchanged. */
  lemma {:induction false} CurrencyFilterKeepsAllowed(s: string)
    requires forall i :: 0 <= i < |s| ==> IsCurrencyChar(s[i])
    ensures CurrencyFilter(s) == s
  {
    if |s| > 0 {
      CurrencyFilterKeepsAllowed(s[1..]);
    }
  }

  /** Filtering twice is filtering once. */
  lemma CurrencyFilterIdempotent(s: string)
    ensures CurrencyFilter(CurrencyFilter(s)) == CurrencyFilter(s)
  {
    CurrencyFilterKeepsAllowed(CurrencyFilter(s));
  }

  /** `a` can be obtained from `b` by deleting characters. */
  predicate IsSubsequence(a: string, b: string)
    decreases |b|
  {
    if |a| == 0 then true
    else if |b| == 0 then false
    else if a[0] == b[0] then IsSubsequence(a[1..], b[1..])
    else IsSubsequence(a, b[1..])
  }

  /** The filter only deletes: its output keeps the input's order. */
  lemma {:induction false} CurrencyFilterIsSubsequence(s: string)
    ensures IsSubsequence(CurrencyFilter(s), s)
  {
    if |s| > 0 {
      CurrencyFilterIsSubsequence(s[1..]);
      var r := CurrencyFilter(s[1..]);
      if IsCurrencyChar(s[0]) {
        assert ([s[0]] + r)[1..] == r;
      } else if |r| > 0 && r[0] == s[0] {
        assert false;
      }
    }
  }

  /** A typed "$1,234.50" reaches the form as "1234.50". */
  lemma CurrencyFilterExample()
    ensures CurrencyFilter("$1,234.50") == "1234.50"
  {
    assert !IsCurrencyChar('$') && !IsCurrencyChar(',');
    assert "$1,234.50"[1..] == "1,234.50";
    assert "1,234.50"[1..] == ",234.50";
    assert ",234.50"[1..] == "234.50";
    CurrencyFilterKeepsAllowed("234.50");
    CurrencyFilterKeepsAllowed("1");
    assert "1" + "234.50" == "1234.50";
  }

  // ---------------------------------------------------------------------------
  // Edit mode

  /** `editField === fieldName`. */
  predicate IsEditing(editField: Option<FieldName>, fieldName: FieldName) {
    editField == Some(fieldName)
  }

  /** The parent's one edit field puts at most one of its editors in edit mode. */
  lemma AtMostOneEditing(editField: Option<FieldName>, a: FieldName, b: FieldName)
    requires IsEditing(editField, a) && IsEditing(editField, b)
    ensures a == b
  {
  }

  /** The calls the editor makes, in order. */
  datatype Effect = Update(request: map<string, string>) | Mutate | SetEditField(editField: Option<FieldName>)

  class Editor {
    const fieldName: FieldName
    /** The value the parent passes in. */
    var fieldValue: string
    /** The parent's edit field. */
    var editField: Option<FieldName>
    /** The form's current value of the field. */
    var formValue: string
    /** Whether the form shows a validation error on the field. */
    var hasError: bool

    /** The form starts with the passed-in value and no error. */
    constructor (fieldName: FieldName, fieldValue: string, editField: Option<FieldName>)
      ensures this.fieldName == fieldName && this.fieldValue == fieldValue && this.editField == editField
      ensures formValue == fieldValue && !hasError
    {
      this.fieldName := fieldName;
      this.fieldValue := fieldValue;
      this.editField := editField;
      formValue := fieldValue;
      hasError := false;
    }

    predicate Editing()
      reads this
    {
      IsEditing(editField, fieldName)
    }

    /** The edit button shows exactly when the editor is not editing. */
    predicate EditButtonVisible()
      reads this
    {
      !Editing()
    }

    /** Clicking the edit button. */
    method ClickEdit() returns (effects: seq<Effect>)
      modifies this`editField
      ensures effects == [SetEditField(Some(fieldName))]
      ensures editField == Some(fieldName) && Editing() && !EditButtonVisible()
    {
      effects := [SetEditField(Some(fieldName))];
      editField := Some(fieldName);
    }

    /** Typing into a text field. */
    method ChangeText(value: string)
      modifies this`formValue
      ensures formValue == value
    {
      formValue := value;
    }

    /** Typing into the currency field: only the filtered text reaches the form. */
    method CurrencyChange(value: string)
      modifies this`formValue
      ensures formValue == CurrencyFilter(value)
    {
      formValue := CurrencyFilter(value);
    }

    /** Cancel: the form goes back to the passed-in value and edit mode ends. */
    method Cancel() returns (effects: seq<Effect>)
      modifies this`formValue, this`editField, this`hasError
      ensures effects == [SetEditField(None)]
      ensures formValue == fieldValue && editField == None && !hasError
      ensures !Editing() && EditButtonVisible()
    {
      formValue := fieldValue;
      hasError := false;
      effects := [SetEditField(None)];
      editField := None;
    }

    /** Submit: the schema is checked first; an invalid value shows the error and
        calls nothing. A valid value is sent as `{[fieldName]: value}`; when the
        update succeeds the data is refreshed and edit mode ends, when it fails the
        error is logged and the editor stays as it is. */
    method Submit(updateSucceeds: bool) returns (effects: seq<Effect>)
      modifies this`editField, this`hasError
      ensures !IsValid(fieldName, formValue) ==> effects == [] && hasError && editField == old(editField)
      ensures IsValid(fieldName, formValue) ==> !hasError
      ensures IsValid(fieldName, formValue) && updateSucceeds ==>
        effects == [Update(UpdateRequest(fieldName, formValue)), Mutate, SetEditField(None)] && editField == None
      ensures IsValid(fieldName, formValue) && !updateSucceeds ==>
        effects == [Update(UpdateRequest(fieldName, formValue))] && editField == old(editField)
    {
      if !IsValid(fieldName, formValue) {
        hasError := true;
        return [];
      }
      hasError := false;
      effects := [Update(map[FieldKey(fieldName) := formValue])];
      if updateSucceeds {
        effects := effects + [Mutate];
        effects := effects + [SetEditField(None)];
        editField := None;
      }
    }

    /** The effect that runs when the passed-in value changes: the form is reset to it. */
    method FieldValueChanged(value: string)
      modifies this`fieldValue, this`formValue, this`hasError
      ensures fieldValue == value && formValue == value && !hasError
    {
      fieldValue := value;
      formValue := value;
      hasError := false;
    }
  }

  /** The submit scenario: start editing the name, type a new name, save with a
      succeeding update. The update carries the typed name, then the data is
      refreshed, then edit mode ends. */
  method EditThenSave() returns (effects: seq<Effect>, editingAfter: bool)
    ensures effects == [SetEditField(Some(Name)), Update(map["name" := "Updated Account"]), Mutate, SetEditField(None)]
    ensures !editingAfter
  {
    var e := new Editor(Name, "My Account", None);
    var clicked := e.ClickEdit();
    e.ChangeText("Updated Account");
    var submitted := e.Submit(true);
    effects := clicked + submitted;
    editingAfter := e.Editing();
  }

  /** The cancel scenario: typing a new name and cancelling restores the passed-in
      value and ends edit mode. */
  method EditThenCancel() returns (shown: string, editingAfter: bool)
    ensures shown == "My Account" && !editingAfter
  {
    var e := new Editor(Name, "My Account", Some(Name));
    e.ChangeText("Updated Account");
    var _ := e.Cancel();
    shown := e.formValue;
    editingAfter := e.Editing();
  }
}
