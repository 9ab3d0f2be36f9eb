/** The new-member / edit-member dialog: per-field validation, the
    `validateForm` pass that merges its errors into the old ones, the
    change handlers, the record built from the submitted form and the
    update of the stored member list. */
module MemberForm {
  import opened JsValues
  import opened JsText
  import opened EmailPatterns

  /** A member record, and the entries of a submitted form: field name to
      text. */
  type Record = map<string, string>

  /** `formData.get(name)`: a missing control yields null, which every
      check the dialog makes treats as it treats "". */
  function Get(formData: Record, name: string): (r: string)
    ensures name in formData ==> r == formData[name]
    ensures name !in formData ==> r == ""
  {
    if name in formData then formData[name] else ""
  }

  const RequiredFields: seq<string> := ["firstName", "lastName", "email", "role"]
  const InvalidEmail := "Please enter a valid email address"

  /** "" means no error: the dialog stores "" under a key to clear it. */
  function Required(name: string): (r: string)
    ensures r != "" && r != InvalidEmail
  {
    var r := Capitalize(name) + " is required";
    assert r[|r| - 1] == 'd';
    assert InvalidEmail[|InvalidEmail| - 1] == 's';
    r
  }

  /** `validateField` */
  function ValidateField(name: string, value: string): string {
    if value == "" then Required(name)
    else if name == "email" && !MemberEmailValid(value) then InvalidEmail
    else ""
  }

  /** An empty value is "required", naming the field with its first
      character upper-cased; a non-empty `email` is rejected exactly when it
      contains no match of `/\S+@\S+\.\S+/`; anything else passes. */
  lemma ValidateFieldSpec(name: string, value: string)
    ensures value == "" <==> ValidateField(name, value) == Required(name)
    ensures value != "" && name != "email" ==> ValidateField(name, value) == ""
    ensures value != "" && name == "email" ==>
      (ValidateField(name, value) == "" <==> UnanchoredMatch(value))
    ensures value != "" && name == "email" ==>
      (ValidateField(name, value) != "" <==> ValidateField(name, value) == InvalidEmail)
  {
    MemberEmailValidSpec(value);
  }

  /** The message names the field as written, only its first character
      upper-cased: "FirstName is required". */
  lemma RequiredMessage()
    ensures Required("firstName") == "FirstName is required"
  {
    assert Capitalize("firstName") == "FirstName";
  }

  /** The `newErrors` object after `forEach` has visited `fields`. */
  function FieldErrors(formData: Record, fields: seq<string>): map<string, string>
    decreases |fields|
  {
    if fields == [] then map[]
    else
      var prev := FieldErrors(formData, fields[..|fields| - 1]);
      var field := fields[|fields| - 1];
      var error := ValidateField(field, Get(formData, field));
      if error != "" then prev[field := error] else prev
  }

  /** A field has an entry exactly when it was visited and its check
      failed, and the entry is that check's message. */
  lemma {:induction false} FieldErrorsSpec(formData: Record, fields: seq<string>, k: string)
    ensures k in FieldErrors(formData, fields) <==> k in fields && ValidateField(k, Get(formData, k)) != ""
    ensures k in FieldErrors(formData, fields) ==>
      FieldErrors(formData, fields)[k] == ValidateField(k, Get(formData, k))
    decreases |fields|
  {
    if fields != [] {
      var init := fields[..|fields| - 1];
      FieldErrorsSpec(formData, init, k);
      assert fields == init + [fields[|fields| - 1]];
    }
  }

  /** The dialog accepts a form exactly when first name, last name and role
      are non-empty and the email contains a match of the pattern. */
  ghost predicate Acceptable(formData: Record) {
    Get(formData, "firstName") != "" && Get(formData, "lastName") != ""
    && Get(formData, "role") != "" && Get(formData, "email") != ""
    && UnanchoredMatch(Get(formData, "email"))
  }

  lemma FormValidIff(formData: Record)
    ensures FieldErrors(formData, RequiredFields) == map[] <==> Acceptable(formData)
  {
    var errs := FieldErrors(formData, RequiredFields);
    FieldErrorsSpec(formData, RequiredFields, "firstName");
    FieldErrorsSpec(formData, RequiredFields, "lastName");
    FieldErrorsSpec(formData, RequiredFields, "email");
    FieldErrorsSpec(formData, RequiredFields, "role");
    ValidateFieldSpec("firstName", Get(formData, "firstName"));
    ValidateFieldSpec("lastName", Get(formData, "lastName"));
    ValidateFieldSpec("email", Get(formData, "email"));
    ValidateFieldSpec("role", Get(formData, "role"));
    if Acceptable(formData) {
      forall k ensures k !in errs {
        FieldErrorsSpec(formData, RequiredFields, k);
      }
    } else {
      assert !(errs.Keys == {});
    }
  }

  /** `isEdit && memberData?.id ? memberData.id : \`member-${Date.now()}\``,
      with the clock reading passed in. */
  function MemberId(isEdit: bool, memberData: Record, now: nat): (r: string)
    ensures isEdit && Truthy(Lookup(memberData, "id")) ==> r == memberData["id"]
    ensures !(isEdit && Truthy(Lookup(memberData, "id"))) ==> r == "member-" + NatToDecimal(now)
  {
    if isEdit && Truthy(Lookup(memberData, "id")) then memberData["id"] else "member-" + NatToDecimal(now)
  }

  /** New members created at different instants get different ids. */
  lemma FreshIdsDiffer(now1: nat, now2: nat)
    requires now1 != now2
    ensures MemberId(false, map[], now1) != MemberId(false, map[], now2)
  {
    var a := NatToDecimal(now1);
    var b := NatToDecimal(now2);
    DecimalRoundTrip(now1);
    DecimalRoundTrip(now2);
    assert ("member-" + a)[7..] == a;
    assert ("member-" + b)[7..] == b;
  }

  /** `processFormData`: the form's entries, the preview image when there
      is one, then the id and the timestamp, later keys winning. */
  function ProcessFormData(formData: Record, previewImage: Option<string>, isEdit: bool,
                           memberData: Record, now: nat, isoNow: string): (r: Record)
    ensures "id" in r && r["id"] == MemberId(isEdit, memberData, now)
    ensures "updatedAt" in r && r["updatedAt"] == isoNow
    ensures Truthy(previewImage) ==> "profileImage" in r && r["profileImage"] == previewImage.value
    ensures forall k :: k in r <==> k in formData || k == "id" || k == "updatedAt"
                                    || (k == "profileImage" && Truthy(previewImage))
    ensures forall k :: (k in formData && k != "id" && k != "updatedAt"
                         && !(k == "profileImage" && Truthy(previewImage))) ==> r[k] == formData[k]
  {
    var data := if Truthy(previewImage) then formData["profileImage" := previewImage.value] else formData;
    data["id" := MemberId(isEdit, memberData, now)]["updatedAt" := isoNow]
  }

  /** `m.id === member.id`; two records without an id compare equal, as
      `undefined === undefined` does. */
  predicate SameId(m: Record, member: Record) {
    Lookup(m, "id") == Lookup(member, "id")
  }

  /** `saveMemberData`'s list transform over the stored list: in edit mode
      every entry with the member's id gets the member's fields laid over
      its own; otherwise the member is appended. */
  function SaveMembers(existing: seq<Record>, member: Record, isEdit: bool): (r: seq<Record>)
    ensures isEdit ==> |r| == |existing|
    ensures isEdit ==> forall i :: 0 <= i < |existing| && SameId(existing[i], member) ==> r[i] == existing[i] + member
    ensures isEdit ==> forall i :: 0 <= i < |existing| && !SameId(existing[i], member) ==> r[i] == existing[i]
    ensures !isEdit ==> |r| == |existing| + 1 && r[..|existing|] == existing && r[|existing|] == member
  {
    if isEdit then
      seq(|existing|, i requires 0 <= i < |existing| =>
        if SameId(existing[i], member) then existing[i] + member else existing[i])
    else
      existing + [member]
  }

  /** An edit never changes which id an entry has. */
  lemma EditKeepsIds(existing: seq<Record>, member: Record)
    ensures forall i :: 0 <= i < |existing| ==>
      Lookup(SaveMembers(existing, member, true)[i], "id") == Lookup(existing[i], "id")
  {
    var r := SaveMembers(existing, member, true);
    forall i | 0 <= i < |existing|
      ensures Lookup(r[i], "id") == Lookup(existing[i], "id")
    {
      if SameId(existing[i], member) {
        if "id" in member {
          assert r[i]["id"] == member["id"];
        }
      }
    }
  }

  /** Saving the same edit twice is the same as saving it once. */
  lemma EditIdempotent(existing: seq<Record>, member: Record)
    ensures SaveMembers(SaveMembers(existing, member, true), member, true) == SaveMembers(existing, member, true)
  {
    var once := SaveMembers(existing, member, true);
    var twice := SaveMembers(once, member, true);
    EditKeepsIds(existing, member);
    forall i | 0 <= i < |existing| ensures twice[i] == once[i] {
      assert SameId(once[i], member) <==> SameId(existing[i], member);
      if SameId(existing[i], member) {
        assert once[i] + member == existing[i] + member + member;
        assert existing[i] + member + member == existing[i] + member;
      }
    }
  }

  /** A member just created is found again by an edit carrying its id, and
      the edit touches no other entry whose id differs. */
  lemma CreatedMemberIsEditable(existing: seq<Record>, member: Record, edit: Record)
    requires "id" in member && "id" in edit && edit["id"] == member["id"]
    ensures var stored := SaveMembers(existing, member, false);
      SaveMembers(stored, edit, true)[|existing|] == member + edit
  {
  }

  class MemberFormDialog {
    const memberData: Record
    const isEdit: bool
    var previewImage: Option<string>
    var errors: map<string, string>

    /** `useState(memberData?.profileImage || null)` and `useState({})`. */
    constructor (memberData: Record, isEdit: bool)
      ensures this.memberData == memberData && this.isEdit == isEdit
      ensures previewImage == (if Truthy(Lookup(memberData, "profileImage")) then Some(memberData["profileImage"]) else None)
      ensures errors == map[]
    {
      this.memberData := memberData;
      this.isEdit := isEdit;
      previewImage := if Truthy(Lookup(memberData, "profileImage")) then Some(memberData["profileImage"]) else None;
      errors := map[];
    }

    /** `validateForm`: checks the four required fields in order into a
        fresh object, merges it over the old errors, and reports whether
        it is empty. Old entries for fields that now pass stay. */
    method ValidateForm(formData: Record) returns (ok: bool)
      modifies this`errors
      ensures errors == old(errors) + FieldErrors(formData, RequiredFields)
      ensures ok <==> Acceptable(formData)
    {
      var newErrors: map<string, string> := map[];
      for i := 0 to |RequiredFields|
        invariant newErrors == FieldErrors(formData, RequiredFields[..i])
      {
        var field := RequiredFields[i];
        var value := Get(formData, field);
        var error := ValidateField(field, value);
        if error != "" {
          newErrors := newErrors[field := error];
        }
        assert RequiredFields[..i + 1][..i] == RequiredFields[..i];
      }
      assert RequiredFields[..|RequiredFields|] == RequiredFields;
      errors := errors + newErrors;
      FormValidIff(formData);
      ok := |newErrors| == 0;
    }

    /** `handleChange`: the field's error becomes its check's result, ""
        included, and no other entry changes. */
    method HandleChange(name: string, value: string)
      modifies this`errors
      ensures errors == old(errors)[name := ValidateField(name, value)]
    {
      var error := ValidateField(name, value);
      errors := errors[name := error];
    }

    /** `handleSelectChange`, for the role and gender selects; the write to
        the hidden input is not modelled. */
    method HandleSelectChange(value: string, name: string)
      modifies this`errors
      ensures errors == old(errors)[name := ValidateField(name, value)]
    {
      HandleChange(name, value);
    }

    /** The country select: `handleSelectChange`, then the country error is
        cleared whatever the check said. */
    method OnCountryChange(value: string)
      modifies this`errors
      ensures errors == old(errors)["country" := ""]
    {
      HandleSelectChange(value, "country");
      errors := errors["country" := ""];
    }

    /** The file reader's `onloadend`: the data URL becomes the preview. */
    method OnImageLoaded(dataUrl: string)
      modifies this`previewImage
      ensures previewImage == Some(dataUrl)
    {
      previewImage := Some(dataUrl);
    }

    /** `handleFormSubmit`: a rejected form stops with the merged errors;
        an accepted one yields the member record and the new stored list.
        The stored list and the clock reading are passed in. */
    method HandleFormSubmit(formData: Record, stored: seq<Record>, now: nat, isoNow: string)
      returns (saved: Option<(Record, seq<Record>)>)
      modifies this`errors
      ensures errors == old(errors) + FieldErrors(formData, RequiredFields)
      ensures saved.Some? <==> Acceptable(formData)
      ensures saved.Some? ==>
        var member := ProcessFormData(formData, previewImage, isEdit, memberData, now, isoNow);
        saved.value == (member, SaveMembers(stored, member, isEdit))
    {
      var ok := ValidateForm(formData);
      if !ok {
        return None;
      }
      var member := ProcessFormData(formData, previewImage, isEdit, memberData, now, isoNow);
      saved := Some((member, SaveMembers(stored, member, isEdit)));
    }
  }
}
