/**
 * The step form component: its state hooks as fields, its handlers as
 * methods. Each handler is one atomic transition, and its new state is the
 * corresponding function of the Wizard module applied to the old state.
 */
module StepFormComponent {
  import opened Artifacts
  import opened Validation
  import opened Wizard

  /**
   * Fills a fresh error map field by field: every blank field is reported,
   * none short-circuits the others.
   */
  method CollectBlankErrors(formData: map<FieldKey, string>) returns (newErrors: map<FieldKey, string>)
    requires formData.Keys == AllFields
    ensures newErrors == BlankErrors(formData)
  {
    newErrors := map[];
    ReportOneMore(newErrors, formData, {}, FullName);
    if Trim(formData[FullName]) == "" { newErrors := newErrors[FullName := Message(FullName)]; }
    ReportOneMore(newErrors, formData, {FullName}, Dob);
    if formData[Dob] == "" { newErrors := newErrors[Dob := Message(Dob)]; }
    ReportOneMore(newErrors, formData, {FullName, Dob}, Nationality);
    if Trim(formData[Nationality]) == "" { newErrors := newErrors[Nationality := Message(Nationality)]; }
    ReportOneMore(newErrors, formData, {FullName, Dob, Nationality}, Address);
    if Trim(formData[Address]) == "" { newErrors := newErrors[Address := Message(Address)]; }
    ReportOneMore(newErrors, formData, {FullName, Dob, Nationality, Address}, GovID);
    if Trim(formData[GovID]) == "" { newErrors := newErrors[GovID := Message(GovID)]; }
    ReportOfAllFields(newErrors, formData);
  }

  class StepForm {
    var step: StepIndex
    var isCompleted: bool
    var warning: string
    var signatureData: Option<Token>
    var pictureData: Option<Token>
    var cameraAvailable: bool
    var formData: map<FieldKey, string>
    var errors: map<FieldKey, string>

    /** The component's state as a value. */
    function Snap(): State
      reads this
    {
      State(step, isCompleted, warning, signatureData, pictureData, cameraAvailable, formData, errors)
    }

    ghost predicate Valid()
      reads this
    {
      WellFormed(Snap())
    }

    constructor ()
      ensures Valid() && Snap() == Initial()
      ensures step == 0 && !isCompleted && warning == ""
      ensures signatureData == None && pictureData == None && cameraAvailable
      ensures forall k :: k in formData ==> formData[k] == ""
      ensures errors == map[]
    {
      step := 0;
      isCompleted := false;
      warning := "";
      signatureData := None;
      pictureData := None;
      cameraAvailable := true;
      formData := map[FullName := "", Dob := "", Nationality := "", Address := "", GovID := ""];
      errors := map[];
    }

    method HandleInputChange(field: FieldKey, value: string)
      requires Valid()
      modifies this
      ensures Valid() && Snap() == InputChange(old(Snap()), field, value)
      ensures formData == old(formData)[field := value]
      ensures field in old(errors) && old(errors)[field] != "" ==> errors == old(errors)[field := ""]
      ensures !(field in old(errors) && old(errors)[field] != "") ==> errors == old(errors)
    {
      formData := formData[field := value];
      if field in errors && errors[field] != "" {
        errors := errors[field := ""];
      }
    }

    /**
     * Stores the errors of the current step and reports whether there are
     * none.
     */
    method ValidateStep() returns (ok: bool)
      requires Valid()
      modifies this`errors
      ensures Valid() && Snap() == old(Snap()).(errors := Validate(old(Snap())))
      ensures ok <==> errors == map[]
    {
      var newErrors: map<FieldKey, string> := map[];
      if step == 0 {
        newErrors := CollectBlankErrors(formData);
      }
      errors := newErrors;
      ok := |newErrors| == 0;
    }

    method HandleNext() returns (outcome: Outcome)
      requires Valid()
      modifies this
      ensures Valid() && (Snap(), outcome) == Next(old(Snap()))
    {
      if step == 0 {
        var ok := ValidateStep();
        if !ok {
          return Refused(InvalidFields);
        }
        step := 1;
        outcome := Advanced;
      } else if step == 1 {
        if signatureData.None? {
          return Refused(MissingSignature);
        }
        step := 2;
        outcome := Advanced;
      } else {
        if !cameraAvailable {
          return Refused(CameraUnavailable);
        }
        if pictureData.None? {
          return Refused(MissingPicture);
        }
        isCompleted := true;
        outcome := Completed;
      }
    }

    method HandleBack()
      requires Valid()
      modifies this
      ensures Valid() && Snap() == Back(old(Snap()))
      ensures old(step) == 0 ==> unchanged(this)
      ensures old(step) > 0 ==> step == old(step) - 1 && warning == ""
    {
      if step > 0 {
        warning := "";
        step := step - 1;
      }
    }

    method HandlePhotoCapture(imageData: Option<Token>, available: bool)
      requires Valid()
      modifies this
      ensures Valid() && Snap() == PhotoCapture(old(Snap()), imageData, available)
      ensures pictureData == imageData && cameraAvailable == available
    {
      pictureData := imageData;
      cameraAvailable := available;
    }

    /** The signature pad's change callback. */
    method SetSignatureData(data: Option<Token>)
      requires Valid()
      modifies this
      ensures Valid() && Snap() == SignatureChange(old(Snap()), data)
      ensures signatureData == data
    {
      signatureData := data;
    }

    /**
     * A key pressed in a field of step 0. Enter on any field but the last
     * moves focus to the next field in order (returned, state untouched);
     * Enter on the last field runs the Next handler; other keys do nothing.
     */
    method HandleKeyDown(key: string, currentField: FieldKey) returns (focus: Option<FieldKey>, outcome: Option<Outcome>)
      requires Valid()
      modifies this
      ensures Valid()
      ensures key != "Enter" ==> focus == None && outcome == None && unchanged(this)
      ensures key == "Enter" && currentField != GovID ==>
        focus == NextField(currentField) && outcome == None && unchanged(this)
      ensures key == "Enter" && currentField == GovID ==>
        focus == None && outcome == Some(Next(old(Snap())).1) && Snap() == Next(old(Snap())).0
    {
      focus, outcome := None, None;
      if key == "Enter" {
        var next := NextField(currentField);
        if next.Some? {
          focus := next;
        } else {
          var o := HandleNext();
          outcome := Some(o);
        }
      }
    }
  }
}
