/**
 * The identity-verification wizard as a state machine over values: the
 * component state of the step form, one pure function per event handler
 * (each handler's state updates are applied together, as one transition),
 * and what each transition promises.
 */
module Wizard {
  import opened Artifacts
  import opened Validation

  /** Personal information (0), signature (1), photo (2). */
  type StepIndex = i: int | 0 <= i <= 2

  /** The state of the step form component. */
  datatype State = State(
    step: StepIndex,
    isCompleted: bool,
    warning: string,
    signatureData: Option<Token>,
    pictureData: Option<Token>,
    cameraAvailable: bool,
    formData: map<FieldKey, string>,
    errors: map<FieldKey, string>)

  /** Why a request to go on was refused (each is an alert, or inline errors). */
  datatype Refusal = InvalidFields | MissingSignature | CameraUnavailable | MissingPicture

  /** What a request to go on did. */
  datatype Outcome = Advanced | Completed | Refused(reason: Refusal)

  /** The form data holds exactly the five fixed keys. */
  predicate WellFormed(s: State)
  {
    s.formData.Keys == AllFields
  }

  /** Every field filled in, as validation of step 0 judges it. */
  predicate AllFilled(formData: map<FieldKey, string>)
  {
    forall k :: k in formData ==> !IsBlankField(k, formData[k])
  }

  /** The state the component mounts with. */
  function Initial(): State
  {
    State(0, false, "", None, None, true,
          map[FullName := "", Dob := "", Nationality := "", Address := "", GovID := ""],
          map[])
  }

  /** A field's input changed: store the value, and blank out that field's error if it shows one. */
  function InputChange(s: State, field: FieldKey, value: string): State
  {
    s.(formData := s.formData[field := value],
       errors := if field in s.errors && s.errors[field] != "" then s.errors[field := ""] else s.errors)
  }

  /** The errors validation stores: the blank fields at step 0, none at any other step. */
  function Validate(s: State): map<FieldKey, string>
  {
    if s.step == 0 then BlankErrors(s.formData) else map[]
  }

  /** The Next handler: the gate of the current step, then the step after it or completion. */
  function Next(s: State): (State, Outcome)
  {
    if s.step == 0 then
      var errs := Validate(s);
      if errs != map[] then (s.(errors := errs), Refused(InvalidFields))
      else (s.(errors := errs, step := 1), Advanced)
    else if s.step == 1 then
      if s.signatureData.None? then (s, Refused(MissingSignature))
      else (s.(step := 2), Advanced)
    else if !s.cameraAvailable then (s, Refused(CameraUnavailable))
    else if s.pictureData.None? then (s, Refused(MissingPicture))
    else (s.(isCompleted := true), Completed)
  }

  /** The Back handler. */
  function Back(s: State): State
  {
    if s.step > 0 then s.(warning := "", step := s.step - 1) else s
  }

  /** The photo component reported a capture (image, and whether its camera is available). */
  function PhotoCapture(s: State, image: Option<Token>, cameraAvailable: bool): State
  {
    s.(pictureData := image, cameraAvailable := cameraAvailable)
  }

  /** The signature pad reported a new artifact (a data URL, or null after a clear). */
  function SignatureChange(s: State, data: Option<Token>): State
  {
    s.(signatureData := data)
  }

  /** Whether the Next button is enabled. */
  predicate CanProceed(s: State)
  {
    if s.step == 2 then s.cameraAvailable && s.pictureData.Some? else true
  }

  // ----- what each handler promises -----

  /**
   * Only the edited field changes; its error, if it showed one, is now the
   * empty string (the key stays); other errors and the rest of the state
   * are untouched.
   */
  lemma InputChangeTouchesOnlyItsField(s: State, field: FieldKey, value: string)
    requires WellFormed(s)
    ensures var t := InputChange(s, field, value);
      && WellFormed(t)
      && t.formData[field] == value
      && (forall k :: k in s.formData && k != field ==> t.formData[k] == s.formData[k])
      && (field in t.errors ==> t.errors[field] == "")
      && (field in t.errors <==> field in s.errors)
      && (forall k :: k in s.errors && k != field ==> k in t.errors && t.errors[k] == s.errors[k])
      && t.errors.Keys == s.errors.Keys
      && t.(formData := s.formData, errors := s.errors) == s
  {
    EveryKeyIsAField(field);
  }

  /**
   * At step 0, Next goes to step 1 exactly when no field is blank; either
   * way the errors become exactly the blank fields' messages, and nothing
   * else changes.
   */
  lemma NextFromPersonalInfo(s: State)
    requires s.step == 0
    ensures var (t, o) := Next(s);
      && (o == Advanced <==> AllFilled(s.formData))
      && (o != Advanced ==> o == Refused(InvalidFields) && t.step == 0)
      && (o == Advanced ==> t.step == 1 && t.errors == map[])
      && (forall k :: k in t.errors <==> k in s.formData && IsBlankField(k, s.formData[k]))
      && (forall k :: k in t.errors ==> t.errors[k] == Message(k))
      && t.(step := s.step, errors := s.errors) == s
  {
    BlankErrorsAreExactlyTheBlankFields(s.formData);
  }

  /** At step 1, Next goes to step 2 exactly when a signature is present; otherwise nothing changes. */
  lemma NextFromSignature(s: State)
    requires s.step == 1
    ensures var (t, o) := Next(s);
      && (o == Advanced <==> s.signatureData.Some?)
      && (o == Advanced ==> t == s.(step := 2))
      && (o != Advanced ==> o == Refused(MissingSignature) && t == s)
  {
  }

  /**
   * At step 2, Next completes exactly when the camera is available and a
   * picture is present; an unavailable camera refuses even with a picture.
   * Completion changes nothing but the completion flag: the step stays 2.
   */
  lemma NextFromPhoto(s: State)
    requires s.step == 2
    ensures var (t, o) := Next(s);
      && (o == Completed <==> s.cameraAvailable && s.pictureData.Some?)
      && (o == Completed ==> t == s.(isCompleted := true) && t.step == 2)
      && (!s.cameraAvailable ==> o == Refused(CameraUnavailable) && t == s)
      && (s.cameraAvailable && s.pictureData.None? ==> o == Refused(MissingPicture) && t == s)
  {
  }

  /** Next moves the step forward by at most one, and only when it reports Advanced. */
  lemma NextMovesForwardByOne(s: State)
    ensures var (t, o) := Next(s);
      && (o == Advanced ==> t.step == s.step + 1)
      && (o != Advanced ==> t.step == s.step)
      && (o == Completed ==> s.step == 2 && t.isCompleted)
      && (o != Completed ==> t.isCompleted == s.isCompleted)
      && t.formData == s.formData && t.signatureData == s.signatureData && t.pictureData == s.pictureData
  {
  }

  /**
   * Back does nothing at step 0; otherwise it goes back exactly one step and
   * clears the warning, keeping the form data, the errors and both artifacts.
   */
  lemma BackIsNonDestructive(s: State)
    ensures s.step == 0 ==> Back(s) == s
    ensures s.step > 0 ==> Back(s) == s.(step := s.step - 1, warning := "")
    ensures Back(s).formData == s.formData && Back(s).signatureData == s.signatureData
    ensures Back(s).pictureData == s.pictureData && Back(s).isCompleted == s.isCompleted
  {
  }

  /**
   * The Next button's enabling matches the gate at step 2 in both
   * directions; at steps 0 and 1 the button is always enabled, whatever
   * the gate would decide.
   */
  lemma CanProceedMatchesPhotoGate(s: State)
    ensures s.step == 2 ==> (CanProceed(s) <==> Next(s).1 == Completed)
    ensures s.step < 2 ==> CanProceed(s)
  {
  }

  /** At step 1 the Next button is enabled even without a signature, and Next then refuses. */
  lemma CanProceedIgnoresSignatureGate(s: State)
    requires s.step == 1 && s.signatureData.None?
    ensures CanProceed(s) && Next(s) == (s, Refused(MissingSignature))
  {
  }
}
