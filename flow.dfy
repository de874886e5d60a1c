/**
 * The whole flow: the step form together with the signature canvas it
 * mounts at step 1. Which events can happen depends on what is rendered:
 * the inputs only at step 0, the canvas only at step 1, the photo
 * component only at step 2, the Back button only after step 0, the Next
 * button only while it is enabled, and nothing once the flow is complete.
 */
module Flow {
  import opened Artifacts
  import opened Validation
  import opened Wizard
  import opened SignaturePad

  datatype System = System(form: State, pad: Pad)

  datatype Event =
    | Input(field: FieldKey, value: string)
    | KeyDown(key: string, field: FieldKey)
    | NextButton
    | BackButton
    | Canvas(ev: CanvasEvent, rect: Rect)
    | PhotoCaptured(image: Option<Token>, available: bool)

  function Start(): System
  {
    System(Initial(), Blank)
  }

  /** Whether the event's target is on screen (and, for Next, enabled). */
  predicate Enabled(sys: System, e: Event)
  {
    var s := sys.form;
    !s.isCompleted &&
    match e
    case Input(_, _) => s.step == 0
    case KeyDown(_, _) => s.step == 0
    case NextButton => CanProceed(s)
    case BackButton => s.step > 0
    case Canvas(ev, _) => s.step == 1 && WellFormedEvent(ev)
    case PhotoCaptured(_, _) => s.step == 2
  }

  /** A step change that lands on step 1 mounts a fresh, blank canvas. */
  function Remount(before: State, after: State, pad: Pad): Pad
  {
    if after.step == 1 && before.step != 1 then Blank else pad
  }

  function Apply(sys: System, e: Event): System
    requires e.Canvas? ==> WellFormedEvent(e.ev)
  {
    var s := sys.form;
    match e
    case Input(k, v) => sys.(form := InputChange(s, k, v))
    case KeyDown(key, k) =>
      if key == "Enter" && NextField(k).None? then
        var t := Next(s).0;
        System(t, Remount(s, t, sys.pad))
      else sys
    case NextButton =>
      var t := Next(s).0;
      System(t, Remount(s, t, sys.pad))
    case BackButton =>
      var t := Back(s);
      System(t, Remount(s, t, sys.pad))
    case Canvas(ev, rect) =>
      var (pad', emitted) := Perform(sys.pad, ActionOf(ev), rect);
      System(if emitted.Emit? then SignatureChange(s, emitted.data) else s, pad')
    case PhotoCaptured(image, available) => sys.(form := PhotoCapture(s, image, available))
  }

  /** Events applied in order, each one enabled when it happens. */
  predicate ValidTrace(sys: System, es: seq<Event>)
    decreases |es|
  {
    es == [] || (Enabled(sys, es[0]) && ValidTrace(Apply(sys, es[0]), es[1..]))
  }

  function Run(sys: System, es: seq<Event>): System
    requires ValidTrace(sys, es)
    decreases |es|
  {
    if es == [] then sys else Run(Apply(sys, es[0]), es[1..])
  }

  /**
   * What holds in every reachable state: the warning is never set; every
   * error shown is its field's message or blanked; past step 0 every field
   * is filled and no error is stored; at step 2 a signature is present;
   * completion happens only at step 2 with the camera available and a
   * picture present.
   */
  predicate Inv(sys: System)
  {
    var s := sys.form;
    && WellFormed(s)
    && Consistent(sys.pad)
    && s.warning == ""
    && (forall k :: k in s.errors ==> s.errors[k] == Message(k) || s.errors[k] == "")
    && (s.step >= 1 ==> AllFilled(s.formData) && s.errors == map[])
    && (s.step == 2 ==> s.signatureData.Some?)
    && (s.isCompleted ==> s.step == 2 && s.cameraAvailable && s.pictureData.Some?)
  }

  lemma StartSatisfiesInv()
    ensures Inv(Start())
    ensures Start().form.step == 0 && !Start().form.isCompleted
  {
    assert Initial().formData.Keys == AllFields;
  }

  /** Leaving step 0 keeps the invariant: the validation that allowed it found every field filled. */
  lemma NextFromPersonalInfoKeepsInv(sys: System)
    requires Inv(sys) && sys.form.step == 0
    ensures var t := Next(sys.form).0; Inv(System(t, Remount(sys.form, t, sys.pad)))
  {
    var s := sys.form;
    NextFromPersonalInfo(s);
    var t := Next(s).0;
    assert t.formData == s.formData && t.warning == s.warning;
    assert forall k :: k in t.errors ==> t.errors[k] == Message(k);
  }

  /** The Next transition keeps the invariant (whether or not it is enabled). */
  lemma NextKeepsInv(sys: System)
    requires Inv(sys)
    ensures var t := Next(sys.form).0; Inv(System(t, Remount(sys.form, t, sys.pad)))
  {
    if sys.form.step == 0 {
      NextFromPersonalInfoKeepsInv(sys);
    } else if sys.form.step == 1 {
      NextFromSignature(sys.form);
    } else {
      NextFromPhoto(sys.form);
    }
  }

  /** Typing in a field (only possible at step 0) keeps the invariant. */
  lemma InputKeepsInv(sys: System, k: FieldKey, v: string)
    requires Inv(sys) && sys.form.step == 0
    ensures Inv(sys.(form := InputChange(sys.form, k, v)))
  {
    InputChangeTouchesOnlyItsField(sys.form, k, v);
  }

  /** Replacing the signature and the surface at step 1 keeps the invariant. */
  lemma SignatureAndSurfaceKeepInv(sys: System, data: Option<Token>, pad': Pad)
    requires Inv(sys) && sys.form.step == 1 && Consistent(pad')
    ensures Inv(System(sys.form.(signatureData := data), pad'))
  {
  }

  /** A canvas event changes the surface and, when the handler emits, the signature; nothing else. */
  lemma CanvasChangesOnlySignature(sys: System, ev: CanvasEvent, rect: Rect)
    requires WellFormedEvent(ev)
    ensures var r := Perform(sys.pad, ActionOf(ev), rect);
      && Apply(sys, Canvas(ev, rect)).pad == r.0
      && Apply(sys, Canvas(ev, rect)).form
         == sys.form.(signatureData := if r.1.Emit? then r.1.data else sys.form.signatureData)
  {
  }

  /** A canvas event (only possible at step 1) keeps the invariant. */
  lemma CanvasKeepsInv(sys: System, ev: CanvasEvent, rect: Rect)
    requires Inv(sys) && sys.form.step == 1 && WellFormedEvent(ev)
    ensures Inv(Apply(sys, Canvas(ev, rect)))
  {
    var r := Perform(sys.pad, ActionOf(ev), rect);
    PerformKeepsConsistent(sys.pad, ActionOf(ev), rect);
    CanvasChangesOnlySignature(sys, ev, rect);
    SignatureAndSurfaceKeepInv(sys, if r.1.Emit? then r.1.data else sys.form.signatureData, r.0);
  }

  lemma ApplyKeepsInv(sys: System, e: Event)
    requires Inv(sys) && Enabled(sys, e)
    ensures Inv(Apply(sys, e))
  {
    match e
    case Input(k, v) =>
      InputKeepsInv(sys, k, v);
    case KeyDown(key, k) =>
      NextKeepsInv(sys);
    case NextButton =>
      NextKeepsInv(sys);
    case BackButton =>
    case Canvas(ev, rect) =>
      CanvasKeepsInv(sys, ev, rect);
    case PhotoCaptured(_, _) =>
  }

  lemma {:induction false} RunKeepsInv(sys: System, es: seq<Event>)
    requires Inv(sys) && ValidTrace(sys, es)
    ensures Inv(Run(sys, es))
    decreases |es|
  {
    if es != [] {
      ApplyKeepsInv(sys, es[0]);
      RunKeepsInv(Apply(sys, es[0]), es[1..]);
    }
  }

  /**
   * No partial submission: whatever the user did, a completed flow has
   * every field filled, a signature, an available camera and a picture.
   */
  lemma CompletionPassedEveryGate(es: seq<Event>)
    requires ValidTrace(Start(), es)
    ensures var s := Run(Start(), es).form;
      s.isCompleted ==>
        && s.step == 2
        && s.formData.Keys == AllFields && AllFilled(s.formData)
        && s.signatureData.Some? && s.cameraAvailable && s.pictureData.Some?
  {
    StartSatisfiesInv();
    RunKeepsInv(Start(), es);
  }

  /**
   * Every event moves the step by at most one, in either direction, and
   * completion is never undone.
   */
  lemma StepMovesByAtMostOne(sys: System, e: Event)
    requires e.Canvas? ==> WellFormedEvent(e.ev)
    ensures var t := Apply(sys, e).form;
      && -1 <= t.step - sys.form.step <= 1
      && (sys.form.isCompleted ==> t.isCompleted)
  {
    NextMovesForwardByOne(sys.form);
  }

  /** Once the flow is complete no event can happen, so its state no longer changes. */
  lemma CompletedFlowIsFinal(sys: System, es: seq<Event>)
    requires sys.form.isCompleted && ValidTrace(sys, es)
    ensures forall e :: !Enabled(sys, e)
    ensures es == [] && Run(sys, es) == sys
  {
  }

  /** Running two traces one after the other is running their concatenation. */
  lemma {:induction false} RunAppend(sys: System, a: seq<Event>, b: seq<Event>)
    ensures ValidTrace(sys, a + b) <==> ValidTrace(sys, a) && ValidTrace(Run(sys, a), b)
    ensures ValidTrace(sys, a + b) ==> Run(sys, a + b) == Run(Run(sys, a), b)
    decreases |a|
  {
    if a == [] {
      assert a + b == b;
    } else {
      assert (a + b)[0] == a[0] && (a + b)[1..] == a[1..] + b;
      if Enabled(sys, a[0]) {
        RunAppend(Apply(sys, a[0]), a[1..], b);
      }
    }
  }

  /** An enabled event in front of a trace. */
  lemma RunCons(sys: System, e: Event, rest: seq<Event>)
    requires Enabled(sys, e) && ValidTrace(Apply(sys, e), rest)
    ensures ValidTrace(sys, [e] + rest) && Run(sys, [e] + rest) == Run(Apply(sys, e), rest)
  {
    assert ([e] + rest)[0] == e && ([e] + rest)[1..] == rest;
  }

  /** The field values of the walk-through. */
  function Filled(): map<FieldKey, string>
  {
    Initial().formData[FullName := "Jane Doe"][Dob := "1990-01-01"][Nationality := "X"][Address := "Y"][GovID := "Z"]
  }

  lemma FilledIsFilled()
    ensures AllFilled(Filled())
  {
    var f := Filled();
    forall k | k in f ensures !IsBlankField(k, f[k]) {
      match k
      case FullName => assert !IsJsWhitespace(f[k][0]);
      case Dob =>
      case Nationality => assert !IsJsWhitespace(f[k][0]);
      case Address => assert !IsJsWhitespace(f[k][0]);
      case GovID => assert !IsJsWhitespace(f[k][0]);
    }
  }

  /** Typing the five values of the walk-through. */
  function FillIn(): seq<Event>
  {
    [ Input(FullName, "Jane Doe"), Input(Dob, "1990-01-01"), Input(Nationality, "X"),
      Input(Address, "Y"), Input(GovID, "Z") ]
  }

  /** Filling in the five fields, then Next. */
  function FillAndSubmit(): seq<Event>
  {
    FillIn() + [NextButton]
  }

  /** One stroke on the canvas, then Next. */
  function SignAndSubmit(at: PointerEvent, rect: Rect): seq<Event>
  {
    [ Canvas(MouseDown(at), rect), Canvas(MouseUp, rect), NextButton ]
  }

  /** After filling in the fields and Next: step 1, a blank canvas, nothing else collected yet. */
  function AtSignature(): System
  {
    System(Initial().(formData := Filled(), step := 1), Blank)
  }

  /** Where no error is shown, an input change only stores the value. */
  lemma InputChangeWithoutErrors(s: State, k: FieldKey, v: string)
    requires s.errors == map[]
    ensures InputChange(s, k, v) == s.(formData := s.formData[k := v])
  {
  }

  lemma {:induction false} TypingFillsTheForm()
    ensures ValidTrace(Start(), FillIn())
    ensures Run(Start(), FillIn()) == System(Initial().(formData := Filled()), Blank)
  {
    var es := FillIn();
    var s0 := Start();
    var s1 := System(InputChange(s0.form, FullName, "Jane Doe"), Blank);
    var s2 := System(InputChange(s1.form, Dob, "1990-01-01"), Blank);
    var s3 := System(InputChange(s2.form, Nationality, "X"), Blank);
    var s4 := System(InputChange(s3.form, Address, "Y"), Blank);
    var s5 := System(InputChange(s4.form, GovID, "Z"), Blank);
    InputChangeWithoutErrors(s0.form, FullName, "Jane Doe");
    InputChangeWithoutErrors(s1.form, Dob, "1990-01-01");
    InputChangeWithoutErrors(s2.form, Nationality, "X");
    InputChangeWithoutErrors(s3.form, Address, "Y");
    InputChangeWithoutErrors(s4.form, GovID, "Z");
    RunCons(s4, es[4], []);
    RunCons(s3, es[3], es[4..]);
    RunCons(s2, es[2], es[3..]);
    RunCons(s1, es[1], es[2..]);
    RunCons(s0, es[0], es[1..]);
  }

  lemma SubmittingTheFilledForm()
    ensures Next(Initial().(formData := Filled())) == (Initial().(formData := Filled(), step := 1), Advanced)
  {
    var f := Filled();
    FilledIsFilled();
    BlankErrorsAreExactlyTheBlankFields(f);
    assert BlankErrors(f) == map[];
  }

  lemma {:induction false} FilledFormReachesSignature()
    ensures ValidTrace(Start(), FillAndSubmit())
    ensures Run(Start(), FillAndSubmit()) == AtSignature()
  {
    var typed := System(Initial().(formData := Filled()), Blank);
    TypingFillsTheForm();
    SubmittingTheFilledForm();
    RunCons(typed, NextButton, []);
    RunAppend(Start(), FillIn(), [NextButton]);
  }

  /** After one stroke and Next: step 2 with the signature the stroke produced. */
  lemma {:induction false} OneStrokeReachesPhoto(at: PointerEvent, rect: Rect)
    ensures ValidTrace(AtSignature(), SignAndSubmit(at, rect))
    ensures var sys := Run(AtSignature(), SignAndSubmit(at, rect));
      sys.form == AtSignature().form.(step := 2, signatureData := Some(SignatureImage([])))
  {
    var es := SignAndSubmit(at, rect);
    var s0 := AtSignature();
    var s1 := Apply(s0, es[0]);
    var s2 := Apply(s1, es[1]);
    assert s2.form == s0.form.(signatureData := Some(SignatureImage([])));
    var s3 := Apply(s2, es[2]);
    RunCons(s2, es[2], []);
    RunCons(s1, es[1], es[2..]);
    RunCons(s0, es[0], es[1..]);
  }

  /**
   * Filled fields pass step 0 and a single stroke passes step 1; a capture
   * reported with the camera unavailable then disables Next, and the
   * Next handler would refuse with the camera warning: the flow stays
   * incomplete.
   */
  lemma {:induction false} UnavailableCameraBlocksCompletion(at: PointerEvent, rect: Rect, image: Token)
    ensures var es := FillAndSubmit() + SignAndSubmit(at, rect) + [PhotoCaptured(Some(image), false)];
      && ValidTrace(Start(), es)
      && var s := Run(Start(), es).form;
      && s.step == 2 && s.signatureData.Some? && !s.isCompleted
      && !CanProceed(s) && Next(s) == (s, Refused(CameraUnavailable))
  {
    var photo := [PhotoCaptured(Some(image), false)];
    OneStrokeReachesPhoto(at, rect);
    var s2 := Run(AtSignature(), SignAndSubmit(at, rect));
    RunCons(s2, photo[0], []);
    WalkThrough(at, rect, photo);
  }

  /** The same flow with the camera available completes, exactly at step 2. */
  lemma {:induction false} HappyPathCompletes(at: PointerEvent, rect: Rect, image: Token)
    ensures var es := FillAndSubmit() + SignAndSubmit(at, rect) + [PhotoCaptured(Some(image), true), NextButton];
      && ValidTrace(Start(), es)
      && var s := Run(Start(), es).form;
      && s.step == 2 && s.isCompleted
      && s.formData == Filled() && s.signatureData.Some? && s.pictureData == Some(image)
  {
    var photo := [PhotoCaptured(Some(image), true), NextButton];
    OneStrokeReachesPhoto(at, rect);
    var s2 := Run(AtSignature(), SignAndSubmit(at, rect));
    var s3 := Apply(s2, photo[0]);
    RunCons(s3, photo[1], []);
    RunCons(s2, photo[0], photo[1..]);
    WalkThrough(at, rect, photo);
  }

  /** The walk-through's first two phases, followed by `tail`. */
  lemma WalkThrough(at: PointerEvent, rect: Rect, tail: seq<Event>)
    requires ValidTrace(AtSignature(), SignAndSubmit(at, rect))
    requires ValidTrace(Run(AtSignature(), SignAndSubmit(at, rect)), tail)
    ensures var es := FillAndSubmit() + SignAndSubmit(at, rect) + tail;
      && ValidTrace(Start(), es)
      && Run(Start(), es) == Run(Run(AtSignature(), SignAndSubmit(at, rect)), tail)
  {
    var sign := SignAndSubmit(at, rect);
    FilledFormReachesSignature();
    OneStrokeReachesPhoto(at, rect);
    RunAppend(AtSignature(), sign, tail);
    RunAppend(Start(), FillAndSubmit(), sign + tail);
    assert FillAndSubmit() + sign + tail == FillAndSubmit() + (sign + tail);
  }
}
