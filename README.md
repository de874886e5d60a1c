# Identity-verification wizard: a Dafny model

This project models the core of a three-step identity-verification (KYC)
form written in React: the step form's state machine (personal
information, then a drawn signature, then a camera photo, then completion)
and the signature canvas's stroke state machine whose output feeds the
signature gate.

Modules:

- `Artifacts` (`artifacts.dfy`): `Option` for values that may be `null`,
  surface points, and `Token`, the opaque non-null image that stands for a
  `data:` URL.
- `Validation` (`validation.dfy`): the five field keys and their Enter-key
  order, `indexOf`, JavaScript's `trim` over the ECMAScript whitespace and
  line-terminator code points, the fixed error messages, and the errors
  that validation of step 0 reports.
- `Wizard` (`wizard.dfy`): the step form's state as a value and one pure
  function per handler (`InputChange`, `Next`, `Back`, `PhotoCapture`,
  `SignatureChange`, `CanProceed`), with lemmas for what each promises.
  React batches the `setState` calls of a handler, so each handler is one
  atomic transition.
- `StepFormComponent` (`step_form.dfy`): the component as a class. Its
  fields are the state hooks, and its methods are the handlers. Each
  method's new state is the matching `Wizard` function of the old state.
- `SignaturePad` (`signature_pad.dfy`): the canvas's drawing state and
  surface, the event-to-handler binding (mouse, touch, Clear button), and
  the `SignatureCanvas` class. The surface is the context's current path
  plus the list of paths stroked onto it since the last clear.
- `Flow` (`flow.dfy`): the form and the canvas together, with events
  allowed only when their target is rendered. It proves an invariant of
  every reachable state and walks through the flow end to end.

Behaviour of the code that the model keeps:

- Changing a field whose error shows writes `''` to that error; the key
  stays in the map.
- The date of birth is only checked for being the empty string, not
  trimmed.
- `canProceed` is true at steps 0 and 1 whatever the gate would decide.
- Completing sets `isCompleted` and leaves `step` at 2.
- A mouse down and up with no move in between strokes nothing new but
  still emits an image of the surface as it is: blank on a freshly
  mounted or cleared canvas, otherwise holding the earlier strokes.
  Either image passes the signature gate.
- `clearRect` does not reset the current path. A move after a clear in
  the middle of a stroke strokes the whole path again
  (`SignaturePad.ClearMidStrokeRepaintsThePath`).
- The `warning` state is only ever set to `''`, so in every reachable
  state it is empty (`Flow.Inv`).
- The Next button is disabled while `canProceed` is false
  (`src/components/NavigationButtons.jsx:40`). So at step 2 the
  camera and picture alerts cannot be reached through the button. The
  handler still refuses on its own, which `Wizard.NextFromPhoto` states.

## Model

| member | source | states |
|---|---|---|
| `StepFormComponent.StepForm.constructor` | src/components/StepForm.jsx:53-66 | Initial state: step 0, not completed, empty warning, no signature, no picture, camera available, all five fields `''`, no errors |
| `Flow.StartSatisfiesInv` | src/components/StepForm.jsx:53-66 | The initial state (with a blank canvas) satisfies the flow invariant, at step 0 and not completed |
| `Validation.IndexOf` | src/components/StepForm.jsx:92 | `indexOf`: -1 exactly when absent, otherwise the position of the first occurrence |
| `Validation.NextField` | src/components/StepForm.jsx:91-96 | Enter moves focus to the field one position later in the fixed order; only `govID` has no successor |
| `StepFormComponent.StepForm.HandleKeyDown` | src/components/StepForm.jsx:88-101 | Non-Enter keys change nothing; Enter on a non-last field returns the next field and changes nothing; Enter on `govID` performs exactly the Next transition |
| `Validation.TrimStart` | src/components/StepForm.jsx:108 | The result is a suffix of the input, everything dropped is whitespace, and it starts with non-whitespace |
| `Validation.TrimEnd` | src/components/StepForm.jsx:108 | The result is a prefix of the input, everything dropped is whitespace, and it ends with non-whitespace |
| `Validation.Trim` | src/components/StepForm.jsx:108 | `trim` returns a contiguous slice of the input whose dropped ends are whitespace; it is empty exactly when every character is whitespace; a non-empty result starts and ends with non-whitespace; a string already in that form is unchanged |
| `Validation.BlankMeansWhitespaceOnly` | src/components/StepForm.jsx:108-112 | A text field is blank exactly when it holds only whitespace; the date of birth exactly when it is empty |
| `Validation.DobIsNotTrimmed` | src/components/StepForm.jsx:108-109 | A single space passes the date-of-birth check but fails the name check |
| `Validation.BlankErrorsAreExactlyTheBlankFields` | src/components/StepForm.jsx:104-116 | The reported errors are exactly the blank fields, each with its fixed message; none reported exactly when none is blank |
| `StepFormComponent.CollectBlankErrors` | src/components/StepForm.jsx:105-113 | Filling the error map field by field, with no short-circuit, yields exactly the blank fields' messages |
| `StepFormComponent.StepForm.ValidateStep` | src/components/StepForm.jsx:104-117 | Stores the step's errors (none outside step 0), changes nothing else, and returns true exactly when no error was stored |
| `StepFormComponent.StepForm.HandleInputChange` | src/components/StepForm.jsx:120-125 | Stores the value under its key; a showing error for that key becomes `''`; nothing else changes |
| `Wizard.InputChangeTouchesOnlyItsField` | src/components/StepForm.jsx:120-125 | Only the edited field changes; its error, if present, is `''` afterwards and the key stays; the other errors and the rest of the state are untouched |
| `StepFormComponent.StepForm.HandlePhotoCapture` | src/components/StepForm.jsx:128-131 | Sets the picture and the camera flag to the reported values and changes nothing else |
| `StepFormComponent.StepForm.SetSignatureData` | src/components/StepForm.jsx:218 | The canvas's change callback stores the reported signature (or null) and changes nothing else |
| `StepFormComponent.StepForm.HandleNext` | src/components/StepForm.jsx:134-155 | The new state and the outcome (advanced, completed, or the refusal reason) are those of the Next transition |
| `Wizard.NextFromPersonalInfo` | src/components/StepForm.jsx:135-137 | At step 0, advances to step 1 exactly when no field is blank; either way the errors become exactly the blank fields' messages; nothing else changes |
| `Wizard.NextFromSignature` | src/components/StepForm.jsx:138-143 | At step 1, advances to step 2 exactly when a signature is present; otherwise nothing changes |
| `Wizard.NextFromPhoto` | src/components/StepForm.jsx:144-154 | At step 2, completes exactly when the camera is available and a picture is present; an unavailable camera refuses even with a picture; completion keeps step 2 |
| `Wizard.NextMovesForwardByOne` | src/components/StepForm.jsx:134-155 | Next moves the step up by exactly one when it advances and not at all otherwise; only step 2 completes; data and artifacts are untouched |
| `StepFormComponent.StepForm.HandleBack` | src/components/StepForm.jsx:158-163 | No change at step 0; otherwise one step back and the warning cleared |
| `Wizard.BackIsNonDestructive` | src/components/StepForm.jsx:158-163 | Back is the identity at step 0, otherwise decrements the step and clears the warning, keeping form data, artifacts and completion |
| `Wizard.CanProceedMatchesPhotoGate` | src/components/StepForm.jsx:166-169 | At step 2 the button is enabled exactly when Next would complete; at steps 0 and 1 it is always enabled |
| `Wizard.CanProceedIgnoresSignatureGate` | src/components/StepForm.jsx:166-169 | At step 1 with no signature the button is enabled and Next still refuses for the missing signature |
| `Flow.NextFromPersonalInfoKeepsInv` | src/components/StepForm.jsx:135-137 | Leaving step 0 happens only with every field filled and the errors emptied, so the invariant holds after it |
| `Flow.NextKeepsInv` | src/components/StepForm.jsx:134-155 | Every outcome of Next keeps the flow invariant |
| `Flow.InputKeepsInv` | src/components/StepForm.jsx:120-125 | Typing in a field at step 0 keeps the flow invariant |
| `Flow.CanvasKeepsInv` | src/components/StepForm.jsx:216-219 | A canvas event at step 1 keeps the flow invariant, whether or not the handler reports a signature |
| `Flow.ApplyKeepsInv` | src/components/StepForm.jsx:194-239 | Every event that the rendered screen allows keeps the invariant |
| `Flow.RunKeepsInv` | src/components/StepForm.jsx:194-239 | Every allowed sequence of events keeps the invariant |
| `Flow.CompletionPassedEveryGate` | src/components/StepForm.jsx:134-155 | In any reachable state, completion implies step 2 with every field filled, a signature, an available camera and a picture |
| `Flow.StepMovesByAtMostOne` | src/components/StepForm.jsx:134-163 | Every event changes the step by at most one in either direction and never undoes completion |
| `Flow.CompletedFlowIsFinal` | src/components/StepForm.jsx:194-195 | Once completed, no event is enabled, so the only allowed trace is empty and the state no longer changes |
| `Flow.InputChangeWithoutErrors` | src/components/StepForm.jsx:120-125 | With no error shown, an input change only stores the value |
| `Flow.TypingFillsTheForm` | src/components/StepForm.jsx:120-125 | Typing the walk-through's five values from the start yields the initial form holding those values |
| `Flow.FilledIsFilled` | src/components/StepForm.jsx:107-112 | The walk-through's values pass every field check |
| `Flow.SubmittingTheFilledForm` | src/components/StepForm.jsx:135-137 | Next on the filled form advances to step 1 with no errors |
| `Flow.FilledFormReachesSignature` | src/components/StepForm.jsx:134-137 | Typing the values and pressing Next is an allowed trace that ends at step 1 with a blank canvas |
| `Flow.OneStrokeReachesPhoto` | src/components/StepForm.jsx:138-143 | A press and release on the canvas emits an image, and Next then reaches step 2 |
| `Flow.UnavailableCameraBlocksCompletion` | src/components/StepForm.jsx:144-148 | After the walk-through, a capture reported with the camera unavailable disables Next, Next refuses for the camera, and the flow stays incomplete |
| `Flow.HappyPathCompletes` | src/components/StepForm.jsx:134-154 | With the camera available, the walk-through completes at step 2 holding the entered data, the signature and the picture |
| `SignaturePad.SignatureCanvas.constructor` | src/components/SignatureComponent.jsx:5-7 | A fresh canvas is not drawing and has an empty path and a blank surface |
| `SignaturePad.EachPointUsesItsEventsRect` | src/components/SignatureComponent.jsx:16-27 | A press and a move put exactly two points in the path, each translated by the rectangle read at its own event; when the surface moved in between, the second point differs from what the first event's rectangle would give |
| `SignaturePad.SignatureCanvas.StartDrawing` | src/components/SignatureComponent.jsx:9-20 | Starts a new path at the pointer's local point under the current rectangle, sets drawing, and leaves the surface alone |
| `SignaturePad.SignatureCanvas.Draw` | src/components/SignatureComponent.jsx:22-29 | Does nothing when not drawing; otherwise appends the local point under the current rectangle and strokes the whole path, which then has at least two points |
| `SignaturePad.DrawStrokesASegment` | src/components/SignatureComponent.jsx:22-29 | On a consistent canvas that is drawing, a move strokes a path of at least two points starting at the press point, never a lone point |
| `SignaturePad.SignatureCanvas.StopDrawing` | src/components/SignatureComponent.jsx:31-37 | Does nothing and emits nothing when not drawing; otherwise emits exactly one non-null image of the surface and stops drawing |
| `SignaturePad.SignatureCanvas.ClearSignature` | src/components/SignatureComponent.jsx:39-44 | Blanks the surface and emits null whatever the drawing state, leaving the drawing flag and the path unchanged |
| `SignaturePad.ClearMidStrokeRepaintsThePath` | src/components/SignatureComponent.jsx:22-44 | After a clear in the middle of a stroke, the next move puts the whole current path, including the pre-clear segments, back on the surface |
| `SignaturePad.PerformKeepsConsistent` | src/components/SignatureComponent.jsx:9-44 | Every handler keeps the canvas consistent: a stroke in progress has a start point, and every stroked path has a segment |
| `SignaturePad.TouchBehavesLikeMouse` | src/components/SignatureComponent.jsx:60-77 | Touch start, move and end run the mouse down, move and up handlers with the first touch's coordinates; mouse-leave ends a stroke like mouse-up |
| `SignaturePad.SignatureCanvas.Handle` | src/components/SignatureComponent.jsx:60-82 | Each canvas event or Clear click has exactly the effect and emission of the handler it is bound to |

## Left out

- `src/components/PhotoCaptureComponent.jsx` is not part of this model. Camera acquisition is asynchronous device I/O (`getUserMedia`, track stopping, unmount cleanup), and capture uses browser drawing and encoding calls. Only its report to the form is modelled, as `HandlePhotoCapture(image, available)` with arbitrary values.
- Canvas raster content, stroke style and width, and PNG/`data:` encoding: an image is an opaque token. A signature token records the stroked paths.
- Pointer coordinates are integers; browsers report floating-point values.
- The `alert` calls: they are modelled as the refusal reasons `MissingSignature`, `CameraUnavailable` and `MissingPicture`.
- Focus management and the delayed auto-focus of the first field: only the field that Enter moves to is modelled, as the value `HandleKeyDown` returns. `preventDefault` calls are left out.
- `src/components/Progressbar.jsx` (a floating-point percentage), `src/components/FormInput.jsx`, `src/components/SuccessMessage.jsx`, `src/App.jsx` and `src/utils.jsx`: presentation only.
- `src/components/NavigationButtons.jsx`: presentation, except when its buttons exist or are enabled, which `Flow.Enabled` uses.
- JavaScript truthiness of arbitrary values: form values are strings, and the signature and picture are either null or a token.
- `SignaturePad.WellFormedEvent`: touch start and move events are taken to carry at least one touch, as browsers guarantee. The code would throw on an empty touch list.
- The code has no camera-session manager (no acquire, release or request counter); only the photo component's report reaches the form.
- The step-2 refusals are alerts; no warning text is ever stored (the `warning` state is only set to `''`).
- `src/components/StepForm.jsx` does not import `SignatureCanvas` or `PhotoCapture` (its imports are lines 1-7; the names are used at lines 217 and 224), and `src/components/PhotoCaptureComponent.jsx` uses `useState` and `AnimatePresence` without importing them. As written, rendering step 1 or step 2 would throw a ReferenceError. `Flow` models the evidently intended wiring (the canvas's change callback and the photo report reach the form), so `Flow.FilledFormReachesSignature`, `Flow.OneStrokeReachesPhoto`, `Flow.HappyPathCompletes` and `Flow.UnavailableCameraBlocksCompletion` describe that wiring, not a program that renders as written.
- `Flow.Enabled` assumes a step's controls stop firing as soon as the step changes. The step content is wrapped in an exit animation (`src/components/StepForm.jsx:198-205`, `src/utils.jsx:12-16`), so the previous step's controls may stay on screen briefly after Next. Two windows follow, and Next at steps 1 and 2 re-checks neither the fields nor the signature (`src/components/StepForm.jsx:138-154`). First, Enter on `govID` runs Next and leaves that input focused (`src/components/StepForm.jsx:94-99`), so an edit there during the exit can write `''` into the form data (`src/components/StepForm.jsx:120-125`). Second, the step-1 Clear button can still null the signature after Next. In those windows the flow could complete with a blank field or with no signature. So the field conjunct and the signature conjunct of `Flow.Inv` and of `Flow.CompletionPassedEveryGate` both rest on that assumption.
- `Flow.UnavailableCameraBlocksCompletion`: the photo component calls its report only from its capture button, which it shows only while its own camera flag is true (`src/components/PhotoCaptureComponent.jsx:47`, 73, 85-94), so the form only ever receives `available == true`. The lemma states what the form's handler does with a report the component as written never sends.
