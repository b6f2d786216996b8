/** The photo-confirmation screen reached from a pending task
    (src/components/QRScanScreen.tsx). Reading the file and the 1500 ms
    upload delay are collapsed into atomic transitions. */
module QrScanScreen {
  import opened Common
  import opened Strings
  import App

  /** `capturedImage`, `confirmName`, `isSubmitting`. */
  datatype State = State(capturedImage: Option<string>, confirmName: string, isSubmitting: bool)

  /** Which of the two cards is on screen. */
  datatype View = CaptureView | ConfirmView

  /** The controls a user can press or type into. */
  datatype Action = Back | OpenCamera | TypeName | Retake | Submit

  /** The user's inputs, as seen by the handlers. `FileChosen(None)` is a
      change event whose file list is empty. */
  datatype Event =
    | FileChosen(file: Option<string>)
    | NameTyped(text: string)
    | RetakePressed
    | SubmitPressed

  /** The outcome of `handleSubmit`: the final state, the values
      `isSubmitting` was set to in order, and how often `onComplete` ran. */
  datatype SubmitOutcome = SubmitOutcome(final: State, submittingTrace: seq<bool>, completions: nat)

  function Initial(): (s: State)
    ensures s.capturedImage == None && s.confirmName == "" && !s.isSubmitting
  {
    State(None, "", false)
  }

  /** `handleFileChange`: with no file nothing happens, otherwise the image
      (the data URL the reader produces) is captured. */
  function FileChange(s: State, file: Option<string>): (r: State)
    ensures file.None? ==> r == s
    ensures file.Some? ==> r.capturedImage == file && r.confirmName == s.confirmName && r.isSubmitting == s.isSubmitting
  {
    match file
    case None => s
    case Some(url) => s.(capturedImage := Some(url))
  }

  /** `handleRetake`: drop the image and the typed name. */
  function HandleRetake(s: State): (r: State)
    ensures r.capturedImage == None && r.confirmName == ""
    ensures r.isSubmitting == s.isSubmitting
  {
    s.(capturedImage := None, confirmName := "")
  }

  /** The submit button's `disabled` test, negated. */
  predicate SubmitEnabled(s: State)
  {
    !s.isSubmitting && !IsBlank(s.confirmName)
  }

  /** `handleSubmit`: a blank name is refused before any state changes;
      otherwise `isSubmitting` goes true then false and `onComplete` runs
      once. The image and name are left as they were. */
  function HandleSubmit(s: State): (o: SubmitOutcome)
    ensures IsBlank(s.confirmName) ==> o.final == s && o.submittingTrace == [] && o.completions == 0
    ensures !IsBlank(s.confirmName) ==>
      && o.submittingTrace == [true, false]
      && o.completions == 1
      && o.final == s.(isSubmitting := false)
  {
    if IsBlank(s.confirmName) then SubmitOutcome(s, [], 0)
    else
      var during := s.(isSubmitting := true);
      SubmitOutcome(during.(isSubmitting := false), [true, false], 1)
  }

  /** The capture card shows while no image is held, the confirm card otherwise. */
  function ViewOf(s: State): (v: View)
    ensures v == ConfirmView <==> s.capturedImage.Some?
  {
    if s.capturedImage.None? then CaptureView else ConfirmView
  }

  /** Which controls are on screen and enabled. Back is always there; the
      name field, Retake and Submit belong to the confirm card. */
  predicate Offered(s: State, a: Action)
  {
    match a
    case Back => true
    case OpenCamera => ViewOf(s) == CaptureView
    case TypeName => ViewOf(s) == ConfirmView
    case Retake => ViewOf(s) == ConfirmView
    case Submit => ViewOf(s) == ConfirmView && SubmitEnabled(s)
  }

  /** The control that produces an event. */
  function ActionOf(e: Event): Action
  {
    match e
    case FileChosen(_) => OpenCamera
    case NameTyped(_) => TypeName
    case RetakePressed => Retake
    case SubmitPressed => Submit
  }

  /** One transition of the screen. */
  function Step(s: State, e: Event): (r: State)
    ensures e.RetakePressed? ==> r.capturedImage == None && r.confirmName == ""
    ensures e.NameTyped? ==> r.confirmName == e.text && r.capturedImage == s.capturedImage
  {
    match e
    case FileChosen(file) => FileChange(s, file)
    case NameTyped(text) => s.(confirmName := text)
    case RetakePressed => HandleRetake(s)
    case SubmitPressed => HandleSubmit(s).final
  }

  /** What holds of every state the screen can reach: nothing is being
      submitted between events, and a name can only have been typed once
      an image is held. */
  predicate Settled(s: State)
  {
    !s.isSubmitting && (s.capturedImage.None? ==> s.confirmName == "")
  }

  /** The screen starts settled and every offered event keeps it settled. */
  lemma StepKeepsSettled(s: State, e: Event)
    requires Settled(s) && Offered(s, ActionOf(e))
    ensures Settled(Initial())
    ensures Settled(Step(s, e))
  {
  }

  /** Every event of the run is offered in the state reached just before it. */
  predicate AllOffered(s: State, events: seq<Event>)
    decreases |events|
  {
    |events| == 0 || (Offered(s, ActionOf(events[0])) && AllOffered(Step(s, events[0]), events[1..]))
  }

  /** The state a run of offered events reaches from a settled state, or
      `None` when some event's control is not on screen at its turn. */
  function Run(s: State, events: seq<Event>): (r: Option<State>)
    requires Settled(s)
    ensures r.Some? <==> AllOffered(s, events)
    ensures r.Some? ==> Settled(r.value)
    ensures events == [] ==> r == Some(s)
    decreases |events|
  {
    if |events| == 0 then Some(s)
    else if !Offered(s, ActionOf(events[0])) then None
    else
      StepKeepsSettled(s, events[0]);
      Run(Step(s, events[0]), events[1..])
  }

  /** A submit the button lets through is never refused, and it completes once. */
  lemma EnabledSubmitCompletes(s: State)
    requires Offered(s, Submit)
    ensures HandleSubmit(s).completions == 1
    ensures HandleSubmit(s).submittingTrace == [true, false]
  {
  }

  /** Fresh on screen, only Back and the camera are offered. */
  lemma InitialOffersOnlyCapture()
    ensures Offered(Initial(), Back) && Offered(Initial(), OpenCamera)
    ensures !Offered(Initial(), TypeName) && !Offered(Initial(), Retake) && !Offered(Initial(), Submit)
  {
  }

  /** Submitting and then running `onComplete` returns to the employee
      dashboard with the scanned task exactly as it was: its status is
      never changed by this flow. A refused submit leaves the app alone. */
  function SubmitThenComplete(app: App.State, s: State): (r: (App.State, State))
    ensures r.1 == HandleSubmit(s).final
    ensures r.0.selectedTaskForScan == app.selectedTaskForScan
    ensures r.0.user == app.user
    ensures HandleSubmit(s).completions == 1 ==> r.0.screen == App.EmployeeDashboard
    ensures HandleSubmit(s).completions == 0 ==> r.0 == app
  {
    var o := HandleSubmit(s);
    if o.completions == 1 then (App.QrScanExit(app), o.final) else (app, o.final)
  }
}
