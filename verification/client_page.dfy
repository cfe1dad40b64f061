/** The client's screen (app/client/page.tsx): reporting exertion, flagging
    pain, reacting to the answer of the advance route, and the rest timer's
    text. The signed-in client and the active session are parameters; the
    store writes and alert inserts are returned, and a browser `alert` is
    returned as the notice shown. */
module ClientPage {
  import opened Records
  import opened Decimal
  import opened AdvanceExercise

  /** The signed-in client and the active session. */
  datatype Viewer = Viewer(sessionId: string, clientId: string, clientName: string)

  /** Seconds of rest added for a reported RPE. */
  function RestExtension(rpe: int): (extra: int)
    ensures extra == 30 <==> rpe >= 9
    ensures extra == 15 <==> rpe == 8
    ensures extra == 0 <==> rpe < 8
  {
    if rpe >= 9 then 30 else if rpe == 8 then 15 else 0
  }

  /** A harder set never earns less rest. */
  lemma RestExtensionMonotone(a: int, b: int)
    requires a <= b
    ensures RestExtension(a) <= RestExtension(b)
  {
  }

  /** The rest the extension is added to: `rest_remaining_seconds || 90`. */
  function BaseRest(rest: Option<int>): (base: int)
    ensures rest.Some? && rest.value != 0 ==> base == rest.value
    ensures rest.None? || rest.value == 0 ==> base == 90
  {
    NumberOr(rest, 90)
  }

  datatype RpeOutcome = RpeOutcome(write: Option<SessionState>, notice: Option<string>, alerts: seq<AlertRow>)

  /** `submitRPE`: records the RPE and the extended rest in one update,
      tells the client when rest was extended, and alerts the coach on a
      very hard set. Without a loaded state nothing happens. */
  function SubmitRpe(viewer: Viewer, state: Option<SessionState>, rpe: int): (o: RpeOutcome)
    ensures state.None? ==> o == RpeOutcome(None, None, [])
    ensures state.Some? ==> o.write.Some?
    // the RPE is always recorded, together with the new rest time
    ensures state.Some? ==> o.write.value.rpe == Some(rpe) && o.write.value.restRemaining.Some?
    // the new rest is the base rest plus exactly the extension
    ensures state.Some? ==> o.write.value.restRemaining.value - BaseRest(state.value.restRemaining) == RestExtension(rpe)
    // nothing else in the row changes
    ensures state.Some? ==> o.write.value.(rpe := state.value.rpe, restRemaining := state.value.restRemaining) == state.value
    // the client is told exactly when rest grew
    ensures o.notice.Some? <==> state.Some? && rpe >= 8
    // the coach gets one non-action high_rpe alert exactly for RPE 9 and up
    ensures |o.alerts| <= 1
    ensures |o.alerts| == 1 <==> state.Some? && rpe >= 9
    ensures |o.alerts| == 1 ==> o.alerts[0].alertType == "high_rpe" && !o.alerts[0].requiresAction
  {
    if state.None? then RpeOutcome(None, None, [])
    else
      var s := state.value;
      var extension := RestExtension(rpe);
      var newRest := BaseRest(s.restRemaining) + extension;
      var notice := if extension > 0
        then Some("High RPE detected! Rest extended by " + IntToString(extension) + " seconds.")
        else None;
      var alerts := if rpe >= 9
        then [AlertRow(viewer.sessionId, viewer.clientId, "high_rpe",
          viewer.clientName + " reported RPE " + IntToString(rpe) + " - rest auto-extended", false)]
        else [];
      RpeOutcome(Some(s.(rpe := Some(rpe), restRemaining := Some(newRest))), notice, alerts)
  }

  /** Right after a set advance the rest is the entry's rest time, so an RPE
      report extends exactly that time, unless it is 0, which the `|| 90`
      fallback replaces by 90. */
  lemma RpeAfterSetAdvance(viewer: Viewer, req: Request, s: SessionState, p: seq<ProgramEntry>,
    catalog: map<string, Exercise>, available: bool, alternative: Option<Exercise>, decisionError: Option<string>, rpe: int)
    requires 0 <= s.exerciseIndex < |p| && s.currentSet < p[s.exerciseIndex].sets
    ensures var o := Advance(req, Some(s), Some(p), catalog, available, alternative, decisionError);
      var r := SubmitRpe(viewer, o.write, rpe);
      var rest := p[s.exerciseIndex].restSeconds;
      && r.write.Some?
      && r.write.value.restRemaining == Some((if rest != 0 then rest else 90) + RestExtension(rpe))
      && r.write.value.currentSet == s.currentSet + 1
      && r.write.value.status == Resting
  {
  }

  datatype PainOutcome = PainOutcome(alerts: seq<AlertRow>, notice: Option<string>)

  /** `flagPain`: `description` is what the prompt returned (None when it
      was cancelled). A non-empty description raises one pain alert that
      needs the coach's action and carries the description verbatim. */
  function FlagPain(viewer: Viewer, state: Option<SessionState>, description: Option<string>): (o: PainOutcome)
    ensures |o.alerts| <= 1
    ensures |o.alerts| == 1 <==> state.Some? && Truthy(description)
    ensures |o.alerts| == 1 ==>
      && o.alerts[0].alertType == "pain"
      && o.alerts[0].requiresAction
      && o.alerts[0].clientId == viewer.clientId
      && |o.alerts[0].message| >= |description.value|
      && o.alerts[0].message[|o.alerts[0].message| - |description.value|..] == description.value
    ensures o.notice.Some? <==> |o.alerts| == 1
  {
    if state.None? || !Truthy(description) then PainOutcome([], None)
    else
      var message := viewer.clientName + ": " + description.value;
      PainOutcome([AlertRow(viewer.sessionId, viewer.clientId, "pain", message, true)],
        Some("Coach has been notified. They will check in with you shortly."))
  }

  /** Of the alerts the client screen raises, exactly the pain alerts ask the
      coach to act; RPE alerts only inform. */
  lemma ClientAlertsNeedActionOnlyForPain(viewer: Viewer, state: Option<SessionState>, rpe: int, description: Option<string>)
    ensures var alerts := SubmitRpe(viewer, state, rpe).alerts + FlagPain(viewer, state, description).alerts;
      forall k :: 0 <= k < |alerts| ==> (alerts[k].requiresAction <==> alerts[k].alertType == "pain")
  {
  }

  /** What `completeSet` tells the client about the route's answer. */
  datatype Notice =
    | NoStateNotice
    | ErrorNotice(message: string)
    | WorkoutComplete
    | SwitchedExercise(from: Option<string>, to: Option<string>)
    | WaitForEquipment(exercise: Option<string>)
    | NextExercise(exercise: Option<string>)
    | SetComplete(nextSet: int, restSeconds: Option<int>)
    | NoNotice

  /** The classification of a response: a non-2xx answer is an error (its
      `error` field, or a fixed text), otherwise the first of complete,
      substituted, waiting, advanced, nextSet that is truthy. */
  function Classify(ok: bool, body: Body): (n: Notice)
    ensures n.ErrorNotice? <==> !ok
    ensures n.ErrorNotice? ==> n.message == (if Truthy(body.error) then body.error.value else "Failed to advance exercise")
    ensures n == WorkoutComplete <==> ok && body.complete
    ensures n.SwitchedExercise? <==> ok && !body.complete && body.substituted
    ensures n.WaitForEquipment? <==> ok && !body.complete && !body.substituted && body.waiting
    ensures n.NextExercise? <==> ok && !body.complete && !body.substituted && !body.waiting && body.advanced
    ensures n.SetComplete? <==> (ok && !body.complete && !body.substituted && !body.waiting && !body.advanced
      && NumberTruthy(body.nextSet))
    ensures n == NoNotice <==> (ok && !body.complete && !body.substituted && !body.waiting && !body.advanced
      && !NumberTruthy(body.nextSet))
    ensures n != NoStateNotice
  {
    if !ok then ErrorNotice(if Truthy(body.error) then body.error.value else "Failed to advance exercise")
    else if body.complete then WorkoutComplete
    else if body.substituted then SwitchedExercise(body.from, body.to)
    else if body.waiting then WaitForEquipment(body.exercise)
    else if body.advanced then NextExercise(body.exercise)
    else if NumberTruthy(body.nextSet) then SetComplete(body.nextSet.value, body.restSeconds)
    else NoNotice
  }

  /** `completeSet`: without a loaded state the client is told so and no
      request is made; otherwise the route's answer is classified. */
  function CompleteSet(state: Option<SessionState>, answer: Response): (n: Notice)
    ensures state.None? <==> n == NoStateNotice
  {
    if state.None? then NoStateNotice
    else Classify(StatusCode(answer) == 200, ResponseBody(answer))
  }

  /** The notice each answer of the route produces: every answer but
      completion is announced as what it is; completion sends no `complete`
      flag and so is announced as nothing at all. */
  lemma NoticeForRoute(s: SessionState, r: Response)
    ensures var n := CompleteSet(Some(s), r);
      match r
      case ProgramComplete => n == NoNotice
      case Substituted(from, to) => n == SwitchedExercise(Some(from), Some(to))
      case Wait(exercise) => n == WaitForEquipment(Some(exercise))
      case Advanced(exercise) => n == NextExercise(Some(exercise))
      case NextSet(next, rest) => n == (if next != 0 then SetComplete(next, Some(rest)) else NoNotice)
      case Failed(error) => n == ErrorNotice(if error != "" then error else "Failed to advance exercise")
  {
  }

  /** With the `complete` flag in the completion body, the client announces
      the end of the workout, and every other answer is announced as
      before. */
  lemma NoticeForFixedRoute(r: Response)
    ensures r == ProgramComplete ==> Classify(true, ResponseBodyFixed(r)) == WorkoutComplete
    ensures r != ProgramComplete ==>
      Classify(StatusCode(r) == 200, ResponseBodyFixed(r)) == Classify(StatusCode(r) == 200, ResponseBody(r))
  {
  }

  /** Exercise details the screen shows. */
  datatype ShownExercise = ShownExercise(exercise: Exercise, sets: int, reps: int, restSeconds: int)

  /** After a substitution the screen reloads the exercise named by
      `exerciseId` (`fetched` is what the lookup returned) with 2 sets,
      10 reps and 60 seconds of rest wherever the body leaves those out. */
  function SubstitutedExercise(body: Body, fetched: Option<Exercise>): (shown: Option<ShownExercise>)
    ensures shown.Some? <==> Truthy(body.exerciseId) && fetched.Some?
    ensures shown.Some? ==> shown.value.exercise == fetched.value
    ensures shown.Some? ==> shown.value.sets == (if NumberTruthy(body.sets) then body.sets.value else 2)
    ensures shown.Some? ==> shown.value.reps == (if NumberTruthy(body.reps) then body.reps.value else 10)
    ensures shown.Some? ==> shown.value.restSeconds == (if NumberTruthy(body.restSeconds) then body.restSeconds.value else 60)
  {
    if Truthy(body.exerciseId) && fetched.Some? then
      Some(ShownExercise(fetched.value, NumberOr(body.sets, 2), NumberOr(body.reps, 10), NumberOr(body.restSeconds, 60)))
    else None
  }

  /** The route's substitution body carries no `exerciseId`, so the screen
      never reloads the substitute. */
  lemma SubstituteNeverReloaded(from: string, to: string, fetched: Option<Exercise>)
    ensures SubstitutedExercise(ResponseBody(Substituted(from, to)), fetched).None?
  {
  }

  /** The rest timer: minutes, a colon, and seconds padded to two digits. */
  function FormatRest(seconds: nat): (text: string)
    ensures |text| >= 4 && text[|text| - 3] == ':'
    ensures AllDigits(text[..|text| - 3]) && AllDigits(text[|text| - 2..])
    ensures Value(text[..|text| - 3]) == seconds / 60
    ensures Value(text[|text| - 2..]) == seconds % 60
    // the minutes are written without leading zeros
    ensures |text| == 4 || text[0] != '0'
  {
    var minutes := NatToString(seconds / 60);
    var secs := NatToString(seconds % 60);
    NatToStringRoundTrip(seconds / 60);
    NatToStringRoundTrip(seconds % 60);
    PadStart2Value(secs);
    var text := minutes + ":" + PadStart2(secs);
    assert text[..|text| - 3] == minutes;
    assert text[|text| - 2..] == PadStart2(secs);
    text
  }

  /** Reads a timer text back into seconds. */
  function ParseRest(text: string): Option<int> {
    if |text| >= 4 && text[|text| - 3] == ':' && AllDigits(text[..|text| - 3]) && AllDigits(text[|text| - 2..])
    then Some(Value(text[..|text| - 3]) * 60 + Value(text[|text| - 2..]))
    else None
  }

  /** The timer text loses nothing: reading it back gives the seconds. */
  lemma FormatRestRoundTrip(seconds: nat)
    ensures ParseRest(FormatRest(seconds)) == Some(seconds)
  {
  }

  /** The timer is shown only for a rest time above zero. */
  function RestDisplay(rest: Option<int>): (shown: Option<string>)
    ensures shown.Some? <==> rest.Some? && rest.value > 0
    ensures shown.Some? ==> ParseRest(shown.value) == Some(rest.value)
  {
    if rest.Some? && rest.value > 0 then
      FormatRestRoundTrip(rest.value);
      Some(FormatRest(rest.value))
    else None
  }
}
