/** The "set completed" transition of app/api/advance-exercise/route.ts.

    Store reads become arguments: `state` is the session-state row looked up
    by id (None when there is none), `program` the exercise list of the
    program the route resolved (None when absent), `catalog` the exercises
    table keyed by id. The two ledger helpers the route imports are not part
    of this model, so their answers are arguments too: `available` is what
    the availability check says about the next exercise's equipment and
    `alternative` what the substitute search returns. `decisionError` is the
    store's error when saving the substitution decision fails (the helper
    throws), None when it succeeds. Store writes become the returned outcome:
    the updated state row (if any), the JSON response, and the decision and
    alert rows inserted, in order. */
module AdvanceExercise {
  import opened Records
  import opened Supabase

  /** The JSON request body. */
  datatype Request = Request(sessionStateId: string, sessionId: string, clientId: string)

  /** The JSON response; `Failed` is the status-500 `{error}` body. */
  datatype Response =
    | ProgramComplete
    | Substituted(from: string, to: string)
    | Wait(exercise: string)
    | Advanced(exercise: string)
    | NextSet(nextSet: int, restSeconds: int)
    | Failed(error: string)

  function StatusCode(r: Response): int {
    if r.Failed? then 500 else 200
  }

  datatype Outcome = Outcome(write: Option<SessionState>, response: Response, decisions: seq<DecisionRow>, alerts: seq<AlertRow>)

  const StateNotFound := "Session state not found"
  const NoProgram := "No program found"
  const ExerciseNotFound := "Exercise not found"
  /** Reading `.sets` of the program entry at an index the list does not have. */
  const UndefinedEntry := "Cannot read properties of undefined (reading 'sets')"

  /** The update of the set branch: rest starts, the set count moves on.
      Index, equipment and RPE are left as they were. */
  function Rested(s: SessionState, restSeconds: int): SessionState {
    s.(currentSet := s.currentSet + 1, status := Resting, restRemaining := Some(restSeconds))
  }

  /** The update of the completion branch. */
  function Completed(s: SessionState): SessionState {
    s.(status := Complete, equipmentInUse := [])
  }

  /** The update that starts the exercise at `next` holding `equipment`. */
  function Started(s: SessionState, next: int, equipment: seq<string>): SessionState {
    s.(exerciseIndex := next, currentSet := 1, equipmentInUse := equipment, status := Active)
  }

  function SubstitutionDecision(req: Request, from: Exercise, to: Exercise): DecisionRow {
    SaveDecision(DecisionInput(
      Some(req.sessionId), Some(req.clientId), "Auto-system", Some("equipment_conflict"),
      from.name + " equipment occupied", None, None, "Auto-substituted: " + to.name,
      Some(false), Some(true)))
  }

  function SubstitutionAlert(req: Request, from: Exercise, to: Exercise): AlertRow {
    AlertRow(req.sessionId, req.clientId, "equipment_conflict",
      "Auto-substituted " + from.name + " \U{2192} " + to.name + " (equipment conflict)", false)
  }

  function WaitingAlert(req: Request, blocked: Exercise): AlertRow {
    AlertRow(req.sessionId, req.clientId, "equipment_conflict",
      blocked.name + " equipment occupied - no alternatives available", true)
  }

  /** The error exits that precede every write: the state row, the program
      and the entry at the current index must all be there. */
  predicate Loaded(state: Option<SessionState>, program: Option<seq<ProgramEntry>>) {
    && state.Some?
    && program.Some?
    && 0 <= state.value.exerciseIndex < |program.value|
  }

  /** The `POST` handler. */
  function Advance(
    req: Request,
    state: Option<SessionState>,
    program: Option<seq<ProgramEntry>>,
    catalog: map<string, Exercise>,
    available: bool,
    alternative: Option<Exercise>,
    decisionError: Option<string>): (o: Outcome)
    // a failure reports one of the route's own messages or the store's error verbatim
    ensures o.response.Failed? ==>
      || o.response.error in {StateNotFound, NoProgram, UndefinedEntry, ExerciseNotFound}
      || (decisionError.Some? && o.response.error == decisionError.value)
    // a missing row stops the call before anything is written or logged
    ensures !Loaded(state, program) ==> o.write.None? && o.decisions == [] && o.alerts == [] && o.response.Failed?
    // the only failure after a write is a failed decision save, reported verbatim
    ensures o.response.Failed? && o.write.Some? ==> decisionError.Some? && o.response.error == decisionError.value
    // a write goes to the loaded row and never touches its identity or RPE
    ensures o.write.Some? ==> (
      && state.Some?
      && o.write.value.id == state.value.id
      && o.write.value.sessionId == state.value.sessionId
      && o.write.value.clientId == state.value.clientId
      && o.write.value.rpe == state.value.rpe)
    // per call the index grows by at most one and never falls
    ensures o.write.Some? ==>
      o.write.value.exerciseIndex == state.value.exerciseIndex || o.write.value.exerciseIndex == state.value.exerciseIndex + 1
    // the set moves on by one, restarts at one, or stays
    ensures o.write.Some? ==>
      o.write.value.currentSet in {state.value.currentSet + 1, 1, state.value.currentSet}
    // at most one decision and one alert, and never a decision without its alert
    ensures |o.decisions| <= 1 && |o.alerts| <= 1 && (|o.decisions| == 1 ==> |o.alerts| == 1)
    // a waiting client is never written
    ensures o.response.Wait? ==> o.write.None?
  {
    if state.None? then Outcome(None, Failed(StateNotFound), [], [])
    else if program.None? then Outcome(None, Failed(NoProgram), [], [])
    else
      var s := state.value;
      var entries := program.value;
      if !(0 <= s.exerciseIndex < |entries|) then Outcome(None, Failed(UndefinedEntry), [], [])
      else
        var current := entries[s.exerciseIndex];
        if s.currentSet >= current.sets then
          var next := s.exerciseIndex + 1;
          if next >= |entries| then Outcome(Some(Completed(s)), ProgramComplete, [], [])
          else if entries[next].exerciseId !in catalog then Outcome(None, Failed(ExerciseNotFound), [], [])
          else
            var e := catalog[entries[next].exerciseId];
            if !available then
              match alternative
              case Some(alt) =>
                var w := Started(s, next, alt.requiredEquipment);
                if decisionError.Some? then Outcome(Some(w), Failed(decisionError.value), [], [])
                else Outcome(Some(w), Substituted(e.name, alt.name),
                  [SubstitutionDecision(req, e, alt)], [SubstitutionAlert(req, e, alt)])
              case None => Outcome(None, Wait(e.name), [], [WaitingAlert(req, e)])
            else Outcome(Some(Started(s, next, e.requiredEquipment)), Advanced(e.name), [], [])
        else
          Outcome(Some(Rested(s, current.restSeconds)), NextSet(s.currentSet + 1, current.restSeconds), [], [])
  }

  /** The fields of a JSON response body that its caller reads; booleans
      are false and optional fields None when the route leaves them out. */
  datatype Body = Body(
    error: Option<string>,
    message: Option<string>,
    complete: bool,
    substituted: bool,
    waiting: bool,
    advanced: bool,
    nextSet: Option<int>,
    from: Option<string>,
    to: Option<string>,
    exercise: Option<string>,
    restSeconds: Option<int>,
    exerciseId: Option<string>,
    sets: Option<int>,
    reps: Option<int>)

  const EmptyBody := Body(None, None, false, false, false, false, None, None, None, None, None, None, None, None)

  /** The body `NextResponse.json` sends for each response. Completion sends
      only a message. */
  function ResponseBody(r: Response): Body {
    match r
    case ProgramComplete => EmptyBody.(message := Some("Program complete!"))
    case Substituted(from, to) => EmptyBody.(substituted := true, from := Some(from), to := Some(to))
    case Wait(exercise) => EmptyBody.(waiting := true, exercise := Some(exercise))
    case Advanced(exercise) => EmptyBody.(advanced := true, exercise := Some(exercise))
    case NextSet(nextSet, restSeconds) => EmptyBody.(nextSet := Some(nextSet), restSeconds := Some(restSeconds))
    case Failed(error) => EmptyBody.(error := Some(error))
  }

  /** The completion body with the `complete` flag its caller looks for. */
  function ResponseBodyFixed(r: Response): (b: Body)
    ensures b.complete <==> r == ProgramComplete
    ensures r != ProgramComplete ==> b == ResponseBody(r)
  {
    if r == ProgramComplete then ResponseBody(r).(complete := true) else ResponseBody(r)
  }

  // ---------------------------------------------------------------------
  // The branches

  /** Sets remain: the set count moves on, rest starts with the entry's rest
      time, and index and equipment are untouched (equipment is not
      released during rest). */
  lemma SetAdvance(req: Request, s: SessionState, p: seq<ProgramEntry>, catalog: map<string, Exercise>,
    available: bool, alternative: Option<Exercise>, decisionError: Option<string>)
    requires 0 <= s.exerciseIndex < |p| && s.currentSet < p[s.exerciseIndex].sets
    ensures var o := Advance(req, Some(s), Some(p), catalog, available, alternative, decisionError);
      && o.write.Some?
      && o.write.value.currentSet == s.currentSet + 1
      && o.write.value.status == Resting
      && o.write.value.restRemaining == Some(p[s.exerciseIndex].restSeconds)
      && o.write.value.exerciseIndex == s.exerciseIndex
      && o.write.value.equipmentInUse == s.equipmentInUse
      && o.response == NextSet(s.currentSet + 1, p[s.exerciseIndex].restSeconds)
      && o.decisions == [] && o.alerts == []
  {
  }

  /** The exercise counts as finished as soon as the set count reaches the
      entry's sets, and any count past it too: the set branch is taken
      exactly when the count is below. */
  lemma FinishedAtOrPastSets(req: Request, s: SessionState, p: seq<ProgramEntry>, catalog: map<string, Exercise>,
    available: bool, alternative: Option<Exercise>, decisionError: Option<string>)
    requires 0 <= s.exerciseIndex < |p|
    ensures Advance(req, Some(s), Some(p), catalog, available, alternative, decisionError).response.NextSet?
      <==> s.currentSet < p[s.exerciseIndex].sets
  {
  }

  /** The last exercise finished: status becomes complete and equipment is
      released; index, set, rest and RPE keep their values. Nothing is
      logged. */
  lemma CompleteProgram(req: Request, s: SessionState, p: seq<ProgramEntry>, catalog: map<string, Exercise>,
    available: bool, alternative: Option<Exercise>, decisionError: Option<string>)
    requires s.exerciseIndex == |p| - 1 && |p| > 0 && s.currentSet >= p[s.exerciseIndex].sets
    ensures var o := Advance(req, Some(s), Some(p), catalog, available, alternative, decisionError);
      && o == Outcome(Some(s.(status := Complete, equipmentInUse := [])), ProgramComplete, [], [])
  {
  }

  /** Advancing a completed client again gives the very same outcome, whatever
      the ledger says: the completion is idempotent. */
  lemma CompletionIdempotent(req: Request, s: SessionState, p: seq<ProgramEntry>, catalog: map<string, Exercise>,
    available: bool, alternative: Option<Exercise>, decisionError: Option<string>,
    catalog': map<string, Exercise>, available': bool, alternative': Option<Exercise>, decisionError': Option<string>)
    requires Advance(req, Some(s), Some(p), catalog, available, alternative, decisionError).response == ProgramComplete
    ensures var o := Advance(req, Some(s), Some(p), catalog, available, alternative, decisionError);
      && o.write.Some?
      && Advance(req, o.write, Some(p), catalog', available', alternative', decisionError') == o
  {
  }

  /** The next exercise's equipment is free: the client starts it at set 1,
      active, holding exactly its required equipment. */
  lemma AdvanceWhenAvailable(req: Request, s: SessionState, p: seq<ProgramEntry>, catalog: map<string, Exercise>,
    alternative: Option<Exercise>, decisionError: Option<string>)
    requires 0 <= s.exerciseIndex < |p| - 1 && s.currentSet >= p[s.exerciseIndex].sets
    requires p[s.exerciseIndex + 1].exerciseId in catalog
    ensures var o := Advance(req, Some(s), Some(p), catalog, true, alternative, decisionError);
      var e := catalog[p[s.exerciseIndex + 1].exerciseId];
      && o.write == Some(s.(exerciseIndex := s.exerciseIndex + 1, currentSet := 1, status := Active,
        equipmentInUse := e.requiredEquipment))
      && o.response == Advanced(e.name)
      && o.decisions == [] && o.alerts == []
  {
  }

  /** A conflict with an alternative: the client moves on to the next index
      holding the alternative's equipment (its identity is not stored), one
      automatic approved decision and one alert needing no action are
      logged. */
  lemma SubstituteOnConflict(req: Request, s: SessionState, p: seq<ProgramEntry>, catalog: map<string, Exercise>,
    alt: Exercise)
    requires 0 <= s.exerciseIndex < |p| - 1 && s.currentSet >= p[s.exerciseIndex].sets
    requires p[s.exerciseIndex + 1].exerciseId in catalog
    ensures var o := Advance(req, Some(s), Some(p), catalog, false, Some(alt), None);
      var e := catalog[p[s.exerciseIndex + 1].exerciseId];
      && o.write == Some(s.(exerciseIndex := s.exerciseIndex + 1, currentSet := 1, status := Active,
        equipmentInUse := alt.requiredEquipment))
      && o.response == Substituted(e.name, alt.name)
      && |o.decisions| == 1
      && o.decisions[0].triggerType == "equipment_conflict"
      && !o.decisions[0].requiresApproval && o.decisions[0].approved
      && |o.alerts| == 1
      && o.alerts[0].alertType == "equipment_conflict" && !o.alerts[0].requiresAction
  {
  }

  /** A conflict with no alternative: nothing is written, the coach gets one
      alert that needs action, and the client is told to wait. */
  lemma WaitOnConflict(req: Request, s: SessionState, p: seq<ProgramEntry>, catalog: map<string, Exercise>,
    decisionError: Option<string>)
    requires 0 <= s.exerciseIndex < |p| - 1 && s.currentSet >= p[s.exerciseIndex].sets
    requires p[s.exerciseIndex + 1].exerciseId in catalog
    ensures var o := Advance(req, Some(s), Some(p), catalog, false, None, decisionError);
      var e := catalog[p[s.exerciseIndex + 1].exerciseId];
      && o == Outcome(None, Wait(e.name), [], [o.alerts[0]])
      && o.alerts[0].requiresAction
  {
  }

  /** A missing state, program, current entry or next exercise ends the call
      with a 500 before anything is written. */
  lemma MissingRowsFail(req: Request, state: Option<SessionState>, p: Option<seq<ProgramEntry>>,
    catalog: map<string, Exercise>, available: bool, alternative: Option<Exercise>, decisionError: Option<string>)
    requires
      || !Loaded(state, p)
      || (var s := state.value; var i := s.exerciseIndex;
          && s.currentSet >= p.value[i].sets && i + 1 < |p.value| && p.value[i + 1].exerciseId !in catalog)
    ensures var o := Advance(req, state, p, catalog, available, alternative, decisionError);
      && o.write.None? && o.decisions == [] && o.alerts == [] && StatusCode(o.response) == 500
    // each missing row has its own message, checked in this order
    ensures var o := Advance(req, state, p, catalog, available, alternative, decisionError);
      && (state.None? ==> o.response == Failed(StateNotFound))
      && (state.Some? && p.None? ==> o.response == Failed(NoProgram))
      && (state.Some? && p.Some? && !(0 <= state.value.exerciseIndex < |p.value|) ==> o.response == Failed(UndefinedEntry))
      && (Loaded(state, p) ==> o.response == Failed(ExerciseNotFound))
  {
  }

  // ---------------------------------------------------------------------
  // An invariant the transition keeps, and the work left in a program

  /** A state that makes sense for its program: the index names an entry,
      sets are counted from 1, and a completed client sits at the finished
      last entry with nothing held. */
  predicate Consistent(s: SessionState, p: seq<ProgramEntry>) {
    && 0 <= s.exerciseIndex < |p|
    && s.currentSet >= 1
    && (s.status == Complete ==>
         && s.exerciseIndex == |p| - 1
         && s.currentSet >= p[s.exerciseIndex].sets
         && s.equipmentInUse == [])
  }

  /** Calls an entry takes from its first set to leaving it: an entry whose
      set count is 0 or less still takes one. */
  function CallsFor(e: ProgramEntry): nat {
    if e.sets > 1 then e.sets else 1
  }

  /** Calls needed by the entries from `from` onwards. */
  function CallsFrom(p: seq<ProgramEntry>, from: int): nat
    requires 0 <= from <= |p|
    decreases |p| - from
  {
    if from == |p| then 0 else CallsFor(p[from]) + CallsFrom(p, from + 1)
  }

  /** Successful advances left before the completing call: the sets left in
      the current entry plus every later entry's calls. */
  function Remaining(s: SessionState, p: seq<ProgramEntry>): nat
    requires 0 <= s.exerciseIndex < |p|
  {
    var left := p[s.exerciseIndex].sets - s.currentSet;
    CallsFrom(p, s.exerciseIndex + 1) + (if left > 0 then left else 0)
  }

  lemma {:induction false} CallsFromZero(p: seq<ProgramEntry>, from: int)
    requires 0 <= from <= |p|
    ensures CallsFrom(p, from) >= |p| - from
    ensures CallsFrom(p, from) == 0 <==> from == |p|
    decreases |p| - from
  {
    if from < |p| {
      CallsFromZero(p, from + 1);
    }
  }

  /** Every write keeps a consistent state consistent; each advance that
      moves the client on uses up exactly one remaining call, and the program
      is reported complete exactly when none remain. */
  lemma AdvanceProgress(req: Request, s: SessionState, p: seq<ProgramEntry>, catalog: map<string, Exercise>,
    available: bool, alternative: Option<Exercise>, decisionError: Option<string>)
    requires Consistent(s, p)
    ensures var o := Advance(req, Some(s), Some(p), catalog, available, alternative, decisionError);
      && (o.write.Some? ==> Consistent(o.write.value, p))
      && (o.write.Some? && o.write.value.status != Complete ==>
            Remaining(o.write.value, p) + 1 == Remaining(s, p))
      && (o.response == ProgramComplete <==> Remaining(s, p) == 0)
  {
    var o := Advance(req, Some(s), Some(p), catalog, available, alternative, decisionError);
    var i := s.exerciseIndex;
    CallsFromZero(p, i + 1);
    if o.write.Some? && o.write.value.status != Complete && s.currentSet >= p[i].sets {
      var w := o.write.value;
      assert w.exerciseIndex == i + 1 && w.currentSet == 1;
      CallsFromZero(p, i + 2);
      assert CallsFrom(p, i + 1) == CallsFor(p[i + 1]) + CallsFrom(p, i + 2);
    }
  }

  /** `n` calls in a row by a client whose equipment is always free. */
  function AdvanceTimes(req: Request, s: SessionState, p: seq<ProgramEntry>, catalog: map<string, Exercise>, n: nat): SessionState
    decreases n
  {
    if n == 0 then s
    else
      var o := Advance(req, Some(s), Some(p), catalog, true, None, None);
      AdvanceTimes(req, o.write.GetOr(s), p, catalog, n - 1)
  }

  /** With free equipment and every exercise in the catalog, a consistent
      client is complete after exactly one call more than it has remaining. */
  lemma {:induction false} FreeEquipmentCompletes(req: Request, s: SessionState, p: seq<ProgramEntry>,
    catalog: map<string, Exercise>)
    requires Consistent(s, p)
    requires forall k :: 0 <= k < |p| ==> p[k].exerciseId in catalog
    ensures AdvanceTimes(req, s, p, catalog, Remaining(s, p) + 1).status == Complete
    decreases Remaining(s, p)
  {
    var o := Advance(req, Some(s), Some(p), catalog, true, None, None);
    AdvanceProgress(req, s, p, catalog, true, None, None);
    if Remaining(s, p) == 0 {
      assert o.response == ProgramComplete;
    } else {
      assert o.write.Some?;
      var w := o.write.value;
      assert w.status != Complete;
      FreeEquipmentCompletes(req, w, p, catalog);
    }
  }

  // ---------------------------------------------------------------------
  // Which program the route advances through

  /** A session participant as the route's nested select returns it. */
  datatype Participant = Participant(clientId: string, program: Option<seq<ProgramEntry>>)

  /** As written: the program of the session's first participant, whichever
      client is advancing. */
  function RouteProgram(participants: seq<Participant>): (program: Option<seq<ProgramEntry>>)
    ensures |participants| == 0 ==> program.None?
    ensures |participants| > 0 ==> program == participants[0].program
  {
    if |participants| == 0 then None else participants[0].program
  }

  /** A second client advancing through the route is walked through the
      first client's program. */
  lemma RouteProgramIgnoresClient()
    ensures var mine := [ProgramEntry("lunge", "Lunge", [], 2, 10, 60, 0)];
      var theirs := [ProgramEntry("deadlift", "Trap Bar Deadlift", ["Trap Bar"], 3, 5, 120, 0)];
      var ps := [Participant("c1", Some(theirs)), Participant("c2", Some(mine))];
      RouteProgram(ps) == Some(theirs) && RouteProgram(ps) != ClientProgram(ps, "c2")
  {
  }

  /** The program of the advancing client's own participant row (the first
      such row), as the client screen looks it up. */
  function ClientProgram(participants: seq<Participant>, clientId: string): (program: Option<seq<ProgramEntry>>)
    ensures (forall k :: 0 <= k < |participants| ==> participants[k].clientId != clientId) ==> program.None?
    ensures forall k :: (0 <= k < |participants| && participants[k].clientId == clientId
      && (forall j :: 0 <= j < k ==> participants[j].clientId != clientId)) ==> program == participants[k].program
  {
    if |participants| == 0 then None
    else if participants[0].clientId == clientId then participants[0].program
    else ClientProgram(participants[1..], clientId)
  }

  /** Other clients' participant rows never change which program a client is
      advanced through. */
  lemma {:induction false} ClientProgramIgnoresOthers(participants: seq<Participant>, clientId: string, k: nat, other: Participant)
    requires k < |participants| && participants[k].clientId != clientId && other.clientId != clientId
    ensures ClientProgram(participants[k := other], clientId) == ClientProgram(participants, clientId)
    decreases k
  {
    if k > 0 {
      if participants[0].clientId != clientId {
        assert participants[k := other][1..] == participants[1..][k - 1 := other];
        ClientProgramIgnoresOthers(participants[1..], clientId, k - 1, other);
      }
    }
  }
}
