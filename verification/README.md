# SGPT session-state model

A Dafny model of the logic at the heart of the SGPT small-group personal
training app. Each client in a session has a session-state row: the program
entry they are on, the set, a status, the equipment they hold, the rest left
and their last reported exertion (RPE). The model covers:

- the "set completed" transition of the advance-exercise route: next set,
  next exercise, automatic substitution, waiting for equipment, or program
  complete, together with the decision and alert records it writes;
- the two equipment ledgers. The store helper counts only active states, of
  every session. The coach dashboard counts every state of one session,
  whatever its status;
- the two decision-log helpers and their defaults: the Supabase one
  (lib/supabase.ts) used by the advance route, and the Postgres one
  (lib/db.ts) used by the decision route;
- the client screen: the RPE rest extension and its coach alert, the pain
  flag, how the advance route's answer is announced, the defaults after a
  substitution, and the `m:ss` rest timer;
- the coach dashboard: countdown clamp, red highlight, availability badge
  and display defaults;
- session setup: choosing at most six clients, grouping programs by client,
  the participant and initial state rows;
- the program builder's add, remove, update and save;
- the decision route: scenario validation, the prompt message, the fallback
  text, and the save whose failure is swallowed.

Store reads become snapshot arguments; store writes become returned records.
Two things the route consults are not part of this model. The
equipment-availability check and the alternative-exercise search that the
advance route imports are not defined in lib/supabase.ts, so their answers
are arguments (`available`, `alternative`). The language-model call of the
decision route is its `completion` argument. Nothing here is executed; the
properties are proved by the Dafny verifier.

Modules follow the source files: `Records` (shared rows and JavaScript
`||` truthiness), `Decimal` (number-to-text and zero padding), `Supabase`, `Db`,
`AdvanceExercise`, `ClientPage`, `LiveSession`, `SessionSetup`,
`ProgramsPage`, `DecisionRoute`.

### Behaviour of the code worth knowing

- The set branch keeps `equipment_in_use` and does not clear the RPE.
- With no alternative, the route writes nothing: the status does not become
  `waiting` and the equipment is not released.
- When saving the substitution decision fails, the route answers 500. The
  state has already been written, and no alert follows.
- The store helper's ledger counts `active` states only, across all
  sessions. The dashboard counts every status in its own session. Resting
  holders are therefore free for one and taken for the other.
- Response bodies carry no `totalSets`, `conflicts`, `reason`, `sets`,
  `reps` or `exerciseId`. The completion body is `{message}` (see Findings).
- The setup page's "most recent" program is simply the first one the store
  returns for the client.
- There are two `saveDecision` helpers. The advance route logs through
  lib/supabase.ts's. It stores neither the client name, the equipment status
  nor the time remaining it is given, and has no `accepted` field. The
  decision route saves through lib/db.ts's. It stores the client name, the
  scenario and the decision, the equipment status and time remaining when
  they are truthy, and `accepted`, which the route sets to true.
- A stored rest of 0 is replaced by 90 before the RPE extension is added
  (`|| 90`).

## Model

| member | source | states |
|---|---|---|
| AdvanceExercise.Advance | app/api/advance-exercise/route.ts:12-168 | A failure reports one of the route's own messages (state, program, entry or exercise not found) or the decision store's error verbatim. A missing state, program or current entry writes and logs nothing. The only failure after a write is a failed decision save, reported with the store's message. A write keeps the row's identity and RPE. The index stays or grows by one. The set moves on by one, restarts at 1 or stays. At most one decision and one alert are written, never a decision without an alert. A waiting client is never written. |
| AdvanceExercise.SetAdvance | app/api/advance-exercise/route.ts:147-161 | With sets left: set + 1, status resting, rest = the entry's rest seconds, and index and equipment unchanged. The answer is `{nextSet, restSeconds}` and nothing is logged. |
| AdvanceExercise.FinishedAtOrPastSets | app/api/advance-exercise/route.ts:41-43 | The set branch is taken exactly when the set count is below the entry's sets. Any count at or past it finishes the exercise. |
| AdvanceExercise.CompleteProgram | app/api/advance-exercise/route.ts:43-52 | Finishing the last entry sets status complete and releases all equipment. Index, set, rest and RPE keep their values, and nothing is logged. |
| AdvanceExercise.CompletionIdempotent | app/api/advance-exercise/route.ts:41-52 | Advancing the completed row again gives the identical outcome, whatever the ledger and catalog say. |
| AdvanceExercise.AdvanceWhenAvailable | app/api/advance-exercise/route.ts:131-145 | With free equipment: index + 1, set 1, status active, holding exactly the next exercise's equipment. The answer is `{advanced, exercise}` and nothing is logged. |
| AdvanceExercise.SubstituteOnConflict | app/api/advance-exercise/route.ts:68-111 | On a conflict with an alternative, the row advances the same way but holds the alternative's equipment. One approved `equipment_conflict` decision needing no approval and one alert needing no action are logged. |
| AdvanceExercise.WaitOnConflict | app/api/advance-exercise/route.ts:112-128 | On a conflict without an alternative, nothing is written and one alert needing action is logged. The answer is `{waiting, exercise}`. |
| AdvanceExercise.MissingRowsFail | app/api/advance-exercise/route.ts:30-63 | A missing state, program, current entry or next exercise ends in a 500 before any write or log, each with its own message: "Session state not found", "No program found", the undefined-entry error, "Exercise not found", checked in that order. |
| AdvanceExercise.AdvanceProgress | app/api/advance-exercise/route.ts:41-161 | Every write keeps a consistent row consistent. Each non-completing write uses up exactly one remaining call. Completion is answered exactly when none remain. |
| AdvanceExercise.FreeEquipmentCompletes | app/api/advance-exercise/route.ts:41-161 | With equipment always free, a consistent client is complete after its remaining calls plus one. |
| AdvanceExercise.RouteProgramIgnoresClient | app/api/advance-exercise/route.ts:32 | Counterexample: the route walks a second client through the first participant's program. |
| AdvanceExercise.ClientProgram | app/api/advance-exercise/route.ts:32 | The program of the advancing client's own first participant row, or none when the client has no row. |
| AdvanceExercise.ClientProgramIgnoresOthers | app/api/advance-exercise/route.ts:32 | Replacing another client's participant row never changes the program a client is advanced through. |
| AdvanceExercise.ResponseBodyFixed | app/api/advance-exercise/route.ts:52 | The body carries the `complete` flag exactly for program completion. Every other body is unchanged. |
| Supabase.TallyInUse | lib/supabase.ts:80-86 | Each name maps to the number of its occurrences over all the states' lists, duplicates counted separately. A name never held reads as 0. |
| Supabase.ActiveStatesMembers | lib/supabase.ts:74-77 | A state is selected exactly when it is in the store and active. |
| Supabase.GetEquipmentAvailability | lib/supabase.ts:69-98 | One row per equipment item in catalog order; none when the read gave nothing. In use = units held by active states. Available = quantity − in use, possibly negative. Available exactly when that is positive. |
| Supabase.SaveDecision | lib/supabase.ts:113-123 | Empty or absent ids become null. An empty or absent trigger becomes `manual`. Absent flags give no approval needed and approved, while an explicit false is kept. Scenario and decision text are stored verbatim. |
| Supabase.SaveDecisionDropsContext | lib/supabase.ts:101-123 | Client name, equipment status and time remaining never affect the stored row. |
| Db.SaveDecision | lib/db.ts:78-106 | Name, scenario and decision are stored verbatim. A falsy session id, equipment status, time remaining or override reason is stored as null, and a truthy one as given. `accepted` is true unless explicitly false. |
| Db.SaveDecisionStable | lib/db.ts:88-104 | Saving a stored row's own values stores the same row again. |
| Db.SaveDecisionKeepsContext | lib/db.ts:88-104 | Truthy equipment status and time remaining are kept as given. |
| LiveSession.SessionStatesMembers | app/session/live/page.tsx:88-93 | A state is listed exactly when it belongs to the session. |
| LiveSession.LoadEquipmentStatus | app/session/live/page.tsx:100-114 | One entry per equipment row in order. In use = units held by every state of the session, whatever its status. Available = quantity − in use. No equipment read lists nothing. |
| LiveSession.UnheldShowsQuantity | app/session/live/page.tsx:108-112 | An item no state holds shows its full quantity as available, and is badged AVAILABLE exactly when that quantity is positive. |
| LiveSession.LedgerPolicies | app/session/live/page.tsx:100-106 | For one session's states, the active-only ledger never counts more than the dashboard. The two agree when every state is active. |
| LiveSession.LedgerPoliciesDisagree | app/session/live/page.tsx:100-106 | Witness: a resting holder of the only Trap Bar makes the dashboard say IN USE while the active-only ledger counts 0. |
| LiveSession.LedgerPoliciesDisagreeElsewhere | app/session/live/page.tsx:88-106 | Witness: an active holder in another session is counted by the active-only ledger and not by the dashboard of this session. |
| LiveSession.Label | app/session/live/page.tsx:337-339 | AVAILABLE exactly when more than zero are available, IN USE otherwise. |
| LiveSession.TimeRemaining | app/session/live/page.tsx:54-59 | Never negative and never above the duration once the start has passed. The full duration shows during the first minute. |
| LiveSession.TimeRemainingValue | app/session/live/page.tsx:54-59 | During the m-th whole minute after the start the countdown shows the duration less m, or 0 once that is not positive. |
| LiveSession.TimeRemainingMonotone | app/session/live/page.tsx:57-59 | The countdown never goes up as time passes. |
| LiveSession.ShownRed | app/session/live/page.tsx:205 | The countdown is red exactly when fewer than ten whole minutes of the duration are left, and always once time has run out. |
| LiveSession.DisplayIndex | app/session/live/page.tsx:249 | The stored index is shown, or 0 when there is none. |
| LiveSession.DisplaySet | app/session/live/page.tsx:253 | The shown set is never 0: the stored set whenever that is non-zero, and 1 when it is absent or 0. |
| LiveSession.DisplayConsistentRow | app/session/live/page.tsx:249-253 | For a row the advance route keeps consistent, the grid shows exactly the stored exercise and set, and the exercise is one of the program's. |
| LiveSession.MoreHoldersKeepInUse | app/session/live/page.tsx:100-112 | Once an item is badged IN USE, further holders in the session keep it IN USE. |
| ClientPage.RestExtension | app/client/page.tsx:152-157 | 30 seconds exactly for RPE 9 and up, 15 exactly for 8, 0 exactly below 8. |
| ClientPage.RestExtensionMonotone | app/client/page.tsx:152-157 | A harder set never earns less extra rest. |
| ClientPage.BaseRest | app/client/page.tsx:159 | The stored rest when it is non-zero, otherwise 90. |
| ClientPage.SubmitRpe | app/client/page.tsx:147-191 | Without a state nothing happens. Otherwise the RPE is always recorded together with a rest of base + extension, and nothing else in the row changes. The notice shows exactly for RPE 8 and up. One non-action `high_rpe` alert is raised exactly for RPE 9 and up. |
| ClientPage.RpeAfterSetAdvance | app/client/page.tsx:159 | Right after a set advance, an RPE report extends the entry's rest time, or 90 when that is 0, on the advanced resting row. |
| ClientPage.FlagPain | app/client/page.tsx:193-216 | Exactly one `pain` alert needing action, ending with the description verbatim, when there is a state and a non-empty description. Otherwise nothing. The confirmation shows exactly when the alert is raised. |
| ClientPage.ClientAlertsNeedActionOnlyForPain | app/client/page.tsx:176-209 | Of the alerts the client screen raises, exactly the pain alerts need the coach's action. |
| ClientPage.Classify | app/client/page.tsx:235-270 | An error notice exactly when the answer failed, with the body's error or the fixed text. Otherwise complete, substituted, waiting, advanced, next set, in that priority; each is chosen exactly when it is the first truthy flag, and nothing is announced exactly when no flag is set. |
| ClientPage.CompleteSet | app/client/page.tsx:218-222 | The no-state notice appears exactly when no state is loaded. |
| ClientPage.NoticeForRoute | app/client/page.tsx:242-270 | Each route answer gets its own notice, except completion, which gets none. |
| ClientPage.NoticeForFixedRoute | app/client/page.tsx:242-243 | With the `complete` flag the workout-complete notice shows, and every other answer is announced as before. |
| ClientPage.SubstitutedExercise | app/client/page.tsx:247-262 | Reloads only with an `exerciseId` and a found exercise. Sets, reps and rest default to 2, 10 and 60 when falsy. |
| ClientPage.SubstituteNeverReloaded | app/client/page.tsx:248 | The route's substitution body has no `exerciseId`, so the exercise is never reloaded. |
| ClientPage.FormatRest | app/client/page.tsx:402 | Digits, a colon, and exactly two digits. The part before the colon reads as seconds / 60, with no leading zero, and the part after as seconds % 60. |
| ClientPage.FormatRestRoundTrip | app/client/page.tsx:402 | Reading the timer text back gives the seconds. |
| ClientPage.RestDisplay | app/client/page.tsx:398-402 | The timer is shown exactly for a rest above zero and reads back as that rest. |
| Decimal.NatToStringRoundTrip | app/client/page.tsx:402 | The decimal text of a number is all digits and reads back as the number. |
| SessionSetup.ToggleClient | app/session/setup/page.tsx:48-58 | A selected id is removed, the others keep their counts and order. An unselected id is refused when six are selected and appended otherwise. |
| SessionSetup.ToggleKeepsValid | app/session/setup/page.tsx:48-58 | A selection without duplicates and of at most six stays so. |
| SessionSetup.ToggleTwice | app/session/setup/page.tsx:48-58 | Toggling an unselected id twice, with room for it, changes nothing. |
| SessionSetup.GroupPrograms | app/session/setup/page.tsx:28-35 | A client has an entry exactly when it has programs. The entry lists them in fetch order. |
| SessionSetup.ProgramsOfMembers | app/session/setup/page.tsx:30-34 | A client's group holds exactly the fetched programs with that client id. |
| SessionSetup.FirstProgramId | app/session/setup/page.tsx:84-92 | A program id is given exactly when the client's first program has a non-empty id, and it is that id. |
| SessionSetup.FirstProgramOfGroups | app/session/setup/page.tsx:28-92 | On the grouping the page builds, the participant's program is the first of that client's fetched programs (when its id is non-empty), and that program belongs to the client. |
| SessionSetup.Participants | app/session/setup/page.tsx:84-94 | One checked-in participant per selected client, in order, with that client's first program. |
| SessionSetup.InitialStates | app/session/setup/page.tsx:103-110 | One state per selected client, in order: index 0, set 1, ready, holding nothing. |
| SessionSetup.InitialStateConsistent | app/session/setup/page.tsx:103-110 | An initial state satisfies the transition's invariant exactly when the program has an entry. |
| SessionSetup.InitialStateHoldsNothing | app/session/setup/page.tsx:109 | An initial state occupies no unit of any equipment. |
| SessionSetup.StartSession | app/session/setup/page.tsx:60-125 | An empty selection is refused with no inserts. Navigation happens exactly when every insert succeeds, after the session, participants and states are inserted. A failed session insert leaves nothing; a failed participant insert leaves the session row only; a failed state insert leaves the session and all participant rows. Each failure shows a notice and does not navigate. |
| SessionSetup.StartedRowsPair | app/session/setup/page.tsx:84-116 | A started session has one participant and one state row per selected client, pairwise for the same client and all in the inserted session. |
| ProgramsPage.AddExercise | app/programs/page.tsx:35-48 | Exactly one entry is appended with 3 sets, 10 reps, 90 s rest and order = old length; earlier entries are unchanged. |
| ProgramsPage.RemoveExercise | app/programs/page.tsx:50-52 | Exactly position `index` is dropped and the rest keep their order. Length − 1 for a valid index; unchanged otherwise. |
| ProgramsPage.RemoveUndoesAdd | app/programs/page.tsx:35-52 | Removing the entry just added gives the list back. |
| ProgramsPage.RemoveKeepsOrderFields | app/programs/page.tsx:45-51 | Removal does not renumber the `order` fields. |
| ProgramsPage.UpdateExercise | app/programs/page.tsx:54-58 | Only the chosen field of the chosen entry changes. An index outside the list changes nothing. |
| ProgramsPage.UpdateWithSameValue | app/programs/page.tsx:54-58 | Writing a field's current value changes nothing. |
| ProgramsPage.UpdateTwice | app/programs/page.tsx:54-58 | The second of two writes to a field wins. |
| ProgramsPage.SaveProgram | app/programs/page.tsx:60-89 | Inserts exactly when a client, a name and an entry are there, and the row is the form's content. A successful insert clears the form; a refused or failed one keeps it. |
| ProgramsPage.SavedFormNotResaved | app/programs/page.tsx:60-89 | After a successful save, saving again inserts nothing and leaves the form cleared. |
| ProgramsPage.FailedSaveRetries | app/programs/page.tsx:60-89 | After a failed save, a retry inserts the same row as the first attempt. |
| DecisionRoute.UserMessage | app/api/decision/route.ts:167-182 | The message is the client, scenario, equipment and time sections in that order: it opens with the client part verbatim, followed by the whole `Scenario:` section verbatim (heading, scenario, newline). Its length is the sum of theirs. |
| DecisionRoute.ClientNameVerbatim | app/api/decision/route.ts:170-171 | With a client name, the message carries that name verbatim right after `Client: `. |
| DecisionRoute.ScenarioVerbatim | app/api/decision/route.ts:174 | The scenario appears verbatim right after the optional client line and its heading. |
| DecisionRoute.ClientLineFirst | app/api/decision/route.ts:170-174 | The message opens with `Client: ` exactly when a client name is given. |
| DecisionRoute.OptionalLinesLast | app/api/decision/route.ts:176-182 | The equipment and time lines close the message. Each is present exactly when its value is truthy. |
| DecisionRoute.DecisionText | app/api/decision/route.ts:201 | Never empty; the model's content whenever that is non-empty, and "No response generated" when it is missing or empty. |
| DecisionRoute.DecisionTextStable | app/api/decision/route.ts:201 | Taking the fallback twice changes nothing; the fallback text appears exactly when the content is missing, empty, or that very text. |
| DecisionRoute.HandleDecision | app/api/decision/route.ts:155-227 | A missing scenario gives 400 with no model call. Success is 200 exactly when the model answers, returning the decision (or the fallback text). A row is stored exactly on success when the store accepts it. That row names the client (or "Unknown"), holds the scenario and the returned decision, and is accepted. A model error is 500 with no decision and no stored row, and carries the model's message when it has one. |
| DecisionRoute.SaveFailureSwallowed | app/api/decision/route.ts:203-217 | A failed save changes nothing the caller sees (status, error, decision); only the stored row is missing. |
| DecisionRoute.SavedDecisionRow | app/api/decision/route.ts:203-212 | Through lib/db.ts's helper, the saved row has no session and no override reason and is accepted. It names the client or "Unknown", and holds the scenario, the decision text, and the equipment and time exactly when the request gave truthy ones. |

## Left out

- Store queries, realtime subscriptions, `fetch` and the language-model call: replaced by snapshot arguments and returned records.
- lib/db.ts beyond `saveDecision` (table creation, recent decisions, client list): plain SQL with no logic of its own. The `RETURNING *` row is taken to be the inserted values.
- The equipment-availability check and the alternative-exercise search the advance route imports: they are not part of this model, and their answers are arguments.
- React rendering and the wording of `alert` and `prompt` dialogs: only when a notice is shown, and the fields it reports, are modelled.
- Clock and timer: the countdown takes the elapsed milliseconds as an argument.
- `parseInt` and JSON decoding: values arrive already typed (strings, integers, Options for nullable fields).
- Concurrency between simultaneous advance calls: only per-call properties are stated.
- Store errors that the handlers never check (state updates, alert inserts) have no effect and are not modelled.
- Equipment names that collide with built-in JavaScript object properties: the tally is an ordinary map.
- AdvanceExercise.Advance: the route's inner joins are not modelled. The program it resolves is an argument, and `RouteProgram` states how the route picks it.
- AdvanceExercise.Advance: a stored index or set that is not an integer, and a `sets` field that is missing, are not modelled.
- ClientPage.CompleteSet: alert texts (including the `undefined` fields they interpolate) are not modelled, only the notice kind and its fields.
- SessionSetup.StartSession: the failure notice does not include the store's error message.
- ProgramsPage.UpdateExercise: only the three editable fields (sets, reps, rest seconds) are modelled.
- DecisionRoute.HandleDecision: a time remaining sent as text, and `NaN`, are not modelled; the time is an integer and only 0 is falsy.

## Findings

| source | as written | input that shows it | evidently intended | confidence | as-written member | corrected member |
|---|---|---|---|---|---|---|
| app/api/advance-exercise/route.ts:32 | the program is taken from the session's first participant row, whichever client is advancing | two participants c1 (deadlift program) and c2 (lunge program); c2 completes a set | each client advances through their own program | high, not executed | AdvanceExercise.RouteProgramIgnoresClient | AdvanceExercise.ClientProgramIgnoresOthers |
| app/api/advance-exercise/route.ts:52 | completion answers `{message}` only, but the client screen checks `data.complete` | last set of the last entry completed | the client announces that the workout is complete | high, not executed | ClientPage.NoticeForRoute | ClientPage.NoticeForFixedRoute |
