/** Shared records of the training-session store: the session-state row of one
    client, program entries, exercises, equipment, decisions and alerts.
    Nullable columns and optional JSON fields are `Option`s. */
module Records {

  datatype Option<+T> = None | Some(value: T) {
    function GetOr(default: T): T {
      match this
      case Some(v) => v
      case None => default
    }
  }

  /** JavaScript `n || d` for a nullable number: an absent value and 0 are
      both falsy and give way to the default. */
  function NumberOr(n: Option<int>, default: int): (r: int)
    ensures n.Some? && n.value != 0 ==> r == n.value
    ensures (n.None? || n.value == 0) ==> r == default
  {
    if n.Some? && n.value != 0 then n.value else default
  }

  /** JavaScript truthiness of a nullable string: absent and "" are falsy. */
  predicate Truthy(s: Option<string>) {
    s.Some? && s.value != ""
  }

  /** JavaScript truthiness of a nullable number: absent and 0 are falsy. */
  predicate NumberTruthy(n: Option<int>) {
    n.Some? && n.value != 0
  }

  /** The `status` column of a session state. */
  datatype Status = Ready | Active | Resting | Waiting | Complete

  /** One row of `session_state`: the progress of one client in one session. */
  datatype SessionState = SessionState(
    id: string,
    sessionId: string,
    clientId: string,
    exerciseIndex: int,
    currentSet: int,
    status: Status,
    equipmentInUse: seq<string>,
    restRemaining: Option<int>,
    rpe: Option<int>)

  /** One element of a program's `exercises` JSON array. */
  datatype ProgramEntry = ProgramEntry(
    exerciseId: string,
    exerciseName: string,
    requiredEquipment: seq<string>,
    sets: int,
    reps: int,
    restSeconds: int,
    order: int)

  /** A row of the `exercises` catalog. */
  datatype Exercise = Exercise(id: string, name: string, requiredEquipment: seq<string>)

  /** A row of the `equipment` table. */
  datatype EquipmentItem = EquipmentItem(name: string, quantity: int)

  /** A row inserted into `decisions`. Absent session or client ids are null. */
  datatype DecisionRow = DecisionRow(
    sessionId: Option<string>,
    clientId: Option<string>,
    triggerType: string,
    scenario: string,
    aiDecision: string,
    requiresApproval: bool,
    approved: bool)

  /** A row inserted into `alerts`. */
  datatype AlertRow = AlertRow(
    sessionId: string,
    clientId: string,
    alertType: string,
    message: string,
    requiresAction: bool)
}
