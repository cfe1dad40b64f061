/** The Postgres decision log of lib/db.ts: the `saveDecision` helper that the
    decision route calls. The insert itself is not modelled; the result is the
    row the `decisions` table receives. */
module Db {
  import opened Records

  /** The argument object of `saveDecision`; optional fields are Options. */
  datatype DecisionData = DecisionData(
    sessionId: Option<int>,
    clientName: string,
    scenario: string,
    equipmentStatus: Option<string>,
    timeRemaining: Option<int>,
    aiDecision: string,
    accepted: Option<bool>,
    overrideReason: Option<string>)

  /** A row of the `decisions` table as inserted (id and timestamp left out). */
  datatype StoredDecision = StoredDecision(
    sessionId: Option<int>,
    clientName: string,
    scenario: string,
    equipmentStatus: Option<string>,
    timeRemaining: Option<int>,
    aiDecision: string,
    accepted: bool,
    overrideReason: Option<string>)

  /** A falsy optional string is stored as null. */
  function StringOrNull(s: Option<string>): Option<string> {
    if Truthy(s) then s else None
  }

  /** A falsy optional number (absent or 0) is stored as null. */
  function NumberOrNull(n: Option<int>): Option<int> {
    if NumberTruthy(n) then n else None
  }

  /** `saveDecision`: the session id, equipment status, time remaining and
      override reason fall back to null with `||`; `accepted` falls back to
      true with `??`, so an explicit false is kept. */
  function SaveDecision(data: DecisionData): (row: StoredDecision)
    ensures row.clientName == data.clientName && row.scenario == data.scenario && row.aiDecision == data.aiDecision
    ensures row.sessionId.Some? <==> NumberTruthy(data.sessionId)
    ensures row.equipmentStatus.Some? <==> Truthy(data.equipmentStatus)
    ensures row.timeRemaining.Some? <==> NumberTruthy(data.timeRemaining)
    ensures row.overrideReason.Some? <==> Truthy(data.overrideReason)
    ensures row.sessionId.Some? ==> row.sessionId == data.sessionId
    ensures row.equipmentStatus.Some? ==> row.equipmentStatus == data.equipmentStatus
    ensures row.timeRemaining.Some? ==> row.timeRemaining == data.timeRemaining
    ensures row.overrideReason.Some? ==> row.overrideReason == data.overrideReason
    ensures row.accepted <==> data.accepted != Some(false)
  {
    StoredDecision(
      NumberOrNull(data.sessionId),
      data.clientName,
      data.scenario,
      StringOrNull(data.equipmentStatus),
      NumberOrNull(data.timeRemaining),
      data.aiDecision,
      data.accepted.GetOr(true),
      StringOrNull(data.overrideReason))
  }

  /** The arguments that would store a row again. */
  function Resubmitted(row: StoredDecision): DecisionData {
    DecisionData(row.sessionId, row.clientName, row.scenario, row.equipmentStatus, row.timeRemaining,
      row.aiDecision, Some(row.accepted), row.overrideReason)
  }

  /** Saving a stored row's own values stores that same row: the defaults
      are idempotent. */
  lemma SaveDecisionStable(data: DecisionData)
    ensures SaveDecision(Resubmitted(SaveDecision(data))) == SaveDecision(data)
  {
  }

  /** Unlike the store helper of lib/supabase.ts, this one keeps every truthy
      piece of context it is given. */
  lemma SaveDecisionKeepsContext(data: DecisionData)
    requires Truthy(data.equipmentStatus) && NumberTruthy(data.timeRemaining)
    ensures var row := SaveDecision(data);
      row.equipmentStatus == data.equipmentStatus && row.timeRemaining == data.timeRemaining
  {
  }
}
