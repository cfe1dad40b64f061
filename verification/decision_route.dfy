/** The coaching-decision route (app/api/decision/route.ts): validating the
    request, building the message sent to the language model, falling back
    when the model says nothing, and saving the decision without letting a
    failed save fail the request. The model call itself is not modelled: its
    result is the `completion` argument. */
module DecisionRoute {
  import opened Records
  import opened Decimal
  import Db

  /** The JSON request body; `timeRemaining` is already a number. */
  datatype Request = Request(clientName: Option<string>, scenario: Option<string>, equipment: Option<string>,
    timeRemaining: Option<int>)

  /** What the model call produced: a thrown error, or a first choice whose
      content may be missing. */
  datatype Completion = CompletionError(message: string) | Completed(content: Option<string>)

  const ScenarioRequired := "Scenario is required"
  const NoResponse := "No response generated"

  function ClientSection(name: string): string {
    "Client: " + name + "\n\n"
  }

  function ScenarioSection(scenario: string): string {
    "Scenario:\n" + scenario + "\n"
  }

  function EquipmentSection(equipment: string): string {
    "\nEquipment Status: " + equipment + "\n"
  }

  function TimeSection(minutes: int): string {
    "\nTime Remaining: " + IntToString(minutes) + " minutes\n"
  }

  function ClientPart(req: Request): string {
    if Truthy(req.clientName) then ClientSection(req.clientName.value) else ""
  }

  function EquipmentPart(req: Request): string {
    if Truthy(req.equipment) then EquipmentSection(req.equipment.value) else ""
  }

  function TimePart(req: Request): string {
    if req.timeRemaining.Some? && req.timeRemaining.value != 0 then TimeSection(req.timeRemaining.value) else ""
  }

  /** The user message: an optional client line, the scenario (always), then
      optional equipment and time lines, in that order. */
  function UserMessage(req: Request): (message: string)
    requires Truthy(req.scenario)
    ensures |message| == |ClientPart(req)| + |ScenarioSection(req.scenario.value)| + |EquipmentPart(req)| + |TimePart(req)|
    ensures message[..|ClientPart(req)|] == ClientPart(req)
    ensures var at := |ClientPart(req)|; var section := ScenarioSection(req.scenario.value);
      message[at..at + |section|] == section
  {
    var client, section := ClientPart(req), ScenarioSection(req.scenario.value);
    var equipment, time := EquipmentPart(req), TimePart(req);
    Sections(client, section, equipment, time);
    client + section + equipment + time
  }

  /** The first two of four concatenated parts can be read back by position. */
  lemma Sections(a: string, b: string, c: string, d: string)
    ensures var m := a + b + c + d;
      && |m| == |a| + |b| + |c| + |d|
      && m[..|a|] == a
      && m[|a|..|a| + |b|] == b
  {
    var m := a + b + c + d;
    assert m == a + (b + (c + d));
    PrefixOfConcat(a, b + (c + d), |a|);
    assert m == a + b + (c + d);
    Middle(a, b, c + d);
  }


  /** A given client name appears verbatim right after `Client: `. */
  lemma ClientNameVerbatim(req: Request)
    requires Truthy(req.scenario) && Truthy(req.clientName)
    ensures var message := UserMessage(req);
      var name := req.clientName.value;
      |message| >= 8 + |name| && message[8..8 + |name|] == name
  {
    var name := req.clientName.value;
    assert ClientPart(req) == "Client: " + name + "\n\n";
    Middle("Client: ", name, "\n\n");
  }

  lemma Middle(a: string, b: string, c: string)
    ensures (a + b + c)[|a|..|a| + |b|] == b
  {
  }

  lemma Regroup(client: string, heading: string, scenario: string, newline: string, equipment: string, time: string)
    ensures client + (heading + scenario + newline) + equipment + time
      == (client + heading) + scenario + (newline + equipment + time)
  {
  }

  lemma PrefixOfConcat(a: string, b: string, k: nat)
    requires k <= |a|
    ensures |a + b| >= k && (a + b)[..k] == a[..k]
  {
  }

  /** The scenario section is always there, verbatim, right after the
      optional client line. */
  lemma ScenarioVerbatim(req: Request)
    requires Truthy(req.scenario)
    ensures var message := UserMessage(req);
      var at := |ClientPart(req)| + |"Scenario:\n"|;
      var scenario := req.scenario.value;
      |message| >= at + |scenario| && message[at..at + |scenario|] == scenario
  {
    var scenario := req.scenario.value;
    var client := ClientPart(req);
    var heading := "Scenario:\n";
    Regroup(client, heading, scenario, "\n", EquipmentPart(req), TimePart(req));
    Middle(client + heading, scenario, "\n" + EquipmentPart(req) + TimePart(req));
  }

  /** The message opens with the client line exactly when a client name is
      given; otherwise it opens with the scenario heading. */
  lemma ClientLineFirst(req: Request)
    requires Truthy(req.scenario)
    ensures var message := UserMessage(req);
      |message| >= 8 && (message[..8] == "Client: " <==> Truthy(req.clientName))
  {
    var scenario := ScenarioSection(req.scenario.value);
    var rest := EquipmentPart(req) + TimePart(req);
    Regroup(ClientPart(req), "Scenario:\n", req.scenario.value, "\n", EquipmentPart(req), TimePart(req));
    PrefixOfConcat(scenario, rest, 8);
    OpensWithScenario(req.scenario.value);
    if Truthy(req.clientName) {
      PrefixOfConcat(ClientPart(req), scenario + rest, 8);
      ClientOpening(req.clientName.value);
    } else {
      assert ClientPart(req) + (scenario + rest) == scenario + rest;
    }
  }

  lemma OpensWithScenario(scenario: string)
    ensures ScenarioSection(scenario)[..8] == "Scenario" != "Client: "
  {
    assert "Scenario"[0] != "Client: "[0];
  }

  lemma ClientOpening(name: string)
    ensures ClientSection(name)[..8] == "Client: "
  {
  }

  /** A time line closes the message exactly when a non-zero time is given,
      and the equipment line then sits right before it. */
  lemma OptionalLinesLast(req: Request)
    requires Truthy(req.scenario)
    ensures var message := UserMessage(req);
      var tail := EquipmentPart(req) + TimePart(req);
      && |message| >= |tail|
      && message[|message| - |tail|..] == tail
      && (TimePart(req) != "" <==> req.timeRemaining.Some? && req.timeRemaining.value != 0)
      && (EquipmentPart(req) != "" <==> Truthy(req.equipment))
  {
    var head := ClientPart(req) + ScenarioSection(req.scenario.value);
    SuffixOfConcat(head, EquipmentPart(req), TimePart(req));
    assert |TimeSection(req.timeRemaining.GetOr(0))| > 0;
    assert |EquipmentSection(req.equipment.GetOr(""))| > 0;
  }

  lemma SuffixOfConcat(head: string, b: string, c: string)
    ensures var s := head + b + c;
      |s| >= |b + c| && s[|s| - |b + c|..] == b + c
  {
    assert head + b + c == head + (b + c);
  }

  /** The decision text: the model's content, or a fixed text when it is
      missing or empty; never empty. */
  function DecisionText(content: Option<string>): (text: string)
    ensures text != ""
    ensures Truthy(content) ==> text == content.value
    ensures !Truthy(content) ==> text == NoResponse
  {
    if Truthy(content) then content.value else NoResponse
  }

  /** A decision text fed back as content comes out unchanged: the fallback
      is applied at most once. */
  lemma DecisionTextStable(content: Option<string>)
    ensures DecisionText(Some(DecisionText(content))) == DecisionText(content)
    ensures DecisionText(content) == NoResponse <==> !Truthy(content) || content.value == NoResponse
  {
  }

  /** The route's answer (status, error, decision), the prompt sent to the
      model (None when no call was made) and the decision row the store keeps
      (None when nothing was saved). */
  datatype Reply = Reply(status: int, error: Option<string>, decision: Option<string>, prompt: Option<string>,
    stored: Option<Db.StoredDecision>)

  /** The `POST` handler. `saveFails` says whether the store refuses the
      decision row; that failure is logged and swallowed. The row is saved
      with the helper of lib/db.ts. */
  function HandleDecision(req: Request, completion: Completion, saveFails: bool): (r: Reply)
    ensures !Truthy(req.scenario) ==> r == Reply(400, Some(ScenarioRequired), None, None, None)
    ensures Truthy(req.scenario) ==> r.prompt == Some(UserMessage(req))
    ensures r.status == 200 <==> Truthy(req.scenario) && completion.Completed?
    ensures r.status == 200 ==> r.decision == Some(DecisionText(completion.content)) && r.error.None?
    ensures r.stored.Some? <==> r.status == 200 && !saveFails
    ensures r.status == 500 ==> r.error.Some? && r.error.value != ""
    ensures Truthy(req.scenario) && completion.CompletionError? ==> r.status == 500 && r.decision.None? && r.stored.None?
    ensures completion.CompletionError? && completion.message != "" && Truthy(req.scenario) ==> r.error == Some(completion.message)
    // the saved record names the client (or "Unknown"), the scenario and the decision, and is accepted
    ensures r.stored.Some? ==>
      && r.stored.value.clientName == (if Truthy(req.clientName) then req.clientName.value else "Unknown")
      && r.stored.value.accepted
      && r.stored.value.scenario == req.scenario.value
      && r.stored.value.aiDecision == r.decision.value
  {
    if !Truthy(req.scenario) then Reply(400, Some(ScenarioRequired), None, None, None)
    else
      var prompt := UserMessage(req);
      match completion
      case CompletionError(message) =>
        Reply(500, Some(if message != "" then message else "Failed to get decision"), None, Some(prompt), None)
      case Completed(content) =>
        var decision := DecisionText(content);
        var row := Db.SaveDecision(Db.DecisionData(None,
          if Truthy(req.clientName) then req.clientName.value else "Unknown",
          req.scenario.value, req.equipment,
          if NumberTruthy(req.timeRemaining) then req.timeRemaining else None,
          decision, Some(true), None));
        Reply(200, None, Some(decision), Some(prompt), if saveFails then None else Some(row))
  }

  /** A failed save changes nothing the caller sees: only what the store
      keeps differs. */
  lemma SaveFailureSwallowed(req: Request, completion: Completion)
    ensures var failed := HandleDecision(req, completion, true);
      var saved := HandleDecision(req, completion, false);
      && failed.status == saved.status
      && failed.error == saved.error
      && failed.decision == saved.decision
      && failed.prompt == saved.prompt
      && failed.stored.None?
  {
  }

  /** The row saved for a decision: no session and no override, accepted,
      the client's name or "Unknown", and the equipment and time exactly when
      the request gave truthy ones. */
  lemma SavedDecisionRow(req: Request, content: Option<string>)
    requires Truthy(req.scenario)
    ensures var row := HandleDecision(req, Completed(content), false).stored.value;
      && row.sessionId.None? && row.overrideReason.None? && row.accepted
      && row.clientName == (if Truthy(req.clientName) then req.clientName.value else "Unknown")
      && row.scenario == req.scenario.value
      && row.aiDecision == DecisionText(content)
      && row.equipmentStatus == (if Truthy(req.equipment) then req.equipment else None)
      && row.timeRemaining == (if NumberTruthy(req.timeRemaining) then req.timeRemaining else None)
  {
  }

}
