/** The store helpers of lib/supabase.ts that hold logic: the equipment
    occupancy ledger and the default-filling of a decision record. The store
    itself is replaced by snapshots: `equipment` is the result of reading the
    equipment table (None when the read returned no data) and `store` is every
    session-state row. */
module Supabase {
  import opened Records

  /** Units of `name` held by one state: duplicates count separately. */
  function HeldBy(s: SessionState, name: string): nat {
    multiset(s.equipmentInUse)[name]
  }

  /** Units of `name` held across `states`. */
  function Held(states: seq<SessionState>, name: string): nat {
    if |states| == 0 then 0
    else Held(states[..|states| - 1], name) + HeldBy(states[|states| - 1], name)
  }

  /** The rows `.eq('status', 'active')` selects. */
  function ActiveStates(store: seq<SessionState>): seq<SessionState> {
    if |store| == 0 then []
    else
      var last := store[|store| - 1];
      ActiveStates(store[..|store| - 1]) + (if last.status == Active then [last] else [])
  }

  /** The selection keeps exactly the active states: no other status is
      ever counted. */
  lemma {:induction false} ActiveStatesMembers(store: seq<SessionState>)
    ensures forall s :: s in ActiveStates(store) <==> s in store && s.status == Active
    decreases |store|
  {
    if |store| > 0 {
      var prefix := store[..|store| - 1];
      ActiveStatesMembers(prefix);
      assert store == prefix + [store[|store| - 1]];
    }
  }

  /** A tally of in-use counts keyed by equipment name, read with `|| 0`. */
  function Count(tally: map<string, int>, name: string): int {
    if name in tally then tally[name] else 0
  }

  /** The two nested `forEach` loops that fill `inUse`: one increment per
      occurrence of a name in any state's `equipment_in_use`. */
  method TallyInUse(states: seq<SessionState>) returns (inUse: map<string, int>)
    ensures forall name :: Count(inUse, name) == Held(states, name)
  {
    inUse := map[];
    var i := 0;
    while i < |states|
      invariant 0 <= i <= |states|
      invariant forall name :: Count(inUse, name) == Held(states[..i], name)
    {
      inUse := TallyState(inUse, states[i].equipmentInUse);
      assert states[..i + 1][..i] == states[..i];
      i := i + 1;
    }
    assert states[..i] == states;
  }

  /** The inner loop: adds one state's names to the tally. */
  method TallyState(before: map<string, int>, held: seq<string>) returns (inUse: map<string, int>)
    ensures forall name :: Count(inUse, name) == Count(before, name) + multiset(held)[name]
  {
    inUse := before;
    var j := 0;
    while j < |held|
      invariant 0 <= j <= |held|
      invariant forall name :: Count(inUse, name) == Count(before, name) + multiset(held[..j])[name]
    {
      var equip := held[j];
      inUse := inUse[equip := Count(inUse, equip) + 1];
      assert held[..j + 1] == held[..j] + [equip];
      j := j + 1;
    }
    assert held[..j] == held;
  }

  /** One entry of `getEquipmentAvailability`'s result. */
  datatype Availability = Availability(name: string, total: int, inUse: int, available: int, isAvailable: bool)

  /** `row` is the entry for `item` when `inUse` units of it are held. */
  predicate DescribesItem(row: Availability, item: EquipmentItem, inUse: int) {
    && row.name == item.name
    && row.total == item.quantity
    && row.inUse == inUse
    && row.available == item.quantity - inUse
    && (row.isAvailable <==> row.available > 0)
  }

  /** `getEquipmentAvailability`: occupancy counts only states whose status is
      'active' (of every session in the store), one entry per catalog item in
      catalog order; a missing equipment result gives the empty list. */
  method GetEquipmentAvailability(equipment: Option<seq<EquipmentItem>>, store: seq<SessionState>)
    returns (rows: seq<Availability>)
    ensures equipment.None? ==> rows == []
    ensures equipment.Some? ==> |rows| == |equipment.value|
    ensures equipment.Some? ==> forall k :: 0 <= k < |rows| ==>
      DescribesItem(rows[k], equipment.value[k], Held(ActiveStates(store), equipment.value[k].name))
  {
    var active := ActiveStates(store);
    var inUse := TallyInUse(active);
    rows := [];
    if equipment.None? {
      return;
    }
    var items := equipment.value;
    var k := 0;
    while k < |items|
      invariant 0 <= k <= |items|
      invariant |rows| == k
      invariant forall m :: 0 <= m < k ==> DescribesItem(rows[m], items[m], Held(active, items[m].name))
    {
      var item := items[k];
      var used := Count(inUse, item.name);
      rows := rows + [Availability(item.name, item.quantity, used, item.quantity - used, item.quantity > used)];
      k := k + 1;
    }
  }

  /** The argument of `saveDecision`: optional fields are Options. */
  datatype DecisionInput = DecisionInput(
    sessionId: Option<string>,
    clientId: Option<string>,
    clientName: string,
    triggerType: Option<string>,
    scenario: string,
    equipmentStatus: Option<string>,
    timeRemaining: Option<int>,
    aiDecision: string,
    requiresApproval: Option<bool>,
    approved: Option<bool>)

  /** The row `saveDecision` inserts. Ids and the trigger type fall back with
      `||` (so "" is treated as absent); the two flags fall back with `??`
      (so an explicit false is kept). */
  function SaveDecision(d: DecisionInput): (row: DecisionRow)
    ensures row.sessionId.Some? <==> Truthy(d.sessionId)
    ensures row.clientId.Some? <==> Truthy(d.clientId)
    ensures row.sessionId.Some? ==> row.sessionId == d.sessionId
    ensures row.clientId.Some? ==> row.clientId == d.clientId
    ensures row.triggerType == (if Truthy(d.triggerType) then d.triggerType.value else "manual")
    ensures row.requiresApproval <==> d.requiresApproval == Some(true)
    ensures !row.approved <==> d.approved == Some(false)
    ensures row.scenario == d.scenario && row.aiDecision == d.aiDecision
  {
    DecisionRow(
      if Truthy(d.sessionId) then d.sessionId else None,
      if Truthy(d.clientId) then d.clientId else None,
      if Truthy(d.triggerType) then d.triggerType.value else "manual",
      d.scenario,
      d.aiDecision,
      d.requiresApproval.GetOr(false),
      d.approved.GetOr(true))
  }

  /** The client name, equipment status and time remaining a caller passes to
      `saveDecision` are never stored: inputs differing only there give the
      same row. */
  lemma SaveDecisionDropsContext(d: DecisionInput, name: string, equipment: Option<string>, time: Option<int>)
    ensures SaveDecision(d.(clientName := name, equipmentStatus := equipment, timeRemaining := time)) == SaveDecision(d)
  {
  }
}
