/** The coach's live dashboard (app/session/live/page.tsx): its own equipment
    occupancy count, the countdown of the session's time and the defaults of
    the per-client progress display. */
module LiveSession {
  import opened Records
  import opened Supabase
  import AdvanceExercise

  /** The rows `.eq('session_id', sessionId)` selects. */
  function SessionStates(store: seq<SessionState>, sessionId: string): seq<SessionState> {
    if |store| == 0 then []
    else
      var last := store[|store| - 1];
      SessionStates(store[..|store| - 1], sessionId) + (if last.sessionId == sessionId then [last] else [])
  }

  /** The selection keeps exactly the session's states. */
  lemma {:induction false} SessionStatesMembers(store: seq<SessionState>, sessionId: string)
    ensures forall s :: s in SessionStates(store, sessionId) <==> s in store && s.sessionId == sessionId
    decreases |store|
  {
    if |store| > 0 {
      var prefix := store[..|store| - 1];
      SessionStatesMembers(prefix, sessionId);
      assert store == prefix + [store[|store| - 1]];
    }
  }

  /** An equipment item as the dashboard lists it. */
  datatype LiveEquipment = LiveEquipment(name: string, quantity: int, inUse: int, available: int)

  /** The dashboard's count: every state of the session, whatever its status,
      one unit per occurrence; one entry per equipment row in row order;
      a missing equipment result lists nothing. */
  method LoadEquipmentStatus(equipment: Option<seq<EquipmentItem>>, store: seq<SessionState>, sessionId: string)
    returns (rows: seq<LiveEquipment>)
    ensures equipment.None? ==> rows == []
    ensures equipment.Some? ==> |rows| == |equipment.value|
    ensures equipment.Some? ==> forall k :: 0 <= k < |rows| ==>
      var item := equipment.value[k];
      rows[k] == LiveEquipment(item.name, item.quantity, Held(SessionStates(store, sessionId), item.name),
        item.quantity - Held(SessionStates(store, sessionId), item.name))
  {
    var states := SessionStates(store, sessionId);
    var inUse := TallyInUse(states);
    rows := [];
    if equipment.None? {
      return;
    }
    var items := equipment.value;
    var k := 0;
    while k < |items|
      invariant 0 <= k <= |items|
      invariant |rows| == k
      invariant forall m :: 0 <= m < k ==>
        rows[m] == LiveEquipment(items[m].name, items[m].quantity, Held(states, items[m].name),
          items[m].quantity - Held(states, items[m].name))
    {
      var item := items[k];
      var used := Count(inUse, item.name);
      rows := rows + [LiveEquipment(item.name, item.quantity, used, item.quantity - used)];
      k := k + 1;
    }
  }

  /** The badge beside an equipment item. */
  function Label(available: int): (badge: string)
    ensures badge == "AVAILABLE" <==> available > 0
    ensures badge == "IN USE" <==> available <= 0
  {
    if available > 0 then "AVAILABLE" else "IN USE"
  }

  /** A name held nowhere in the session shows its full quantity, and so is
      labelled AVAILABLE exactly when its quantity is positive. */
  lemma UnheldShowsQuantity(store: seq<SessionState>, sessionId: string, item: EquipmentItem)
    requires forall s :: s in store ==> item.name !in s.equipmentInUse
    ensures item.quantity - Held(SessionStates(store, sessionId), item.name) == item.quantity
    ensures Label(item.quantity - Held(SessionStates(store, sessionId), item.name)) == "AVAILABLE" <==> item.quantity > 0
  {
    SessionStatesMembers(store, sessionId);
    NotHeld(SessionStates(store, sessionId), item.name);
  }

  /** Once the dashboard shows an item IN USE, further holders in the session
      keep it so. */
  lemma MoreHoldersKeepInUse(states: seq<SessionState>, more: seq<SessionState>, item: EquipmentItem)
    requires Label(item.quantity - Held(states, item.name)) == "IN USE"
    ensures Label(item.quantity - Held(states + more, item.name)) == "IN USE"
  {
    HeldAppend(states, more, item.name);
  }

  lemma {:induction false} NotHeld(states: seq<SessionState>, name: string)
    requires forall s :: s in states ==> name !in s.equipmentInUse
    ensures Held(states, name) == 0
    decreases |states|
  {
    if |states| > 0 {
      var prefix := states[..|states| - 1];
      assert forall s :: s in prefix ==> s in states;
      NotHeld(prefix, name);
      assert states[|states| - 1] in states;
    }
  }

  /** Every state of the store counts at most as much as the whole store. */
  lemma {:induction false} ActiveHeldAtMostHeld(states: seq<SessionState>, name: string)
    ensures Held(ActiveStates(states), name) <= Held(states, name)
    decreases |states|
  {
    if |states| > 0 {
      var prefix := states[..|states| - 1];
      var last := states[|states| - 1];
      ActiveHeldAtMostHeld(prefix, name);
      HeldAppend(ActiveStates(prefix), if last.status == Active then [last] else [], name);
    }
  }

  lemma {:induction false} HeldAppend(a: seq<SessionState>, b: seq<SessionState>, name: string)
    ensures Held(a + b, name) == Held(a, name) + Held(b, name)
    decreases |b|
  {
    if |b| == 0 {
      assert a + b == a;
    } else {
      var b' := b[..|b| - 1];
      HeldAppend(a, b', name);
      assert (a + b)[..|a + b| - 1] == a + b';
      assert b'[..|b'|] == b';
      assert (a + b)[|a + b| - 1] == b[|b| - 1];
    }
  }

  lemma {:induction false} AllActiveHeld(states: seq<SessionState>, name: string)
    requires forall s :: s in states ==> s.status == Active
    ensures Held(ActiveStates(states), name) == Held(states, name)
    decreases |states|
  {
    if |states| > 0 {
      var prefix := states[..|states| - 1];
      assert forall s :: s in prefix ==> s in states;
      AllActiveHeld(prefix, name);
      assert states[|states| - 1] in states;
      HeldAppend(ActiveStates(prefix), [states[|states| - 1]], name);
      assert [states[|states| - 1]][..0] == [];
    }
  }

  lemma {:induction false} OneSessionStates(store: seq<SessionState>, sessionId: string)
    requires forall i :: 0 <= i < |store| ==> store[i].sessionId == sessionId
    ensures SessionStates(store, sessionId) == store
    decreases |store|
  {
    if |store| > 0 {
      var prefix := store[..|store| - 1];
      var last := store[|store| - 1];
      assert store == prefix + [last];
      OneSessionStep(prefix, last, sessionId);
      OneSessionStates(prefix, sessionId);
    }
  }

  lemma OneSessionStep(prefix: seq<SessionState>, last: SessionState, sessionId: string)
    requires forall i :: 0 <= i < |prefix| + 1 ==> (prefix + [last])[i].sessionId == sessionId
    ensures forall i :: 0 <= i < |prefix| ==> prefix[i].sessionId == sessionId
    ensures SessionStates(prefix + [last], sessionId) == SessionStates(prefix, sessionId) + [last]
  {
    assert (prefix + [last])[..|prefix|] == prefix;
    assert (prefix + [last])[|prefix|] == last;
    forall i | 0 <= i < |prefix| ensures prefix[i].sessionId == sessionId {
      assert (prefix + [last])[i] == prefix[i];
    }
  }

  /** The two ledgers differ in policy: for a store holding only this
      session's states, the store helper (active states only) never counts
      more in use than the dashboard (every status), and the two agree when
      every state is active. */
  lemma LedgerPolicies(store: seq<SessionState>, sessionId: string, name: string)
    requires forall s :: s in store ==> s.sessionId == sessionId
    ensures Held(ActiveStates(store), name) <= Held(SessionStates(store, sessionId), name)
    ensures (forall s :: s in store ==> s.status == Active) ==>
      Held(ActiveStates(store), name) == Held(SessionStates(store, sessionId), name)
  {
    assert forall i :: 0 <= i < |store| ==> store[i].sessionId == sessionId by {
      forall i | 0 <= i < |store| ensures store[i].sessionId == sessionId {
        assert store[i] in store;
      }
    }
    OneSessionStates(store, sessionId);
    ActiveHeldAtMostHeld(store, name);
    if forall s :: s in store ==> s.status == Active {
      AllActiveHeld(store, name);
    }
  }

  /** A witness of the policy difference: one resting client still lists the
      only Trap Bar. The store helper calls it available; the dashboard labels
      it IN USE. */
  lemma LedgerPoliciesDisagree()
    ensures var resting := SessionState("st1", "s1", "c1", 0, 2, Resting, ["Trap Bar"], Some(90), None);
      && Held(ActiveStates([resting]), "Trap Bar") == 0
      && Label(1 - Held(SessionStates([resting], "s1"), "Trap Bar")) == "IN USE"
  {
    var resting := SessionState("st1", "s1", "c1", 0, 2, Resting, ["Trap Bar"], Some(90), None);
    SingleState(resting, "s1", "Trap Bar");
    assert multiset(resting.equipmentInUse)["Trap Bar"] == 1;
  }

  /** Conversely, an active holder in another session makes the store helper
      count the bar while the dashboard does not. */
  lemma LedgerPoliciesDisagreeElsewhere()
    ensures var elsewhere := SessionState("st2", "s2", "c2", 0, 1, Active, ["Trap Bar"], None, None);
      && Held(ActiveStates([elsewhere]), "Trap Bar") == 1
      && Held(SessionStates([elsewhere], "s1"), "Trap Bar") == 0
  {
    var elsewhere := SessionState("st2", "s2", "c2", 0, 1, Active, ["Trap Bar"], None, None);
    SingleState(elsewhere, "s1", "Trap Bar");
    assert multiset(elsewhere.equipmentInUse)["Trap Bar"] == 1;
  }

  /** Both ledgers on a store of one state. */
  lemma SingleState(s: SessionState, sessionId: string, name: string)
    ensures Held(ActiveStates([s]), name) == if s.status == Active then HeldBy(s, name) else 0
    ensures Held(SessionStates([s], sessionId), name) == if s.sessionId == sessionId then HeldBy(s, name) else 0
  {
    ActiveStatesOne(s);
    SessionStatesOne(s, sessionId);
    HeldOne(s, name);
  }

  lemma ActiveStatesOne(s: SessionState)
    ensures ActiveStates([s]) == if s.status == Active then [s] else []
  {
    assert [s][..0] == [];
  }

  lemma SessionStatesOne(s: SessionState, sessionId: string)
    ensures SessionStates([s], sessionId) == if s.sessionId == sessionId then [s] else []
  {
    assert [s][..0] == [];
  }

  lemma HeldOne(s: SessionState, name: string)
    ensures Held([s], name) == HeldBy(s, name)
  {
    assert [s][..0] == [];
  }


  /** The countdown: whole minutes elapsed since the session's start (rounded
      down, so a start in the future gives a negative elapsed count), taken
      from the planned duration and clamped at zero. Elapsed time is given in
      milliseconds. */
  function TimeRemaining(durationMinutes: int, elapsedMs: int): (minutes: int)
    ensures minutes >= 0
    ensures minutes <= durationMinutes || minutes == 0 || elapsedMs < 0
    ensures 0 <= elapsedMs < 60000 ==> minutes == if durationMinutes > 0 then durationMinutes else 0
  {
    var elapsed := elapsedMs / 60000;
    var remaining := durationMinutes - elapsed;
    if remaining > 0 then remaining else 0
  }

  /** The countdown never goes up as time passes. */
  lemma TimeRemainingMonotone(durationMinutes: int, earlier: int, later: int)
    requires earlier <= later
    ensures TimeRemaining(durationMinutes, later) <= TimeRemaining(durationMinutes, earlier)
  {
    assert earlier / 60000 <= later / 60000;
  }

  /** Within the m-th minute of the session the timer shows the minutes left
      of the duration, never less than zero. */
  lemma TimeRemainingValue(durationMinutes: int, elapsedMs: int, m: int)
    requires m * 60000 <= elapsedMs < (m + 1) * 60000
    ensures TimeRemaining(durationMinutes, elapsedMs) == if durationMinutes - m > 0 then durationMinutes - m else 0
  {
    assert elapsedMs / 60000 == m by {
      var q, r := elapsedMs / 60000, elapsedMs % 60000;
      assert elapsedMs == q * 60000 + r && 0 <= r < 60000;
      assert (m - q) * 60000 <= r && (q - m) * 60000 < 60000;
    }
  }

  /** The countdown is shown in red below ten minutes. */
  function TimeIsShort(minutes: int): bool {
    minutes < 10
  }

  /** The countdown turns red exactly when fewer than ten whole minutes of
      the planned duration are left, and stays red once time has run out. */
  lemma ShownRed(durationMinutes: int, elapsedMs: int)
    ensures TimeIsShort(TimeRemaining(durationMinutes, elapsedMs)) <==> durationMinutes - elapsedMs / 60000 < 10
    ensures elapsedMs / 60000 >= durationMinutes ==> TimeIsShort(TimeRemaining(durationMinutes, elapsedMs))
  {
  }

  /** The exercise shown for a client: `current_exercise_index || 0`, which is
      the stored index when there is one. */
  function DisplayIndex(index: Option<int>): (shown: int)
    ensures shown == index.GetOr(0)
  {
    NumberOr(index, 0)
  }

  /** The set shown for a client: `current_set || 1`; never 0. */
  function DisplaySet(stored: Option<int>): (shown: int)
    ensures shown != 0
    ensures stored.Some? && stored.value != 0 ==> shown == stored.value
    ensures stored.None? || stored.value == 0 ==> shown == 1
  {
    NumberOr(stored, 1)
  }

  /** For a state row the advance route keeps consistent, the grid shows the
      stored exercise and set, and the exercise is one of the program's. */
  lemma DisplayConsistentRow(s: SessionState, p: seq<ProgramEntry>)
    requires AdvanceExercise.Consistent(s, p)
    ensures DisplayIndex(Some(s.exerciseIndex)) == s.exerciseIndex
    ensures 0 <= DisplayIndex(Some(s.exerciseIndex)) < |p|
    ensures DisplaySet(Some(s.currentSet)) == s.currentSet
  {
  }
}
