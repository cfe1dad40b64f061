/** Starting a session (app/session/setup/page.tsx): choosing at most six
    clients, grouping the stored programs by client, and the rows inserted
    for a new session. */
module SessionSetup {
  import opened Records
  import AdvanceExercise

  const MaxClients := 6

  /** The selection without any occurrence of `id`, in the same order. */
  function Without(selected: seq<string>, id: string): (r: seq<string>)
    ensures id !in r
    ensures forall x :: x != id ==> multiset(r)[x] == multiset(selected)[x]
    ensures |r| <= |selected|
  {
    if |selected| == 0 then []
    else
      var rest := Without(selected[1..], id);
      assert selected == [selected[0]] + selected[1..];
      if selected[0] == id then rest else [selected[0]] + rest
  }

  lemma {:induction false} WithoutAbsent(selected: seq<string>, id: string)
    requires id !in selected
    ensures Without(selected, id) == selected
    decreases |selected|
  {
    if |selected| > 0 {
      WithoutAbsent(selected[1..], id);
      assert selected == [selected[0]] + selected[1..];
    }
  }

  /** `a` is `b` with some elements dropped, the rest in their order. */
  predicate IsSubsequence(a: seq<string>, b: seq<string>)
    decreases |b|
  {
    if |a| == 0 then true
    else if |b| == 0 then false
    else if a[0] == b[0] then IsSubsequence(a[1..], b[1..])
    else IsSubsequence(a, b[1..])
  }

  lemma {:induction false} WithoutKeepsOrder(selected: seq<string>, id: string)
    ensures IsSubsequence(Without(selected, id), selected)
    decreases |selected|
  {
    if |selected| > 0 {
      var rest := Without(selected[1..], id);
      WithoutKeepsOrder(selected[1..], id);
      if selected[0] != id {
        assert ([selected[0]] + rest)[1..] == rest;
      }
    }
  }

  datatype Toggle = Toggle(selected: seq<string>, refused: bool)

  /** `toggleClient`: a selected id is removed; an unselected one is
      appended unless six are already selected, in which case the coach is
      told the maximum and nothing changes. */
  function ToggleClient(selected: seq<string>, id: string): (t: Toggle)
    ensures id in selected ==> (!t.refused && id !in t.selected
      && IsSubsequence(t.selected, selected)
      && forall x :: x != id ==> multiset(t.selected)[x] == multiset(selected)[x])
    ensures id !in selected && |selected| >= MaxClients ==> t.refused && t.selected == selected
    ensures id !in selected && |selected| < MaxClients ==> !t.refused && t.selected == selected + [id]
  {
    if id in selected then
      WithoutKeepsOrder(selected, id);
      Toggle(Without(selected, id), false)
    else if |selected| >= MaxClients then Toggle(selected, true)
    else Toggle(selected + [id], false)
  }

  predicate NoDuplicates(s: seq<string>) {
    forall i, j :: 0 <= i < j < |s| ==> s[i] != s[j]
  }

  /** A valid selection: no client twice and at most six. */
  predicate ValidSelection(s: seq<string>) {
    NoDuplicates(s) && |s| <= MaxClients
  }

  lemma {:induction false} NoDuplicatesCount(s: seq<string>, x: string)
    requires NoDuplicates(s)
    ensures multiset(s)[x] <= 1
    decreases |s|
  {
    if |s| > 0 {
      var prefix := s[..|s| - 1];
      assert s == prefix + [s[|s| - 1]];
      NoDuplicatesCount(prefix, x);
      if s[|s| - 1] == x {
        assert x !in prefix;
      }
    }
  }

  lemma {:induction false} CountOneNoDuplicates(s: seq<string>)
    requires forall x :: multiset(s)[x] <= 1
    ensures NoDuplicates(s)
  {
    forall i, j | 0 <= i < j < |s| ensures s[i] != s[j] {
      if s[i] == s[j] {
        TwoOccurrences(s, i, j);
        assert false;
      }
    }
  }

  lemma TwoOccurrences(s: seq<string>, i: nat, j: nat)
    requires i < j < |s| && s[i] == s[j]
    ensures multiset(s)[s[i]] >= 2
  {
    assert s == s[..i] + [s[i]] + s[i + 1..j] + [s[j]] + s[j + 1..];
  }

  /** Toggling keeps the selection valid. */
  lemma ToggleKeepsValid(selected: seq<string>, id: string)
    requires ValidSelection(selected)
    ensures ValidSelection(ToggleClient(selected, id).selected)
  {
    var r := ToggleClient(selected, id).selected;
    if id in selected {
      forall x ensures multiset(r)[x] <= 1 {
        NoDuplicatesCount(selected, x);
      }
      CountOneNoDuplicates(r);
    }
  }

  /** Toggling an unselected client twice, with room for it, changes
      nothing. */
  lemma ToggleTwice(selected: seq<string>, id: string)
    requires id !in selected && |selected| < MaxClients
    ensures ToggleClient(ToggleClient(selected, id).selected, id) == Toggle(selected, false)
  {
    WithoutAppend(selected, [id], id);
    WithoutAbsent(selected, id);
  }

  lemma {:induction false} WithoutAppend(a: seq<string>, b: seq<string>, id: string)
    ensures Without(a + b, id) == Without(a, id) + Without(b, id)
    decreases |a|
  {
    if |a| == 0 {
      assert a + b == b;
    } else {
      WithoutAppend(a[1..], b, id);
      assert (a + b)[1..] == a[1..] + b;
    }
  }

  /** A row of `programs`. */
  datatype ProgramRow = ProgramRow(id: string, clientId: string, name: string, exercises: seq<ProgramEntry>)

  /** The programs of one client, in fetch order. */
  function ProgramsOf(programs: seq<ProgramRow>, clientId: string): seq<ProgramRow> {
    if |programs| == 0 then []
    else
      var last := programs[|programs| - 1];
      ProgramsOf(programs[..|programs| - 1], clientId) + (if last.clientId == clientId then [last] else [])
  }

  /** A client's group holds exactly that client's programs. */
  lemma {:induction false} ProgramsOfMembers(programs: seq<ProgramRow>, clientId: string)
    ensures forall p :: p in ProgramsOf(programs, clientId) <==> p in programs && p.clientId == clientId
    decreases |programs|
  {
    if |programs| > 0 {
      var prefix := programs[..|programs| - 1];
      ProgramsOfMembers(prefix, clientId);
      assert programs == prefix + [programs[|programs| - 1]];
    }
  }

  /** The `forEach` that builds `programsMap`: a client with programs maps to
      them in fetch order; a client without has no entry. */
  method GroupPrograms(programs: seq<ProgramRow>) returns (groups: map<string, seq<ProgramRow>>)
    ensures forall c :: c in groups <==> ProgramsOf(programs, c) != []
    ensures forall c :: c in groups ==> groups[c] == ProgramsOf(programs, c)
  {
    groups := map[];
    var i := 0;
    while i < |programs|
      invariant 0 <= i <= |programs|
      invariant forall c :: c in groups <==> ProgramsOf(programs[..i], c) != []
      invariant forall c :: c in groups ==> groups[c] == ProgramsOf(programs[..i], c)
    {
      var p := programs[i];
      ProgramsOfExtend(programs, i);
      var earlier := if p.clientId in groups then groups[p.clientId] else [];
      groups := groups[p.clientId := earlier + [p]];
      i := i + 1;
    }
    assert programs[..i] == programs;
  }

  lemma ProgramsOfExtend(programs: seq<ProgramRow>, i: nat)
    requires i < |programs|
    ensures forall c ::
      ProgramsOf(programs[..i + 1], c) == ProgramsOf(programs[..i], c) + (if programs[i].clientId == c then [programs[i]] else [])
  {
    assert programs[..i + 1][..i] == programs[..i];
  }

  /** A row of `session_participants`. */
  datatype ParticipantRow = ParticipantRow(sessionId: string, clientId: string, programId: Option<string>, checkedIn: bool)

  /** The program a participant starts with: the first of the client's
      programs in fetch order (null when there is none, or its id is
      empty). */
  function FirstProgramId(groups: map<string, seq<ProgramRow>>, clientId: string): (programId: Option<string>)
    ensures programId.Some? ==> (clientId in groups && |groups[clientId]| > 0
      && programId.value == groups[clientId][0].id && programId.value != "")
    ensures clientId in groups && |groups[clientId]| > 0 && groups[clientId][0].id != "" ==>
      programId == Some(groups[clientId][0].id)
  {
    if clientId in groups && |groups[clientId]| > 0 && groups[clientId][0].id != ""
    then Some(groups[clientId][0].id) else None
  }

  /** On the grouping the page builds, a participant's program is the first
      of the client's fetched programs, and it is one of theirs. */
  lemma FirstProgramOfGroups(programs: seq<ProgramRow>, groups: map<string, seq<ProgramRow>>, clientId: string)
    requires forall c :: c in groups <==> ProgramsOf(programs, c) != []
    requires forall c :: c in groups ==> groups[c] == ProgramsOf(programs, c)
    ensures var mine := ProgramsOf(programs, clientId);
      FirstProgramId(groups, clientId) == if mine != [] && mine[0].id != "" then Some(mine[0].id) else None
    ensures var mine := ProgramsOf(programs, clientId);
      mine != [] ==> mine[0] in programs && mine[0].clientId == clientId
  {
    ProgramsOfMembers(programs, clientId);
    var mine := ProgramsOf(programs, clientId);
    if mine != [] {
      assert mine[0] in mine;
    }
  }

  function Participants(selected: seq<string>, groups: map<string, seq<ProgramRow>>, sessionId: string): (rows: seq<ParticipantRow>)
    ensures |rows| == |selected|
    ensures forall k :: 0 <= k < |rows| ==>
      rows[k] == ParticipantRow(sessionId, selected[k], FirstProgramId(groups, selected[k]), true)
  {
    seq(|selected|, k requires 0 <= k < |selected| =>
      ParticipantRow(sessionId, selected[k], FirstProgramId(groups, selected[k]), true))
  }

  /** A `session_state` insert; the store assigns its id and leaves rest
      time and RPE null. */
  datatype StateInsert = StateInsert(sessionId: string, clientId: string, exerciseIndex: int, currentSet: int,
    status: Status, equipmentInUse: seq<string>)

  function Stored(row: StateInsert, id: string): SessionState {
    SessionState(id, row.sessionId, row.clientId, row.exerciseIndex, row.currentSet, row.status,
      row.equipmentInUse, None, None)
  }

  /** One ready state per selected client, in selection order, at the first
      set of the first entry and holding nothing. */
  function InitialStates(selected: seq<string>, sessionId: string): (rows: seq<StateInsert>)
    ensures |rows| == |selected|
    ensures forall k :: 0 <= k < |rows| ==> rows[k].clientId == selected[k] && rows[k].sessionId == sessionId
    ensures forall k :: 0 <= k < |rows| ==>
      rows[k].exerciseIndex == 0 && rows[k].currentSet == 1 && rows[k].status == Ready && rows[k].equipmentInUse == []
  {
    seq(|selected|, k requires 0 <= k < |selected| => StateInsert(sessionId, selected[k], 0, 1, Ready, []))
  }

  /** An initial state suits the transition's invariant exactly when the
      client's program has an entry. */
  lemma InitialStateConsistent(selected: seq<string>, sessionId: string, k: nat, id: string, p: seq<ProgramEntry>)
    requires k < |selected|
    ensures AdvanceExercise.Consistent(Stored(InitialStates(selected, sessionId)[k], id), p) <==> |p| > 0
  {
  }

  /** An initial state holds nothing, so it never occupies equipment in
      either ledger. */
  lemma InitialStateHoldsNothing(selected: seq<string>, sessionId: string, k: nat, id: string, name: string)
    requires k < |selected|
    ensures multiset(Stored(InitialStates(selected, sessionId)[k], id).equipmentInUse)[name] == 0
  {
  }

  /** The `sessions` insert. */
  datatype SessionRow = SessionRow(id: string, coachName: string, status: string, durationMinutes: int)

  /** The insert that failed, if any; each throws before the next. */
  datatype SetupStep = SessionInsert | ParticipantsInsert | StatesInsert

  datatype StartOutcome = StartOutcome(
    session: Option<SessionRow>,
    participants: seq<ParticipantRow>,
    states: seq<StateInsert>,
    notice: Option<string>,
    navigated: bool)

  /** `startSession`: refuses an empty selection; otherwise inserts the
      session (60 minutes, active), one participant per client and one
      initial state per client, then opens the live page. A failed insert
      stops the rest, but what was already inserted stays. `sessionId` is the
      id the store gives the new session. */
  function StartSession(selected: seq<string>, groups: map<string, seq<ProgramRow>>, sessionId: string,
    failure: Option<SetupStep>): (o: StartOutcome)
    ensures |selected| == 0 ==> o == StartOutcome(None, [], [], Some("Please select at least one client"), false)
    ensures o.navigated <==> |selected| > 0 && failure.None?
    ensures o.navigated ==> (o.session == Some(SessionRow(sessionId, "Coach", "active", 60))
      && o.participants == Participants(selected, groups, sessionId)
      && o.states == InitialStates(selected, sessionId)
      && o.notice.None?)
    ensures |selected| > 0 && failure.Some? ==> o.notice.Some? && !o.navigated
    // a failed insert keeps what was inserted before it and nothing after
    ensures |selected| > 0 && failure == Some(SessionInsert) ==>
      o.session.None? && o.participants == [] && o.states == []
    ensures |selected| > 0 && failure == Some(ParticipantsInsert) ==>
      o.session == Some(SessionRow(sessionId, "Coach", "active", 60)) && o.participants == [] && o.states == []
    ensures |selected| > 0 && failure == Some(StatesInsert) ==>
      && o.session == Some(SessionRow(sessionId, "Coach", "active", 60))
      && o.participants == Participants(selected, groups, sessionId)
      && o.states == []
    ensures o.states != [] ==> o.participants != [] && o.session.Some?
  {
    if |selected| == 0 then StartOutcome(None, [], [], Some("Please select at least one client"), false)
    else
      var failed := Some("Failed to start session");
      var session := SessionRow(sessionId, "Coach", "active", 60);
      match failure
      case Some(SessionInsert) => StartOutcome(None, [], [], failed, false)
      case Some(ParticipantsInsert) => StartOutcome(Some(session), [], [], failed, false)
      case Some(StatesInsert) => StartOutcome(Some(session), Participants(selected, groups, sessionId), [], failed, false)
      case None =>
        StartOutcome(Some(session), Participants(selected, groups, sessionId), InitialStates(selected, sessionId), None, true)
  }

  /** A started session pairs its rows: the k-th participant and the k-th
      state belong to the same client and to the inserted session. */
  lemma StartedRowsPair(selected: seq<string>, groups: map<string, seq<ProgramRow>>, sessionId: string)
    requires |selected| > 0
    ensures var o := StartSession(selected, groups, sessionId, None);
      && o.navigated
      && |o.participants| == |o.states| == |selected|
      && forall k :: 0 <= k < |o.states| ==>
        && o.participants[k].clientId == o.states[k].clientId
        && o.participants[k].sessionId == o.states[k].sessionId == o.session.value.id
  {
  }
}
