/**
 * Replacing a terminal agent session, split at every await so that calls of any number of daemon
 * instances interleave: check for an existing replacement, start an external session, insert its
 * binding under the unique indexes, then record the session, or stop it and look up the winner.
 */
module Replacement {
  import opened Identifiers
  import opened Runs

  type SessionId = nat
  type CallId = nat

  datatype Action = Restart | Retry | SwitchProfile

  /** What a replacement must inherit from its source. */
  datatype Identity = Identity(run: StableId, task: StableId, executionNode: StableId, workspace: StableId)

  datatype SessionState =
    | Starting | Running | Waiting | Blocked | Completed | Failed | Stopped | Interrupted

  datatype Session = Session(identity: Identity, state: SessionState)

  /** `source` is the session this one replaces; None for a session the daemon launched itself. */
  datatype Binding = Binding(profile: StableId, origin: Option<Origin>, request: Option<string>)

  datatype Origin = Origin(source: SessionId, action: Action)

  datatype Phase =
    | Checking
    | Cleared
    | Started(ext: SessionId)   // the external session runs, its binding is not inserted yet
    | Bound(ext: SessionId)     // the binding is inserted, the session record is not
    | Losing(ext: SessionId)    // the insert failed, the external session must be stopped
    | LookingUp
    | Finished(result: Option<SessionId>)  // None: the call threw

  datatype Call = Call(source: SessionId, identity: Identity, action: Action, profile: StableId,
                       request: Option<string>, phase: Phase)

  datatype Machine = Machine(
    sessions: map<SessionId, Session>, bindings: map<SessionId, Binding>, calls: map<CallId, Call>,
    started: set<SessionId>,     // external sessions started by replacement calls
    stopAsked: set<SessionId>,   // those the runtime was asked to stop
    abandoned: set<SessionId>,   // those whose call was lost in a crash before it was settled
    owner: map<SessionId, CallId>)

  datatype Event =
    | Register(id: SessionId, identity: Identity, profile: StableId)
    | SaveState(id: SessionId, state: SessionState)
    | Begin(call: CallId, source: SessionId, action: Action, target: Option<StableId>, request: Option<string>)
    | Check(call: CallId)
    | Start(call: CallId, ext: SessionId, fails: bool)
    | Save(call: CallId, storeFails: bool)
    | Record(call: CallId, state: SessionState, storeFails: bool)
    | Stop(call: CallId)
    | LookUp(call: CallId)
    | Crash(call: CallId)

  /** Only a switch of profile names a target profile, and it never carries a request id. */
  predicate WellAsked(action: Action, target: Option<StableId>, request: Option<string>) {
    if action.SwitchProfile? then target.Some? && request.None? else target.None?
  }

  predicate IsTerminal(s: SessionState) {
    s.Completed? || s.Failed? || s.Stopped?
  }

  predicate Replaces(b: Binding, source: SessionId, action: Action, profile: StableId) {
    b.origin == Some(Origin(source, action)) && b.profile == profile
  }

  /** A recorded replacement that `findExistingReplacement` may answer with. */
  ghost predicate Existing(m: Machine, c: Call, id: SessionId) {
    && id in m.bindings && id in m.sessions && Replaces(m.bindings[id], c.source, c.action, c.profile)
    && (c.request.Some? ==> m.bindings[id].request == c.request)
  }

  ghost predicate RequestUsed(m: Machine, request: Option<string>) {
    request.Some? && exists id :: id in m.bindings && m.bindings[id].request == request
  }

  /** The answer of `findExistingReplacement`: a session, nothing, or an error (None) for a used request. */
  ghost function Find(m: Machine, c: Call): Option<Option<SessionId>> {
    if exists id :: Existing(m, c, id) then (var id :| Existing(m, c, id); Some(Some(id)))
    else if RequestUsed(m, c.request) then None
    else Some(None)
  }

  /** The two unique indexes let a binding with these values in. */
  ghost predicate Insertable(m: Machine, c: Call) {
    && (forall id :: id in m.bindings ==> !Replaces(m.bindings[id], c.source, c.action, c.profile))
    && !RequestUsed(m, c.request)
  }

  function InPhase(m: Machine, call: CallId, phase: Phase): Machine
    requires call in m.calls
  {
    m.(calls := m.calls[call := m.calls[call].(phase := phase)])
  }

  function Held(phase: Phase): set<SessionId> {
    if phase.Started? || phase.Losing? then {phase.ext} else {}
  }

  ghost predicate IsFresh(m: Machine, id: SessionId) {
    id !in m.sessions && id !in m.bindings && id !in m.started
  }

  // ---- The steps; one that is not enabled changes nothing ----

  ghost function Registered(m: Machine, id: SessionId, identity: Identity, profile: StableId): Machine {
    if !IsFresh(m, id) then m
    else m.(sessions := m.sessions[id := Session(identity, Running)],
            bindings := m.bindings[id := Binding(profile, None, None)])
  }

  function StateSaved(m: Machine, id: SessionId, state: SessionState): Machine {
    if id !in m.sessions || IsTerminal(m.sessions[id].state) then m
    else m.(sessions := m.sessions[id := m.sessions[id].(state := state)])
  }

  function Begun(m: Machine, call: CallId, source: SessionId, action: Action, target: Option<StableId>,
                 request: Option<string>): Machine
  {
    if call in m.calls || source !in m.sessions || source !in m.bindings || !IsTerminal(m.sessions[source].state)
       || !WellAsked(action, target, request) then m
    else
      var profile := if target.Some? then target.value else m.bindings[source].profile;
      m.(calls := m.calls[call := Call(source, m.sessions[source].identity, action, profile, request, Checking)])
  }

  ghost function Checked(m: Machine, call: CallId): Machine {
    if call !in m.calls || !m.calls[call].phase.Checking? then m
    else
      var answer := Find(m, m.calls[call]);
      InPhase(m, call, if answer.None? then Finished(None)
                       else if answer.value.Some? then Finished(answer.value) else Cleared)
  }

  ghost function StartedSession(m: Machine, call: CallId, ext: SessionId, fails: bool): Machine {
    if call !in m.calls || !m.calls[call].phase.Cleared? then m
    else if fails then InPhase(m, call, Finished(None))
    else if !IsFresh(m, ext) then m
    else InPhase(m, call, Started(ext)).(started := m.started + {ext}, owner := m.owner[ext := call])
  }

  ghost function Saved(m: Machine, call: CallId, storeFails: bool): Machine {
    if call !in m.calls || !m.calls[call].phase.Started? then m
    else if storeFails || !Insertable(m, m.calls[call]) then InPhase(m, call, Losing(m.calls[call].phase.ext))
    else Inserted(m, call)
  }

  function Inserted(m: Machine, call: CallId): Machine
    requires call in m.calls && m.calls[call].phase.Started?
  {
    var c := m.calls[call];
    InPhase(m, call, Bound(c.phase.ext)).(
      bindings := m.bindings[c.phase.ext := Binding(c.profile, Some(Origin(c.source, c.action)), c.request)])
  }

  function Recorded(m: Machine, call: CallId, state: SessionState, storeFails: bool): Machine {
    if call !in m.calls || !m.calls[call].phase.Bound? then m
    else if storeFails then InPhase(m, call, Finished(None))
    else
      var c := m.calls[call];
      InPhase(m, call, Finished(Some(c.phase.ext))).(sessions := m.sessions[c.phase.ext := Session(c.identity, state)])
  }

  function StopRequested(m: Machine, call: CallId): Machine {
    if call !in m.calls || !m.calls[call].phase.Losing? then m
    else InPhase(m, call, LookingUp).(stopAsked := m.stopAsked + {m.calls[call].phase.ext})
  }

  ghost function LookedUp(m: Machine, call: CallId): Machine {
    if call !in m.calls || !m.calls[call].phase.LookingUp? then m
    else
      var found := Find(m, m.calls[call]);
      InPhase(m, call, Finished(if found.Some? then found.value else None))
  }

  function Crashed(m: Machine, call: CallId): Machine {
    if call !in m.calls then m
    else m.(calls := m.calls - {call}, abandoned := m.abandoned + Held(m.calls[call].phase))
  }

  ghost function Next(m: Machine, e: Event): Machine {
    match e
    case Register(id, identity, profile) => Registered(m, id, identity, profile)
    case SaveState(id, state) => StateSaved(m, id, state)
    case Begin(call, source, action, target, request) => Begun(m, call, source, action, target, request)
    case Check(call) => Checked(m, call)
    case Start(call, ext, fails) => StartedSession(m, call, ext, fails)
    case Save(call, storeFails) => Saved(m, call, storeFails)
    case Record(call, state, storeFails) => Recorded(m, call, state, storeFails)
    case Stop(call) => StopRequested(m, call)
    case LookUp(call) => LookedUp(m, call)
    case Crash(call) => Crashed(m, call)
  }

  ghost function Stepper(): (Machine, Event) -> Machine {
    (m, e) => Next(m, e)
  }

  const START := Machine(map[], map[], map[], {}, {}, {}, map[])

  // ---- Invariant ----

  /** The two unique indexes. */
  ghost predicate UniqueBindings(m: Machine) {
    forall a, b :: a in m.bindings && b in m.bindings && a != b ==>
      && !(m.bindings[a].origin.Some? && m.bindings[a].origin == m.bindings[b].origin
           && m.bindings[a].profile == m.bindings[b].profile)
      && !(m.bindings[a].request.Some? && m.bindings[a].request == m.bindings[b].request)
  }

  /** Every started session is bound, asked to stop, lost in a crash, or still held by its call. */
  ghost predicate Accounted(m: Machine, ext: SessionId) {
    || ext in m.bindings || ext in m.stopAsked || ext in m.abandoned
    || (ext in m.owner && m.owner[ext] in m.calls && ext in Held(m.calls[m.owner[ext]].phase))
  }

  /** A call works on behalf of a recorded session and knows its identity. */
  ghost predicate SourceKnown(m: Machine, c: Call) {
    c.source in m.sessions && m.sessions[c.source].identity == c.identity
  }

  /** The external session a call holds is its own and not settled yet. */
  ghost predicate HoldsOwn(m: Machine, call: CallId, c: Call) {
    forall ext :: ext in Held(c.phase) ==>
      && ext in m.started && ext !in m.bindings && ext !in m.stopAsked && ext !in m.sessions
      && ext in m.owner && m.owner[ext] == call
  }

  /** A bound session awaits its record. */
  ghost predicate BoundOwn(m: Machine, call: CallId, c: Call) {
    c.phase.Bound? ==>
      && c.phase.ext in m.bindings && c.phase.ext !in m.sessions
      && m.bindings[c.phase.ext] == Binding(c.profile, Some(Origin(c.source, c.action)), c.request)
      && c.phase.ext in m.owner && m.owner[c.phase.ext] == call
  }

  ghost predicate CallSound(m: Machine, call: CallId, c: Call) {
    SourceKnown(m, c) && HoldsOwn(m, call, c) && BoundOwn(m, call, c)
  }

  ghost predicate CallsSound(m: Machine) {
    forall call :: call in m.calls ==> CallSound(m, call, m.calls[call])
  }

  ghost predicate Inherits(m: Machine, id: SessionId, b: Binding) {
    b.origin.Some? ==>
      var source := b.origin.value.source;
      source in m.sessions && (id in m.sessions ==> m.sessions[id].identity == m.sessions[source].identity)
  }

  ghost predicate AllInherit(m: Machine) {
    && (forall id :: id in m.bindings ==> Inherits(m, id, m.bindings[id]))
    && (forall id :: id in m.sessions ==> id in m.bindings)
  }

  /** The session is recorded and over. */
  ghost predicate Ended(m: Machine, id: SessionId) {
    id in m.sessions && IsTerminal(m.sessions[id].state)
  }

  /** Only sessions that have ended are being replaced or have been. */
  ghost predicate SourcesEnded(m: Machine) {
    && (forall call :: call in m.calls ==> Ended(m, m.calls[call].source))
    && (forall id :: id in m.bindings && m.bindings[id].origin.Some? ==> Ended(m, m.bindings[id].origin.value.source))
  }

  /** What a call returned is a recorded replacement of its own key. */
  ghost predicate ResultsReal(m: Machine) {
    forall call :: call in m.calls && m.calls[call].phase.Finished? && m.calls[call].phase.result.Some? ==>
                     Existing(m, m.calls[call], m.calls[call].phase.result.value)
  }

  ghost predicate StopsApart(m: Machine) {
    m.stopAsked !! m.bindings.Keys && m.stopAsked <= m.started
  }

  ghost predicate AllAccounted(m: Machine) {
    forall ext :: ext in m.started ==> Accounted(m, ext)
  }

  ghost predicate Inv(m: Machine) {
    && UniqueBindings(m) && StopsApart(m) && AllAccounted(m) && CallsSound(m) && AllInherit(m)
    && SourcesEnded(m) && ResultsReal(m)
  }

  // ---- What a step leaves alone ----

  /** Bindings and identities are never changed, only added. */
  ghost predicate Grows(m: Machine, m': Machine) {
    && (forall id :: id in m.bindings ==> id in m'.bindings && m'.bindings[id] == m.bindings[id])
    && (forall id :: id in m.sessions ==> id in m'.sessions && m'.sessions[id].identity == m.sessions[id].identity)
  }

  lemma InsertGrows(m: Machine, call: CallId)
    requires CallsSound(m) && call in m.calls && m.calls[call].phase.Started?
    ensures Grows(m, Inserted(m, call)) && m.calls[call].phase.ext !in m.bindings
  {
    assert HoldsOwn(m, call, m.calls[call]);
    assert m.calls[call].phase.ext in Held(m.calls[call].phase);
  }

  lemma RecordGrows(m: Machine, call: CallId, state: SessionState, storeFails: bool)
    requires CallsSound(m)
    ensures Grows(m, Recorded(m, call, state, storeFails))
  {
    if call in m.calls {
      assert BoundOwn(m, call, m.calls[call]);
    }
  }

  lemma NextGrows(m: Machine, e: Event)
    requires CallsSound(m)
    ensures Grows(m, Next(m, e))
  {
    match e
    case Register(id, identity, profile) => assert Grows(m, Registered(m, id, identity, profile));
    case SaveState(id, state) => assert Grows(m, StateSaved(m, id, state));
    case Save(call, storeFails) =>
      if call in m.calls && m.calls[call].phase.Started? {
        InsertGrows(m, call);
      }
    case Record(call, state, storeFails) => RecordGrows(m, call, state, storeFails);
    case Begin(_, _, _, _, _) =>
    case Check(_) =>
    case Start(_, _, _) =>
    case Stop(_) =>
    case LookUp(_) =>
    case Crash(_) =>
  }

  /** Only registration and recording add sessions, and only registration and insertion add bindings. */
  lemma WhatAdds(m: Machine, e: Event)
    ensures e.Register? || e.Record? || forall id :: id in Next(m, e).sessions ==> id in m.sessions
    ensures e.Register? || e.Save? || Next(m, e).bindings == m.bindings
  {
  }

  /** The external session a call has started and not settled yet. */
  function Using(phase: Phase): set<SessionId> {
    if phase.Started? || phase.Losing? || phase.Bound? then {phase.ext} else {}
  }

  function CallOf(e: Event): Option<CallId> {
    if e.Register? || e.SaveState? then None else Some(e.call)
  }

  /** The session a step registers, starts, binds, records or asks to stop. */
  ghost function Touched(m: Machine, e: Event): set<SessionId> {
    if e.Register? then (if IsFresh(m, e.id) then {e.id} else {})
    else if e.Start? then (if IsFresh(m, e.ext) then {e.ext} else {})
    else if e.SaveState? || e.call !in m.calls then {}
    else Using(m.calls[e.call].phase)
  }

  ghost predicate AgreeExcept(m: Machine, m': Machine, touched: set<SessionId>) {
    && m.started <= m'.started
    && forall id :: id !in touched ==>
         && (id in m'.bindings ==> id in m.bindings) && (id in m'.sessions ==> id in m.sessions)
         && (id in m'.stopAsked ==> id in m.stopAsked)
         && (id in m.owner ==> id in m'.owner && m'.owner[id] == m.owner[id])
  }

  lemma NextAgrees(m: Machine, e: Event)
    ensures AgreeExcept(m, Next(m, e), Touched(m, e))
  {
  }

  lemma OtherCallsSame(m: Machine, e: Event, k: CallId)
    requires CallOf(e) != Some(k)
    ensures k in Next(m, e).calls <==> k in m.calls
    ensures k in m.calls ==> Next(m, e).calls[k] == m.calls[k]
  {
  }

  /** A step touches no session that another call is using. */
  lemma TouchedApart(m: Machine, e: Event, k: CallId)
    requires CallsSound(m) && k in m.calls && CallOf(e) != Some(k)
    ensures Using(m.calls[k].phase) !! Touched(m, e)
  {
    assert CallSound(m, k, m.calls[k]);
    UsingOwned(m, k);
    if CallOf(e).Some? && e.call in m.calls {
      UsingOwned(m, e.call);
    }
  }

  lemma UsingOwned(m: Machine, k: CallId)
    requires CallsSound(m) && k in m.calls
    ensures forall ext :: ext in Using(m.calls[k].phase) ==>
              ext in m.owner && m.owner[ext] == k && (ext in m.started || ext in m.bindings)
  {
    assert CallSound(m, k, m.calls[k]);
    assert Held(m.calls[k].phase) <= Using(m.calls[k].phase);
  }

  // ---- Each conjunct of the invariant survives every step ----

  lemma CallKept(m: Machine, m': Machine, k: CallId, c: Call, touched: set<SessionId>)
    requires CallSound(m, k, c) && AgreeExcept(m, m', touched) && Grows(m, m') && Using(c.phase) !! touched
    ensures CallSound(m', k, c)
  {
    assert Held(c.phase) <= Using(c.phase);
  }

  /** The stepping call itself. */
  lemma StepperSound(m: Machine, e: Event, k: CallId)
    requires CallsSound(m) && StopsApart(m) && CallOf(e) == Some(k) && k in Next(m, e).calls
    ensures CallSound(Next(m, e), k, Next(m, e).calls[k])
  {
    NextGrows(m, e);
    assert k in m.calls ==> CallSound(m, k, m.calls[k]);
    if e.Save? {
      SaverSound(m, k, e.storeFails);
    } else if e.Start? {
      StarterSound(m, k, e.ext, e.fails);
    }
  }

  lemma StarterSound(m: Machine, k: CallId, ext: SessionId, fails: bool)
    requires CallsSound(m) && StopsApart(m) && k in m.calls
    ensures var m' := StartedSession(m, k, ext, fails); CallSound(m', k, m'.calls[k])
  {
    assert CallSound(m, k, m.calls[k]);
  }

  lemma SaverSound(m: Machine, k: CallId, storeFails: bool)
    requires CallsSound(m) && k in m.calls
    ensures var m' := Saved(m, k, storeFails); CallSound(m', k, m'.calls[k])
  {
    assert CallSound(m, k, m.calls[k]);
    assert m.calls[k].phase.Started? ==> m.calls[k].phase.ext in Held(m.calls[k].phase);
  }

  lemma NextKeepsCalls(m: Machine, e: Event)
    requires CallsSound(m) && StopsApart(m)
    ensures CallsSound(Next(m, e))
  {
    var m' := Next(m, e);
    forall k | k in m'.calls
      ensures CallSound(m', k, m'.calls[k])
    {
      if CallOf(e) == Some(k) {
        StepperSound(m, e, k);
      } else {
        OtherCallsSame(m, e, k);
        TouchedApart(m, e, k);
        NextAgrees(m, e);
        NextGrows(m, e);
        CallKept(m, m', k, m.calls[k], Touched(m, e));
      }
    }
  }

  lemma NextKeepsAccounted(m: Machine, e: Event)
    requires CallsSound(m) && AllAccounted(m)
    ensures AllAccounted(Next(m, e))
  {
    var m' := Next(m, e);
    forall x | x in m'.started
      ensures Accounted(m', x)
    {
      if x !in m.started {
        assert x in Held(m'.calls[e.call].phase);
      } else {
        assert Accounted(m, x);
        StillAccounted(m, e, x);
      }
    }
  }

  lemma StillAccounted(m: Machine, e: Event, x: SessionId)
    requires CallsSound(m) && x in m.started && Accounted(m, x)
    ensures Accounted(Next(m, e), x)
  {
    if x in m.bindings || x in m.stopAsked || x in m.abandoned {
      NextGrows(m, e);
      MarksStay(m, e);
    } else if CallOf(e) == Some(m.owner[x]) {
      HolderSettles(m, e, x);
    } else {
      HolderWaits(m, e, x);
    }
  }

  lemma MarksStay(m: Machine, e: Event)
    ensures m.stopAsked <= Next(m, e).stopAsked && m.abandoned <= Next(m, e).abandoned
  {
  }

  /** A call that holds a session and does not step goes on holding it. */
  lemma HolderWaits(m: Machine, e: Event, x: SessionId)
    requires CallsSound(m) && x in m.owner && m.owner[x] in m.calls && x in Held(m.calls[m.owner[x]].phase)
    requires CallOf(e) != Some(m.owner[x])
    ensures Accounted(Next(m, e), x)
  {
    OtherCallsSame(m, e, m.owner[x]);
    TouchedApart(m, e, m.owner[x]);
    NextAgrees(m, e);
  }

  /** A call that holds a session and steps still holds it, binds it, asks to stop it, or is lost. */
  lemma HolderSettles(m: Machine, e: Event, x: SessionId)
    requires CallOf(e).Some? && e.call in m.calls && x in Held(m.calls[e.call].phase)
    requires x in m.owner && m.owner[x] == e.call
    ensures Accounted(Next(m, e), x)
  {
  }

  lemma NextKeepsUnique(m: Machine, e: Event)
    requires CallsSound(m) && UniqueBindings(m)
    ensures UniqueBindings(Next(m, e))
  {
    if e.Save? {
      if e.call in m.calls && m.calls[e.call].phase.Started? {
        InsertGrows(m, e.call);
        if Insertable(m, m.calls[e.call]) {
          InsertKeepsUnique(m, e.call);
        }
      }
    } else if !e.Register? {
      WhatAdds(m, e);
    }
  }

  /** What the unique indexes let in repeats no binding. */
  lemma InsertKeepsUnique(m: Machine, call: CallId)
    requires UniqueBindings(m) && call in m.calls && m.calls[call].phase.Started?
    requires m.calls[call].phase.ext !in m.bindings && Insertable(m, m.calls[call])
    ensures UniqueBindings(Inserted(m, call))
  {
    var c := m.calls[call];
    forall id | id in m.bindings
      ensures !Replaces(m.bindings[id], c.source, c.action, c.profile)
      ensures c.request.Some? ==> m.bindings[id].request != c.request
    {
    }
  }

  lemma NextKeepsStopsApart(m: Machine, e: Event)
    requires CallsSound(m) && StopsApart(m)
    ensures StopsApart(Next(m, e))
  {
    if CallOf(e).Some? && e.call in m.calls {
      assert CallSound(m, e.call, m.calls[e.call]);
      assert Using(m.calls[e.call].phase) == Held(m.calls[e.call].phase) || m.calls[e.call].phase.Bound?;
    }
  }

  lemma NextKeepsInherited(m: Machine, e: Event)
    requires CallsSound(m) && AllInherit(m)
    ensures AllInherit(Next(m, e))
  {
    if e.Save? {
      InsertInherits(m, e.call, e.storeFails);
    } else if e.Record? {
      RecordInherits(m, e.call, e.state, e.storeFails);
    } else {
      NextGrows(m, e);
      WhatAdds(m, e);
      SameIdentitiesInherit(m, Next(m, e), if e.Register? then {e.id} else {});
    }
  }

  /** New sessions and bindings of the daemon's own, and changes of state, inherit nothing. */
  lemma SameIdentitiesInherit(m: Machine, m': Machine, own: set<SessionId>)
    requires AllInherit(m) && Grows(m, m')
    requires forall id :: id in m'.bindings && id !in m.bindings ==> id in own && m'.bindings[id].origin.None?
    requires forall id :: id in m'.sessions && id !in m.sessions ==> id in own && id in m'.bindings && id !in m.bindings
    ensures AllInherit(m')
  {
    forall id | id in m'.bindings
      ensures Inherits(m', id, m'.bindings[id])
    {
      assert id in m.bindings ==> Inherits(m, id, m.bindings[id]);
    }
  }

  lemma InsertInherits(m: Machine, call: CallId, storeFails: bool)
    requires CallsSound(m) && AllInherit(m)
    ensures AllInherit(Saved(m, call, storeFails))
  {
    if call in m.calls && m.calls[call].phase.Started? {
      var m', ext := Inserted(m, call), m.calls[call].phase.ext;
      assert CallSound(m, call, m.calls[call]) && ext in Held(m.calls[call].phase);
      forall id | id in m'.bindings
        ensures Inherits(m', id, m'.bindings[id])
      {
        assert id != ext ==> Inherits(m, id, m.bindings[id]);
      }
    }
  }

  lemma RecordInherits(m: Machine, call: CallId, state: SessionState, storeFails: bool)
    requires CallsSound(m) && AllInherit(m)
    ensures AllInherit(Recorded(m, call, state, storeFails))
  {
    if call in m.calls && m.calls[call].phase.Bound? && !storeFails {
      var m', ext := Recorded(m, call, state, storeFails), m.calls[call].phase.ext;
      assert CallSound(m, call, m.calls[call]);
      forall id | id in m'.bindings
        ensures Inherits(m', id, m'.bindings[id])
      {
        assert Inherits(m, id, m.bindings[id]);
      }
    }
  }

  lemma EndedStays(m: Machine, e: Event, id: SessionId)
    requires CallsSound(m) && Ended(m, id)
    ensures Ended(Next(m, e), id)
  {
    if e.Record? && e.call in m.calls {
      assert CallSound(m, e.call, m.calls[e.call]);
    }
  }

  lemma NextKeepsEnded(m: Machine, e: Event)
    requires CallsSound(m) && SourcesEnded(m)
    ensures SourcesEnded(Next(m, e))
  {
    var m' := Next(m, e);
    forall call | call in m'.calls
      ensures Ended(m', m'.calls[call].source)
    {
      CallSourceEnded(m, e, call);
      EndedStays(m, e, m'.calls[call].source);
    }
    forall id | id in m'.bindings && m'.bindings[id].origin.Some?
      ensures Ended(m', m'.bindings[id].origin.value.source)
    {
      BindingSourceEnded(m, e, id);
      EndedStays(m, e, m'.bindings[id].origin.value.source);
    }
  }

  /** A step starts no call on a session that still lives. */
  lemma CallSourceEnded(m: Machine, e: Event, call: CallId)
    requires SourcesEnded(m) && call in Next(m, e).calls
    ensures Ended(m, Next(m, e).calls[call].source)
  {
    if CallOf(e) != Some(call) {
      OtherCallsSame(m, e, call);
    }
  }

  lemma BindingSourceEnded(m: Machine, e: Event, id: SessionId)
    requires SourcesEnded(m) && id in Next(m, e).bindings && Next(m, e).bindings[id].origin.Some?
    ensures Ended(m, Next(m, e).bindings[id].origin.value.source)
  {
  }

  lemma NextKeepsResults(m: Machine, e: Event)
    requires CallsSound(m) && ResultsReal(m)
    ensures ResultsReal(Next(m, e))
  {
    var m' := Next(m, e);
    NextGrows(m, e);
    forall call | call in m'.calls && m'.calls[call].phase.Finished? && m'.calls[call].phase.result.Some?
      ensures Existing(m', m'.calls[call], m'.calls[call].phase.result.value)
    {
      if CallOf(e) == Some(call) {
        StepperResult(m, e);
      } else {
        OtherCallsSame(m, e, call);
      }
    }
  }

  lemma StepperResult(m: Machine, e: Event)
    requires CallsSound(m) && ResultsReal(m) && CallOf(e).Some? && e.call in Next(m, e).calls
    requires Next(m, e).calls[e.call].phase.Finished? && Next(m, e).calls[e.call].phase.result.Some?
    ensures Existing(Next(m, e), Next(m, e).calls[e.call], Next(m, e).calls[e.call].phase.result.value)
  {
    if e.Record? {
      assert CallSound(m, e.call, m.calls[e.call]);
    }
  }

  lemma NextKeepsInv(m: Machine, e: Event)
    requires Inv(m)
    ensures Inv(Next(m, e))
  {
    NextKeepsUnique(m, e);
    NextKeepsStopsApart(m, e);
    NextKeepsAccounted(m, e);
    NextKeepsCalls(m, e);
    NextKeepsInherited(m, e);
    NextKeepsEnded(m, e);
    NextKeepsResults(m, e);
  }

  // ---- Main results ----

  lemma RunsKeepInv(events: seq<Event>)
    ensures Inv(Fold(Stepper(), START, events))
  {
    forall m, e | Inv(m)
      ensures Inv(Stepper()(m, e))
    {
      NextKeepsInv(m, e);
    }
    FoldInvariant(Stepper(), START, events, m => Inv(m));
  }

  /**
   * Under every interleaving there is at most one binding per source, action and profile, and every
   * external session that is neither still held by its call nor lost in a crash was either bound or
   * asked to stop, never both.
   */
  lemma OneReplacementOthersStopped(events: seq<Event>)
    ensures var m := Fold(Stepper(), START, events);
            && (forall a, b, source, action, profile ::
                  a in m.bindings && b in m.bindings
                  && Replaces(m.bindings[a], source, action, profile)
                  && Replaces(m.bindings[b], source, action, profile)
                  ==> a == b)
            && (forall ext :: ext in m.started && ext !in m.abandoned
                  && (forall call :: call in m.calls ==> ext !in Held(m.calls[call].phase))
                  ==> (ext in m.bindings <==> ext !in m.stopAsked))
  {
    RunsKeepInv(events);
    var m := Fold(Stepper(), START, events);
    forall ext | ext in m.started && ext !in m.abandoned
                 && (forall call :: call in m.calls ==> ext !in Held(m.calls[call].phase))
      ensures ext in m.bindings <==> ext !in m.stopAsked
    {
      assert Accounted(m, ext);
    }
  }

  /** In every run only sessions that have ended are replaced: no binding or call has a living source. */
  lemma OnlyEndedSessionsReplaced(events: seq<Event>)
    ensures var m := Fold(Stepper(), START, events);
            && (forall id :: id in m.bindings && m.bindings[id].origin.Some? ==>
                  var source := m.bindings[id].origin.value.source;
                  source in m.sessions && IsTerminal(m.sessions[source].state))
            && (forall call :: call in m.calls ==>
                  var source := m.calls[call].source;
                  source in m.sessions && IsTerminal(m.sessions[source].state))
  {
    RunsKeepInv(events);
    var m := Fold(Stepper(), START, events);
    forall id | id in m.bindings && m.bindings[id].origin.Some?
      ensures Ended(m, m.bindings[id].origin.value.source)
    {
    }
    forall call | call in m.calls
      ensures Ended(m, m.calls[call].source)
    {
    }
  }

  /** Any two calls for one source, action and profile that return a session return the same one, and it is recorded. */
  lemma CallsAgree(events: seq<Event>, a: CallId, b: CallId)
    requires var m := Fold(Stepper(), START, events);
             && a in m.calls && b in m.calls
             && m.calls[a].source == m.calls[b].source && m.calls[a].action == m.calls[b].action
             && m.calls[a].profile == m.calls[b].profile
             && m.calls[a].phase.Finished? && m.calls[b].phase.Finished?
             && m.calls[a].phase.result.Some? && m.calls[b].phase.result.Some?
    ensures var m := Fold(Stepper(), START, events);
            && m.calls[a].phase.result == m.calls[b].phase.result
            && Existing(m, m.calls[a], m.calls[a].phase.result.value)
  {
    RunsKeepInv(events);
  }

  /**
   * The lookups: a call whose replacement is recorded returns it, before it would start a session or
   * after it lost one; without one it goes on, or fails, and it fails if its request id was used otherwise.
   */
  lemma LookupsAnswer(m: Machine, call: CallId)
    requires call in m.calls
    ensures var (c, found) := (m.calls[call], exists id :: Existing(m, m.calls[call], id));
            var checked := Next(m, Check(call)).calls[call].phase;
            var looked := Next(m, LookUp(call)).calls[call].phase;
            && (c.phase.Checking? ==>
                  && (found <==> checked.Finished? && checked.result.Some?)
                  && (found ==> Existing(m, c, checked.result.value))
                  && (!found ==> checked == if RequestUsed(m, c.request) then Finished(None) else Cleared))
            && (c.phase.LookingUp? ==>
                  && looked.Finished? && (found <==> looked.result.Some?)
                  && (found ==> Existing(m, c, looked.result.value)))
  {
  }

  /** Each session of the chain replaced the next one; the last was launched by the daemon itself. */
  ghost predicate Lineage(m: Machine, chain: seq<SessionId>) {
    && chain != []
    && (forall i :: 0 <= i < |chain| ==> chain[i] in m.bindings && chain[i] in m.sessions)
    && (forall i :: 0 <= i < |chain| - 1 ==>
          m.bindings[chain[i]].origin.Some? && m.bindings[chain[i]].origin.value.source == chain[i + 1])
    && m.bindings[chain[|chain| - 1]].origin.None?
  }

  ghost predicate Rooted(m: Machine, id: SessionId) {
    exists chain :: Lineage(m, chain) && chain[0] == id
  }

  ghost predicate AllRooted(m: Machine) {
    forall id :: id in m.sessions ==> Rooted(m, id)
  }

  lemma LineageGrows(m: Machine, m': Machine, chain: seq<SessionId>)
    requires Grows(m, m') && Lineage(m, chain)
    ensures Lineage(m', chain)
  {
  }

  lemma RootedGrows(m: Machine, m': Machine, id: SessionId)
    requires Grows(m, m') && Rooted(m, id)
    ensures Rooted(m', id)
  {
    var chain :| Lineage(m, chain) && chain[0] == id;
    LineageGrows(m, m', chain);
  }

  lemma RecordKeepsRooted(m: Machine, call: CallId, state: SessionState)
    requires CallsSound(m) && AllRooted(m) && call in m.calls && m.calls[call].phase.Bound?
    ensures Rooted(Recorded(m, call, state, false), m.calls[call].phase.ext)
  {
    var m' := Recorded(m, call, state, false);
    var c := m.calls[call];
    assert SourceKnown(m, c) && BoundOwn(m, call, c);
    RecordGrows(m, call, state, false);
    RootedGrows(m, m', c.source);
    ExtendLineage(m', c.phase.ext, c.source);
  }

  lemma ExtendLineage(m: Machine, id: SessionId, source: SessionId)
    requires Rooted(m, source) && id in m.bindings && id in m.sessions
    requires m.bindings[id].origin.Some? && m.bindings[id].origin.value.source == source
    ensures Rooted(m, id)
  {
    var chain :| Lineage(m, chain) && chain[0] == source;
    var longer := [id] + chain;
    forall i | 0 <= i < |longer| - 1
      ensures m.bindings[longer[i]].origin.Some? && m.bindings[longer[i]].origin.value.source == longer[i + 1]
    {
      assert i > 0 ==> longer[i] == chain[i - 1] && longer[i + 1] == chain[i];
    }
    assert Lineage(m, longer);
  }

  lemma NextKeepsRooted(m: Machine, e: Event)
    requires Inv(m) && AllRooted(m)
    ensures AllRooted(Next(m, e))
  {
    var m' := Next(m, e);
    NextGrows(m, e);
    WhatAdds(m, e);
    if e.Register? && IsFresh(m, e.id) {
      assert Lineage(m', [e.id]);
    }
    if e.Record? && e.call in m.calls && m.calls[e.call].phase.Bound? && !e.storeFails {
      RecordKeepsRooted(m, e.call, e.state);
    }
    forall id | id in m'.sessions
      ensures Rooted(m', id)
    {
      if id in m.sessions {
        RootedGrows(m, m', id);
      }
    }
  }

  lemma {:induction false} LineageSharesIdentity(m: Machine, chain: seq<SessionId>)
    requires AllInherit(m) && Lineage(m, chain)
    ensures m.sessions[chain[0]].identity == m.sessions[chain[|chain| - 1]].identity
  {
    if |chain| > 1 {
      assert Inherits(m, chain[0], m.bindings[chain[0]]);
      assert Lineage(m, chain[1..]);
      LineageSharesIdentity(m, chain[1..]);
    }
  }

  /**
   * In every run each recorded session descends from one the daemon launched, and shares run, task,
   * execution node and workspace with it and with everything in between.
   */
  lemma IdentityKeptFromRoot(events: seq<Event>, id: SessionId)
    requires id in Fold(Stepper(), START, events).sessions
    ensures var m := Fold(Stepper(), START, events);
            exists chain :: Lineage(m, chain) && chain[0] == id
                         && m.sessions[id].identity == m.sessions[chain[|chain| - 1]].identity
  {
    forall m, e | Inv(m) && AllRooted(m)
      ensures Inv(Stepper()(m, e)) && AllRooted(Stepper()(m, e))
    {
      NextKeepsInv(m, e);
      NextKeepsRooted(m, e);
    }
    FoldInvariant(Stepper(), START, events, m => Inv(m) && AllRooted(m));
    var m := Fold(Stepper(), START, events);
    var chain :| Lineage(m, chain) && chain[0] == id;
    LineageSharesIdentity(m, chain);
  }

  // ---- The profile a replacement runs on ----

  /** A replacement keeps the source's profile unless it switches, and a switch carries no request id. */
  ghost predicate AskedOf(m: Machine, source: SessionId, action: Action, profile: StableId, request: Option<string>) {
    && source in m.bindings
    && if action.SwitchProfile? then request.None? else profile == m.bindings[source].profile
  }

  ghost predicate BindingAsked(m: Machine, b: Binding) {
    b.origin.Some? ==> AskedOf(m, b.origin.value.source, b.origin.value.action, b.profile, b.request)
  }

  ghost predicate AllAsked(m: Machine) {
    && (forall call :: call in m.calls ==>
          var c := m.calls[call]; AskedOf(m, c.source, c.action, c.profile, c.request))
    && (forall id :: id in m.bindings ==> BindingAsked(m, m.bindings[id]))
  }

  lemma CallStaysAsked(m: Machine, e: Event, call: CallId)
    requires AllAsked(m) && call in Next(m, e).calls
    ensures var c := Next(m, e).calls[call]; AskedOf(m, c.source, c.action, c.profile, c.request)
  {
    if CallOf(e) != Some(call) {
      OtherCallsSame(m, e, call);
    }
  }

  lemma BindingStaysAsked(m: Machine, e: Event, id: SessionId)
    requires AllAsked(m) && id in Next(m, e).bindings
    ensures BindingAsked(m, Next(m, e).bindings[id])
  {
    assert id in m.bindings ==> BindingAsked(m, m.bindings[id]);
  }

  lemma NextKeepsAsked(m: Machine, e: Event)
    requires CallsSound(m) && AllAsked(m)
    ensures AllAsked(Next(m, e))
  {
    var m' := Next(m, e);
    NextGrows(m, e);
    forall call | call in m'.calls
      ensures var c := m'.calls[call]; AskedOf(m', c.source, c.action, c.profile, c.request)
    {
      CallStaysAsked(m, e, call);
    }
    forall id | id in m'.bindings
      ensures BindingAsked(m', m'.bindings[id])
    {
      BindingStaysAsked(m, e, id);
    }
  }

  /** In every run a restart or retry runs on its source's profile, and only a switch leaves it. */
  lemma ProfileKeptUnlessSwitched(events: seq<Event>, id: SessionId)
    requires var m := Fold(Stepper(), START, events); id in m.bindings && m.bindings[id].origin.Some?
    ensures var m := Fold(Stepper(), START, events);
            var Origin(source, action) := m.bindings[id].origin.value;
            && source in m.bindings
            && if action.SwitchProfile? then m.bindings[id].request.None?
               else m.bindings[id].profile == m.bindings[source].profile
  {
    forall m, e | Inv(m) && AllAsked(m)
      ensures Inv(Stepper()(m, e)) && AllAsked(Stepper()(m, e))
    {
      NextKeepsInv(m, e);
      NextKeepsAsked(m, e);
    }
    FoldInvariant(Stepper(), START, events, m => Inv(m) && AllAsked(m));
    var m := Fold(Stepper(), START, events);
    assert BindingAsked(m, m.bindings[id]);
  }

  // ---- What the store and the harness do to a call ----

  /** What each of a call's own writes leaves behind, when it works and when it throws. */
  lemma WritesAndFailures(m: Machine, call: CallId, ext: SessionId, state: SessionState)
    requires call in m.calls
    ensures var c := m.calls[call];
            && (c.phase.Cleared? ==>
                  Next(m, Start(call, ext, true)) == m.(calls := m.calls[call := c.(phase := Finished(None))]))
            && (c.phase.Started? ==>
                  Next(m, Save(call, true)) == m.(calls := m.calls[call := c.(phase := Losing(c.phase.ext))]))
            && (c.phase.Bound? ==>
                  && Next(m, Record(call, state, true)) == m.(calls := m.calls[call := c.(phase := Finished(None))])
                  && Next(m, Record(call, state, false)) ==
                     m.(calls := m.calls[call := c.(phase := Finished(Some(c.phase.ext)))],
                        sessions := m.sessions[c.phase.ext := Session(c.identity, state)]))
  {
  }

  // ---- What a failure between the two writes leaves behind ----

  /** A binding was inserted for a replacement whose session record will never be written. */
  ghost predicate Wedged(m: Machine, ext: SessionId) {
    ext in m.bindings && m.bindings[ext].origin.Some? && ext !in m.sessions && NotBoundBy(m.calls, ext)
  }

  ghost predicate NotBoundBy(calls: map<CallId, Call>, ext: SessionId) {
    forall call :: call in calls ==> calls[call].phase != Bound(ext)
  }

  /** Only an insert puts a call in the phase that leads to a record, and only for its own new session. */
  lemma NotBoundStays(m: Machine, e: Event, ext: SessionId)
    requires CallsSound(m) && ext in m.bindings && NotBoundBy(m.calls, ext)
    ensures NotBoundBy(Next(m, e).calls, ext)
  {
    if e.Save? {
      if e.call in m.calls && m.calls[e.call].phase.Started? {
        InsertGrows(m, e.call);
      }
    }
  }

  lemma WedgedStays(m: Machine, e: Event, ext: SessionId)
    requires Inv(m) && Wedged(m, ext)
    ensures Wedged(Next(m, e), ext) && Next(m, e).bindings[ext] == m.bindings[ext]
  {
    NextGrows(m, e);
    NotBoundStays(m, e, ext);
    WhatAdds(m, e);
    if e.Record? && e.call in m.calls {
      assert m.calls[e.call].phase != Bound(ext);
    }
  }

  // ---- Which keys can still be served ----

  /** Inserting a binding for `c` would violate a unique index because of `b`. */
  predicate Conflicts(b: Binding, c: Call) {
    Replaces(b, c.source, c.action, c.profile) || (c.request.Some? && b.request == c.request)
  }

  /** The lookup for `c` may answer with `b`, once its session is recorded. */
  predicate Matches(b: Binding, c: Call) {
    Replaces(b, c.source, c.action, c.profile) && (c.request.Some? ==> b.request == c.request)
  }

  ghost predicate Answered(m: Machine, c: Call) {
    exists id :: Existing(m, c, id)
  }

  /**
   * A call finds its replacement or may insert one exactly when every binding in its way is one the
   * lookup answers with.
   */
  lemma ServedNowIff(m: Machine, c: Call)
    requires UniqueBindings(m)
    ensures Answered(m, c) || Insertable(m, c) <==>
            forall id :: id in m.bindings && Conflicts(m.bindings[id], c) ==> Existing(m, c, id)
  {
    if found :| Existing(m, c, found) {
      forall id | id in m.bindings && Conflicts(m.bindings[id], c)
        ensures id == found
      {
      }
    } else if forall id :: id in m.bindings && Conflicts(m.bindings[id], c) ==> Existing(m, c, id) {
      assert forall id :: id in m.bindings ==> !Conflicts(m.bindings[id], c);
    }
  }

  /** Without a request id: exactly when no binding of its source, action and profile lacks its session record. */
  lemma ServedWithoutRequestIff(m: Machine, c: Call)
    requires UniqueBindings(m) && c.request.None?
    ensures Answered(m, c) || Insertable(m, c) <==>
            forall id :: id in m.bindings && Replaces(m.bindings[id], c.source, c.action, c.profile) ==>
                           id in m.sessions
  {
    ServedNowIff(m, c);
  }

  /**
   * A binding in the way of `c` that the lookup will never answer with: another key's, or one without a
   * record to come.
   */
  ghost predicate BlockedBy(m: Machine, c: Call, id: SessionId) {
    && id in m.bindings && Conflicts(m.bindings[id], c)
    && (!Matches(m.bindings[id], c) || Wedged(m, id))
  }

  lemma BlockedUnserved(m: Machine, c: Call, id: SessionId)
    requires UniqueBindings(m) && BlockedBy(m, c, id)
    ensures !Answered(m, c) && !Insertable(m, c)
  {
    ServedNowIff(m, c);
    assert !Existing(m, c, id);
  }

  lemma BlockedStays(m: Machine, e: Event, c: Call, id: SessionId)
    requires Inv(m) && BlockedBy(m, c, id)
    ensures BlockedBy(Next(m, e), c, id)
  {
    NextGrows(m, e);
    if Wedged(m, id) {
      WedgedStays(m, e, id);
    }
  }

  lemma BlockedForever(m: Machine, later: seq<Event>, c: Call, id: SessionId)
    requires Inv(m) && BlockedBy(m, c, id)
    ensures var m' := Fold(Stepper(), m, later); !Answered(m', c) && !Insertable(m', c)
  {
    forall x, e | Inv(x) && BlockedBy(x, c, id)
      ensures Inv(Stepper()(x, e)) && BlockedBy(Stepper()(x, e), c, id)
    {
      NextKeepsInv(x, e);
      BlockedStays(x, e, c, id);
    }
    FoldInvariant(Stepper(), m, later, x => Inv(x) && BlockedBy(x, c, id));
    BlockedUnserved(Fold(Stepper(), m, later), c, id);
  }

  /** From then on no call for the same source, action and profile ever finds or binds a replacement. */
  lemma WedgedForever(m: Machine, later: seq<Event>, ext: SessionId, c: Call)
    requires Inv(m) && Wedged(m, ext) && Replaces(m.bindings[ext], c.source, c.action, c.profile)
    ensures var m' := Fold(Stepper(), m, later);
            !Insertable(m', c) && forall id :: !Existing(m', c, id)
  {
    BlockedForever(m, later, c, ext);
  }

  // ---- A key that nothing blocks is served by some continuation ----

  ghost predicate CanBeAnswered(m: Machine, c: Call) {
    exists later :: Answered(Fold(Stepper(), m, later), c)
  }

  lemma OneStepEarlier(m: Machine, e: Event, c: Call)
    requires CanBeAnswered(Next(m, e), c)
    ensures CanBeAnswered(m, c)
  {
    var later :| Answered(Fold(Stepper(), Next(m, e), later), c);
    assert ([e] + later)[1..] == later;
    assert Answered(Fold(Stepper(), m, [e] + later), c);
  }

  /** What a caller can ask for: only a switch names a profile of its own, and only others carry a request id. */
  ghost predicate Askable(m: Machine, c: Call) {
    && c.source in m.sessions && c.source in m.bindings
    && (if c.action.SwitchProfile? then c.request.None? else c.profile == m.bindings[c.source].profile)
  }

  /** Call `k` asks for the same key as `c` and is in this phase. */
  ghost predicate Asks(m: Machine, k: CallId, c: Call, phase: Phase) {
    && k in m.calls && m.calls[k].phase == phase
    && m.calls[k] == c.(identity := m.calls[k].identity, phase := phase)
  }

  lemma BoundIsAnswered(m: Machine, k: CallId, c: Call, ext: SessionId)
    requires k in m.calls && m.calls[k].phase == Bound(ext) && ext in m.bindings && Matches(m.bindings[ext], c)
    ensures CanBeAnswered(m, c)
  {
    var m' := Next(m, Record(k, Running, false));
    assert Existing(m', c, ext);
    assert Answered(Fold(Stepper(), m', []), c);
    OneStepEarlier(m, Record(k, Running, false), c);
  }

  lemma StartedIsAnswered(m: Machine, k: CallId, c: Call, ext: SessionId)
    requires Asks(m, k, c, Started(ext)) && Insertable(m, c)
    ensures CanBeAnswered(m, c)
  {
    var m' := Next(m, Save(k, false));
    assert m' == Inserted(m, k);
    BoundIsAnswered(m', k, c, ext);
    OneStepEarlier(m, Save(k, false), c);
  }

  lemma CheckingIsAnswered(m: Machine, k: CallId, c: Call)
    requires Asks(m, k, c, Checking) && Insertable(m, c)
    ensures CanBeAnswered(m, c)
  {
    var m' := Next(m, Check(k));
    assert Find(m, m.calls[k]) == Some(None);
    var ext := Unused(m.sessions.Keys + m.bindings.Keys + m.started);
    var m'' := Next(m', Start(k, ext, false));
    StartedIsAnswered(m'', k, c, ext);
    OneStepEarlier(m', Start(k, ext, false), c);
    OneStepEarlier(m, Check(k), c);
  }

  lemma UnboundIsAnswered(m: Machine, c: Call)
    requires Askable(m, c) && Insertable(m, c)
    ensures CanBeAnswered(m, c)
  {
    var fail := SaveState(c.source, Failed);
    var m' := Next(m, fail);
    var k := Unused(m.calls.Keys);
    var begin := Begin(k, c.source, c.action, if c.action.SwitchProfile? then Some(c.profile) else None, c.request);
    CheckingIsAnswered(Next(m', begin), k, c);
    OneStepEarlier(m', begin, c);
    OneStepEarlier(m, fail, c);
  }

  lemma Unused(ids: set<nat>) returns (n: nat)
    ensures n !in ids
  {
    n := Above(ids);
  }

  lemma {:induction false} Above(ids: set<nat>) returns (n: nat)
    ensures forall x :: x in ids ==> x < n
  {
    if ids == {} {
      n := 0;
    } else {
      var x :| x in ids;
      var rest := Above(ids - {x});
      assert forall y :: y in ids ==> y == x || y in ids - {x};
      n := if x < rest then rest else x + 1;
    }
  }

  /**
   * From any state of a run, some continuation records a replacement that answers the key if and only
   * if no binding blocks it: none of another key under the same request id, of the same key under
   * another request id when `c` carries one, or of the same key without a session record to come.
   */
  lemma ServedEventuallyIff(m: Machine, c: Call)
    requires Inv(m) && Askable(m, c)
    ensures CanBeAnswered(m, c) <==> forall id :: !BlockedBy(m, c, id)
  {
    if id :| BlockedBy(m, c, id) {
      forall later: seq<Event>
        ensures !Answered(Fold(Stepper(), m, later), c)
      {
        BlockedForever(m, later, c, id);
      }
    } else if id :| id in m.bindings && Conflicts(m.bindings[id], c) {
      assert !BlockedBy(m, c, id);
      if id in m.sessions {
        assert Existing(m, c, id);
        assert Answered(Fold(Stepper(), m, []), c);
      } else {
        var k :| k in m.calls && m.calls[k].phase == Bound(id);
        BoundIsAnswered(m, k, c, id);
      }
    } else {
      assert Insertable(m, c);
      UnboundIsAnswered(m, c);
    }
  }

  /** Without a request id the only thing that can block a key is a wedged binding of it. */
  lemma ServedEventuallyIffNotWedged(m: Machine, c: Call)
    requires Inv(m) && Askable(m, c) && c.request.None?
    ensures CanBeAnswered(m, c) <==>
            !exists id :: Wedged(m, id) && Replaces(m.bindings[id], c.source, c.action, c.profile)
  {
    ServedEventuallyIff(m, c);
    forall id
      ensures BlockedBy(m, c, id) <==> Wedged(m, id) && Replaces(m.bindings[id], c.source, c.action, c.profile)
    {
    }
  }

  // ---- A wedged key can be reached ----

  const EXAMPLE_IDENTITY := Identity(StableId("run"), StableId("task"), StableId("node"), StableId("workspace"))
  const EXAMPLE_PROFILE := StableId("profile")

  /** Session 0 has failed and call 0 asks for its restart. */
  function ExampleCall(phase: Phase): Call {
    Call(0, EXAMPLE_IDENTITY, Restart, EXAMPLE_PROFILE, None, phase)
  }

  function ExampleMachine(replacement: map<SessionId, Binding>, phase: Phase, started: set<SessionId>,
                          owner: map<SessionId, CallId>): Machine
  {
    Machine(map[0 := Session(EXAMPLE_IDENTITY, Failed)], map[0 := Binding(EXAMPLE_PROFILE, None, None)] + replacement,
            map[0 := ExampleCall(phase)], started, {}, {}, owner)
  }

  const EXAMPLE_BINDING := map[1 := Binding(EXAMPLE_PROFILE, Some(Origin(0, Restart)), None)]

  lemma ExampleAsked()
    ensures Fold(Stepper(), START, [
              Register(0, EXAMPLE_IDENTITY, EXAMPLE_PROFILE), SaveState(0, Failed),
              Begin(0, 0, Restart, None, None), Check(0)])
            == ExampleMachine(map[], Cleared, {}, map[])
  {
    var events := [
      Register(0, EXAMPLE_IDENTITY, EXAMPLE_PROFILE), SaveState(0, Failed), Begin(0, 0, Restart, None, None), Check(0)];
    var m1 := Registered(START, 0, EXAMPLE_IDENTITY, EXAMPLE_PROFILE);
    var m2 := StateSaved(m1, 0, Failed);
    var m3 := Begun(m2, 0, 0, Restart, None, None);
    assert m3 == ExampleMachine(map[], Checking, {}, map[]);
    var m4 := Checked(m3, 0);
    assert Find(m3, m3.calls[0]) == Some(None);
    assert m4 == ExampleMachine(map[], Cleared, {}, map[]);
    FoldTrace(Stepper(), [START, m1, m2, m3, m4], events);
  }

  lemma ExampleSaved()
    ensures Saved(ExampleMachine(map[], Started(1), {1}, map[1 := 0]), 0, false)
            == ExampleMachine(EXAMPLE_BINDING, Bound(1), {1}, map[1 := 0])
  {
    assert Insertable(ExampleMachine(map[], Started(1), {1}, map[1 := 0]), ExampleCall(Started(1)));
  }

  lemma ExampleFails()
    ensures Fold(Stepper(), ExampleMachine(map[], Cleared, {}, map[]),
                 [Start(0, 1, false), Save(0, false), Record(0, Running, true)])
            == ExampleMachine(EXAMPLE_BINDING, Finished(None), {1}, map[1 := 0])
  {
    var events := [Start(0, 1, false), Save(0, false), Record(0, Running, true)];
    var m4 := ExampleMachine(map[], Cleared, {}, map[]);
    var m5 := StartedSession(m4, 0, 1, false);
    assert m5 == ExampleMachine(map[], Started(1), {1}, map[1 := 0]);
    var m6 := Saved(m5, 0, false);
    ExampleSaved();
    var m7 := Recorded(m6, 0, Running, true);
    assert m7 == ExampleMachine(EXAMPLE_BINDING, Finished(None), {1}, map[1 := 0]);
    FoldTrace(Stepper(), [m4, m5, m6, m7], events);
  }

  /** The store fails between the two writes of a restart: the binding stays without a record. */
  lemma WedgedExample()
    ensures var m := Fold(Stepper(), START, [
              Register(0, EXAMPLE_IDENTITY, EXAMPLE_PROFILE), SaveState(0, Failed),
              Begin(0, 0, Restart, None, None), Check(0),
              Start(0, 1, false), Save(0, false), Record(0, Running, true)]);
            Inv(m) && Wedged(m, 1) && Replaces(m.bindings[1], 0, Restart, EXAMPLE_PROFILE)
  {
    ExampleAsked();
    ExampleFails();
    var asked := [
      Register(0, EXAMPLE_IDENTITY, EXAMPLE_PROFILE), SaveState(0, Failed), Begin(0, 0, Restart, None, None), Check(0)];
    var failing := [Start(0, 1, false), Save(0, false), Record(0, Running, true)];
    FoldSplits(Stepper(), START, asked, failing);
    assert asked + failing == [
      Register(0, EXAMPLE_IDENTITY, EXAMPLE_PROFILE), SaveState(0, Failed), Begin(0, 0, Restart, None, None), Check(0),
      Start(0, 1, false), Save(0, false), Record(0, Running, true)];
    RunsKeepInv(asked + failing);
  }
}
