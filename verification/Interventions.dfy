/** The intervention service: validated, deduplicated and coalescing creation, resolution and dismissal. */
module Interventions {
  import opened Identifiers
  import opened Runs

  datatype Scope = TaskScope | RunScope | AgentScope

  datatype Kind =
    | ProductDecision | MissingAccess | DestructiveAction | Approval | Auth | Quota | RateLimit
    | AgentFailure | MergeConflict | StuckAgent | ManualIntervention

  datatype Status = Open | Acknowledged | Resolved | Dismissed

  /** Record ids: random ones, and the deterministic ones derived from a deduplication key. */
  datatype Id = Minted(n: nat) | ForKey(hash: int)

  datatype Intervention = Intervention(id: Id, kind: Kind, scope: Scope, target: StableId, status: Status,
                                       summary: string)

  datatype Input = Input(kind: Kind, scope: Scope, target: StableId, summary: string, details: string, key: string)

  datatype ServiceError = InvalidInput | NotFound | AlreadyDismissed

  type Store = map<Id, Intervention>

  predicate IsActive(status: Status) {
    status.Open? || status.Acknowledged?
  }

  predicate IsTerminal(status: Status) {
    status.Resolved? || status.Dismissed?
  }

  predicate ValidInput(input: Input) {
    && !IsBlank(input.target.value) && !IsBlank(input.summary) && |input.summary| <= 16000
    && |input.details| <= 64000 && |input.key| <= 2000
  }

  /** The message of the error an invalid input is refused with; the fields are looked at in this order. */
  function Refusal(input: Input): (message: Option<string>)
    ensures message.None? <==> ValidInput(input)
    ensures message.Some? ==> |message.value| <= 50
  {
    if IsBlank(input.target.value) then Some("Intervention targetId must not be empty")
    else if IsBlank(input.summary) then Some("Intervention summary must not be empty")
    else if |input.summary| > 16000 then Some("Intervention summary is too long")
    else if |input.details| > 64000 then Some("Intervention details are too long")
    else if |input.key| > 2000 then Some("Intervention deduplicationKey is too long")
    else None
  }

  /** The record is open or acknowledged and of this nature on this target. */
  predicate Concerns(r: Intervention, kind: Kind, scope: Scope, target: StableId) {
    IsActive(r.status) && r.kind == kind && r.scope == scope && r.target == target
  }

  ghost predicate AtMostOneActive(store: Store) {
    forall a, b :: (a in store && b in store && IsActive(store[a].status)
                    && Concerns(store[b], store[a].kind, store[a].scope, store[a].target)) ==> a == b
  }

  // ---- Specification ----

  /** The durable records, the service's in-memory key map, and the supply of random ids. */
  datatype ServiceState = ServiceState(store: Store, activeByKey: map<string, Id>, minted: nat)

  ghost function ActiveSame(store: Store, kind: Kind, scope: Scope, target: StableId): (r: Option<Id>)
    ensures r.Some? ==> r.value in store && Concerns(store[r.value], kind, scope, target)
    ensures r.None? ==> forall id :: id in store ==> !Concerns(store[id], kind, scope, target)
  {
    if exists id :: id in store && Concerns(store[id], kind, scope, target)
    then var id :| id in store && Concerns(store[id], kind, scope, target); Some(id)
    else None
  }

  function KnownId(hash: string -> int, s: ServiceState, key: string): Id {
    if key in s.activeByKey then s.activeByKey[key] else ForKey(hash(key))
  }

  function NewId(hash: string -> int, s: ServiceState, key: string): Id {
    if key == "" then Minted(s.minted) else ForKey(hash(key))
  }

  function NewRecord(id: Id, input: Input): Intervention {
    Intervention(id, input.kind, input.scope, input.target, Open, input.summary)
  }

  function Inserted(hash: string -> int, s: ServiceState, input: Input): ServiceState {
    var id := NewId(hash, s, input.key);
    ServiceState(s.store[id := NewRecord(id, input)],
          if input.key == "" then s.activeByKey else s.activeByKey[input.key := id],
          s.minted + 1)
  }

  /** The state after a creation, and the record it answers with. */
  ghost function Create(hash: string -> int, s: ServiceState, input: Input): (ServiceState, Result<Id, ServiceError>) {
    if !ValidInput(input) then (s, Failure(InvalidInput))
    else if input.key != "" && KnownId(hash, s, input.key) in s.store then
      (s, Success(KnownId(hash, s, input.key)))
    else
      var same := ActiveSame(s.store, input.kind, input.scope, input.target);
      if same.Some? then (s, Success(same.value))
      else (Inserted(hash, s, input), Success(NewId(hash, s, input.key)))
  }

  datatype Transition = ToResolved | ToDismissed

  /** What a transition does to a record in a given status: an error, or the status it ends in. */
  function After(t: Transition, status: Status): Result<Status, ServiceError> {
    match t
    case ToResolved =>
      if status.Resolved? then Success(Resolved)
      else if status.Dismissed? then Failure(AlreadyDismissed)
      else Success(Resolved)
    case ToDismissed =>
      if IsTerminal(status) then Success(status) else Success(Dismissed)
  }

  function Transitioned(s: ServiceState, id: Id, t: Transition): ServiceState {
    if id !in s.store || After(t, s.store[id].status).Failure?
       || After(t, s.store[id].status).value == s.store[id].status
    then s
    else
      s.(store := s.store[id := s.store[id].(status := After(t, s.store[id].status).value)],
         activeByKey := if t.ToResolved? then map k | k in s.activeByKey && s.activeByKey[k] != id :: s.activeByKey[k]
                        else s.activeByKey)
  }

  // ---- The service ----

  ghost predicate KeysAgree(hash: string -> int, activeByKey: map<string, Id>) {
    forall k :: k in activeByKey ==> activeByKey[k] == ForKey(hash(k))
  }

  ghost predicate Sound(hash: string -> int, s: ServiceState) {
    && (forall id :: id in s.store ==> s.store[id].id == id)
    && (forall n: nat :: Minted(n) in s.store ==> n < s.minted)
    && AtMostOneActive(s.store)
    && KeysAgree(hash, s.activeByKey)
  }

  class InterventionService {
    const hash: string -> int
    var store: Store
    var activeByKey: map<string, Id>
    var minted: nat

    ghost predicate Valid()
      reads this
    {
      Sound(hash, State())
    }

    function State(): ServiceState
      reads this
    {
      ServiceState(store, activeByKey, minted)
    }

    constructor (hash: string -> int)
      ensures Valid() && this.hash == hash && State() == ServiceState(map[], map[], 0)
    {
      this.hash := hash;
      store, activeByKey, minted := map[], map[], 0;
    }

    /** A record with the deterministic id of the key exists. */
    ghost predicate KeyUsed(store: Store, key: string) {
      key != "" && ForKey(hash(key)) in store
    }

    ghost predicate NoneConcerned(store: Store, input: Input) {
      forall id :: id in store ==> !Concerns(store[id], input.kind, input.scope, input.target)
    }

    method CreateIntervention(input: Input) returns (r: Result<Intervention, ServiceError>)
      requires Valid()
      modifies this
      ensures Valid()
      ensures var (s', id) := Create(hash, old(State()), input);
              && State() == s'
              && (r.Success? <==> id.Success?)
              && (r.Success? ==> id.value in store && r.value == store[id.value])
              && (r.Failure? ==> r.error == InvalidInput)
      // Refused, answered with the key's record, coalesced with an active one of the same nature, or new and open.
      ensures !ValidInput(input) ==> r == Failure(InvalidInput) && State() == old(State())
      ensures ValidInput(input) && KeyUsed(old(store), input.key) ==>
                r == Success(old(store)[ForKey(hash(input.key))]) && State() == old(State())
      ensures ValidInput(input) && !KeyUsed(old(store), input.key) && !NoneConcerned(old(store), input) ==>
                && r.Success? && Concerns(r.value, input.kind, input.scope, input.target)
                && r.value.id in store && store[r.value.id] == r.value && State() == old(State())
      ensures ValidInput(input) && !KeyUsed(old(store), input.key) && NoneConcerned(old(store), input) ==>
                && r.Success? && r.value.id !in old(store) && store == old(store)[r.value.id := r.value]
                && r.value.kind == input.kind && r.value.scope == input.scope && r.value.target == input.target
                && r.value.status.Open? && r.value.summary == input.summary
                && (input.key != "" ==> r.value.id == ForKey(hash(input.key)))
                && activeByKey == if input.key == "" then old(activeByKey)
                                  else old(activeByKey)[input.key := r.value.id]
    {
      CreateKeepsSound(hash, State(), input);
      if !ValidInput(input) {
        return Failure(InvalidInput);
      }
      if input.key != "" {
        var existing := if input.key in activeByKey then activeByKey[input.key] else ForKey(hash(input.key));
        if existing in store {
          return Success(store[existing]);
        }
      }
      if same :| same in store && Concerns(store[same], input.kind, input.scope, input.target) {
        return Success(store[same]);
      }
      var id := if input.key == "" then Minted(minted) else ForKey(hash(input.key));
      var created := NewRecord(id, input);
      store := store[id := created];
      if input.key != "" {
        activeByKey := activeByKey[input.key := id];
      }
      minted := minted + 1;
      return Success(created);
    }

    method Resolve(id: Id) returns (r: Result<Intervention, ServiceError>)
      requires Valid()
      modifies this
      ensures Valid() && State() == Transitioned(old(State()), id, ToResolved)
      ensures r == (if id !in store then Failure(NotFound)
                    else if old(store)[id].status.Dismissed? then Failure(AlreadyDismissed)
                    else Success(store[id]))
      // An active record becomes resolved, and no key leads to it any longer; nothing else changes.
      ensures if id in old(store) && IsActive(old(store)[id].status)
              then && store == old(store)[id := old(store)[id].(status := Resolved)]
                   && (forall k :: k in activeByKey <==> k in old(activeByKey) && old(activeByKey)[k] != id)
                   && (forall k :: k in activeByKey ==> activeByKey[k] == old(activeByKey)[k])
              else State() == old(State())
    {
      TransitionKeepsSound(hash, State(), id, ToResolved);
      if id !in store {
        return Failure(NotFound);
      }
      var record := store[id];
      if record.status.Resolved? {
        return Success(record);
      }
      if !IsActive(record.status) {
        return Failure(AlreadyDismissed);
      }
      store := store[id := record.(status := Resolved)];
      activeByKey := map k | k in activeByKey && activeByKey[k] != id :: activeByKey[k];
      return Success(store[id]);
    }

    method Dismiss(id: Id) returns (r: Result<Intervention, ServiceError>)
      requires Valid()
      modifies this
      ensures Valid() && State() == Transitioned(old(State()), id, ToDismissed)
      ensures r == if id !in store then Failure(NotFound) else Success(store[id])
      // An active record becomes dismissed; nothing else changes.
      ensures State() == if id in old(store) && IsActive(old(store)[id].status)
                         then old(State()).(store := old(store)[id := old(store)[id].(status := Dismissed)])
                         else old(State())
    {
      TransitionKeepsSound(hash, State(), id, ToDismissed);
      if id !in store {
        return Failure(NotFound);
      }
      var record := store[id];
      if IsTerminal(record.status) {
        return Success(record);
      }
      store := store[id := record.(status := Dismissed)];
      return Success(store[id]);
    }
  }

  // ---- Invariants of single operations ----

  lemma CreateKeepsSound(hash: string -> int, s: ServiceState, input: Input)
    requires Sound(hash, s)
    ensures Sound(hash, Create(hash, s, input).0)
    ensures forall id :: id in s.store ==> id in Create(hash, s, input).0.store
                                           && Create(hash, s, input).0.store[id] == s.store[id]
  {
  }

  lemma TransitionKeepsSound(hash: string -> int, s: ServiceState, id: Id, t: Transition)
    requires Sound(hash, s)
    ensures Sound(hash, Transitioned(s, id, t))
  {
    var s' := Transitioned(s, id, t);
    forall a, b | a in s'.store && b in s'.store && IsActive(s'.store[a].status)
                  && Concerns(s'.store[b], s'.store[a].kind, s'.store[a].scope, s'.store[a].target)
      ensures a == b
    {
      assert IsActive(s.store[a].status) && Concerns(s.store[b], s.store[a].kind, s.store[a].scope, s.store[a].target);
    }
  }

  // ---- Runs ----

  datatype Event =
    | Creation(input: Input)
    | Change(id: Id, t: Transition)
    | Restart  // the in-memory key map is lost

  ghost function Step(hash: string -> int, s: ServiceState, e: Event): ServiceState {
    match e
    case Creation(input) => Create(hash, s, input).0
    case Change(id, t) => Transitioned(s, id, t)
    case Restart => s.(activeByKey := map[])
  }

  ghost function Stepper(hash: string -> int): (ServiceState, Event) -> ServiceState {
    (s, e) => Step(hash, s, e)
  }

  lemma StepKeepsSound(hash: string -> int, s: ServiceState, e: Event)
    requires Sound(hash, s)
    ensures Sound(hash, Step(hash, s, e))
  {
    match e
    case Creation(input) => CreateKeepsSound(hash, s, input);
    case Change(id, t) => TransitionKeepsSound(hash, s, id, t);
    case Restart =>
  }

  /** After any sequence of calls and restarts there is at most one active record per kind, scope and target. */
  lemma RunsStaySound(hash: string -> int, s: ServiceState, events: seq<Event>)
    requires Sound(hash, s)
    ensures Sound(hash, Fold(Stepper(hash), s, events))
  {
    forall x, e | Sound(hash, x)
      ensures Sound(hash, Stepper(hash)(x, e))
    {
      StepKeepsSound(hash, x, e);
    }
    FoldInvariant(Stepper(hash), s, events, x => Sound(hash, x));
  }

  /** Two states that differ at most in what their key maps remember. */
  predicate SameRecords(s: ServiceState, s': ServiceState) {
    s.store == s'.store && s.minted == s'.minted
  }

  lemma StepIgnoresKeyMap(hash: string -> int, s: ServiceState, s': ServiceState, e: Event)
    requires Sound(hash, s) && Sound(hash, s') && SameRecords(s, s')
    ensures SameRecords(Step(hash, s, e), Step(hash, s', e))
    ensures e.Creation? ==> Create(hash, s, e.input).1 == Create(hash, s', e.input).1
  {
  }

  /** Losing the key map at any moment changes neither the records nor any later answer. */
  lemma {:induction false} RestartIsInvisible(hash: string -> int, s: ServiceState, s': ServiceState,
                                              events: seq<Event>, input: Input)
    requires Sound(hash, s) && Sound(hash, s') && SameRecords(s, s')
    ensures SameRecords(Fold(Stepper(hash), s, events), Fold(Stepper(hash), s', events))
    ensures Create(hash, Fold(Stepper(hash), s, events), input).1
            == Create(hash, Fold(Stepper(hash), s', events), input).1
    decreases |events|
  {
    if events == [] {
      StepIgnoresKeyMap(hash, s, s', Creation(input));
    } else {
      StepIgnoresKeyMap(hash, s, s', events[0]);
      StepKeepsSound(hash, s, events[0]);
      StepKeepsSound(hash, s', events[0]);
      RestartIsInvisible(hash, Step(hash, s, events[0]), Step(hash, s', events[0]), events[1..], input);
    }
  }

  /** The record is still there, of the same nature, and unchanged if it was already settled. */
  predicate Persists(record: Intervention, s: ServiceState) {
    && record.id in s.store
    && s.store[record.id].kind == record.kind && s.store[record.id].scope == record.scope
    && s.store[record.id].target == record.target
    && (IsTerminal(record.status) ==> s.store[record.id] == record)
  }

  lemma StepPersists(hash: string -> int, s: ServiceState, e: Event, record: Intervention)
    requires Sound(hash, s) && Persists(record, s)
    ensures Persists(record, Step(hash, s, e))
  {
    if e.Creation? {
      CreateKeepsSound(hash, s, e.input);
    }
  }

  lemma RunPersists(hash: string -> int, s: ServiceState, events: seq<Event>, record: Intervention)
    requires Sound(hash, s) && Persists(record, s)
    ensures Persists(record, Fold(Stepper(hash), s, events))
  {
    forall x, e | Sound(hash, x) && Persists(record, x)
      ensures Sound(hash, Stepper(hash)(x, e)) && Persists(record, Stepper(hash)(x, e))
    {
      StepKeepsSound(hash, x, e);
      StepPersists(hash, x, e, record);
    }
    FoldInvariant(Stepper(hash), s, events, x => Sound(hash, x) && Persists(record, x));
  }

  /**
   * Repeating a key whose record exists answers with that record for ever, whatever happened to it
   * in the meantime, and creates nothing.
   */
  lemma ReplayedKey(hash: string -> int, s: ServiceState, events: seq<Event>, input: Input)
    requires Sound(hash, s) && ValidInput(input) && input.key != "" && ForKey(hash(input.key)) in s.store
    ensures var later := Fold(Stepper(hash), s, events);
            Create(hash, later, input) == (later, Success(ForKey(hash(input.key))))
  {
    RunPersists(hash, s, events, s.store[ForKey(hash(input.key))]);
    RunsStaySound(hash, s, events);
  }
}
