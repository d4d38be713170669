/**
 * Any number of resolve and dismiss calls, interleaved at every await: a call enters unless one is
 * already in flight for the record (then it joins that one), later reads the record, later writes
 * it, and later leaves.
 */
module ConcurrentTransitions {
  import opened Identifiers
  import opened Runs
  import opened Interventions

  type CallId = nat

  datatype Phase = Entered | HasRead(status: Status) | Settled

  datatype Call = Call(id: Id, transition: Transition, phase: Phase)

  datatype Machine = Machine(records: map<Id, Status>, inFlight: map<Id, CallId>, calls: map<CallId, Call>)

  datatype Event =
    | Enter(call: CallId, id: Id, transition: Transition)
    | Read(call: CallId)
    | Write(call: CallId)
    | Leave(call: CallId)
    | NewRecord(id: Id)
    | Crash  // the process restarts: calls in flight are gone, records stay

  predicate Done(m: Machine, call: CallId, phase: Phase) {
    call in m.calls && m.calls[call].phase == phase
  }

  function SetPhase(m: Machine, call: CallId, phase: Phase): Machine
    requires call in m.calls
  {
    m.(calls := m.calls[call := m.calls[call].(phase := phase)])
  }

  /** The status this call's write step would store, if it writes at all. */
  function Pending(m: Machine, call: CallId): Option<Status> {
    if call !in m.calls || !m.calls[call].phase.HasRead? then None
    else
      var seen := m.calls[call].phase.status;
      match After(m.calls[call].transition, seen)
      case Failure(_) => None
      case Success(next) => if next == seen then None else Some(next)
  }

  /** Steps that are not enabled change nothing. */
  function Next(m: Machine, e: Event): Machine {
    match e
    case Enter(call, id, transition) =>
      if id in m.inFlight || call in m.calls then m
      else m.(inFlight := m.inFlight[id := call], calls := m.calls[call := Call(id, transition, Entered)])
    case Read(call) =>
      if !Done(m, call, Entered) then m
      else if m.calls[call].id !in m.records then SetPhase(m, call, Settled)
      else SetPhase(m, call, HasRead(m.records[m.calls[call].id]))
    case Write(call) =>
      if call !in m.calls || !m.calls[call].phase.HasRead? then m
      else if Pending(m, call).None? then SetPhase(m, call, Settled)
      else SetPhase(m, call, Settled).(records := m.records[m.calls[call].id := Pending(m, call).value])
    case Leave(call) =>
      if !Done(m, call, Settled) then m
      else m.(inFlight := m.inFlight - {m.calls[call].id}, calls := m.calls - {call})
    case NewRecord(id) => if id in m.records then m else m.(records := m.records[id := Open])
    case Crash => m.(inFlight := map[], calls := map[])
  }

  function Stepper(): (Machine, Event) -> Machine {
    (m, e) => Next(m, e)
  }

  /** One call in flight per record, no record held by a call that is gone, and what was read is still stored. */
  ghost predicate Inv(m: Machine) {
    && (forall id :: id in m.inFlight ==> m.inFlight[id] in m.calls && m.calls[m.inFlight[id]].id == id)
    && (forall c :: c in m.calls ==> m.calls[c].id in m.inFlight && m.inFlight[m.calls[c].id] == c)
    && (forall c :: c in m.calls && m.calls[c].phase.HasRead? ==>
          m.calls[c].id in m.records && m.records[m.calls[c].id] == m.calls[c].phase.status)
  }

  lemma NextKeepsInv(m: Machine, e: Event)
    requires Inv(m)
    ensures Inv(Next(m, e))
  {
    if e.Write? && e.call in m.calls {
      assert forall c :: c in m.calls && c != e.call ==> m.calls[c].id != m.calls[e.call].id;
    }
    if e.Leave? && e.call in m.calls {
      assert forall c :: c in m.calls && c != e.call ==> m.calls[c].id != m.calls[e.call].id;
    }
  }

  /** The step is the write of a terminal status to the record. */
  predicate WritesTerminal(m: Machine, e: Event, id: Id) {
    && e.Write? && Pending(m, e.call).Some? && IsTerminal(Pending(m, e.call).value)
    && m.calls[e.call].id == id
  }

  predicate Settles(m: Machine, id: Id) {
    id in m.records && IsTerminal(m.records[id])
  }

  const START := Machine(map[], map[], map[])

  lemma WriteSettles(m: Machine, e: Event, id: Id)
    requires Inv(m) && WritesTerminal(m, e, id)
    ensures !Settles(m, id) && Settles(Next(m, e), id)
  {
  }

  /**
   * What a write step does, whoever else is in flight: an active record becomes resolved by a resolve
   * call and dismissed by a dismiss call; a terminal one, or one that is gone, is left alone.
   */
  lemma WriteIsTheCallsOwn(m: Machine, call: CallId)
    requires Inv(m) && call in m.calls && m.calls[call].phase.HasRead?
    ensures var id := m.calls[call].id;
            && id in m.records
            && Next(m, Write(call)).records == if IsActive(m.records[id])
                 then m.records[id := if m.calls[call].transition.ToResolved? then Resolved else Dismissed]
                 else m.records
  {
  }

  /** Only writes change a record's status, and new records are open. */
  lemma OnlyWritesChange(m: Machine, e: Event, id: Id)
    requires !e.Write? && id in Next(m, e).records
    ensures if id in m.records then Next(m, e).records[id] == m.records[id] else Next(m, e).records[id].Open?
  {
  }

  /** Under every interleaving a record receives at most one terminal write. */
  lemma AtMostOneTerminalWrite(events: seq<Event>, i: nat, j: nat, id: Id)
    requires i < j < |events| && WritesTerminal(Fold(Stepper(), START, events[..i]), events[i], id)
    ensures !WritesTerminal(Fold(Stepper(), START, events[..j]), events[j], id)
  {
    if WritesTerminal(Fold(Stepper(), START, events[..j]), events[j], id) {
      forall m, e | Inv(m)
        ensures Inv(Stepper()(m, e))
      {
        NextKeepsInv(m, e);
      }
      forall m, e | Inv(m) && WritesTerminal(m, e, id)
        ensures !Settles(m, id) && Settles(Stepper()(m, e), id)
      {
        WriteSettles(m, e, id);
      }
      forall m, e | Inv(m) && Settles(m, id)
        ensures Settles(Stepper()(m, e), id)
      {
        NextKeepsTerminal(m, e, id);
      }
      NothingFiresTwice(Stepper(), START, events, i, j, m => Inv(m), (m, e) => WritesTerminal(m, e, id),
                        m => Settles(m, id), e => false);
    }
  }

  lemma NextKeepsTerminal(m: Machine, e: Event, id: Id)
    requires Inv(m) && Settles(m, id)
    ensures id in Next(m, e).records && Next(m, e).records[id] == m.records[id]
  {
  }

  /** Under every interleaving a resolved or dismissed record never changes again. */
  lemma TerminalForever(prefix: seq<Event>, later: seq<Event>, id: Id)
    requires Settles(Fold(Stepper(), START, prefix), id)
    ensures var (m, m') := (Fold(Stepper(), START, prefix), Fold(Stepper(), START, prefix + later));
            id in m'.records && m'.records[id] == m.records[id]
  {
    var m := Fold(Stepper(), START, prefix);
    forall x, e | Inv(x)
      ensures Inv(Stepper()(x, e))
    {
      NextKeepsInv(x, e);
    }
    FoldInvariant(Stepper(), START, prefix, x => Inv(x));
    FoldSplits(Stepper(), START, prefix, later);
    var keeps := (x: Machine) => Inv(x) && id in x.records && x.records[id] == m.records[id];
    forall x, e | keeps(x)
      ensures keeps(Stepper()(x, e))
    {
      NextKeepsTerminal(x, e, id);
    }
    FoldInvariant(Stepper(), m, later, keeps);
  }

  /** A write of this record, at this point of the run, by a call of this kind. */
  predicate WrittenBy(m: Machine, e: Event, id: Id, t: Transition) {
    && e.Write? && e.call in m.calls && m.calls[e.call].phase.HasRead?
    && m.calls[e.call].id == id && m.calls[e.call].transition == t
  }

  /** A record that ends up resolved was resolved by a resolve call, a dismissed one dismissed by a dismiss call. */
  lemma {:induction false} SettledByItsCall(events: seq<Event>, id: Id)
    requires Settles(Fold(Stepper(), START, events), id)
    ensures exists i, t :: 0 <= i < |events| && WrittenBy(Fold(Stepper(), START, events[..i]), events[i], id, t)
              && (Fold(Stepper(), START, events).records[id].Resolved? <==> t.ToResolved?)
    decreases |events|
  {
    if events != [] {
      var n := |events| - 1;
      var m := Fold(Stepper(), START, events[..n]);
      assert events == events[..n] + [events[n]];
      FoldSplits(Stepper(), START, events[..n], [events[n]]);
      FoldTrace(Stepper(), [m, Next(m, events[n])], [events[n]]);
      RunsKeepInv(events[..n]);
      if Settles(m, id) {
        NextKeepsTerminal(m, events[n], id);
        SettledByItsCall(events[..n], id);
        var i, t :| 0 <= i < n && WrittenBy(Fold(Stepper(), START, events[..n][..i]), events[..n][i], id, t)
              && (m.records[id].Resolved? <==> t.ToResolved?);
        assert events[..n][..i] == events[..i];
      } else {
        LastWriteSettles(m, events[n], id);
        assert WrittenBy(Fold(Stepper(), START, events[..n]), events[n], id, m.calls[events[n].call].transition);
      }
    }
  }

  lemma LastWriteSettles(m: Machine, e: Event, id: Id)
    requires Inv(m) && !Settles(m, id) && Settles(Next(m, e), id)
    ensures e.Write? && e.call in m.calls && WrittenBy(m, e, id, m.calls[e.call].transition)
    ensures Next(m, e).records[id].Resolved? <==> m.calls[e.call].transition.ToResolved?
  {
  }

  lemma RunsKeepInv(events: seq<Event>)
    ensures Inv(Fold(Stepper(), START, events))
  {
    forall m, e | Inv(m)
      ensures Inv(Stepper()(m, e))
    {
      NextKeepsInv(m, e);
    }
    FoldInvariant(Stepper(), START, events, m => Inv(m));
  }

  function Statuses(store: Store): map<Id, Status> {
    map id | id in store :: store[id].status
  }

  lemma WriteMatches(m: Machine, s: ServiceState, call: CallId)
    requires m.records == Statuses(s.store) && call in m.calls
    requires var c := m.calls[call];
             c.phase == if c.id in m.records then HasRead(m.records[c.id]) else Settled
    ensures Next(m, Write(call)).records == Statuses(Transitioned(s, m.calls[call].id, m.calls[call].transition).store)
  {
  }

  lemma EnterThenRead(m: Machine, call: CallId, id: Id, t: Transition)
    requires id !in m.inFlight && call !in m.calls
    ensures var seen := if id in m.records then HasRead(m.records[id]) else Settled;
            Next(Next(m, Enter(call, id, t)), Read(call)) ==
            m.(inFlight := m.inFlight[id := call], calls := m.calls[call := Call(id, t, seen)])
  {
  }

  /** The four steps of one undisturbed call have exactly the effect of the sequential operation. */
  lemma UndisturbedCall(m: Machine, s: ServiceState, call: CallId, id: Id, t: Transition)
    requires id !in m.inFlight && call !in m.calls && m.records == Statuses(s.store)
    ensures var m' := Next(Next(Next(Next(m, Enter(call, id, t)), Read(call)), Write(call)), Leave(call));
            m' == m.(records := Statuses(Transitioned(s, id, t).store))
  {
    EnterThenRead(m, call, id, t);
    var m2 := Next(Next(m, Enter(call, id, t)), Read(call));
    var m3 := Next(m2, Write(call));
    WriteMatches(m2, s, call);
    assert m3.inFlight == m2.inFlight && m3.calls == m.calls[call := Call(id, t, Settled)];
    assert m.calls[call := Call(id, t, Settled)] - {call} == m.calls;
    assert m.inFlight[id := call] - {id} == m.inFlight;
  }

  // ---- No record is stuck ----

  lemma ReadThenWrite(m: Machine, c: CallId)
    requires Inv(m) && c in m.calls
    ensures var m' := Next(Next(m, Read(c)), Write(c));
            && m'.inFlight == m.inFlight && m'.records.Keys == m.records.Keys
            && m'.calls == m.calls[c := m.calls[c].(phase := Settled)]
  {
    var m1 := Next(m, Read(c));
    assert c in m1.calls && m1.calls[c].id == m.calls[c].id && !m1.calls[c].phase.Entered?;
    assert m1.calls == m.calls[c := m1.calls[c]];
  }

  /** The call in flight for a record can always go on to its end, and makes way for another. */
  lemma HolderLeaves(m: Machine, id: Id)
    requires Inv(m) && id in m.inFlight
    ensures var c := m.inFlight[id];
            var m' := Fold(Stepper(), m, [Read(c), Write(c), Leave(c)]);
            id !in m'.inFlight && m'.calls == m.calls - {c} && m'.records.Keys == m.records.Keys
  {
    var c := m.inFlight[id];
    var m1, m2 := Next(m, Read(c)), Next(Next(m, Read(c)), Write(c));
    ReadThenWrite(m, c);
    assert m2.calls - {c} == m.calls - {c};
    FoldTrace(Stepper(), [m, m1, m2, Next(m2, Leave(c))], [Read(c), Write(c), Leave(c)]);
  }

  function WholeCall(call: CallId, id: Id, t: Transition): seq<Event> {
    [Enter(call, id, t), Read(call), Write(call), Leave(call)]
  }

  /** A call that enters undisturbed settles an active record as it wants. */
  lemma EntrantSettles(m: Machine, call: CallId, id: Id, t: Transition)
    requires id !in m.inFlight && call !in m.calls && id in m.records && IsActive(m.records[id])
    ensures Fold(Stepper(), m, WholeCall(call, id, t)).records ==
            m.records[id := if t.ToResolved? then Resolved else Dismissed]
  {
    EnterThenRead(m, call, id, t);
    var m1, m2 := Next(m, Enter(call, id, t)), Next(Next(m, Enter(call, id, t)), Read(call));
    var m3 := Next(m2, Write(call));
    FoldTrace(Stepper(), [m, m1, m2, m3, Next(m3, Leave(call))], WholeCall(call, id, t));
  }

  /** From every reachable state, and without a crash, any record can still be settled. */
  lemma NeverStuck(events: seq<Event>, id: Id, call: CallId)
    requires var m := Fold(Stepper(), START, events); id in m.records && call !in m.calls
    ensures exists more :: Crash !in more && Settles(Fold(Stepper(), START, events + more), id)
  {
    var m := Fold(Stepper(), START, events);
    RunsKeepInv(events);
    var release := [];
    if id in m.inFlight {
      var c := m.inFlight[id];
      HolderLeaves(m, id);
      release := [Read(c), Write(c), Leave(c)];
    }
    FoldSplits(Stepper(), START, events, release);
    assert Crash !in release;
    var free := Fold(Stepper(), m, release);
    if !Settles(free, id) {
      var settle := WholeCall(call, id, ToResolved);
      EntrantSettles(free, call, id, ToResolved);
      FoldSplits(Stepper(), START, events + release, settle);
      assert events + release + settle == events + (release + settle);
      assert Crash !in release + settle;
    }
  }
}
