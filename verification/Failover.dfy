/**
 * Quota failover along a fixed chain of candidates. A public session id stays the same while the
 * state object behind it is replaced on every switch.
 */
module Failover {

  type PublicId = nat

  /** How a candidate answers an attempt to start a session on it. */
  datatype Answer = Accepted | QuotaRefused | OtherError

  type Answers = nat -> Answer

  datatype Outcome =
    | Switched(index: nat)
    | Threw(index: nat)
    | Exhausted
    | Ignored  // a switch of this state object is already under way

  datatype StartResult = StartedOn(id: PublicId) | StartThrew(index: nat)

  /** Trying the candidates `from`, `from` + 1, ... until one does not refuse for quota. */
  function Walk(from: nat, candidates: nat, answers: Answers): Outcome
    decreases candidates - from
  {
    if from >= candidates then Exhausted
    else match answers(from)
      case Accepted => Switched(from)
      case OtherError => Threw(from)
      case QuotaRefused => Walk(from + 1, candidates, answers)
  }

  ghost predicate AllRefused(from: nat, to: nat, answers: Answers) {
    forall j :: from <= j < to ==> answers(j).QuotaRefused?
  }

  lemma {:induction false} WalkAt(from: nat, candidates: nat, answers: Answers, i: nat)
    ensures Walk(from, candidates, answers) == Switched(i) <==>
              from <= i < candidates && answers(i).Accepted? && AllRefused(from, i, answers)
    ensures Walk(from, candidates, answers) == Threw(i) <==>
              from <= i < candidates && answers(i).OtherError? && AllRefused(from, i, answers)
    ensures Walk(from, candidates, answers) == Exhausted <==> AllRefused(from, candidates, answers)
    decreases candidates - from
  {
    if from < candidates {
      WalkAt(from + 1, candidates, answers, i);
      assert from < i && answers(from).QuotaRefused? ==>
               (AllRefused(from, i, answers) <==> AllRefused(from + 1, i, answers));
      assert from < i && !answers(from).QuotaRefused? ==> !AllRefused(from, i, answers);
    }
  }

  /** The walk settles on the first candidate all of whose predecessors refused for quota. */
  lemma WalkMeaning(from: nat, candidates: nat, answers: Answers)
    ensures forall i: nat :: Walk(from, candidates, answers) == Switched(i) <==>
              from <= i < candidates && answers(i).Accepted? && AllRefused(from, i, answers)
    ensures forall i: nat :: Walk(from, candidates, answers) == Threw(i) <==>
              from <= i < candidates && answers(i).OtherError? && AllRefused(from, i, answers)
    ensures Walk(from, candidates, answers) == Exhausted <==> AllRefused(from, candidates, answers)
  {
    forall i: nat {
      WalkAt(from, candidates, answers, i);
    }
    WalkAt(from, candidates, answers, 0);
  }

  // ---- The walk of one public session ----

  /**
   * The candidate indices of all state objects made for one public id, oldest first. The last one is
   * the object the id stands for; older ones live on in prompts that were in flight when it switched.
   */
  type Objects = s: seq<nat> | s != [] witness [0]

  datatype QuotaFailure = QuotaFailure(target: nat, answers: Answers)

  function Next(candidates: nat, objects: Objects, e: QuotaFailure): Objects {
    if e.target >= |objects| then objects
    else
      match Walk(objects[e.target] + 1, candidates, e.answers)
      case Switched(i) => objects[e.target := i] + [i]
      case _ => objects
  }

  function PublicIndex(objects: Objects): nat {
    objects[|objects| - 1]
  }

  function Switches(objects: Objects): nat {
    |objects| - 1
  }

  class FailoverState {
    const publicId: PublicId
    var candidateIndex: nat
    var switching: bool
    /** Which of the objects made for its public id this is. */
    ghost const ordinal: nat

    constructor (publicId: PublicId, candidateIndex: nat, ghost ordinal: nat)
      ensures this.publicId == publicId && this.candidateIndex == candidateIndex
      ensures this.ordinal == ordinal && !switching
    {
      this.publicId, this.candidateIndex, this.switching, this.ordinal := publicId, candidateIndex, false, ordinal;
    }
  }

  predicate Within(indices: seq<nat>, candidates: nat) {
    forall k :: 0 <= k < |indices| ==> indices[k] < candidates
  }

  class FailoverRuntime {
    const candidates: nat
    /** The current object of each public id. */
    var states: map<PublicId, FailoverState>
    var nextId: nat
    /** The candidate indices of all objects made for each public id, oldest first. */
    ghost var objects: map<PublicId, seq<nat>>
    /** Public ids a quota failure was emitted for. */
    ghost var failuresEmitted: seq<PublicId>

    constructor (candidates: nat)
      requires candidates > 0
      ensures Valid() && this.candidates == candidates && states == map[] && failuresEmitted == []
    {
      this.candidates := candidates;
      states, nextId, objects, failuresEmitted := map[], 0, map[], [];
    }

    ghost predicate Valid()
      reads this, states.Values`candidateIndex
    {
      && candidates > 0
      && (forall id :: id in states ==>
            && id < nextId && states[id].publicId == id && Listed(states[id])
            && states[id].ordinal == |objects[id]| - 1)
      && forall id :: id in objects ==> Within(objects[id], candidates)
    }

    /** `o` is one of the objects made for its public id, and stands on the candidate the list says. */
    ghost predicate Listed(o: FailoverState)
      reads this`objects, o`candidateIndex
    {
      && o.publicId in objects && o.ordinal < |objects[o.publicId]|
      && objects[o.publicId][o.ordinal] == o.candidateIndex
    }

    /** Returns a session on the first candidate whose predecessors all refused for quota, or throws. */
    method StartSession(answers: Answers) returns (r: StartResult)
      requires Valid()
      modifies this`states, this`nextId, this`objects
      ensures Valid() && failuresEmitted == old(failuresEmitted)
      ensures match Walk(0, candidates, answers)
              case Switched(i) =>
                && r == StartedOn(old(nextId)) && old(nextId) !in old(states) && old(nextId) in states
                && states == old(states)[old(nextId) := states[old(nextId)]] && fresh(states[old(nextId)])
                && objects == old(objects)[old(nextId) := [i]]
              case Threw(i) => r == StartThrew(i) && states == old(states)
              case Exhausted => r == StartThrew(candidates - 1) && states == old(states)
              case Ignored => false
    {
      for i := 0 to candidates
        invariant Walk(0, candidates, answers) == Walk(i, candidates, answers)
        invariant i < candidates
      {
        var answer := answers(i);
        if answer.Accepted? {
          var state := new FailoverState(nextId, i, 0);
          states, objects := states[nextId := state], objects[nextId := [i]];
          nextId := nextId + 1;
          return StartedOn(nextId - 1);
        }
        if !answer.QuotaRefused? || i == candidates - 1 {
          return StartThrew(i);
        }
      }
      assert false;
    }

    /**
     * Moves the session behind `state` past the object's candidate. Stopping the old session and the
     * event stream are not part of this model; the quota failure emitted at the end is.
     */
    method FailoverFrom(state: FailoverState, answers: Answers) returns (r: Outcome)
      requires Valid() && Listed(state) && state.publicId in states
      modifies this`states, this`objects, this`failuresEmitted, state
      ensures Valid() && Listed(state) && state.switching == old(state.switching)
      ensures old(state.switching) ==> r == Ignored && states == old(states) && objects == old(objects)
      ensures !old(state.switching) ==>
                && r == Walk(old(state.candidateIndex) + 1, candidates, answers)
                // The session takes the step of the specification, under the same public id.
                && objects == old(objects)[state.publicId :=
                     Next(candidates, old(objects)[state.publicId], QuotaFailure(state.ordinal, answers))]
      ensures state.publicId in states && states == old(states)[state.publicId := states[state.publicId]]
      ensures if r.Switched? then fresh(states[state.publicId]) else states == old(states)
      // A failure is emitted exactly when every later candidate refused for quota.
      ensures failuresEmitted == old(failuresEmitted)
              + if !old(state.switching) && AllRefused(old(state.candidateIndex) + 1, candidates, answers)
                then [state.publicId] else []
    {
      if state.switching {
        return Ignored;
      }
      state.switching := true;
      r := TryLaterCandidates(state, answers);
      state.switching := false;
    }

    /** The loop over the later candidates. */
    method TryLaterCandidates(state: FailoverState, answers: Answers) returns (r: Outcome)
      requires Valid() && Listed(state) && state.publicId in states
      modifies this`states, this`objects, this`failuresEmitted, state`candidateIndex
      ensures Valid() && Listed(state)
      ensures r == Walk(old(state.candidateIndex) + 1, candidates, answers) && !r.Ignored?
      ensures objects == old(objects)[state.publicId :=
                Next(candidates, old(objects)[state.publicId], QuotaFailure(state.ordinal, answers))]
      ensures state.publicId in states && states == old(states)[state.publicId := states[state.publicId]]
      ensures if r.Switched? then fresh(states[state.publicId]) else states == old(states)
      ensures failuresEmitted == old(failuresEmitted)
              + if AllRefused(old(state.candidateIndex) + 1, candidates, answers) then [state.publicId] else []
    {
      WalkAt(state.candidateIndex + 1, candidates, answers, 0);
      for i := state.candidateIndex + 1 to candidates
        invariant Valid() && state.candidateIndex == old(state.candidateIndex)
        invariant states == old(states) && objects == old(objects) && failuresEmitted == old(failuresEmitted)
        invariant Walk(old(state.candidateIndex) + 1, candidates, answers) == Walk(i, candidates, answers)
      {
        var answer := answers(i);
        if answer.Accepted? {
          Switch(state, i);
          return Switched(i);
        }
        if !answer.QuotaRefused? {
          return Threw(i);
        }
      }
      failuresEmitted := failuresEmitted + [state.publicId];
      return Exhausted;
    }

    /** A new object takes the public id over; the old one remembers the candidate it handed over to. */
    method Switch(state: FailoverState, i: nat)
      requires Valid() && Listed(state) && state.publicId in states && i < candidates
      modifies this`states, this`objects, state`candidateIndex
      ensures Valid() && Listed(state)
      ensures objects == old(objects)[state.publicId := old(objects)[state.publicId][state.ordinal := i] + [i]]
      ensures state.publicId in states && states == old(states)[state.publicId := states[state.publicId]]
      ensures fresh(states[state.publicId])
    {
      ghost var indices := objects[state.publicId];
      var replacement := new FailoverState(state.publicId, i, |indices|);
      states := states[state.publicId := replacement];
      objects := objects[state.publicId := indices[state.ordinal := i] + [i]];
      state.candidateIndex := i;
    }
  }

  // ---- Whole sessions ----

  function Session(candidates: nat, objects: Objects, events: seq<QuotaFailure>): Objects
    decreases |events|
  {
    if events == [] then objects else Session(candidates, Next(candidates, objects, events[0]), events[1..])
  }

  /** No failing object is behind the current one. */
  predicate NeverBehind(candidates: nat, objects: Objects, events: seq<QuotaFailure>)
    decreases |events|
  {
    events == [] ||
    (&& (events[0].target < |objects| ==> objects[events[0].target] >= PublicIndex(objects))
     && NeverBehind(candidates, Next(candidates, objects, events[0]), events[1..]))
  }

  /** If no failing object is behind the current one, each switch moves strictly further along the chain. */
  lemma {:induction false} IndexOnlyIncreases(candidates: nat, objects: Objects, events: seq<QuotaFailure>)
    requires NeverBehind(candidates, objects, events) && PublicIndex(objects) < candidates
    ensures var after := Session(candidates, objects, events);
            && PublicIndex(after) < candidates
            && PublicIndex(after) >= PublicIndex(objects) + (Switches(after) - Switches(objects))
            && Switches(after) >= Switches(objects)
    decreases |events|
  {
    if events != [] {
      if events[0].target < |objects| {
        WalkMeaning(objects[events[0].target] + 1, candidates, events[0].answers);
      }
      IndexOnlyIncreases(candidates, Next(candidates, objects, events[0]), events[1..]);
    }
  }

  /** Hence a session switches at most candidates - 1 times. */
  lemma BoundedSwitches(candidates: nat, start: nat, events: seq<QuotaFailure>)
    requires start < candidates && NeverBehind(candidates, [start], events)
    ensures Switches(Session(candidates, [start], events)) <= candidates - 1 - start
  {
    IndexOnlyIncreases(candidates, [start], events);
  }

  /**
   * Exactly when a failure may be handled without the public index ever going back or standing still:
   * its object must not be behind the current one. The last candidate can only be exhausted.
   */
  lemma AdvancesExactlyFromCurrent(candidates: nat, objects: Objects, k: nat)
    requires k < |objects| && objects[k] + 1 < candidates
    ensures (forall answers: Answers ::
               Switches(Next(candidates, objects, QuotaFailure(k, answers))) > Switches(objects)
               ==> PublicIndex(Next(candidates, objects, QuotaFailure(k, answers))) > PublicIndex(objects))
            <==> objects[k] >= PublicIndex(objects)
  {
    if objects[k] >= PublicIndex(objects) {
      forall answers: Answers | Switches(Next(candidates, objects, QuotaFailure(k, answers))) > Switches(objects)
        ensures PublicIndex(Next(candidates, objects, QuotaFailure(k, answers))) > PublicIndex(objects)
      {
        WalkMeaning(objects[k] + 1, candidates, answers);
      }
    } else {
      var answers: Answers := i => Accepted;
      var after := Next(candidates, objects, QuotaFailure(k, answers));
      assert after == objects[k := objects[k] + 1] + [objects[k] + 1];
      assert PublicIndex(after) <= PublicIndex(objects);
    }
  }

  /** A prompt left over from the first candidate fails after three switches: the index falls from 3 to 2. */
  lemma StalePromptExample()
    ensures var accept: Answers := i => Accepted;
            var before := Session(4, [0], [QuotaFailure(0, accept), QuotaFailure(1, accept), QuotaFailure(2, accept)]);
            PublicIndex(before) == 3 && PublicIndex(Next(4, before, QuotaFailure(0, accept))) == 2
  {
    var accept: Answers := i => Accepted;
    var events := [QuotaFailure(0, accept), QuotaFailure(1, accept), QuotaFailure(2, accept)];
    var a: Objects := [0];
    var b := Next(4, a, events[0]);
    assert b == [1, 1];
    var c := Next(4, b, events[1]);
    assert c == [1, 2, 2];
    var d := Next(4, c, events[2]);
    assert d == [1, 2, 3, 3];
    assert events[1..][1..] == [events[2]] && events[1..][1..][1..] == [];
    assert Session(4, a, events) == Session(4, b, events[1..]) == Session(4, c, events[1..][1..])
        == Session(4, d, []) == d;
    assert Next(4, d, QuotaFailure(0, accept)) == [2, 2, 3, 3, 2];
  }
}
