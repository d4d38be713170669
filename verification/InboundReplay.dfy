/**
 * Replay protection of inbound messages: a bounded in-memory cache of remembered keys over durable
 * receipts, with any number of messages being processed at the same time. A step machine covers the
 * interleavings; the gateway's own methods are proved to take its steps.
 */
module InboundReplay {
  import opened Identifiers
  import opened ReplyRouting
  import opened Runs

  // ---- The bounded cache: a set in insertion order ----

  ghost predicate Distinct(s: seq<Key>) {
    forall i, j :: 0 <= i < j < |s| ==> s[i] != s[j]
  }

  function Max0(n: int): nat {
    if n < 0 then 0 else n
  }

  function Added(seen: seq<Key>, key: Key): seq<Key> {
    if key in seen then seen else seen + [key]
  }

  /** Over the bound, only the newest half of the bound is kept. */
  function Remembered(seen: seq<Key>, key: Key, limit: int): seq<Key> {
    var added := Added(seen, key);
    if |added| <= limit then added else added[|added| - Max0(limit / 2)..]
  }

  lemma AddedFacts(seen: seq<Key>, key: Key)
    requires Distinct(seen)
    ensures Distinct(Added(seen, key)) && key in Added(seen, key)
    ensures forall k :: k in Added(seen, key) ==> k in seen || k == key
  {
    if key !in seen {
      assert Added(seen, key)[|seen|] == key;
    }
  }

  lemma SuffixFacts(s: seq<Key>, start: nat)
    requires Distinct(s) && start <= |s|
    ensures Distinct(s[start..]) && forall k :: k in s[start..] ==> k in s
  {
    forall i, j | 0 <= i < j < |s| - start
      ensures s[start..][i] != s[start..][j]
    {
      assert s[start + i] != s[start + j];
    }
  }

  /** The cache stays a set within its bound, invents no key, and keeps a new key if it keeps any. */
  lemma RememberedFacts(seen: seq<Key>, key: Key, limit: int)
    requires Distinct(seen)
    ensures Distinct(Remembered(seen, key, limit))
    ensures |Remembered(seen, key, limit)| <= Max0(limit)
    ensures forall k :: k in Remembered(seen, key, limit) ==> k in seen || k == key
    ensures limit >= 2 ==> key in Remembered(seen, key, limit) || key in seen
    // Up to the bound nothing is forgotten; past it the newest half of the bound is left.
    ensures |seen| < limit ==> forall k :: k in seen || k == key ==> k in Remembered(seen, key, limit)
    ensures key !in seen && |seen| >= limit ==>
              Remembered(seen, key, limit) == (seen + [key])[|seen| + 1 - Max0(limit / 2)..]
  {
    var added := Added(seen, key);
    AddedFacts(seen, key);
    if |added| > limit {
      var start := |added| - Max0(limit / 2);
      SuffixFacts(added, start);
      if limit >= 2 && key !in seen {
        assert added[start..][|added| - start - 1] == added[|added| - 1] == key;
      }
    }
  }

  // ---- The step machine ----

  datatype Phase =
    | Handling  // admitted; handlers have not all returned
    | Handled   // all handlers returned; no receipt yet
    | Receipted // receipt stored; not remembered yet

  datatype System = System(
    seen: seq<Key>,
    processing: map<Key, Phase>,
    receipts: set<Key>,
    successes: multiset<Key>, // history: the handlers of this key all returned
    lost: multiset<Key>       // history: they did, and then no receipt came of it
  )

  datatype Event =
    | Deliver(key: Key)
    | HandlerFails(key: Key)     // or there is no handler: the message stays retryable
    | HandlersSucceed(key: Key)
    | ReceiptFails(key: Key)     // deactivating or saving throws
    | SaveReceipt(key: Key)
    | Remember(key: Key)
    | Restart                    // the process ends at this point and a new one starts

  predicate Admits(s: System, key: Key) {
    key !in s.seen && key !in s.processing && key !in s.receipts
  }

  predicate InPhase(s: System, key: Key, phase: Phase) {
    key in s.processing && s.processing[key] == phase
  }

  ghost function HandledKeys(s: System): set<Key> {
    set k | k in s.processing && s.processing[k] == Handled
  }

  ghost function Step(limit: int): (System, Event) -> System {
    (s, e) => Next(s, e, limit)
  }

  /** An event that cannot happen in `s` changes nothing. */
  ghost function Next(s: System, e: Event, limit: int): System {
    match e
    case Deliver(k) =>
      if Admits(s, k) then s.(processing := s.processing[k := Handling]) else s
    case HandlerFails(k) =>
      if InPhase(s, k, Handling) then s.(processing := s.processing - {k}) else s
    case HandlersSucceed(k) =>
      if InPhase(s, k, Handling)
      then s.(processing := s.processing[k := Handled], successes := s.successes + multiset{k})
      else s
    case ReceiptFails(k) =>
      if InPhase(s, k, Handled)
      then s.(processing := s.processing - {k}, lost := s.lost + multiset{k})
      else s
    case SaveReceipt(k) =>
      if InPhase(s, k, Handled)
      then s.(processing := s.processing[k := Receipted], receipts := s.receipts + {k})
      else s
    case Remember(k) =>
      if InPhase(s, k, Receipted)
      then s.(processing := s.processing - {k}, seen := Remembered(s.seen, k, limit))
      else s
    case Restart =>
      s.(seen := [], processing := map[], lost := s.lost + multiset(HandledKeys(s)))
  }

  /** A store holding `receipts`, and a process that has just started. */
  function Fresh(receipts: set<Key>): System {
    System([], map[], receipts, multiset{}, multiset{})
  }

  ghost function Run(receipts: set<Key>, events: seq<Event>, limit: int): System {
    Fold(Step(limit), Fresh(receipts), events)
  }

  ghost predicate CacheSound(s: System, limit: int) {
    && Distinct(s.seen)
    && |s.seen| <= Max0(limit)
    && forall k :: k in s.seen ==> k in s.receipts
  }

  ghost predicate PhasesSound(s: System) {
    forall k :: k in s.processing ==> (s.processing[k] == Receipted <==> k in s.receipts)
  }

  /** Each success of a key is lost, or is the one its receipt or its present processing stands for. */
  ghost predicate Accounted(s: System, initial: set<Key>) {
    && initial <= s.receipts
    && forall k :: s.successes[k] ==
                   s.lost[k] + if (k in s.receipts && k !in initial) || InPhase(s, k, Handled) then 1 else 0
  }

  ghost predicate Inv(s: System, initial: set<Key>, limit: int) {
    CacheSound(s, limit) && PhasesSound(s) && Accounted(s, initial)
  }

  lemma NextKeepsCache(s: System, e: Event, limit: int)
    requires CacheSound(s, limit) && PhasesSound(s)
    ensures CacheSound(Next(s, e, limit), limit)
  {
    if e.Remember? {
      RememberedFacts(s.seen, e.key, limit);
    }
  }

  lemma NextKeepsPhases(s: System, e: Event, limit: int)
    requires PhasesSound(s)
    ensures PhasesSound(Next(s, e, limit))
  {
  }

  lemma NextKeepsAccounts(s: System, e: Event, initial: set<Key>, limit: int)
    requires PhasesSound(s) && Accounted(s, initial)
    ensures Accounted(Next(s, e, limit), initial)
  {
  }

  lemma NextKeepsInv(s: System, e: Event, initial: set<Key>, limit: int)
    requires Inv(s, initial, limit)
    ensures Inv(Next(s, e, limit), initial, limit)
  {
    NextKeepsCache(s, e, limit);
    NextKeepsPhases(s, e, limit);
    NextKeepsAccounts(s, e, initial, limit);
  }

  lemma RunKeepsInv(receipts: set<Key>, events: seq<Event>, limit: int)
    ensures Inv(Run(receipts, events, limit), receipts, limit)
  {
    forall s, e | e in events && Inv(s, receipts, limit)
      ensures Inv(Step(limit)(s, e), receipts, limit)
    {
      NextKeepsInv(s, e, receipts, limit);
    }
    FoldInvariant(Step(limit), Fresh(receipts), events, s => Inv(s, receipts, limit));
  }

  /** The cache never holds more than its bound and only keys that have a receipt. */
  lemma CacheIsBoundedSubset(receipts: set<Key>, events: seq<Event>, limit: int)
    ensures CacheSound(Run(receipts, events, limit), limit)
  {
    RunKeepsInv(receipts, events, limit);
  }

  /** Everything but the cache. */
  ghost predicate SameButCache(a: System, b: System) {
    a.processing == b.processing && a.receipts == b.receipts && a.successes == b.successes && a.lost == b.lost
  }

  /**
   * The cache changes no decision: whatever its bound, evictions and restarts, the same events admit
   * the same messages and leave the same receipts. A bound of 0 keeps nothing.
   */
  lemma {:induction false} CacheIsInvisible(receipts: set<Key>, events: seq<Event>, limit: int, other: int)
    ensures SameButCache(Run(receipts, events, limit), Run(receipts, events, other))
    decreases |events|
  {
    if events != [] {
      var n := |events| - 1;
      CacheIsInvisible(receipts, events[..n], limit, other);
      RunKeepsInv(receipts, events[..n], limit);
      RunKeepsInv(receipts, events[..n], other);
      LastStep(receipts, events, limit);
      LastStep(receipts, events, other);
      StepIgnoresCache(Run(receipts, events[..n], limit), Run(receipts, events[..n], other), events[n], limit, other);
    }
  }

  lemma StepIgnoresCache(a: System, b: System, e: Event, limit: int, other: int)
    requires SameButCache(a, b) && CacheSound(a, limit) && CacheSound(b, other)
    ensures SameButCache(Next(a, e, limit), Next(b, e, other))
  {
    if e.Deliver? {
      assert Admits(a, e.key) == Admits(b, e.key);
    }
  }

  lemma LastStep(receipts: set<Key>, events: seq<Event>, limit: int)
    requires events != []
    ensures var n := |events| - 1;
            Run(receipts, events, limit) == Next(Run(receipts, events[..n], limit), events[n], limit)
  {
    var n := |events| - 1;
    assert events == events[..n] + [events[n]];
    FoldSplits(Step(limit), Fresh(receipts), events[..n], [events[n]]);
  }

  /**
   * The handlers of a key succeed at most once more often than its receipt was lost afterwards: never
   * for a key with a receipt to start with, and once when nothing is lost.
   */
  lemma AtMostOncePlusLost(receipts: set<Key>, events: seq<Event>, limit: int, key: Key)
    ensures var s := Run(receipts, events, limit);
            && s.successes[key] <= s.lost[key] + (if key in receipts then 0 else 1)
            && (key in receipts ==> s.successes[key] == 0)
  {
    RunKeepsInv(receipts, events, limit);
    if key in receipts {
      ReceiptedForever(Fresh(receipts), events, limit, key);
    }
  }

  /** A receipt that cannot be stored after the handlers succeeded: the redelivery runs them again. */
  lemma LostReceiptExample(key: Key, limit: int)
    ensures Run({}, [Deliver(key), HandlersSucceed(key), ReceiptFails(key), Deliver(key), HandlersSucceed(key)], limit)
            .successes[key] == 2
  {
    var events := [Deliver(key), HandlersSucceed(key), ReceiptFails(key), Deliver(key), HandlersSucceed(key)];
    var s1 := Next(Fresh({}), events[0], limit);
    var s2 := Next(s1, events[1], limit);
    var s3 := Next(s2, events[2], limit);
    var s4 := Next(s3, events[3], limit);
    var s5 := Next(s4, events[4], limit);
    FoldTrace(Step(limit), [Fresh({}), s1, s2, s3, s4, s5], events);
  }

  /**
   * Exactly when a message's handlers can succeed again from here on: when it is not admitted for a
   * reason that outlasts the process.
   */
  lemma SucceedsAgainIffNoReceipt(receipts: set<Key>, events: seq<Event>, limit: int, key: Key)
    ensures (exists more: seq<Event> ::
               Run(receipts, events + more, limit).successes[key] > Run(receipts, events, limit).successes[key])
            <==> key !in Run(receipts, events, limit).receipts
  {
    var s := Run(receipts, events, limit);
    RunKeepsInv(receipts, events, limit);
    if key !in s.receipts {
      var more := [Restart, Deliver(key), HandlersSucceed(key)];
      RetryAfterRestart(s, key, limit);
      FoldSplits(Step(limit), Fresh(receipts), events, more);
      assert Run(receipts, events + more, limit).successes[key] > s.successes[key];
    } else {
      forall more: seq<Event>
        ensures Run(receipts, events + more, limit).successes[key] == s.successes[key]
      {
        FoldSplits(Step(limit), Fresh(receipts), events, more);
        ReceiptedForever(s, more, limit, key);
      }
    }
  }

  lemma RetryAfterRestart(s: System, key: Key, limit: int)
    requires key !in s.receipts
    ensures Fold(Step(limit), s, [Restart, Deliver(key), HandlersSucceed(key)]).successes[key] == s.successes[key] + 1
  {
    var a := Next(s, Restart, limit);
    var b := Next(a, Deliver(key), limit);
    var events := [Restart, Deliver(key), HandlersSucceed(key)];
    FoldTrace(Step(limit), [s, a, b, Next(b, events[2], limit)], events);
    assert Admits(a, key) && InPhase(b, key, Handling);
  }

  ghost predicate StaysReceipted(s: System, key: Key, successes: nat) {
    key in s.receipts && !InPhase(s, key, Handling) && !InPhase(s, key, Handled) && s.successes[key] == successes
  }

  lemma ReceiptedForever(s: System, more: seq<Event>, limit: int, key: Key)
    requires key in s.receipts && PhasesSound(s)
    ensures Fold(Step(limit), s, more).successes[key] == s.successes[key]
  {
    var n := s.successes[key];
    forall x, e | StaysReceipted(x, key, n)
      ensures StaysReceipted(Step(limit)(x, e), key, n)
    {
      StepStaysReceipted(x, e, limit, key, n);
    }
    FoldInvariant(Step(limit), s, more, x => StaysReceipted(x, key, n));
  }

  lemma StepStaysReceipted(x: System, e: Event, limit: int, key: Key, n: nat)
    requires StaysReceipted(x, key, n)
    ensures StaysReceipted(Next(x, e, limit), key, n)
  {
  }

  // ---- The gateway ----

  /** How the handlers of one message end. */
  datatype Handlers = NoneOrFailed | DeactivateFailed | ReceiptSaveFailed | Committed

  function EventsOf(key: Key, admitted: bool, handlers: Handlers): seq<Event> {
    if !admitted then [Deliver(key)]
    else if handlers.NoneOrFailed? then [Deliver(key), HandlerFails(key)]
    else if handlers.Committed? then [Deliver(key), HandlersSucceed(key), SaveReceipt(key), Remember(key)]
    else [Deliver(key), HandlersSucceed(key), ReceiptFails(key)]
  }

  lemma EventsTaken(s: System, key: Key, limit: int)
    ensures var a := Next(s, Deliver(key), limit);
            var b := Next(a, HandlersSucceed(key), limit);
            && Fold(Step(limit), s, [Deliver(key)]) == a
            && Fold(Step(limit), s, [Deliver(key), HandlerFails(key)]) == Next(a, HandlerFails(key), limit)
            && Fold(Step(limit), s, [Deliver(key), HandlersSucceed(key), ReceiptFails(key)])
               == Next(b, ReceiptFails(key), limit)
            && Fold(Step(limit), s, [Deliver(key), HandlersSucceed(key), SaveReceipt(key), Remember(key)])
               == Next(Next(b, SaveReceipt(key), limit), Remember(key), limit)
  {
    var a := Next(s, Deliver(key), limit);
    var b := Next(a, HandlersSucceed(key), limit);
    var c := Next(b, SaveReceipt(key), limit);
    FoldTrace(Step(limit), [s, a], [Deliver(key)]);
    FoldTrace(Step(limit), [s, a, Next(a, HandlerFails(key), limit)], [Deliver(key), HandlerFails(key)]);
    FoldTrace(Step(limit), [s, a, b, Next(b, ReceiptFails(key), limit)],
              [Deliver(key), HandlersSucceed(key), ReceiptFails(key)]);
    FoldTrace(Step(limit), [s, a, b, c, Next(c, Remember(key), limit)],
              [Deliver(key), HandlersSucceed(key), SaveReceipt(key), Remember(key)]);
  }

  /** What a whole handling leaves behind: the reference its steps are measured against. */
  ghost predicate LeftBehind(s: System, s': System, key: Key, handlers: Handlers, limit: int) {
    if !Admits(s, key) then s' == s
    else
      && s'.processing == s.processing
      && s'.receipts == s.receipts + (if handlers.Committed? then {key} else {})
      && s'.successes == s.successes + (if handlers.NoneOrFailed? then multiset{} else multiset{key})
      && s'.lost == s.lost + (if handlers.DeactivateFailed? || handlers.ReceiptSaveFailed? then multiset{key}
                              else multiset{})
      && s'.seen == if handlers.Committed? then Remembered(s.seen, key, limit) else s.seen
  }

  lemma HandlingLeaves(s: System, key: Key, handlers: Handlers, limit: int)
    ensures LeftBehind(s, Fold(Step(limit), s, EventsOf(key, Admits(s, key), handlers)), key, handlers, limit)
  {
    EventsTaken(s, key, limit);
    var a := Next(s, Deliver(key), limit);
    if Admits(s, key) {
      assert a.processing - {key} == s.processing;
      var b := Next(a, HandlersSucceed(key), limit);
      assert b.processing - {key} == s.processing;
      var c := Next(b, SaveReceipt(key), limit);
      assert c.processing - {key} == s.processing;
    }
  }

  class ChannelGateway {
    const maxRememberedInbound: int
    const correlations: InMemoryCorrelationStore
    var seenInbound: seq<Key>
    var processingInbound: set<Key>
    /** The receipts of the correlation store. */
    var processedInbound: set<Key>
    ghost var phases: map<Key, Phase>
    ghost var successes: multiset<Key>
    ghost var lost: multiset<Key>

    constructor (correlations: InMemoryCorrelationStore, maxRememberedInbound: int, receipts: set<Key>)
      ensures Valid() && Abstract() == Fresh(receipts)
      ensures this.correlations == correlations && this.maxRememberedInbound == maxRememberedInbound
    {
      this.correlations, this.maxRememberedInbound := correlations, maxRememberedInbound;
      seenInbound, processingInbound, processedInbound := [], {}, receipts;
      phases, successes, lost := map[], multiset{}, multiset{};
    }

    ghost predicate Valid()
      reads this
    {
      phases.Keys == processingInbound
    }

    ghost function Abstract(): System
      reads this
    {
      System(seenInbound, phases, processedInbound, successes, lost)
    }

    method RememberInbound(key: Key)
      modifies this`seenInbound
      ensures seenInbound == Remembered(old(seenInbound), key, maxRememberedInbound)
    {
      if key !in seenInbound {
        seenInbound := seenInbound + [key];
      }
      if |seenInbound| <= maxRememberedInbound {
        return;
      }
      ghost var added, deleted := seenInbound, 0;
      while seenInbound != []
        invariant 0 <= deleted <= |added| && seenInbound == added[deleted..]
        invariant deleted == 0 || |seenInbound| > maxRememberedInbound / 2
        invariant Max0(maxRememberedInbound / 2) <= |seenInbound|
        decreases |seenInbound|
      {
        seenInbound, deleted := seenInbound[1..], deleted + 1;
        if |seenInbound| <= maxRememberedInbound / 2 {
          break;
        }
      }
    }

    // The steps between two awaits of a handling.

    method Admit(key: Key) returns (admitted: bool)
      requires Valid()
      modifies this
      ensures Valid() && Abstract() == Next(old(Abstract()), Deliver(key), maxRememberedInbound)
      ensures admitted <==> Admits(old(Abstract()), key)
    {
      if key in seenInbound || key in processingInbound || key in processedInbound {
        return false;
      }
      processingInbound, phases := processingInbound + {key}, phases[key := Handling];
      return true;
    }

    method ReleaseUnhandled(key: Key)
      requires Valid() && InPhase(Abstract(), key, Handling)
      modifies this
      ensures Valid() && Abstract() == Next(old(Abstract()), HandlerFails(key), maxRememberedInbound)
    {
      processingInbound, phases := processingInbound - {key}, phases - {key};
    }

    ghost method NoteSuccess(key: Key)
      requires Valid() && InPhase(Abstract(), key, Handling)
      modifies this`phases, this`successes
      ensures Valid() && Abstract() == Next(old(Abstract()), HandlersSucceed(key), maxRememberedInbound)
    {
      successes, phases := successes + multiset{key}, phases[key := Handled];
    }

    method ReleaseUnreceipted(key: Key)
      requires Valid() && InPhase(Abstract(), key, Handled)
      modifies this
      ensures Valid() && Abstract() == Next(old(Abstract()), ReceiptFails(key), maxRememberedInbound)
    {
      lost := lost + multiset{key};
      processingInbound, phases := processingInbound - {key}, phases - {key};
    }

    method SaveReceiptOf(key: Key)
      requires Valid() && InPhase(Abstract(), key, Handled)
      modifies this
      ensures Valid() && Abstract() == Next(old(Abstract()), SaveReceipt(key), maxRememberedInbound)
    {
      processedInbound, phases := processedInbound + {key}, phases[key := Receipted];
    }

    method Finish(key: Key)
      requires Valid() && InPhase(Abstract(), key, Receipted)
      modifies this
      ensures Valid() && Abstract() == Next(old(Abstract()), Remember(key), maxRememberedInbound)
    {
      RememberInbound(key);
      processingInbound, phases := processingInbound - {key}, phases - {key};
    }

    /**
     * One inbound message that passed validation, uninterrupted by others. The reply handlers and the
     * handlers of unmatched messages end as `handlers` says; only a routed message deactivates.
     */
    method HandleInbound(transportId: string, message: Message, handlers: Handlers) returns (routedTo: Option<string>)
      requires Valid()
      modifies this, correlations
      ensures Valid()
      ensures var key := Key(transportId, message.address, message.id);
              Abstract() == Fold(Step(maxRememberedInbound), old(Abstract()),
                                 EventsOf(key, Admits(old(Abstract()), key), handlers))
      ensures forall id :: routedTo == Some(id) <==>
                && Admits(old(Abstract()), Key(transportId, message.address, message.id))
                && Routed(old(correlations.byMessageId), transportId, message, id)
      ensures correlations.byMessageId ==
              if routedTo.Some? && (handlers.ReceiptSaveFailed? || handlers.Committed?)
              then Deactivated(old(correlations.byMessageId), routedTo.value)
              else old(correlations.byMessageId)
      // Only a committed handling leaves a receipt, which shuts the message out for good; any other
      // leaves the message as admissible as it was.
      ensures var key := Key(transportId, message.address, message.id);
              var admitted := Admits(old(Abstract()), key);
              && processingInbound == old(processingInbound)
              && processedInbound == old(processedInbound) + (if admitted && handlers.Committed? then {key} else {})
              && (admitted ==> (Admits(Abstract(), key) <==> !handlers.Committed?))
              && seenInbound == (if admitted && handlers.Committed?
                                 then Remembered(old(seenInbound), key, maxRememberedInbound)
                                 else old(seenInbound))
              && successes == old(successes) +
                   (if admitted && !handlers.NoneOrFailed? then multiset{key} else multiset{})
    {
      var key := Key(transportId, message.address, message.id);
      EventsTaken(Abstract(), key, maxRememberedInbound);
      HandlingLeaves(Abstract(), key, handlers, maxRememberedInbound);
      var admitted := Admit(key);
      if !admitted {
        return None;
      }
      routedTo := ResolveIntervention(correlations, transportId, message);
      if handlers.NoneOrFailed? {
        ReleaseUnhandled(key);
        return;
      }
      NoteSuccess(key);
      if routedTo.Some? && !handlers.DeactivateFailed? {
        correlations.Deactivate(routedTo.value);
      }
      if handlers.Committed? {
        SaveReceiptOf(key);
        Finish(key);
      } else {
        ReleaseUnreceipted(key);
      }
    }
  }

  /** A committed message that comes again is refused: its handlers run once, whatever they would do. */
  method RedeliveryIsRefused(gateway: ChannelGateway, transportId: string, message: Message, again: Handlers)
    returns (first: Option<string>, second: Option<string>)
    requires gateway.Valid()
    modifies gateway, gateway.correlations
    ensures var key := Key(transportId, message.address, message.id);
            && gateway.Valid() && second.None? && !Admits(gateway.Abstract(), key)
            && gateway.successes[key] ==
               old(gateway.successes)[key] + if Admits(old(gateway.Abstract()), key) then 1 else 0
    ensures gateway.correlations.byMessageId ==
            if first.Some? then Deactivated(old(gateway.correlations.byMessageId), first.value)
            else old(gateway.correlations.byMessageId)
  {
    first := gateway.HandleInbound(transportId, message, Committed);
    second := gateway.HandleInbound(transportId, message, again);
  }
}
