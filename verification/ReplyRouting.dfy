/**
 * Which intervention an inbound message answers. Notifications leave correlations in a store; a
 * message is matched to one by the notification it replies to, by a code it quotes, or, when the
 * conversation has a single pending question, by that.
 */
module ReplyRouting {
  import opened Identifiers
  import opened RoutingCode
  import opened Runs

  datatype Address = Address(channel: string, conversationId: string)

  datatype Key = Key(transportId: string, address: Address, messageId: string)

  datatype Correlation = Correlation(key: Key, interventionId: string, code: string, active: bool)

  datatype Message = Message(id: string, address: Address, body: string, replyToMessageId: string)

  type Correlations = map<Key, Correlation>

  ghost predicate WellFormed(m: Correlations) {
    forall k :: k in m ==> m[k].key == k
  }

  function LowerCase(s: string): string {
    seq(|s|, i requires 0 <= i < |s| => if 'A' <= s[i] <= 'Z' then s[i] - 'A' + 'a' else s[i])
  }

  /** The filter of a listing; an empty transport or code does not restrict it. */
  predicate Listed(c: Correlation, transportId: string, address: Address, code: string) {
    && c.active
    && (transportId == "" || c.key.transportId == transportId)
    && c.key.address == address
    && (code == "" || LowerCase(c.code) == LowerCase(code))
  }

  function Saved(m: Correlations, c: Correlation): Correlations {
    m[c.key := c]
  }

  function Deactivated(m: Correlations, interventionId: string): Correlations {
    map k | k in m :: if m[k].interventionId == interventionId then m[k].(active := false) else m[k]
  }

  class InMemoryCorrelationStore {
    var byMessageId: Correlations

    constructor ()
      ensures byMessageId == map[]
    {
      byMessageId := map[];
    }

    method Save(c: Correlation)
      modifies this
      ensures byMessageId == Saved(old(byMessageId), c)
    {
      byMessageId := byMessageId[c.key := c];
    }

    method GetActive(key: Key) returns (r: Option<Correlation>)
      ensures r == if key in byMessageId && byMessageId[key].active then Some(byMessageId[key]) else None
    {
      if key !in byMessageId || !byMessageId[key].active {
        return None;
      }
      return Some(byMessageId[key]);
    }

    /** The interventions of the active correlations the filter lets through. */
    method ListActive(transportId: string, address: Address, code: string) returns (ids: set<string>)
      ensures forall id :: id in ids <==> Lists(byMessageId, transportId, address, code, id)
    {
      ids := {};
      var keys := byMessageId.Keys;
      ghost var done: set<Key> := {};
      while keys != {}
        invariant done + keys == byMessageId.Keys
        invariant forall k :: k in done && Listed(byMessageId[k], transportId, address, code) ==>
                    byMessageId[k].interventionId in ids
        invariant forall id :: id in ids ==> Lists(byMessageId, transportId, address, code, id)
        decreases |keys|
      {
        var key :| key in keys;
        if Listed(byMessageId[key], transportId, address, code) {
          ids := ids + {byMessageId[key].interventionId};
        }
        keys, done := keys - {key}, done + {key};
      }
    }

    method Deactivate(interventionId: string)
      modifies this
      ensures byMessageId == Deactivated(old(byMessageId), interventionId)
      ensures byMessageId.Keys == old(byMessageId).Keys
      ensures forall k :: k in byMessageId ==>
                byMessageId[k] == if old(byMessageId)[k].interventionId != interventionId then old(byMessageId)[k]
                                  else old(byMessageId)[k].(active := false)
    {
      var keys := byMessageId.Keys;
      while keys != {}
        invariant keys <= byMessageId.Keys == old(byMessageId).Keys
        invariant forall k :: k in byMessageId ==>
                    byMessageId[k] == if k in keys then old(byMessageId)[k]
                                      else Deactivated(old(byMessageId), interventionId)[k]
        decreases |keys|
      {
        var key :| key in keys;
        if byMessageId[key].interventionId == interventionId && byMessageId[key].active {
          byMessageId := byMessageId[key := byMessageId[key].(active := false)];
        }
        keys := keys - {key};
      }
    }
  }

  // ---- Resolution ----

  /** Some active correlation the filter lets through belongs to `id`. */
  ghost predicate Lists(m: Correlations, transportId: string, address: Address, code: string, id: string) {
    exists k :: k in m && Listed(m[k], transportId, address, code) && m[k].interventionId == id
  }

  /** `id` is the only intervention the filter lists. */
  ghost predicate Sole(m: Correlations, transportId: string, address: Address, code: string, id: string) {
    && Lists(m, transportId, address, code, id)
    && forall other :: Lists(m, transportId, address, code, other) ==> other == id
  }

  function QuotedKey(transportId: string, message: Message): Key {
    Key(transportId, message.address, message.replyToMessageId)
  }

  ghost predicate QuotesActive(m: Correlations, transportId: string, message: Message) {
    message.replyToMessageId != "" && QuotedKey(transportId, message) in m && m[QuotedKey(transportId, message)].active
  }

  ghost predicate NamedByCode(m: Correlations, transportId: string, message: Message, id: string) {
    var code := ExtractInterventionCode(message.body);
    code.Some? && Sole(m, transportId, message.address, code.value, id)
  }

  /** `message` answers `id`. */
  ghost predicate Routed(m: Correlations, transportId: string, message: Message, id: string) {
    if QuotesActive(m, transportId, message) then m[QuotedKey(transportId, message)].interventionId == id
    else if exists named :: NamedByCode(m, transportId, message, named) then NamedByCode(m, transportId, message, id)
    else Sole(m, transportId, message.address, "", id)
  }

  lemma SingletonSet<T>(s: set<T>, x: T)
    requires x in s
    ensures |s| == 1 <==> forall y :: y in s ==> y == x
  {
    assert s == (s - {x}) + {x};
    if |s| == 1 {
      assert |s - {x}| == 0;
    }
    if forall y :: y in s ==> y == x {
      assert s == {x};
    }
  }

  method TheOnlyOne(ids: set<string>) returns (r: Option<string>)
    ensures forall id :: r == Some(id) <==> id in ids && forall other :: other in ids ==> other == id
  {
    forall id | id in ids
      ensures |ids| == 1 <==> forall other :: other in ids ==> other == id
    {
      SingletonSet(ids, id);
    }
    if |ids| == 1 {
      var id :| id in ids;
      return Some(id);
    }
    return None;
  }

  method ResolveIntervention(store: InMemoryCorrelationStore, transportId: string, message: Message)
    returns (r: Option<string>)
    ensures forall id :: r == Some(id) <==> Routed(store.byMessageId, transportId, message, id)
  {
    if message.replyToMessageId != "" {
      var correlated := store.GetActive(Key(transportId, message.address, message.replyToMessageId));
      if correlated.Some? {
        return Some(correlated.value.interventionId);
      }
    }
    var code := ExtractInterventionCode(message.body);
    if code.Some? {
      var byCode := store.ListActive(transportId, message.address, code.value);
      r := TheOnlyOne(byCode);
      if r.Some? {
        assert NamedByCode(store.byMessageId, transportId, message, r.value);
        return;
      }
      assert forall id :: !NamedByCode(store.byMessageId, transportId, message, id);
    }
    var pending := store.ListActive(transportId, message.address, "");
    r := TheOnlyOne(pending);
  }

  // ---- What a routed message may rely on ----

  /** An active correlation of `id` exists in this transport and conversation. */
  ghost predicate PendingIn(m: Correlations, transportId: string, address: Address, id: string) {
    exists k :: k in m && m[k].active && m[k].interventionId == id
             && k.transportId == transportId && k.address == address
  }

  /** A message reaches only an intervention that is pending in its own transport and conversation. */
  lemma RoutedInOwnConversation(m: Correlations, transportId: string, message: Message, id: string)
    requires WellFormed(m) && transportId != "" && Routed(m, transportId, message, id)
    ensures PendingIn(m, transportId, message.address, id)
  {
    if QuotesActive(m, transportId, message) {
      assert m[QuotedKey(transportId, message)].active;
    } else {
      var code := if exists named :: NamedByCode(m, transportId, message, named)
        then ExtractInterventionCode(message.body).value else "";
      assert Lists(m, transportId, message.address, code, id);
    }
  }

  /**
   * A transport registered under the empty id drops the filter: its messages can answer a question
   * asked on another transport. No other id can.
   */
  lemma ConfinedIffTransportNamed(transportId: string)
    ensures (forall m: Correlations, message: Message, id: string ::
               WellFormed(m) && Routed(m, transportId, message, id) ==> PendingIn(m, transportId, message.address, id))
            <==> transportId != ""
  {
    if transportId != "" {
      forall m: Correlations, message: Message, id: string | WellFormed(m) && Routed(m, transportId, message, id)
        ensures PendingIn(m, transportId, message.address, id)
      {
        RoutedInOwnConversation(m, transportId, message, id);
      }
    } else {
      var address := Address("chat", "room");
      var key := Key("telegram", address, "1");
      var m := map[key := Correlation(key, "q", "", true)];
      var message := Message("2", address, "", "");
      assert Listed(m[key], "", address, "");
      assert Sole(m, "", address, "", "q");
      assert ExtractInterventionCode("").None?;
      assert Routed(m, "", message, "q") && !PendingIn(m, "", address, "q");
    }
  }

  /**
   * Without a usable quote or code, a message is routed only if one question is pending there, and then
   * to it. A quoted notification that is no longer active and a code that does not single out a pending
   * question are not usable.
   */
  lemma UnquotedNeedsSolePending(m: Correlations, transportId: string, message: Message, id: string)
    requires WellFormed(m) && transportId != "" && !QuotesActive(m, transportId, message)
    requires forall named :: !NamedByCode(m, transportId, message, named)
    ensures Routed(m, transportId, message, id) <==>
              && PendingIn(m, transportId, message.address, id)
              && forall other :: PendingIn(m, transportId, message.address, other) ==> other == id
  {
    forall other
      ensures Lists(m, transportId, message.address, "", other) <==> PendingIn(m, transportId, message.address, other)
    {
    }
  }

  /** Quoting an intervention's code settles the matter unless another pending question has the same hash. */
  lemma CodePicksItsIntervention(m: Correlations, transportId: string, message: Message, id: string, before: string,
                                 written: string, after: string)
    requires WellFormed(m) && transportId != "" && !QuotesActive(m, transportId, message)
    requires forall k :: k in m ==> m[k].code == Code(m[k].interventionId)
    requires message.body == before + written + after && UpperCase(written) == Code(id)
    requires ExtractInterventionCode(before).None?
    requires !WordAt(before, |before| - 1) && !WordAt(after, 0)
    requires PendingIn(m, transportId, message.address, id)
    ensures Routed(m, transportId, message, id) <==>
              forall other :: PendingIn(m, transportId, message.address, other) && Fnv(other) == Fnv(id) ==> other == id
  {
    QuotedCodeIsFound(before, id, written, after);
    forall other
      ensures Lists(m, transportId, message.address, Code(id), other)
         <==> PendingIn(m, transportId, message.address, other) && Fnv(other) == Fnv(id)
    {
      LowerCodes(other, id);
      SameCodeIffSameHash(other, id);
      assert Code(id) != "";
    }
    forall other
      ensures Lists(m, transportId, message.address, "", other) <==> PendingIn(m, transportId, message.address, other)
    {
    }
    assert Lists(m, transportId, message.address, Code(id), id);
    if forall other :: PendingIn(m, transportId, message.address, other) && Fnv(other) == Fnv(id) ==> other == id {
      assert NamedByCode(m, transportId, message, id);
    }
  }

  lemma LowerCodes(a: string, b: string)
    ensures LowerCase(Code(a)) == LowerCase(Code(b)) <==> Code(a) == Code(b)
  {
    CodeIsUpperCase(a);
    CodeIsUpperCase(b);
    UpperUndoesLower(Code(a));
    UpperUndoesLower(Code(b));
  }

  lemma UpperUndoesLower(s: string)
    ensures UpperCase(LowerCase(s)) == UpperCase(s)
  {
    forall i | 0 <= i < |s|
      ensures Upper(LowerCase(s)[i]) == Upper(s[i])
    {
    }
  }

  // ---- Runs of the store ----

  datatype StoreOp = Notified(correlation: Correlation) | Answered(interventionId: string)

  function Apply(m: Correlations, op: StoreOp): Correlations {
    match op
    case Notified(c) => Saved(m, c)
    case Answered(id) => Deactivated(m, id)
  }

  ghost predicate Pending(m: Correlations, id: string) {
    exists k :: k in m && m[k].active && m[k].interventionId == id
  }

  ghost predicate NotNotified(ops: seq<StoreOp>, id: string) {
    forall op :: op in ops && op.Notified? ==> op.correlation.interventionId != id
  }

  /** From a handled reply on, nothing resolves the intervention until it is notified again. */
  lemma SilentUntilNotified(m: Correlations, id: string, ops: seq<StoreOp>, transportId: string, message: Message)
    requires NotNotified(ops, id)
    ensures !Routed(Fold(Apply, Apply(m, Answered(id)), ops), transportId, message, id)
  {
    var start := Apply(m, Answered(id));
    assert !Pending(start, id);
    forall x: Correlations, op | op in ops && !Pending(x, id)
      ensures !Pending(Apply(x, op), id)
    {
    }
    FoldInvariant(Apply, start, ops, x => !Pending(x, id));
    RoutedIsPending(Fold(Apply, start, ops), transportId, message, id);
  }

  lemma RoutedIsPending(m: Correlations, transportId: string, message: Message, id: string)
    ensures Routed(m, transportId, message, id) ==> Pending(m, id)
  {
    if Routed(m, transportId, message, id) && !QuotesActive(m, transportId, message) {
      var code := if exists named :: NamedByCode(m, transportId, message, named)
        then ExtractInterventionCode(message.body).value else "";
      assert Lists(m, transportId, message.address, code, id);
    }
  }

  /** Answering one question takes nothing from the others. */
  lemma AnsweredLeavesOthers(m: Correlations, id: string, transportId: string, address: Address, other: string)
    requires other != id
    ensures PendingIn(Apply(m, Answered(id)), transportId, address, other)
       <==> PendingIn(m, transportId, address, other)
  {
    var after := Apply(m, Answered(id));
    assert forall k :: k in m && m[k].interventionId == other ==> after[k] == m[k];
  }

  /** No operation touches the notification `key` of `id`. */
  ghost predicate Untouched(ops: seq<StoreOp>, key: Key, id: string) {
    forall op :: op in ops ==>
      match op
      case Notified(c) => c.key != key
      case Answered(answered) => answered != id
  }

  /**
   * From its notification until it is answered, a reply that quotes the notification reaches the
   * intervention and no other, whatever code the reply holds and whatever else was notified or answered.
   */
  lemma QuotableUntilAnswered(m: Correlations, c: Correlation, ops: seq<StoreOp>, message: Message, id: string)
    requires c.active && Untouched(ops, c.key, c.interventionId)
    requires message.replyToMessageId == c.key.messageId != "" && message.address == c.key.address
    ensures Routed(Fold(Apply, Apply(m, Notified(c)), ops), c.key.transportId, message, id)
       <==> id == c.interventionId
  {
    forall x: Correlations, op | op in ops && c.key in x && x[c.key] == c
      ensures c.key in Apply(x, op) && Apply(x, op)[c.key] == c
    {
    }
    FoldInvariant(Apply, Apply(m, Notified(c)), ops, x => c.key in x && x[c.key] == c);
    assert QuotedKey(c.key.transportId, message) == c.key;
  }

  lemma RunsStayWellFormed(ops: seq<StoreOp>)
    ensures WellFormed(Fold(Apply, map[], ops))
  {
    FoldInvariant(Apply, map[], ops, m => WellFormed(m));
  }

  /** An intervention can be answered exactly while it has an active correlation, whatever else is pending. */
  lemma AnswerableIffPending(m: Correlations, id: string)
    requires WellFormed(m) && forall k :: k in m ==> k.messageId != ""
    ensures (exists transportId, message :: Routed(m, transportId, message, id)) <==> Pending(m, id)
  {
    if transportId, message :| Routed(m, transportId, message, id) {
      RoutedIsPending(m, transportId, message, id);
    }
    if Pending(m, id) {
      var k :| k in m && m[k].active && m[k].interventionId == id;
      var message := Message("m", k.address, "", k.messageId);
      assert QuotedKey(k.transportId, message) == k;
      assert Routed(m, k.transportId, message, id);
    }
  }
}
