/** The callback registries of the GOOSE and SV receivers, which are alike: a global table from
    handler id to subscriber, and per receiver the set of ids it has put there. */
module CallbackRegistry {
  import opened Text

  /** Handler ids are machine words; the counter starts at 1000 and wraps. */
  const WORD: nat := 0x1_0000_0000_0000_0000
  const START: nat := 1000

  type Handler = nat

  datatype Subscriber = Subscriber(id: nat, handler: Handler)

  /** `refs` of a destroyed receiver is nil. */
  datatype Receiver = Receiver(refs: Option<set<nat>>)

  datatype State = State(idOffset: nat, callbackRefs: map<nat, Subscriber>,
                         subscribers: seq<Subscriber>, receivers: seq<Receiver>)

  const INITIAL := State(START, map[], [], [])

  datatype Op =
    | NewSubscriber(handler: Handler)
    | NewReceiver
    | Add(receiver: nat, subscriber: nat)
    | Remove(receiver: nat, subscriber: nat)
    | Destroy(receiver: nat)

  predicate Live(s: State, r: nat) {
    r < |s.receivers| && s.receivers[r].refs.Some?
  }

  /** What the source demands: objects exist, and a destroyed receiver's nil map is not written. */
  predicate Possible(s: State, op: Op) {
    match op
    case NewSubscriber(_) => true
    case NewReceiver => true
    case Add(r, u) => Live(s, r) && u < |s.subscribers|
    case Remove(r, u) => r < |s.receivers| && u < |s.subscribers|
    case Destroy(r) => r < |s.receivers|
  }

  function NextId(offset: nat): nat {
    (offset + 1) % WORD
  }

  function Apply(s: State, op: Op): State
    requires Possible(s, op)
  {
    match op
    case NewSubscriber(h) =>
      var id := NextId(s.idOffset);
      s.(idOffset := id, subscribers := s.subscribers + [Subscriber(id, h)])
    case NewReceiver => s.(receivers := s.receivers + [Receiver(Some({}))])
    case Add(r, u) =>
      var sub := s.subscribers[u];
      s.(callbackRefs := s.callbackRefs[sub.id := sub],
         receivers := s.receivers[r := Receiver(Some(s.receivers[r].refs.value + {sub.id}))])
    case Remove(r, u) =>
      var id := s.subscribers[u].id;
      s.(callbackRefs := s.callbackRefs - {id},
         receivers := if s.receivers[r].refs.None? then s.receivers
                      else s.receivers[r := Receiver(Some(s.receivers[r].refs.value - {id}))])
    case Destroy(r) =>
      s.(callbackRefs := s.callbackRefs - s.receivers[r].refs.GetOr({}),
         receivers := s.receivers[r := Receiver(None)])
  }

  /** The handler a report for the id reaches; None if the report is dropped. */
  function Dispatch(s: State, id: nat): Option<Handler> {
    if id in s.callbackRefs then Some(s.callbackRefs[id].handler) else None
  }

  // ----- the objects themselves

  class Registry {
    var idOffset: nat
    var callbackRefs: map<nat, Subscriber>

    constructor ()
      ensures idOffset == START && callbackRefs == map[]
    {
      idOffset, callbackRefs := START, map[];
    }

    method NewSubscriber(handler: Handler) returns (subscriber: Subscriber)
      modifies this`idOffset
      ensures subscriber == Subscriber(NextId(old(idOffset)), handler) && idOffset == subscriber.id
    {
      idOffset := (idOffset + 1) % WORD;
      subscriber := Subscriber(idOffset, handler);
    }

    method Report(id: nat) returns (called: Option<Handler>)
      ensures called == if id in callbackRefs then Some(callbackRefs[id].handler) else None
    {
      called := if id in callbackRefs then Some(callbackRefs[id].handler) else None;
    }
  }

  class ReceiverObject {
    const registry: Registry
    var refs: Option<set<nat>>

    constructor (registry: Registry)
      ensures this.registry == registry && refs == Some({})
    {
      this.registry, refs := registry, Some({});
    }

    method AddSubscriber(subscriber: Subscriber)
      requires refs.Some?
      modifies this, registry`callbackRefs
      ensures registry.callbackRefs == old(registry.callbackRefs)[subscriber.id := subscriber]
      ensures refs == Some(old(refs).value + {subscriber.id})
    {
      registry.callbackRefs := registry.callbackRefs[subscriber.id := subscriber];
      refs := Some(refs.value + {subscriber.id});
    }

    method RemoveSubscriber(subscriber: Subscriber)
      modifies this, registry`callbackRefs
      ensures registry.callbackRefs == old(registry.callbackRefs) - {subscriber.id}
      ensures refs == if old(refs).Some? then Some(old(refs).value - {subscriber.id}) else None
    {
      registry.callbackRefs := registry.callbackRefs - {subscriber.id};
      if refs.Some? {
        refs := Some(refs.value - {subscriber.id});
      }
    }

    method Destroy()
      modifies this, registry`callbackRefs
      ensures registry.callbackRefs == old(registry.callbackRefs) - old(refs).GetOr({})
      ensures refs == None
    {
      if refs.Some? {
        var left := refs.value;
        ghost var gone: set<nat> := {};
        while left != {}
          invariant refs == old(refs) && gone + left == old(refs).value
          invariant registry.callbackRefs == old(registry.callbackRefs) - gone
          decreases left
        {
          var id :| id in left;
          registry.callbackRefs := registry.callbackRefs - {id};
          left, gone := left - {id}, gone + {id};
        }
      }
      refs := None;
    }
  }

  /** The table with all subscribers and receivers there are, as one object. */
  class System {
    const registry: Registry
    var subscribers: seq<Subscriber>
    var receivers: seq<ReceiverObject>

    constructor ()
      ensures Valid() && fresh(registry) && Abs() == INITIAL
    {
      registry := new Registry();
      subscribers, receivers := [], [];
    }

    ghost predicate Valid()
      reads this, receivers
    {
      && (forall i :: 0 <= i < |receivers| ==> receivers[i].registry == registry)
      && (forall i, j :: 0 <= i < j < |receivers| ==> receivers[i] != receivers[j])
    }

    /** The state of the transition system that the objects stand for. */
    ghost function Abs(): State
      reads this, registry, receivers
    {
      State(registry.idOffset, registry.callbackRefs, subscribers, Held(receivers))
    }

    /** Every method does to the objects what its operation does to the state. */
    method Perform(op: Op)
      requires Valid() && Possible(Abs(), op)
      modifies this, registry, receivers
      ensures Valid() && Abs() == Apply(old(Abs()), op)
    {
      match op
      case NewSubscriber(h) =>
        var subscriber := registry.NewSubscriber(h);
        subscribers := subscribers + [subscriber];
      case NewReceiver =>
        var receiver := new ReceiverObject(registry);
        receivers := receivers + [receiver];
      case Add(r, u) =>
        receivers[r].AddSubscriber(subscribers[u]);
      case Remove(r, u) =>
        receivers[r].RemoveSubscriber(subscribers[u]);
      case Destroy(r) =>
        receivers[r].Destroy();
    }

    method Report(id: nat) returns (called: Option<Handler>)
      ensures called == Dispatch(Abs(), id)
    {
      called := registry.Report(id);
    }
  }

  ghost function Held(receivers: seq<ReceiverObject>): (held: seq<Receiver>)
    reads receivers
    ensures |held| == |receivers| && forall i :: 0 <= i < |held| ==> held[i] == Receiver(receivers[i].refs)
  {
    seq(|receivers|, i requires 0 <= i < |receivers| reads receivers => Receiver(receivers[i].refs))
  }

  // ----- runs

  ghost predicate IsRun(states: seq<State>, ops: seq<Op>) {
    && |states| == |ops| + 1 && states[0] == INITIAL
    && forall i :: 0 <= i < |ops| ==> Possible(states[i], ops[i]) && states[i + 1] == Apply(states[i], ops[i])
  }

  /** Holds on every run shorter than the id space: ids are handed out once, and whatever the table
      holds under an id is the subscriber with that id. */
  ghost predicate Inv(s: State) {
    && s.idOffset == START + |s.subscribers| && s.idOffset < WORD
    && (forall u :: 0 <= u < |s.subscribers| ==> s.subscribers[u].id == START + u + 1)
    && (forall id :: id in s.callbackRefs ==> s.callbackRefs[id] in s.subscribers && s.callbackRefs[id].id == id)
    && (forall r, id :: 0 <= r < |s.receivers| && s.receivers[r].refs.Some? && id in s.receivers[r].refs.value ==>
          START < id <= s.idOffset)
  }

  lemma {:induction false} StepKeepsInv(s: State, op: Op)
    requires Inv(s) && Possible(s, op) && s.idOffset + 1 < WORD
    ensures Inv(Apply(s, op))
  {
    var t := Apply(s, op);
    forall id | id in t.callbackRefs ensures t.callbackRefs[id] in t.subscribers && t.callbackRefs[id].id == id {
      if id in s.callbackRefs && t.callbackRefs[id] == s.callbackRefs[id] {
        assert s.callbackRefs[id] in s.subscribers;
      }
    }
  }

  lemma {:induction false} RunKeepsInv(states: seq<State>, ops: seq<Op>, i: nat)
    requires IsRun(states, ops) && i < |states| && START + |ops| < WORD
    ensures Inv(states[i]) && states[i].idOffset <= START + i
    decreases i
  {
    if i > 0 {
      RunKeepsInv(states, ops, i - 1);
      StepKeepsInv(states[i - 1], ops[i - 1]);
    }
  }

  /** Ids are never reused, and a report for an id reaches the handler of the subscriber that was
      given that id, or nobody. */
  lemma {:induction false} DispatchesToOwner(states: seq<State>, ops: seq<Op>, i: nat, u: nat, v: nat)
    requires IsRun(states, ops) && i < |states| && START + |ops| < WORD
    requires u < |states[i].subscribers| && v < |states[i].subscribers|
    ensures states[i].subscribers[u].id == 1001 + u
    ensures states[i].subscribers[u].id == states[i].subscribers[v].id ==> u == v
    ensures var d := Dispatch(states[i], states[i].subscribers[u].id);
            d.None? || d == Some(states[i].subscribers[u].handler)
  {
    RunKeepsInv(states, ops, i);
    var s := states[i];
    var id := s.subscribers[u].id;
    if id in s.callbackRefs {
      var w :| 0 <= w < |s.subscribers| && s.subscribers[w] == s.callbackRefs[id];
      assert s.subscribers[w].id == START + w + 1;
    }
  }

  predicate Adds(s: State, op: Op, id: nat)
    requires Possible(s, op)
  {
    op.Add? && s.subscribers[op.subscriber].id == id
  }

  lemma {:induction false} StaysSilent(states: seq<State>, ops: seq<Op>, i: nat, j: nat, id: nat)
    requires IsRun(states, ops) && i <= j < |states|
    requires forall k :: i <= k < j ==> !Adds(states[k], ops[k], id)
    requires Dispatch(states[i], id) == None
    ensures Dispatch(states[j], id) == None
    decreases j - i
  {
    if i < j {
      assert !Adds(states[i], ops[i], id) && states[i + 1] == Apply(states[i], ops[i]);
      assert Dispatch(states[i + 1], id) == None;
      StaysSilent(states, ops, i + 1, j, id);
    }
  }

  /** After Remove the subscriber's id, and after Destroy every id of the receiver, does not dispatch
      again until it is added again.  This holds of every run, disciplined or not. */
  lemma {:induction false} SilencedAfter(states: seq<State>, ops: seq<Op>, i: nat, j: nat, id: nat)
    requires IsRun(states, ops) && i < j < |states|
    requires match ops[i]
             case Remove(_, u) => id == states[i].subscribers[u].id
             case Destroy(r) => id in states[i].receivers[r].refs.GetOr({})
             case _ => false
    requires forall k :: i < k < j ==> !Adds(states[k], ops[k], id)
    ensures Dispatch(states[j], id) == None
  {
    assert Possible(states[i], ops[i]) && states[i + 1] == Apply(states[i], ops[i]);
    StaysSilent(states, ops, i + 1, j, id);
  }

  /** The step takes the id out of the table: Remove of its subscriber, or Destroy of a receiver that has it. */
  predicate Silences(s: State, op: Op, id: nat)
    requires Possible(s, op)
  {
    match op
    case Remove(_, u) => s.subscribers[u].id == id
    case Destroy(r) => id in s.receivers[r].refs.GetOr({})
    case _ => false
  }

  /** Step i has added the id, and no later step up to j has silenced it. */
  ghost predicate AddedAt(states: seq<State>, ops: seq<Op>, i: nat, j: nat, id: nat)
    requires IsRun(states, ops) && i < j < |states|
  {
    && Possible(states[i], ops[i]) && Adds(states[i], ops[i], id)
    && forall k :: i < k < j ==> Possible(states[k], ops[k]) && !Silences(states[k], ops[k], id)
  }

  /** What one step does to an id. */
  lemma {:induction false} DispatchStep(s: State, op: Op, id: nat)
    requires Possible(s, op)
    ensures id in Apply(s, op).callbackRefs <==> Adds(s, op, id) || (id in s.callbackRefs && !Silences(s, op, id))
  {
  }

  /** An id reaches its handler exactly from a step that adds it to the next step that silences it. */
  lemma {:induction false} DispatchExact(states: seq<State>, ops: seq<Op>, j: nat, u: nat)
    requires IsRun(states, ops) && j < |states| && START + |ops| < WORD && u < |states[j].subscribers|
    ensures var sub := states[j].subscribers[u];
            Dispatch(states[j], sub.id) == Some(sub.handler)
            <==> exists i: nat :: i < j && AddedAt(states, ops, i, j, sub.id)
  {
    var id := states[j].subscribers[u].id;
    DispatchesToOwner(states, ops, j, u, u);
    InTableExact(states, ops, j, id);
  }

  lemma {:induction false} InTableExact(states: seq<State>, ops: seq<Op>, j: nat, id: nat)
    requires IsRun(states, ops) && j < |states|
    ensures id in states[j].callbackRefs <==> exists i: nat :: i < j && AddedAt(states, ops, i, j, id)
    decreases j
  {
    if j > 0 {
      var n := j - 1;
      InTableExact(states, ops, n, id);
      assert Possible(states[n], ops[n]) && states[j] == Apply(states[n], ops[n]);
      DispatchStep(states[n], ops[n], id);
      if Adds(states[n], ops[n], id) {
        assert AddedAt(states, ops, n, j, id);
      }
      if id in states[n].callbackRefs && !Silences(states[n], ops[n], id) {
        var i: nat :| i < n && AddedAt(states, ops, i, n, id);
        assert AddedAt(states, ops, i, j, id);
      }
      if i: nat :| i < j && AddedAt(states, ops, i, j, id) {
        if i < n {
          assert AddedAt(states, ops, i, n, id);
        }
      }
    }
  }

  // ----- table and receivers agree on disciplined runs

  /** A subscriber is added only while no other live receiver has it, and removed only from a live
      receiver that has it or while none has it. */
  predicate Disciplined(s: State, op: Op)
    requires Possible(s, op)
  {
    match op
    case Add(r, u) => forall q :: 0 <= q < |s.receivers| && q != r ==> !Has(s, q, s.subscribers[u].id)
    case Remove(r, u) => forall q :: 0 <= q < |s.receivers| && q != r ==> !Has(s, q, s.subscribers[u].id)
    case _ => true
  }

  predicate Has(s: State, r: nat, id: nat)
    requires r < |s.receivers|
  {
    s.receivers[r].refs.Some? && id in s.receivers[r].refs.value
  }

  /** The table's ids are exactly those of the live receivers, and no two receivers share one. */
  ghost predicate Partitioned(s: State) {
    && (forall id :: id in s.callbackRefs <==> exists r :: 0 <= r < |s.receivers| && Has(s, r, id))
    && (forall id, q, r :: 0 <= q < r < |s.receivers| ==> !(Has(s, q, id) && Has(s, r, id)))
  }

  lemma {:induction false} AddKeepsPartition(s: State, r: nat, u: nat)
    requires Partitioned(s) && Possible(s, Add(r, u)) && Disciplined(s, Add(r, u))
    ensures Partitioned(Apply(s, Add(r, u)))
  {
    var t, added := Apply(s, Add(r, u)), s.subscribers[u].id;
    assert forall id, q :: 0 <= q < |s.receivers| ==> Has(t, q, id) == (Has(s, q, id) || (q == r && id == added));
    forall id | id in t.callbackRefs ensures exists q :: 0 <= q < |t.receivers| && Has(t, q, id) {
      if id == added {
        assert Has(t, r, added);
      } else {
        var q :| 0 <= q < |s.receivers| && Has(s, q, id);
        assert Has(t, q, id);
      }
    }
  }

  lemma {:induction false} RemoveKeepsPartition(s: State, r: nat, u: nat)
    requires Partitioned(s) && Possible(s, Remove(r, u)) && Disciplined(s, Remove(r, u))
    ensures Partitioned(Apply(s, Remove(r, u)))
  {
    var t, removed := Apply(s, Remove(r, u)), s.subscribers[u].id;
    assert forall id, q :: 0 <= q < |s.receivers| ==> Has(t, q, id) == (Has(s, q, id) && !(q == r && id == removed));
    forall id | id in t.callbackRefs ensures exists q :: 0 <= q < |t.receivers| && Has(t, q, id) {
      var q :| 0 <= q < |s.receivers| && Has(s, q, id);
      assert Has(t, q, id);
    }
  }

  lemma {:induction false} DestroyKeepsPartition(s: State, r: nat)
    requires Partitioned(s) && Possible(s, Destroy(r))
    ensures Partitioned(Apply(s, Destroy(r)))
  {
    var t := Apply(s, Destroy(r));
    assert forall id :: Has(s, r, id) <==> id in s.receivers[r].refs.GetOr({});
    assert forall id, q :: 0 <= q < |s.receivers| ==> Has(t, q, id) == (Has(s, q, id) && q != r);
    forall id | id in t.callbackRefs ensures exists q :: 0 <= q < |t.receivers| && Has(t, q, id) {
      var q :| 0 <= q < |s.receivers| && Has(s, q, id);
      assert Has(t, q, id);
    }
    forall id, q | 0 <= q < |t.receivers| && Has(t, q, id) ensures id in t.callbackRefs {
      assert Has(s, q, id) && !Has(s, r, id);
    }
  }

  lemma {:induction false} StepKeepsPartition(s: State, op: Op)
    requires Partitioned(s) && Possible(s, op) && Disciplined(s, op)
    ensures Partitioned(Apply(s, op))
  {
    var t := Apply(s, op);
    match op
    case NewSubscriber(_) =>
      assert forall id, r :: 0 <= r < |s.receivers| ==> Has(t, r, id) == Has(s, r, id);
    case NewReceiver =>
      assert forall id, r :: 0 <= r < |s.receivers| ==> Has(t, r, id) == Has(s, r, id);
      assert forall id :: !Has(t, |s.receivers|, id);
    case Add(r, u) => AddKeepsPartition(s, r, u);
    case Remove(r, u) => RemoveKeepsPartition(s, r, u);
    case Destroy(r) => DestroyKeepsPartition(s, r);
  }

  /** On every disciplined run the table is the disjoint union of the live receivers' ids. */
  lemma {:induction false} RunKeepsPartition(states: seq<State>, ops: seq<Op>, i: nat)
    requires IsRun(states, ops) && i < |states|
    requires forall j :: 0 <= j < |ops| ==> Disciplined(states[j], ops[j])
    ensures Partitioned(states[i])
    decreases i
  {
    if i > 0 {
      RunKeepsPartition(states, ops, i - 1);
      StepKeepsPartition(states[i - 1], ops[i - 1]);
    }
  }

  /** The discipline is what the partition needs: from a partitioned state a step keeps it exactly if
      it is disciplined. */
  lemma {:induction false} DisciplineExact(s: State, op: Op)
    requires Partitioned(s) && Possible(s, op)
    ensures Partitioned(Apply(s, op)) <==> Disciplined(s, op)
  {
    if Disciplined(s, op) {
      StepKeepsPartition(s, op);
    } else {
      var t := Apply(s, op);
      var r, id := op.receiver, s.subscribers[op.subscriber].id;
      var q :| 0 <= q < |s.receivers| && q != r && Has(s, q, id);
      assert Has(t, q, id);
      if op.Add? {
        assert Has(t, r, id);
      } else {
        assert id !in t.callbackRefs;
      }
    }
  }
}
