/** GetVariableValues once its task list is built: at most two workers at a time read one
    (device, node, constraint) each and hand their batch to a collector over an unbuffered channel;
    the main goroutine waits for the workers, closes the channel and waits for the collector.

    The protocol is a transition system; every interleaving and every outcome of every read is a run. */
module WorkerPool {
  import opened Text

  const LIMIT: nat := 2

  datatype Value = Value(ref: string, payload: int) | Placeholder(task: nat)

  datatype Worker =
    | Waiting                       // not yet started
    | Reading                       // inside GetVariableTypeValues
    | Sending(batch: seq<Value>)    // blocked on the channel
    | Leaving                       // sent; still holds its slot of the limit
    | Gone

  datatype Main = Spawning | Draining | Closing | Joining | Returned

  datatype Collector = Receiving | Appending(batch: seq<Value>) | Exited

  /** `ret` is the slice the collector fills.  `batches` and `order` are bookkeeping: what each task
      came back with, and in which order batches were received. */
  datatype State = State(
    workers: seq<Worker>, next: nat, main: Main, closed: bool, collector: Collector, ret: seq<Value>,
    batches: seq<seq<Value>>, order: seq<nat>)

  function Initial(n: nat): State {
    State(seq(n, _ => Waiting), 0, Spawning, false, Receiving, [], seq(n, _ => []), [])
  }

  predicate Active(w: Worker) {
    w.Reading? || w.Sending? || w.Leaving?
  }

  function CountActive(ws: seq<Worker>): nat {
    if ws == [] then 0 else (if Active(ws[0]) then 1 else 0) + CountActive(ws[1..])
  }

  // ----- steps

  datatype Step =
    | Spawn                              // eg.Go: starts the next task when a slot is free
    | DoneSpawning                       // the loop over the tasks ends; eg.Wait begins
    | ReadOk(task: nat, values: seq<Value>)
    | ReadFailed(task: nat)
    | Handover(task: nat)                // rendezvous of a sender with the collector
    | Append
    | Release(task: nat)                 // the worker function returns
    | WaitDone                           // eg.Wait returns
    | Close
    | CollectorExit                      // range over a closed, drained channel ends
    | Join                               // wg.Wait returns

  predicate Enabled(s: State, step: Step) {
    match step
    case Spawn => s.main == Spawning && s.next < |s.workers| && CountActive(s.workers) < LIMIT
    case DoneSpawning => s.main == Spawning && s.next == |s.workers|
    case ReadOk(t, _) => t < |s.workers| && s.workers[t] == Reading
    case ReadFailed(t) => t < |s.workers| && s.workers[t] == Reading
    case Handover(t) => t < |s.workers| && s.workers[t].Sending? && s.collector == Receiving && !s.closed
    case Append => s.collector.Appending?
    case Release(t) => t < |s.workers| && s.workers[t] == Leaving
    case WaitDone => s.main == Draining && forall t :: 0 <= t < |s.workers| ==> s.workers[t] == Gone
    case Close => s.main == Closing
    case CollectorExit => s.closed && s.collector == Receiving
    case Join => s.main == Joining && s.collector == Exited
  }

  function Apply(s: State, step: Step): State
    requires Enabled(s, step) && |s.batches| == |s.workers|
    requires step.Spawn? ==> s.next < |s.workers|
  {
    match step
    case Spawn => s.(workers := s.workers[s.next := Reading], next := s.next + 1)
    case DoneSpawning => s.(main := Draining)
    case ReadOk(t, vs) => s.(workers := s.workers[t := Sending(vs)], batches := s.batches[t := vs])
    case ReadFailed(t) =>
      s.(workers := s.workers[t := Sending([Placeholder(t)])], batches := s.batches[t := [Placeholder(t)]])
    case Handover(t) =>
      s.(workers := s.workers[t := Leaving], collector := Appending(s.workers[t].batch), order := s.order + [t])
    case Append => s.(ret := s.ret + s.collector.batch, collector := Receiving)
    case Release(t) => s.(workers := s.workers[t := Gone])
    case WaitDone => s.(main := Closing)
    case Close => s.(closed := true, main := Joining)
    case CollectorExit => s.(collector := Exited)
    case Join => s.(main := Returned)
  }

  /** Batches in the order they were received. */
  function Collected(batches: seq<seq<Value>>, order: seq<nat>): seq<Value>
    requires forall i :: 0 <= i < |order| ==> order[i] < |batches|
  {
    if order == [] then []
    else Collected(batches, order[..|order| - 1]) + batches[order[|order| - 1]]
  }

  predicate Sent(w: Worker) {
    w.Leaving? || w.Gone?
  }

  ghost predicate Started(s: State) {
    && |s.batches| == |s.workers| && s.next <= |s.workers|
    && CountActive(s.workers) <= LIMIT
    && (forall t :: s.next <= t < |s.workers| ==> s.workers[t] == Waiting)
    && (forall t :: 0 <= t < s.next ==> s.workers[t] != Waiting)
    // what a sender holds is what its task came back with
    && (forall t :: 0 <= t < |s.workers| && s.workers[t].Sending? ==> s.workers[t].batch == s.batches[t])
  }

  /** A task has been received once if its worker has sent, and not otherwise. */
  ghost predicate Received(s: State) {
    && Distinct(s.order)
    && (forall i :: 0 <= i < |s.order| ==> s.order[i] < |s.workers|)
    && (forall t :: 0 <= t < |s.workers| ==> (t in s.order <==> Sent(s.workers[t])))
  }

  /** The slice holds the received batches, but for the one being appended. */
  ghost predicate Filled(s: State) {
    && (forall i :: 0 <= i < |s.order| ==> s.order[i] < |s.batches|)
    && match s.collector
       case Appending(batch) => s.ret + batch == Collected(s.batches, s.order)
       case _ => s.ret == Collected(s.batches, s.order)
  }

  ghost predicate InPhase(s: State) {
    && (s.main != Spawning ==> s.next == |s.workers|)
    && (s.main == Closing || s.main == Joining || s.main == Returned ==>
          forall t :: 0 <= t < |s.workers| ==> s.workers[t] == Gone)
    && (s.closed <==> s.main == Joining || s.main == Returned)
    && (s.collector == Exited ==> s.closed)
    && (s.main == Returned ==> s.collector == Exited)
  }

  ghost predicate Inv(s: State) {
    Started(s) && Received(s) && Filled(s) && InPhase(s)
  }

  // ----- the invariant holds on every run

  lemma {:induction false} CountAll(ws: seq<Worker>)
    ensures (forall t :: 0 <= t < |ws| ==> !Active(ws[t])) ==> CountActive(ws) == 0
    ensures CountActive(ws) == 0 ==> forall t :: 0 <= t < |ws| ==> !Active(ws[t])
  {
    if ws != [] {
      CountAll(ws[1..]);
      forall t | 0 < t < |ws| && CountActive(ws) == 0 ensures !Active(ws[t]) {
        assert ws[1..][t - 1] == ws[t];
      }
    }
  }

  lemma {:induction false} CountUpdate(ws: seq<Worker>, t: nat, w: Worker)
    requires t < |ws|
    ensures CountActive(ws[t := w]) + (if Active(ws[t]) then 1 else 0) == CountActive(ws) + (if Active(w) then 1 else 0)
  {
    if t > 0 {
      assert ws[t := w][1..] == ws[1..][t - 1 := w];
      CountUpdate(ws[1..], t - 1, w);
    } else {
      assert ws[t := w][1..] == ws[1..];
    }
  }

  lemma {:induction false} CollectedExtends(batches: seq<seq<Value>>, order: seq<nat>, t: nat)
    requires t < |batches| && forall i :: 0 <= i < |order| ==> order[i] < |batches|
    ensures Collected(batches, order + [t]) == Collected(batches, order) + batches[t]
  {
    assert (order + [t])[..|order|] == order;
  }

  /** Recording a batch does not disturb what was collected before. */
  lemma {:induction false} CollectedFrame(batches: seq<seq<Value>>, order: seq<nat>, t: nat, b: seq<Value>)
    requires t < |batches| && t !in order && forall i :: 0 <= i < |order| ==> order[i] < |batches|
    ensures Collected(batches[t := b], order) == Collected(batches, order)
  {
    if order != [] {
      assert order[|order| - 1] in order;
      CollectedFrame(batches, order[..|order| - 1], t, b);
    }
  }

  lemma {:induction false} InitialInv(n: nat)
    ensures Inv(Initial(n))
  {
    CountAll(Initial(n).workers);
  }

  lemma {:induction false} SpawnKeepsInv(s: State)
    requires Inv(s) && Enabled(s, Spawn)
    ensures Inv(Apply(s, Spawn))
  {
    CountUpdate(s.workers, s.next, Reading);
  }

  lemma {:induction false} ReadKeepsInv(s: State, t: nat, batch: seq<Value>)
    requires Inv(s) && t < |s.workers| && s.workers[t] == Reading
    ensures Inv(s.(workers := s.workers[t := Sending(batch)], batches := s.batches[t := batch]))
  {
    CountUpdate(s.workers, t, Sending(batch));
    CollectedFrame(s.batches, s.order, t, batch);
  }

  lemma {:induction false} HandoverFills(s: State, t: nat)
    requires Started(s) && Received(s) && Filled(s) && Enabled(s, Handover(t))
    ensures Received(Apply(s, Handover(t))) && Filled(Apply(s, Handover(t)))
  {
    HandoverOrder(s.order, t);
    CollectedExtends(s.batches, s.order, t);
  }

  lemma {:induction false} HandoverStarted(s: State, t: nat)
    requires Started(s) && Enabled(s, Handover(t))
    ensures Started(Apply(s, Handover(t)))
  {
    CountUpdate(s.workers, t, Leaving);
  }

  lemma {:induction false} HandoverKeepsInv(s: State, t: nat)
    requires Inv(s) && Enabled(s, Handover(t))
    ensures Inv(Apply(s, Handover(t)))
  {
    HandoverStarted(s, t);
    HandoverFills(s, t);
    assert s.workers[t] != Gone;
    assert s.next == Apply(s, Handover(t)).next;
  }

  lemma {:induction false} ReleaseKeepsInv(s: State, t: nat)
    requires Inv(s) && Enabled(s, Release(t))
    ensures Inv(Apply(s, Release(t)))
  {
    CountUpdate(s.workers, t, Gone);
  }

  lemma {:induction false} StepKeepsInv(s: State, step: Step)
    requires Inv(s) && Enabled(s, step)
    ensures Inv(Apply(s, step))
  {
    match step
    case Spawn => SpawnKeepsInv(s);
    case ReadOk(t, vs) => ReadKeepsInv(s, t, vs);
    case ReadFailed(t) => ReadKeepsInv(s, t, [Placeholder(t)]);
    case Handover(t) => HandoverKeepsInv(s, t);
    case Release(t) => ReleaseKeepsInv(s, t);
    case _ =>
  }

  lemma {:induction false} HandoverOrder(order: seq<nat>, t: nat)
    requires Distinct(order) && t !in order
    ensures Distinct(order + [t])
    ensures forall u :: u in order + [t] <==> u in order || u == t
  {
  }

  /** A run: the states passed through, by enabled steps. */
  ghost predicate IsRun(states: seq<State>, steps: seq<Step>, n: nat) {
    && |states| == |steps| + 1 && states[0] == Initial(n)
    && forall i :: 0 <= i < |steps| ==>
         Enabled(states[i], steps[i]) && |states[i].batches| == |states[i].workers|
         && states[i + 1] == Apply(states[i], steps[i])
  }

  lemma {:induction false} RunKeepsInv(states: seq<State>, steps: seq<Step>, n: nat, i: nat)
    requires IsRun(states, steps, n) && i < |states|
    ensures Inv(states[i]) && |states[i].workers| == n
    decreases i
  {
    if i == 0 {
      InitialInv(n);
    } else {
      RunKeepsInv(states, steps, n, i - 1);
      StepKeepsInv(states[i - 1], steps[i - 1]);
    }
  }

  // ----- safety

  lemma {:induction false} OneCounts(ws: seq<Worker>, a: nat)
    requires a < |ws| && Active(ws[a])
    ensures CountActive(ws) >= 1
  {
    CountAll(ws);
  }

  lemma {:induction false} TwoCount(ws: seq<Worker>, a: nat, b: nat)
    requires a < b < |ws| && Active(ws[a]) && Active(ws[b])
    ensures CountActive(ws) >= 2
  {
    if a == 0 {
      OneCounts(ws[1..], b - 1);
    } else {
      TwoCount(ws[1..], a - 1, b - 1);
    }
  }

  lemma {:induction false} ThreeCount(ws: seq<Worker>, a: nat, b: nat, c: nat)
    requires a < b < c < |ws| && Active(ws[a]) && Active(ws[b]) && Active(ws[c])
    ensures CountActive(ws) >= 3
  {
    if a == 0 {
      TwoCount(ws[1..], b - 1, c - 1);
    } else {
      ThreeCount(ws[1..], a - 1, b - 1, c - 1);
    }
  }

  /** On every run, no three tasks are active at a time, and nothing is sent or waits to be sent on the
      closed channel. */
  lemma {:induction false} RunSafe(states: seq<State>, steps: seq<Step>, n: nat, i: nat)
    requires IsRun(states, steps, n) && i < |states|
    ensures var ws := states[i].workers;
            forall a, b, c :: 0 <= a < b < c < |ws| ==> !(Active(ws[a]) && Active(ws[b]) && Active(ws[c]))
    ensures states[i].closed ==> forall t :: 0 <= t < |states[i].workers| ==> !states[i].workers[t].Sending?
  {
    RunKeepsInv(states, steps, n, i);
    var ws := states[i].workers;
    forall a, b, c | 0 <= a < b < c < |ws| ensures !(Active(ws[a]) && Active(ws[b]) && Active(ws[c])) {
      if Active(ws[a]) && Active(ws[b]) && Active(ws[c]) {
        ThreeCount(ws, a, b, c);
      }
    }
  }

  /** Two tasks may be active at a time: as soon as there are two, both can be started. */
  lemma {:induction false} TwoAtATime(n: nat) returns (states: seq<State>)
    requires n >= 2
    ensures IsRun(states, [Spawn, Spawn], n) && |states| == 3 && |states[2].workers| == n
    ensures states[2].workers[0].Reading? && states[2].workers[1].Reading?
  {
    var s := Initial(n);
    InitialInv(n);
    CountAll(s.workers);
    assert Enabled(s, Spawn);
    var t := Apply(s, Spawn);
    CountUpdate(s.workers, 0, Reading);
    assert Enabled(t, Spawn);
    states := [s, t, Apply(t, Spawn)];
  }

  // ----- progress

  /** Unless the function has returned, some step is enabled: no interleaving deadlocks. */
  lemma {:induction false} NoDeadlock(s: State) returns (step: Step)
    requires Inv(s) && s.main != Returned
    ensures Enabled(s, step)
  {
    if s.collector.Appending? {
      return Append;
    }
    if t :| 0 <= t < |s.workers| && s.workers[t] == Reading {
      return ReadFailed(t);
    }
    if t :| 0 <= t < |s.workers| && s.workers[t] == Leaving {
      return Release(t);
    }
    if t :| 0 <= t < |s.workers| && s.workers[t].Sending? {
      return Handover(t);
    }
    CountAll(s.workers);
    match s.main
    case Spawning => return if s.next < |s.workers| then Spawn else DoneSpawning;
    case Draining => return WaitDone;
    case Closing => return Close;
    case Joining => return if s.collector == Exited then Join else CollectorExit;
  }

  function WorkLeft(w: Worker): nat {
    match w
    case Waiting => 5
    case Reading => 4
    case Sending(_) => 3
    case Leaving => 1
    case Gone => 0
  }

  function SumLeft(ws: seq<Worker>): nat {
    if ws == [] then 0 else WorkLeft(ws[0]) + SumLeft(ws[1..])
  }

  function MainLeft(m: Main): nat {
    match m
    case Spawning => 4
    case Draining => 3
    case Closing => 2
    case Joining => 1
    case Returned => 0
  }

  function Measure(s: State): nat {
    SumLeft(s.workers) + MainLeft(s.main)
    + (match s.collector case Appending(_) => 2 case Receiving => 1 case Exited => 0)
  }

  lemma {:induction false} SumUpdate(ws: seq<Worker>, t: nat, w: Worker)
    requires t < |ws|
    ensures SumLeft(ws[t := w]) + WorkLeft(ws[t]) == SumLeft(ws) + WorkLeft(w)
  {
    if t > 0 {
      assert ws[t := w][1..] == ws[1..][t - 1 := w];
      SumUpdate(ws[1..], t - 1, w);
    } else {
      assert ws[t := w][1..] == ws[1..];
    }
  }

  /** Every step lowers the measure, so every run is finite. */
  lemma {:induction false} StepLowers(s: State, step: Step)
    requires Inv(s) && Enabled(s, step)
    ensures Measure(Apply(s, step)) < Measure(s)
  {
    match step
    case Spawn => SumUpdate(s.workers, s.next, Reading);
    case ReadOk(t, vs) => ReadLowers(s, step, t, vs);
    case ReadFailed(t) => ReadLowers(s, step, t, [Placeholder(t)]);
    case Handover(t) => SumUpdate(s.workers, t, Leaving);
    case Release(t) => SumUpdate(s.workers, t, Gone);
    case _ =>
  }

  lemma {:induction false} ReadLowers(s: State, step: Step, t: nat, vs: seq<Value>)
    requires Inv(s) && Enabled(s, step) && (step == ReadOk(t, vs) || (step == ReadFailed(t) && vs == [Placeholder(t)]))
    ensures Measure(Apply(s, step)) < Measure(s)
  {
    SumUpdate(s.workers, t, Sending(vs));
  }

  lemma {:induction false} RunBounded(states: seq<State>, steps: seq<Step>, n: nat, i: nat)
    requires IsRun(states, steps, n) && i < |states|
    ensures i + Measure(states[i]) <= 5 * n + 5
    decreases i
  {
    if i == 0 {
      InitialMeasure(n);
    } else {
      RunBounded(states, steps, n, i - 1);
      RunKeepsInv(states, steps, n, i - 1);
      StepLowers(states[i - 1], steps[i - 1]);
    }
  }

  lemma {:induction false} InitialMeasure(n: nat)
    ensures SumLeft(Initial(n).workers) == 5 * n
  {
    if n > 0 {
      assert Initial(n).workers[1..] == Initial(n - 1).workers;
      InitialMeasure(n - 1);
    }
  }

  // ----- conservation

  /** When the function returns, its result is the batches of all tasks, each exactly once, in the
      order in which they were received: `order` is a permutation of the tasks. */
  lemma {:induction false} Conservation(states: seq<State>, steps: seq<Step>, n: nat)
    requires IsRun(states, steps, n) && states[|steps|].main == Returned
    ensures var s := states[|steps|];
            && |s.batches| == n
            && Distinct(s.order)
            && (forall t: nat :: t < n <==> t in s.order)
            && (forall i :: 0 <= i < |s.order| ==> s.order[i] < n)
            && Concatenated(s.batches, s.order, s.ret)
  {
    RunKeepsInv(states, steps, n, |steps|);
    var s := states[|steps|];
    CollectedConcatenates(s.batches, s.order);
  }

  /** Value k of the i-th batch in the order stands behind all values of the batches before; there are no
      other values. */
  ghost predicate Concatenated(batches: seq<seq<Value>>, order: seq<nat>, ret: seq<Value>)
    requires forall j :: 0 <= j < |order| ==> order[j] < |batches|
  {
    && |ret| == Before(batches, order, |order|)
    && forall i, k :: 0 <= i < |order| && 0 <= k < |batches[order[i]]| ==>
         ResultAt(ret, Before(batches, order, i) + k, batches[order[i]][k])
  }

  lemma {:induction false} CollectedConcatenates(batches: seq<seq<Value>>, order: seq<nat>)
    requires forall j :: 0 <= j < |order| ==> order[j] < |batches|
    ensures Concatenated(batches, order, Collected(batches, order))
  {
    CollectedLength(batches, order);
    forall i, k | 0 <= i < |order| && 0 <= k < |batches[order[i]]|
      ensures ResultAt(Collected(batches, order), Before(batches, order, i) + k, batches[order[i]][k])
    {
      CollectedAt(batches, order, i, k);
    }
  }

  predicate ResultAt(ret: seq<Value>, i: nat, v: Value) {
    i < |ret| && ret[i] == v
  }

  /** How many values the first i batches in the order hold. */
  function Before(batches: seq<seq<Value>>, order: seq<nat>, i: nat): nat
    requires i <= |order| && forall j :: 0 <= j < |order| ==> order[j] < |batches|
  {
    if i == 0 then 0 else Before(batches, order, i - 1) + |batches[order[i - 1]]|
  }

  lemma {:induction false} BeforePrefix(batches: seq<seq<Value>>, order: seq<nat>, n: nat, i: nat)
    requires i <= n <= |order| && forall j :: 0 <= j < |order| ==> order[j] < |batches|
    ensures Before(batches, order[..n], i) == Before(batches, order, i)
  {
    if i > 0 {
      BeforePrefix(batches, order, n, i - 1);
    }
  }

  lemma {:induction false} CollectedLength(batches: seq<seq<Value>>, order: seq<nat>)
    requires forall j :: 0 <= j < |order| ==> order[j] < |batches|
    ensures |Collected(batches, order)| == Before(batches, order, |order|)
  {
    if order != [] {
      var n := |order| - 1;
      CollectedLength(batches, order[..n]);
      BeforePrefix(batches, order, n, n);
    }
  }

  lemma {:induction false} CollectedAt(batches: seq<seq<Value>>, order: seq<nat>, i: nat, k: nat)
    requires forall j :: 0 <= j < |order| ==> order[j] < |batches|
    requires i < |order| && k < |batches[order[i]]|
    ensures ResultAt(Collected(batches, order), Before(batches, order, i) + k, batches[order[i]][k])
  {
    var n := |order| - 1;
    CollectedLength(batches, order[..n]);
    BeforePrefix(batches, order, n, i);
    if i < n {
      CollectedAt(batches, order[..n], i, k);
      assert order[..n][i] == order[i];
    }
  }

  /** The step that determines a task's batch. */
  predicate Delivers(step: Step, t: nat, batch: seq<Value>) {
    (step == ReadFailed(t) && batch == [Placeholder(t)]) || step == ReadOk(t, batch)
  }

  predicate HasBatch(w: Worker) {
    Sent(w) || w.Sending?
  }

  lemma {:induction false} BatchStep(s: State, step: Step, t: nat)
    requires Inv(s) && Enabled(s, step) && t < |s.workers| && HasBatch(Apply(s, step).workers[t])
    ensures Delivers(step, t, Apply(s, step).batches[t])
         || (HasBatch(s.workers[t]) && Apply(s, step).batches[t] == s.batches[t])
  {
  }

  /** A task's batch is what a read of it came back with: its values, or one placeholder if it failed. */
  lemma {:induction false} BatchRecorded(states: seq<State>, steps: seq<Step>, n: nat, i: nat, t: nat) returns (j: nat)
    requires IsRun(states, steps, n) && i < |states| && t < n
    requires |states[i].workers| == |states[i].batches| == n && HasBatch(states[i].workers[t])
    ensures j < i && Delivers(steps[j], t, states[i].batches[t])
    decreases i
  {
    RunKeepsInv(states, steps, n, 0);
    RunKeepsInv(states, steps, n, i);
    assert i > 0 by {
      assert !HasBatch(Initial(n).workers[t]);
    }
    RunKeepsInv(states, steps, n, i - 1);
    BatchStep(states[i - 1], steps[i - 1], t);
    if Delivers(steps[i - 1], t, states[i].batches[t]) {
      j := i - 1;
    } else {
      j := BatchRecorded(states, steps, n, i - 1, t);
    }
  }
}
