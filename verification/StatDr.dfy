/** PickAndEnableStatDRBRCB: tries the candidates one after another against a server that may answer
    anything, and keeps the first report control block it manages to enable. */
module StatDr {
  import opened Text

  datatype Rcb = Rcb(datSet: string, ena: bool)

  datatype TrgOps = TrgOps(dataChange: bool, periodic: bool, gi: bool)

  /** The server's answer to one request.  A read that succeeds may still come without a value. */
  datatype Reply = Reply(ok: bool, rcb: Option<Rcb>)

  /** Requests in the order they are sent, each with the answer it got. */
  datatype Event =
    | Read(ref: string, reply: Reply)
    | SetEna(ref: string, value: bool, reply: Reply)
    | SetTrgOps(ref: string, ops: TrgOps, reply: Reply)
    | SetBufTm(ref: string, bufTm: nat, reply: Reply)
    | SetGi(ref: string, gi: bool, reply: Reply)

  function Normalised(s: string): string {
    if s == "" then "" else [if s[0] == '$' then '.' else s[0]] + Normalised(s[1..])
  }

  predicate SameDataSet(a: string, b: string) {
    Normalised(a) == Normalised(b)
  }

  lemma {:induction false} NormalisedAt(s: string)
    ensures |Normalised(s)| == |s|
    ensures forall i :: 0 <= i < |s| ==> Normalised(s)[i] == if s[i] == '$' then '.' else s[i]
  {
    if s != "" {
      NormalisedAt(s[1..]);
    }
  }

  /** Data set references are the same exactly if they agree but for '$' against '.'. */
  lemma {:induction false} SameDataSetIs(a: string, b: string)
    ensures SameDataSet(a, b)
       <==> |a| == |b| && forall i :: 0 <= i < |a| ==> a[i] == b[i] || (a[i] in {'$', '.'} && b[i] in {'$', '.'})
  {
    NormalisedAt(a);
    NormalisedAt(b);
    if SameDataSet(a, b) {
      forall i | 0 <= i < |a| ensures a[i] == b[i] || (a[i] in {'$', '.'} && b[i] in {'$', '.'}) {
        assert Normalised(a)[i] == Normalised(b)[i];
      }
    }
  }

  /** What the server answers to its n-th request. */
  type Server = nat -> Reply

  predicate Usable(r: Reply) {
    r.ok && r.rcb.Some?
  }

  /** The requests sent for one candidate, the first of them the at-th overall.  Setting trigger
      options, buffer time and general interrogation may fail without consequence. */
  function Attempt(server: Server, ref: string, ds: string, at: nat): seq<Event> {
    var first := server(at);
    [Read(ref, first)]
    + if !Usable(first) || !SameDataSet(first.rcb.value.datSet, ds) then []
      else Engage(server, ref, first.rcb.value.ena, at + 1)
  }

  /** A block that is free is configured at once, one that is enabled if it can be taken over. */
  function Engage(server: Server, ref: string, ena: bool, at: nat): seq<Event> {
    if !ena then Configure(server, ref, at)
    else
      var taken := TakeOver(server, ref, at);
      taken + if Freed(taken) then Configure(server, ref, at + 2) else []
  }

  /** A block that is enabled is disabled first, and read again. */
  function TakeOver(server: Server, ref: string, at: nat): seq<Event> {
    [SetEna(ref, false, server(at))] + if server(at).ok then [Read(ref, server(at + 1))] else []
  }

  predicate Freed(taken: seq<Event>) {
    |taken| == 2 && Usable(taken[1].reply) && !taken[1].reply.rcb.value.ena
  }

  function Configure(server: Server, ref: string, at: nat): seq<Event> {
    [SetTrgOps(ref, TrgOps(true, false, true), server(at)), SetBufTm(ref, 50, server(at + 1)),
     SetGi(ref, true, server(at + 2)), SetEna(ref, true, server(at + 3))]
  }

  predicate Enables(e: Event) {
    e.SetEna? && e.value && e.reply.ok
  }

  predicate Succeeded(es: seq<Event>) {
    es != [] && Enables(es[|es| - 1])
  }

  const PREFIX := "rcbStatDR"

  function RefOf(lnRef: string, name: string): string {
    lnRef + ".BR." + name
  }

  datatype Outcome = Outcome(events: seq<Event>, picked: Option<string>)

  lemma {:induction false} SucceededAfter(e: Event, es: seq<Event>)
    requires !Enables(e)
    ensures Succeeded([e] + es) <==> Succeeded(es)
  {
    assert es != [] ==> ([e] + es)[|es|] == es[|es| - 1];
  }

  /** The requests sent for a candidate, by its reference and the number of requests sent before. */
  type Attempts = (string, nat) -> seq<Event>

  function AttemptsOn(server: Server, ds: string): Attempts {
    (ref: string, at: nat) => Attempt(server, ref, ds, at)
  }

  /** All candidates in directory order until one is enabled. */
  function TryAll(run: Attempts, lnRef: string, names: seq<string>, at: nat): Outcome
    decreases |names|
  {
    if names == [] then Outcome([], None)
    else if !HasPrefix(names[0], PREFIX) then TryAll(run, lnRef, names[1..], at)
    else
      var es := run(RefOf(lnRef, names[0]), at);
      if Succeeded(es) then Outcome(es, Some(RefOf(lnRef, names[0])))
      else
        var rest := TryAll(run, lnRef, names[1..], at + |es|);
        Outcome(es + rest.events, rest.picked)
  }

  /** The connection: each request gets the server's next answer and is recorded. */
  class Client {
    const server: Server
    var log: seq<Event>

    constructor (server: Server)
      ensures this.server == server && log == []
    {
      this.server, log := server, [];
    }

    method GetRCBValues(ref: string) returns (r: Reply)
      modifies this
      ensures r == server(|old(log)|) && log == old(log) + [Read(ref, r)]
    {
      r := server(|log|);
      log := log + [Read(ref, r)];
    }

    method SetRptEna(ref: string, value: bool) returns (ok: bool)
      modifies this
      ensures ok == server(|old(log)|).ok && log == old(log) + [SetEna(ref, value, server(|old(log)|))]
    {
      ok := server(|log|).ok;
      log := log + [SetEna(ref, value, server(|log|))];
    }

    method Set(ref: string)
      modifies this
      ensures log == old(log) + [SetTrgOps(ref, TrgOps(true, false, true), server(|old(log)|)),
                                 SetBufTm(ref, 50, server(|old(log)| + 1)), SetGi(ref, true, server(|old(log)| + 2))]
    {
      log := log + [SetTrgOps(ref, TrgOps(true, false, true), server(|log|))];
      log := log + [SetBufTm(ref, 50, server(|log|))];
      log := log + [SetGi(ref, true, server(|log|))];
    }

    method Disable(ref: string) returns (free: bool)
      modifies this
      ensures log == old(log) + TakeOver(server, ref, |old(log)|)
      ensures free == Freed(TakeOver(server, ref, |old(log)|))
    {
      var ok := SetRptEna(ref, false);
      if !ok {
        return false;
      }
      var r := GetRCBValues(ref);
      return r.ok && r.rcb.Some? && !r.rcb.value.ena;
    }

    method Enable(ref: string) returns (ok: bool)
      modifies this
      ensures log == old(log) + Configure(server, ref, |old(log)|)
      ensures ok == Succeeded(Configure(server, ref, |old(log)|))
    {
      Set(ref);
      ok := SetRptEna(ref, true);
    }

    method TryCandidate(ref: string, datasetRef: string) returns (enabled: bool)
      modifies this
      ensures log == old(log) + Attempt(server, ref, datasetRef, |old(log)|)
      ensures enabled == Succeeded(Attempt(server, ref, datasetRef, |old(log)|))
    {
      var r := GetRCBValues(ref);
      if !r.ok || r.rcb.None? {
        return false;
      }
      if !SameDataSet(r.rcb.value.datSet, datasetRef) {
        return false;
      }
      enabled := TakeAndEnable(ref, r.rcb.value.ena);
      ghost var sent := Engage(server, ref, r.rcb.value.ena, |old(log)| + 1);
      Assoc(old(log), [Read(ref, r)], sent);
      SucceededAfter(Read(ref, r), sent);
    }

    method TakeAndEnable(ref: string, ena: bool) returns (enabled: bool)
      modifies this
      ensures log == old(log) + Engage(server, ref, ena, |old(log)|)
      ensures enabled == Succeeded(Engage(server, ref, ena, |old(log)|))
    {
      ghost var taken := TakeOver(server, ref, |log|);
      if ena {
        var free := Disable(ref);
        if !free {
          assert taken + [] == taken;
          return false;
        }
      }
      ghost var sent := Configure(server, ref, |log|);
      enabled := Enable(ref);
      Assoc(old(log), taken, sent);
    }

    /** `directory` is the logical node's list of buffered report control blocks, if it could be read. */
    method PickAndEnableStatDRBRCB(ld: string, ln: string, directory: Option<seq<string>>, datasetRef: string)
      returns (picked: Option<string>)
      modifies this
      ensures var o := TryAll(AttemptsOn(server, datasetRef), ld + "/" + ln, directory.GetOr([]), |old(log)|);
              picked == o.picked && log == old(log) + o.events
    {
      if directory.None? {
        return None;
      }
      var lnRef, names := ld + "/" + ln, directory.value;
      ghost var run := AttemptsOn(server, datasetRef);
      for i := 0 to |names|
        invariant Finish(run, lnRef, names[i..], log) == Finish(run, lnRef, names, old(log))
      {
        FinishFirst(run, lnRef, names[i..], log);
        assert names[i..][1..] == names[i + 1..];
        if !HasPrefix(names[i], PREFIX) {
          continue;
        }
        var enabled := TryCandidate(RefOf(lnRef, names[i]), datasetRef);
        if enabled {
          return Some(RefOf(lnRef, names[i]));
        }
      }
      assert names[|names|..] == [] && log + [] == log;
      return None;
    }
  }

  /** What the log and the result are going to be. */
  function Finish(run: Attempts, lnRef: string, names: seq<string>, log: seq<Event>): Outcome {
    var o := TryAll(run, lnRef, names, |log|);
    Outcome(log + o.events, o.picked)
  }

  lemma {:induction false} FinishFirst(run: Attempts, lnRef: string, names: seq<string>, log: seq<Event>)
    requires names != []
    ensures !HasPrefix(names[0], PREFIX) ==> Finish(run, lnRef, names, log) == Finish(run, lnRef, names[1..], log)
    ensures HasPrefix(names[0], PREFIX) ==>
              var ref := RefOf(lnRef, names[0]);
              var es := run(ref, |log|);
              Finish(run, lnRef, names, log)
              == if Succeeded(es) then Outcome(log + es, Some(ref)) else Finish(run, lnRef, names[1..], log + es)
  {
    if HasPrefix(names[0], PREFIX) {
      var es := run(RefOf(lnRef, names[0]), |log|);
      Assoc(log, es, TryAll(run, lnRef, names[1..], |log + es|).events);
    }
  }

  // ----- safety, for every server

  predicate Write(e: Event) {
    !e.Read?
  }

  /** Index of the last read before position k of the same block. */
  function LastRead(es: seq<Event>, ref: string, k: nat): (r: Option<nat>)
    requires k <= |es|
    ensures r.Some? ==> r.value < k && es[r.value].Read? && es[r.value].ref == ref
                        && forall j :: r.value < j < k ==> !(es[j].Read? && es[j].ref == ref)
    ensures r.None? ==> forall j :: 0 <= j < k ==> !(es[j].Read? && es[j].ref == ref)
  {
    if k == 0 then None
    else if es[k - 1].Read? && es[k - 1].ref == ref then Some(k - 1)
    else LastRead(es, ref, k - 1)
  }

  predicate Candidate(lnRef: string, names: seq<string>, ref: string) {
    exists name :: name in names && HasPrefix(name, PREFIX) && ref == RefOf(lnRef, name)
  }

  /** Request k is justified by what was read before: a write goes to a candidate whose data set was
      read and is the requested one; an attempt to enable, only after the latest read of that block
      showed it disabled. */
  ghost predicate Justified(es: seq<Event>, ds: string, k: nat)
    requires k < |es|
  {
    var e := es[k];
    && (Write(e) ==>
          exists j :: 0 <= j < k && es[j].Read? && es[j].ref == e.ref && Usable(es[j].reply)
                      && SameDataSet(es[j].reply.rcb.value.datSet, ds))
    && (e.SetEna? && e.value ==>
          var r := LastRead(es, e.ref, k);
          r.Some? && Usable(es[r.value].reply) && !es[r.value].reply.rcb.value.ena)
  }

  lemma {:induction false} AttemptShape(server: Server, ref: string, ds: string, at: nat, k: nat)
    requires k < |Attempt(server, ref, ds, at)|
    ensures var es := Attempt(server, ref, ds, at);
            && es[k].ref == ref && (Enables(es[k]) ==> k == |es| - 1)
            && es[0] == Read(ref, server(at))
            && (|es| > 1 ==> Usable(server(at)) && SameDataSet(server(at).rcb.value.datSet, ds))
            && (k > 0 && es[k].Read? ==> k == 2)
            && (k > 0 && es[k].SetEna? && es[k].value ==> k == 4 || k == 6)
  {
  }

  lemma {:induction false} AttemptEnables(server: Server, ref: string, ds: string, at: nat, k: nat)
    requires var es := Attempt(server, ref, ds, at); k < |es| && es[k].SetEna? && es[k].value
    ensures k == 4 || k == 6
    ensures var es, r := Attempt(server, ref, ds, at), if k == 4 then 0 else 2;
            && es[r].Read? && es[r].ref == ref && Usable(es[r].reply) && !es[r].reply.rcb.value.ena
            && forall j :: r < j < k ==> !es[j].Read?
  {
  }

  lemma {:induction false} AttemptJustified(server: Server, ref: string, ds: string, at: nat, k: nat)
    requires k < |Attempt(server, ref, ds, at)|
    ensures Justified(Attempt(server, ref, ds, at), ds, k)
    ensures Attempt(server, ref, ds, at)[k].ref == ref
    ensures Enables(Attempt(server, ref, ds, at)[k]) ==> k == |Attempt(server, ref, ds, at)| - 1
  {
    AttemptShape(server, ref, ds, at, k);
    if Attempt(server, ref, ds, at)[k].SetEna? && Attempt(server, ref, ds, at)[k].value {
      AttemptEnables(server, ref, ds, at, k);
    }
  }

  /** Events of a later candidate may follow, and of an earlier one precede, without unjustifying. */
  lemma {:induction false} JustifiedAfter(before: seq<Event>, es: seq<Event>, ds: string, k: nat)
    requires k < |es| && Justified(es, ds, k)
    ensures Justified(before + es, ds, |before| + k)
  {
    var all, n := before + es, |before|;
    assert all[n + k] == es[k];
    if Write(es[k]) {
      var j :| 0 <= j < k && es[j].Read? && es[j].ref == es[k].ref && Usable(es[j].reply)
               && SameDataSet(es[j].reply.rcb.value.datSet, ds);
      assert all[n + j] == es[j];
    }
    if es[k].SetEna? && es[k].value {
      LastReadAfter(before, es, es[k].ref, k);
    }
  }

  lemma {:induction false} LastReadAfter(before: seq<Event>, es: seq<Event>, ref: string, k: nat)
    requires k <= |es| && LastRead(es, ref, k).Some?
    ensures LastRead(before + es, ref, |before| + k) == Some(|before| + LastRead(es, ref, k).value)
  {
    assert (before + es)[|before| + k - 1] == es[k - 1];
    if !(es[k - 1].Read? && es[k - 1].ref == ref) {
      LastReadAfter(before, es, ref, k - 1);
    }
  }

  lemma {:induction false} JustifiedBefore(es: seq<Event>, after: seq<Event>, ds: string, k: nat)
    requires k < |es| && Justified(es, ds, k)
    ensures Justified(es + after, ds, k)
  {
    var all := es + after;
    assert all[k] == es[k];
    if Write(es[k]) {
      var j :| 0 <= j < k && es[j].Read? && es[j].ref == es[k].ref && Usable(es[j].reply)
               && SameDataSet(es[j].reply.rcb.value.datSet, ds);
      assert all[j] == es[j];
    }
    LastReadPrefix(es, after, es[k].ref, k);
  }

  lemma {:induction false} LastReadPrefix(es: seq<Event>, after: seq<Event>, ref: string, k: nat)
    requires k <= |es|
    ensures LastRead(es + after, ref, k) == LastRead(es, ref, k)
  {
    if k > 0 {
      LastReadPrefix(es, after, ref, k - 1);
    }
  }

  lemma {:induction false} SafeJoin(es: seq<Event>, rest: seq<Event>, ds: string)
    requires forall k :: 0 <= k < |es| ==> Justified(es, ds, k)
    requires forall k :: 0 <= k < |rest| ==> Justified(rest, ds, k)
    ensures forall k :: 0 <= k < |es + rest| ==> Justified(es + rest, ds, k)
  {
    forall k | 0 <= k < |es + rest| ensures Justified(es + rest, ds, k) {
      if k < |es| {
        JustifiedBefore(es, rest, ds, k);
      } else {
        JustifiedAfter(es, rest, ds, k - |es|);
      }
    }
  }

  /** Every request goes to a candidate and is justified; if a block is returned, its enabling is the
      last request and the only one that enabled anything; if none is returned, nothing was enabled. */
  ghost predicate SafeOutcome(o: Outcome, lnRef: string, names: seq<string>, ds: string) {
    var es := o.events;
    && (forall k :: 0 <= k < |es| ==> Justified(es, ds, k))
    && (forall k :: 0 <= k < |es| ==> Candidate(lnRef, names, es[k].ref))
    && (o.picked.Some? ==> Succeeded(es) && es[|es| - 1].ref == o.picked.value)
    && (forall k :: 0 <= k < |es| && Enables(es[k]) ==> o.picked.Some? && k == |es| - 1)
  }

  /** What safety needs of one attempt. */
  ghost predicate SafeTry(es: seq<Event>, ref: string, ds: string) {
    forall k :: 0 <= k < |es| ==>
      Justified(es, ds, k) && es[k].ref == ref && (Enables(es[k]) ==> k == |es| - 1)
  }

  lemma {:induction false} AttemptSafe(server: Server, ref: string, ds: string, at: nat)
    ensures SafeTry(Attempt(server, ref, ds, at), ref, ds)
  {
    forall k | 0 <= k < |Attempt(server, ref, ds, at)|
      ensures Justified(Attempt(server, ref, ds, at), ds, k) && Attempt(server, ref, ds, at)[k].ref == ref
      ensures Enables(Attempt(server, ref, ds, at)[k]) ==> k == |Attempt(server, ref, ds, at)| - 1
    {
      AttemptJustified(server, ref, ds, at, k);
    }
  }

  lemma {:induction false} SafeOne(es: seq<Event>, ref: string, lnRef: string, names: seq<string>, name: string,
                                   ds: string)
    requires SafeTry(es, ref, ds) && name in names && HasPrefix(name, PREFIX) && ref == RefOf(lnRef, name)
    ensures SafeOutcome(Outcome(es, if Succeeded(es) then Some(ref) else None), lnRef, names, ds)
  {
    assert Candidate(lnRef, names, ref);
  }

  lemma {:induction false} SafeWiden(o: Outcome, lnRef: string, names: seq<string>, ds: string)
    requires names != [] && SafeOutcome(o, lnRef, names[1..], ds)
    ensures SafeOutcome(o, lnRef, names, ds)
  {
    forall k | 0 <= k < |o.events| ensures Candidate(lnRef, names, o.events[k].ref) {
      assert Candidate(lnRef, names[1..], o.events[k].ref);
    }
  }

  lemma {:induction false} SafeAfter(es: seq<Event>, o: Outcome, lnRef: string, names: seq<string>, ds: string)
    requires SafeOutcome(Outcome(es, None), lnRef, names, ds) && SafeOutcome(o, lnRef, names, ds)
    ensures SafeOutcome(Outcome(es + o.events, o.picked), lnRef, names, ds)
  {
    SafeJoin(es, o.events, ds);
    var all := es + o.events;
    forall k | 0 <= k < |all|
      ensures Candidate(lnRef, names, all[k].ref) && (Enables(all[k]) ==> o.picked.Some? && k == |all| - 1)
    {
      if k < |es| {
        assert all[k] == es[k];
      } else {
        assert all[k] == o.events[k - |es|];
      }
    }
  }

  lemma {:induction false} SafeRetried(es: seq<Event>, rest: Outcome, lnRef: string, names: seq<string>, ds: string)
    requires names != [] && SafeOutcome(Outcome(es, None), lnRef, names, ds) && SafeOutcome(rest, lnRef, names[1..], ds)
    ensures SafeOutcome(Outcome(es + rest.events, rest.picked), lnRef, names, ds)
  {
    SafeWiden(rest, lnRef, names, ds);
    SafeAfter(es, rest, lnRef, names, ds);
  }

  lemma {:induction false} SafeSkip(run: Attempts, lnRef: string, names: seq<string>, ds: string, at: nat)
    requires names != [] && !HasPrefix(names[0], PREFIX)
    requires SafeOutcome(TryAll(run, lnRef, names[1..], at), lnRef, names[1..], ds)
    ensures SafeOutcome(TryAll(run, lnRef, names, at), lnRef, names, ds)
  {
    SafeWiden(TryAll(run, lnRef, names[1..], at), lnRef, names, ds);
  }

  /** The outcome after an attempt on the first candidate and, if it failed, on the others. */
  function Tried(es: seq<Event>, ref: string, rest: Outcome): Outcome {
    if Succeeded(es) then Outcome(es, Some(ref)) else Outcome(es + rest.events, rest.picked)
  }

  lemma {:induction false} SafeTried(es: seq<Event>, ref: string, rest: Outcome, lnRef: string, names: seq<string>,
                                     ds: string)
    requires names != [] && SafeOutcome(Outcome(es, if Succeeded(es) then Some(ref) else None), lnRef, names, ds)
    requires SafeOutcome(rest, lnRef, names[1..], ds)
    ensures SafeOutcome(Tried(es, ref, rest), lnRef, names, ds)
  {
    if !Succeeded(es) {
      SafeRetried(es, rest, lnRef, names, ds);
    }
  }

  lemma {:induction false} SafeFirst(run: Attempts, lnRef: string, names: seq<string>, ds: string, at: nat)
    requires names != [] && HasPrefix(names[0], PREFIX)
    requires var ref := RefOf(lnRef, names[0]);
             && SafeTry(run(ref, at), ref, ds)
             && SafeOutcome(TryAll(run, lnRef, names[1..], at + |run(ref, at)|), lnRef, names[1..], ds)
    ensures SafeOutcome(TryAll(run, lnRef, names, at), lnRef, names, ds)
  {
    var ref := RefOf(lnRef, names[0]);
    var es := run(ref, at);
    var rest := TryAll(run, lnRef, names[1..], at + |es|);
    SafeOne(es, ref, lnRef, names, names[0], ds);
    SafeTried(es, ref, rest, lnRef, names, ds);
    assert TryAll(run, lnRef, names, at) == Tried(es, ref, rest);
  }

  lemma {:induction false} SafeRun(run: Attempts, lnRef: string, names: seq<string>, ds: string, at: nat)
    requires forall ref, n :: SafeTry(run(ref, n), ref, ds)
    ensures SafeOutcome(TryAll(run, lnRef, names, at), lnRef, names, ds)
    decreases |names|
  {
    if names == [] {
      assert TryAll(run, lnRef, names, at) == Outcome([], None);
    } else if !HasPrefix(names[0], PREFIX) {
      SafeRun(run, lnRef, names[1..], ds, at);
      SafeSkip(run, lnRef, names, ds, at);
    } else {
      SafeRun(run, lnRef, names[1..], ds, at + |run(RefOf(lnRef, names[0]), at)|);
      SafeFirst(run, lnRef, names, ds, at);
    }
  }

  /** Whatever the server answers, the outcome is safe. */
  lemma {:induction false} Safe(server: Server, lnRef: string, names: seq<string>, ds: string, at: nat)
    ensures SafeOutcome(TryAll(AttemptsOn(server, ds), lnRef, names, at), lnRef, names, ds)
  {
    forall ref, n ensures SafeTry(AttemptsOn(server, ds)(ref, n), ref, ds) {
      AttemptSafe(server, ref, ds, n);
    }
    SafeRun(AttemptsOn(server, ds), lnRef, names, ds, at);
  }

  /** How many requests have been sent when candidate i is reached; None if an earlier one succeeded. */
  function ReachedAt(run: Attempts, lnRef: string, names: seq<string>, at: nat, i: nat): Option<nat>
    requires i < |names|
    decreases i
  {
    if i == 0 then Some(at)
    else if !HasPrefix(names[0], PREFIX) then ReachedAt(run, lnRef, names[1..], at, i - 1)
    else
      var es := run(RefOf(lnRef, names[0]), at);
      if Succeeded(es) then None else ReachedAt(run, lnRef, names[1..], at + |es|, i - 1)
  }

  /** Candidate i is tried, and its attempt succeeds. */
  predicate Wins(run: Attempts, lnRef: string, names: seq<string>, at: nat, i: nat)
    requires i < |names|
  {
    var start := ReachedAt(run, lnRef, names, at, i);
    HasPrefix(names[i], PREFIX) && start.Some? && Succeeded(run(RefOf(lnRef, names[i]), start.value))
  }

  /** Past a first candidate that does not succeed, everything is decided by the others. */
  lemma {:induction false} WinsStep(run: Attempts, lnRef: string, names: seq<string>, at: nat, i: nat)
    requires 0 < i < |names|
    requires var es := run(RefOf(lnRef, names[0]), at);
             !HasPrefix(names[0], PREFIX) || !Succeeded(es)
    ensures names[1..][i - 1] == names[i]
    ensures var es := run(RefOf(lnRef, names[0]), at);
            var next := if HasPrefix(names[0], PREFIX) then at + |es| else at;
            Wins(run, lnRef, names, at, i) == Wins(run, lnRef, names[1..], next, i - 1)
  {
  }

  /** The block returned is a candidate whose attempt succeeds, no earlier candidate's having done so. */
  lemma {:induction false} PickedWins(run: Attempts, lnRef: string, names: seq<string>, at: nat) returns (i: nat)
    requires TryAll(run, lnRef, names, at).picked.Some?
    ensures i < |names| && Wins(run, lnRef, names, at, i)
    ensures TryAll(run, lnRef, names, at).picked.value == RefOf(lnRef, names[i])
    decreases |names|
  {
    var es := run(RefOf(lnRef, names[0]), at);
    if HasPrefix(names[0], PREFIX) && Succeeded(es) {
      i := 0;
    } else {
      var j := PickedWins(run, lnRef, names[1..], if HasPrefix(names[0], PREFIX) then at + |es| else at);
      i := j + 1;
      WinsStep(run, lnRef, names, at, i);
    }
  }

  /** When none is returned, no candidate's attempt succeeds. */
  lemma {:induction false} NonePicked(run: Attempts, lnRef: string, names: seq<string>, at: nat, i: nat)
    requires TryAll(run, lnRef, names, at).picked.None? && i < |names|
    ensures !Wins(run, lnRef, names, at, i)
    decreases i
  {
    var es := run(RefOf(lnRef, names[0]), at);
    assert !HasPrefix(names[0], PREFIX) || !Succeeded(es);
    if i > 0 {
      WinsStep(run, lnRef, names, at, i);
      NonePicked(run, lnRef, names[1..], if HasPrefix(names[0], PREFIX) then at + |es| else at, i - 1);
    }
  }

  // ----- exactly when a block is enabled, told from the server's answers

  /** The first read finds the requested data set; and the block is free and the fifth answer, to the
      request to enable it, is good; or it can be taken over, is then free, and the seventh answer is. */
  predicate CanEnable(server: Server, ds: string, at: nat) {
    && server(at).ok && server(at).rcb.Some? && SameDataSet(server(at).rcb.value.datSet, ds)
    && if !server(at).rcb.value.ena then server(at + 4).ok
       else
         && server(at + 1).ok && server(at + 2).ok && server(at + 2).rcb.Some?
         && !server(at + 2).rcb.value.ena && server(at + 6).ok
  }

  /** The requests of an attempt, one by one.  Whatever is enabled has first been given trigger options,
      buffer time and general interrogation, each once; the answers to these do not matter. */
  lemma {:induction false} AttemptSends(server: Server, ref: string, ds: string, at: nat)
    ensures var es, first, second := Attempt(server, ref, ds, at), server(at), server(at + 2);
            var named := first.ok && first.rcb.Some? && SameDataSet(first.rcb.value.datSet, ds);
            var ops := TrgOps(true, false, true);
            && (!named ==> es == [Read(ref, first)])
            && (named && !first.rcb.value.ena ==>
                  es == [Read(ref, first), SetTrgOps(ref, ops, server(at + 1)), SetBufTm(ref, 50, server(at + 2)),
                         SetGi(ref, true, server(at + 3)), SetEna(ref, true, server(at + 4))])
            && (named && first.rcb.value.ena && !server(at + 1).ok ==>
                  es == [Read(ref, first), SetEna(ref, false, server(at + 1))])
            && (named && first.rcb.value.ena && server(at + 1).ok ==>
                  var taken := [Read(ref, first), SetEna(ref, false, server(at + 1)), Read(ref, second)];
                  es == taken + if !second.ok || second.rcb.None? || second.rcb.value.ena then []
                                else [SetTrgOps(ref, ops, server(at + 3)), SetBufTm(ref, 50, server(at + 4)),
                                      SetGi(ref, true, server(at + 5)), SetEna(ref, true, server(at + 6))])
  {
  }

  /** An attempt succeeds exactly under that condition on the server's answers. */
  lemma {:induction false} AttemptSucceeds(server: Server, ref: string, ds: string, at: nat)
    ensures Succeeded(Attempt(server, ref, ds, at)) <==> CanEnable(server, ds, at)
  {
    AttemptSends(server, ref, ds, at);
  }

  /** How many requests a failed attempt has sent. */
  function Spent(server: Server, ds: string, at: nat): nat {
    var first, second := server(at), server(at + 2);
    if !first.ok || first.rcb.None? || !SameDataSet(first.rcb.value.datSet, ds) then 1
    else if !first.rcb.value.ena then 5
    else if !server(at + 1).ok then 2
    else if !second.ok || second.rcb.None? || second.rcb.value.ena then 3 else 7
  }

  lemma {:induction false} AttemptLength(server: Server, ref: string, ds: string, at: nat)
    ensures |Attempt(server, ref, ds, at)| == Spent(server, ds, at)
  {
    AttemptSends(server, ref, ds, at);
  }

  /** The first candidate is reached at the start, and each next one after what its predecessor has sent,
      unless that one could be enabled; names without the prefix send nothing. */
  ghost predicate Reaching(server: Server, names: seq<string>, ds: string, at: nat, starts: seq<Option<nat>>) {
    && |starts| == |names| && (names != [] ==> starts[0] == Some(at))
    && forall i :: 0 < i < |names| ==> starts[i] == NextStart(server, names[i - 1], ds, starts[i - 1])
  }

  function NextStart(server: Server, name: string, ds: string, start: Option<nat>): Option<nat> {
    if start.None? || !HasPrefix(name, "rcbStatDR") then start
    else if CanEnable(server, ds, start.value) then None
    else Some(start.value + Spent(server, ds, start.value))
  }

  lemma {:induction false} ReachedNext(server: Server, lnRef: string, names: seq<string>, ds: string, at: nat, i: nat)
    requires 0 < i < |names|
    ensures var run := AttemptsOn(server, ds);
            ReachedAt(run, lnRef, names, at, i)
            == NextStart(server, names[i - 1], ds, ReachedAt(run, lnRef, names, at, i - 1))
    decreases i
  {
    var run := AttemptsOn(server, ds);
    var es := run(RefOf(lnRef, names[0]), at);
    AttemptSucceeds(server, RefOf(lnRef, names[0]), ds, at);
    AttemptLength(server, RefOf(lnRef, names[0]), ds, at);
    if i > 1 {
      ReachedNext(server, lnRef, names[1..], ds, at, i - 1);
      ReachedNext(server, lnRef, names[1..], ds, at + |es|, i - 1);
    }
  }

  lemma {:induction false} StartsAre(server: Server, lnRef: string, names: seq<string>, ds: string, at: nat,
                                     starts: seq<Option<nat>>, i: nat)
    requires Reaching(server, names, ds, at, starts) && i < |names|
    ensures starts[i] == ReachedAt(AttemptsOn(server, ds), lnRef, names, at, i)
    decreases i
  {
    if i > 0 {
      StartsAre(server, lnRef, names, ds, at, starts, i - 1);
      ReachedNext(server, lnRef, names, ds, at, i);
    }
  }

  /** There are such starts, whatever the server answers. */
  lemma {:induction false} Starts(server: Server, lnRef: string, names: seq<string>, ds: string, at: nat)
    returns (starts: seq<Option<nat>>)
    ensures Reaching(server, names, ds, at, starts)
  {
    var run := AttemptsOn(server, ds);
    starts := seq(|names|, i requires 0 <= i < |names| => ReachedAt(run, lnRef, names, at, i));
    forall i | 0 < i < |names| ensures starts[i] == NextStart(server, names[i - 1], ds, starts[i - 1]) {
      ReachedNext(server, lnRef, names, ds, at, i);
    }
  }

  /** Candidate i is the one: it is reached, bears the prefix and can be enabled. */
  predicate Chosen(server: Server, names: seq<string>, ds: string, starts: seq<Option<nat>>, i: nat)
    requires i < |names| == |starts|
  {
    HasPrefix(names[i], "rcbStatDR") && starts[i].Some? && CanEnable(server, ds, starts[i].value)
  }

  /** The outcome of the whole run, told from the server's answers: the reference of the candidate that is
      reached and can be enabled, or none exactly if there is no such candidate. */
  lemma {:induction false} PickedExact(server: Server, lnRef: string, names: seq<string>, ds: string, at: nat,
                                       starts: seq<Option<nat>>)
    requires Reaching(server, names, ds, at, starts)
    ensures var picked := TryAll(AttemptsOn(server, ds), lnRef, names, at).picked;
            && (picked.None? <==> forall i :: 0 <= i < |names| ==> !Chosen(server, names, ds, starts, i))
            && forall i :: 0 <= i < |names| && Chosen(server, names, ds, starts, i) ==>
                 picked == Some(lnRef + ".BR." + names[i])
  {
    var run := AttemptsOn(server, ds);
    var picked := TryAll(run, lnRef, names, at).picked;
    forall i | 0 <= i < |names|
      ensures Chosen(server, names, ds, starts, i) <==> Wins(run, lnRef, names, at, i)
    {
      ChosenWins(server, lnRef, names, ds, at, starts, i);
    }
    if picked.None? {
      forall i | 0 <= i < |names| ensures !Wins(run, lnRef, names, at, i) {
        NonePicked(run, lnRef, names, at, i);
      }
    } else {
      var i := PickedWins(run, lnRef, names, at);
      forall j | 0 <= j < |names| && Wins(run, lnRef, names, at, j) ensures j == i {
        OneWins(run, lnRef, names, at, i, j);
      }
    }
  }

  lemma {:induction false} ChosenWins(server: Server, lnRef: string, names: seq<string>, ds: string, at: nat,
                                      starts: seq<Option<nat>>, i: nat)
    requires Reaching(server, names, ds, at, starts) && i < |names|
    ensures Chosen(server, names, ds, starts, i) <==> Wins(AttemptsOn(server, ds), lnRef, names, at, i)
  {
    StartsAre(server, lnRef, names, ds, at, starts, i);
    if starts[i].Some? {
      AttemptSucceeds(server, RefOf(lnRef, names[i]), ds, starts[i].value);
    }
  }

  /** Behind a candidate that wins none is reached. */
  lemma {:induction false} OneWins(run: Attempts, lnRef: string, names: seq<string>, at: nat, i: nat, j: nat)
    requires i < |names| && j < |names| && Wins(run, lnRef, names, at, i) && Wins(run, lnRef, names, at, j)
    ensures i == j
    decreases i + j
  {
    if i > 0 && j > 0 {
      WinsStep(run, lnRef, names, at, i);
      WinsStep(run, lnRef, names, at, j);
      var es := run(RefOf(lnRef, names[0]), at);
      OneWins(run, lnRef, names[1..], if HasPrefix(names[0], PREFIX) then at + |es| else at, i - 1, j - 1);
    }
  }

  // ----- does the enabled block still have the requested data set?

  /** What the latest read of the block showed. */
  function LatestDataSet(es: seq<Event>, ref: string): Option<string> {
    var r := LastRead(es, ref, |es|);
    if r.Some? && Usable(es[r.value].reply) then Some(es[r.value].reply.rcb.value.datSet) else None
  }

  /** The block was free from the start, or the read after the take-over shows the requested data set. */
  predicate StillNamed(server: Server, ds: string, at: nat) {
    && server(at).rcb.Some?
    && (!server(at).rcb.value.ena
        || (server(at + 2).rcb.Some? && SameDataSet(server(at + 2).rcb.value.datSet, ds)))
  }

  /** An attempt that succeeds has last read the requested data set exactly under that condition. */
  lemma {:induction false} LatestReadNames(server: Server, ref: string, ds: string, at: nat)
    requires Succeeded(Attempt(server, ref, ds, at))
    ensures var latest := LatestDataSet(Attempt(server, ref, ds, at), ref);
            latest.Some? && (SameDataSet(latest.value, ds) <==> StillNamed(server, ds, at))
  {
    var es := Attempt(server, ref, ds, at);
    var last := if server(at).rcb.value.ena then 2 else 0;
    assert es[0].Read? && es[last].Read? && es[last].ref == ref;
    assert forall j :: last < j < |es| ==> !es[j].Read?;
    assert LastRead(es, ref, |es|) == Some(last);
  }

  /** Candidate i is reached after `before` has been sent, and its attempt wins. */
  predicate Winning(run: Attempts, lnRef: string, names: seq<string>, at: nat, i: nat, before: seq<Event>)
    requires i < |names|
  {
    var ref := RefOf(lnRef, names[i]);
    var es := run(ref, at + |before|);
    && ReachedAt(run, lnRef, names, at, i) == Some(at + |before|)
    && Succeeded(es)
    && TryAll(run, lnRef, names, at) == Outcome(before + es, Some(ref))
  }

  lemma {:induction false} WinningHere(run: Attempts, lnRef: string, names: seq<string>, at: nat)
    requires names != [] && HasPrefix(names[0], PREFIX) && Succeeded(run(RefOf(lnRef, names[0]), at))
    ensures Winning(run, lnRef, names, at, 0, [])
  {
    var es := run(RefOf(lnRef, names[0]), at);
    assert [] + es == es;
  }

  lemma {:induction false} WinningSkipped(run: Attempts, lnRef: string, names: seq<string>, at: nat,
                                          i: nat, before: seq<Event>)
    requires names != [] && !HasPrefix(names[0], PREFIX)
    requires i < |names[1..]| && Winning(run, lnRef, names[1..], at, i, before)
    ensures Winning(run, lnRef, names, at, i + 1, before)
  {
    assert names[1..][i] == names[i + 1];
  }

  lemma {:induction false} WinningLater(run: Attempts, lnRef: string, names: seq<string>, at: nat,
                                        es: seq<Event>, i: nat, before: seq<Event>)
    requires names != [] && HasPrefix(names[0], PREFIX) && es == run(RefOf(lnRef, names[0]), at) && !Succeeded(es)
    requires i < |names[1..]| && Winning(run, lnRef, names[1..], at + |es|, i, before)
    ensures Winning(run, lnRef, names, at, i + 1, es + before)
  {
    assert names[1..][i] == names[i + 1];
    assert at + |es| + |before| == at + |es + before|;
    Assoc(es, before, run(RefOf(lnRef, names[i + 1]), at + |es + before|));
  }

  lemma {:induction false} Lost(run: Attempts, lnRef: string, names: seq<string>, at: nat)
    requires names != [] && HasPrefix(names[0], PREFIX) && !Winning(run, lnRef, names, at, 0, [])
    ensures !Succeeded(run(RefOf(lnRef, names[0]), at))
  {
    if Succeeded(run(RefOf(lnRef, names[0]), at)) {
      WinningHere(run, lnRef, names, at);
    }
  }

  /** Whatever wins among the other candidates wins among all, once `es` has been sent. */
  ghost predicate Onward(run: Attempts, lnRef: string, names: seq<string>, at: nat, next: nat, es: seq<Event>)
    requires names != []
  {
    && TryAll(run, lnRef, names, at).picked == TryAll(run, lnRef, names[1..], next).picked
    && forall i: nat, before :: i < |names[1..]| && Winning(run, lnRef, names[1..], next, i, before) ==>
         Winning(run, lnRef, names, at, i + 1, es + before)
  }

  lemma {:induction false} OnwardTried(run: Attempts, lnRef: string, names: seq<string>, at: nat, next: nat,
                                       es: seq<Event>)
    requires names != [] && HasPrefix(names[0], PREFIX) && next == at + |es|
    requires es == run(RefOf(lnRef, names[0]), at) && !Succeeded(es)
    ensures Onward(run, lnRef, names, at, next, es)
  {
    forall i: nat, before | i < |names[1..]| && Winning(run, lnRef, names[1..], next, i, before)
      ensures Winning(run, lnRef, names, at, i + 1, es + before)
    {
      WinningLater(run, lnRef, names, at, es, i, before);
    }
  }

  lemma {:induction false} OnwardSkipped(run: Attempts, lnRef: string, names: seq<string>, at: nat, next: nat,
                                         es: seq<Event>)
    requires names != [] && !HasPrefix(names[0], PREFIX) && next == at && es == []
    ensures Onward(run, lnRef, names, at, next, es)
  {
    forall i: nat, before | i < |names[1..]| && Winning(run, lnRef, names[1..], next, i, before)
      ensures Winning(run, lnRef, names, at, i + 1, es + before)
    {
      assert es + before == before;
      WinningSkipped(run, lnRef, names, at, i, before);
    }
  }

  lemma {:induction false} PickedLater(run: Attempts, lnRef: string, names: seq<string>, at: nat)
    returns (next: nat, es: seq<Event>)
    requires names != [] && !Winning(run, lnRef, names, at, 0, [])
    ensures Onward(run, lnRef, names, at, next, es)
  {
    if HasPrefix(names[0], PREFIX) {
      Lost(run, lnRef, names, at);
      es := run(RefOf(lnRef, names[0]), at);
      next := at + |es|;
      OnwardTried(run, lnRef, names, at, next, es);
    } else {
      next, es := at, [];
      OnwardSkipped(run, lnRef, names, at, next, es);
    }
  }

  /** The requests sent when a block is returned end with the attempt that won it. */
  lemma {:induction false} PickedAttempt(run: Attempts, lnRef: string, names: seq<string>, at: nat)
    returns (i: nat, before: seq<Event>)
    requires TryAll(run, lnRef, names, at).picked.Some?
    ensures i < |names| && Winning(run, lnRef, names, at, i, before)
    decreases |names|
  {
    if Winning(run, lnRef, names, at, 0, []) {
      i, before := 0, [];
    } else {
      var next, es := PickedLater(run, lnRef, names, at);
      i, before := PickedAttempt(run, lnRef, names[1..], next);
      i, before := i + 1, es + before;
    }
  }

  /** The latest read of a winning attempt is the latest of all. */
  lemma {:induction false} LatestOfAll(before: seq<Event>, es: seq<Event>, ref: string)
    requires LatestDataSet(es, ref).Some?
    ensures LatestDataSet(before + es, ref) == LatestDataSet(es, ref)
  {
    LastReadAfter(before, es, ref, |es|);
    assert |before + es| == |before| + |es|;
  }

  /** For a block that is returned: its latest read names the requested data set exactly if it was free
      when its winning attempt began, or the read after the take-over shows that data set. */
  lemma {:induction false} PickedStillNamed(server: Server, lnRef: string, names: seq<string>, ds: string, at: nat)
    returns (i: nat, start: nat)
    requires TryAll(AttemptsOn(server, ds), lnRef, names, at).picked.Some?
    ensures i < |names| && ReachedAt(AttemptsOn(server, ds), lnRef, names, at, i) == Some(start)
    ensures var o := TryAll(AttemptsOn(server, ds), lnRef, names, at);
            var latest := LatestDataSet(o.events, o.picked.value);
            && o.picked.value == RefOf(lnRef, names[i])
            && latest.Some? && (SameDataSet(latest.value, ds) <==> StillNamed(server, ds, start))
  {
    var before: seq<Event>;
    i, before := PickedAttempt(AttemptsOn(server, ds), lnRef, names, at);
    start := at + |before|;
    var ref := RefOf(lnRef, names[i]);
    LatestReadNames(server, ref, ds, start);
    LatestOfAll(before, Attempt(server, ref, ds, start), ref);
  }

  /** All reads of the block show one data set. */
  ghost predicate Steady(es: seq<Event>, ref: string) {
    forall j, k :: 0 <= j < |es| && 0 <= k < |es| && ShowsOf(es[j], ref) && ShowsOf(es[k], ref) ==>
      SameDataSet(es[j].reply.rcb.value.datSet, es[k].reply.rcb.value.datSet)
  }

  predicate ShowsOf(e: Event, ref: string) {
    e.Read? && e.ref == ref && Usable(e.reply)
  }

  /** With a server that never changes the data set of the block it hands out, the result is right. */
  lemma {:induction false} SteadyIsSafe(server: Server, lnRef: string, names: seq<string>, ds: string, at: nat)
    requires TryAll(AttemptsOn(server, ds), lnRef, names, at).picked.Some?
    requires Steady(TryAll(AttemptsOn(server, ds), lnRef, names, at).events,
                    TryAll(AttemptsOn(server, ds), lnRef, names, at).picked.value)
    ensures var o := TryAll(AttemptsOn(server, ds), lnRef, names, at);
            var latest := LatestDataSet(o.events, o.picked.value);
            latest.Some? && SameDataSet(latest.value, ds)
  {
    var i, before := PickedAttempt(AttemptsOn(server, ds), lnRef, names, at);
    var ref := RefOf(lnRef, names[i]);
    var es := Attempt(server, ref, ds, at + |before|);
    LatestReadNames(server, ref, ds, at + |before|);
    LatestOfAll(before, es, ref);
    assert ShowsOf(es[0], ref) && SameDataSet(es[0].reply.rcb.value.datSet, ds);
    SteadyNames(before, es, ref, ds);
  }

  lemma {:induction false} SteadyNames(before: seq<Event>, es: seq<Event>, ref: string, ds: string)
    requires Steady(before + es, ref) && LatestDataSet(before + es, ref).Some?
    requires es != [] && ShowsOf(es[0], ref) && SameDataSet(es[0].reply.rcb.value.datSet, ds)
    ensures SameDataSet(LatestDataSet(before + es, ref).value, ds)
  {
    var all := before + es;
    assert all[|before|] == es[0];
    var last := LastRead(all, ref, |all|).value;
    assert ShowsOf(all[last], ref);
  }

  /** A server that gives a block up when told to, with its data set changed from "A" to "B". */
  function Hijacked(n: nat): Reply {
    if n == 0 then Reply(true, Some(Rcb("A", true))) else Reply(true, Some(Rcb("B", false)))
  }

  /** The second read, after a block was taken from another client, is not checked for its data set:
      a block is enabled whose latest read shows a different one than requested. */
  lemma {:induction false} SecondReadUnchecked(ref: string)
    ensures var es := Attempt(Hijacked, ref, "A", 0);
            && |es| == 7 && Succeeded(es)
            && LastRead(es, ref, 6) == Some(2)
            && es[2].Read? && es[2].reply == Reply(true, Some(Rcb("B", false)))
            && !SameDataSet("B", "A")
  {
    var es := Attempt(Hijacked, ref, "A", 0);
    NormalisedAt("A");
    NormalisedAt("B");
    assert TakeOver(Hijacked, ref, 1) == [SetEna(ref, false, Hijacked(1)), Read(ref, Hijacked(2))];
    assert Normalised("B")[0] != Normalised("A")[0];
    assert es[3].SetTrgOps? && es[4].SetBufTm? && es[5].SetGi?;
    assert LastRead(es, ref, 3) == Some(2);
    assert LastRead(es, ref, 4) == Some(2);
    assert LastRead(es, ref, 5) == Some(2);
  }
}
