/** Chains of records that name their successor: following one from its head, and when that shows
    every record once, in order, and ends. */
module Chains {
  import opened Text

  datatype Item<T> = Item(symbol: string, payload: T, next: Option<string>)

  function LookupItem<T>(items: seq<Item<T>>, symbol: string): (r: Option<Item<T>>)
    ensures r.Some? ==> r.value in items && r.value.symbol == symbol
    ensures r.None? ==> forall it :: it in items ==> it.symbol != symbol
  {
    if items == [] then None
    else if items[0].symbol == symbol then Some(items[0])
    else LookupItem(items[1..], symbol)
  }

  /** What a user sees who starts at `at` and follows "next"; fails on a dangling name or a cycle. */
  function Walk<T>(items: seq<Item<T>>, at: Option<string>, fuel: nat): Option<seq<T>>
    decreases fuel
  {
    if at.None? then Some([])
    else if fuel == 0 then None
    else
      var it := LookupItem(items, at.value);
      if it.None? then None
      else
        var rest := Walk(items, it.value.next, fuel - 1);
        if rest.None? then None else Some([it.value.payload] + rest.value)
  }

  function At(names: seq<string>, i: nat): Option<string> {
    if i < |names| then Some(names[i]) else None
  }

  function SymbolsOf<T>(items: seq<Item<T>>): (s: seq<string>)
    ensures |s| == |items| && forall i :: 0 <= i < |items| ==> s[i] == items[i].symbol
  {
    seq(|items|, i requires 0 <= i < |items| => items[i].symbol)
  }

  function Payloads<T>(items: seq<Item<T>>): (ps: seq<T>)
    ensures |ps| == |items| && forall i :: 0 <= i < |items| ==> ps[i] == items[i].payload
  {
    seq(|items|, i requires 0 <= i < |items| => items[i].payload)
  }

  ghost predicate UniqueSymbols<T>(items: seq<Item<T>>) {
    forall a, b :: 0 <= a < b < |items| ==> items[a].symbol != items[b].symbol
  }

  /** Each item points to the name listed after its own place. */
  ghost predicate PointsAlong<T>(items: seq<Item<T>>, names: seq<string>) {
    forall i {:trigger items[i].next} :: 0 <= i < |items| ==> items[i].next == At(names, i + 1)
  }

  lemma {:induction false} LookupItemAt<T>(items: seq<Item<T>>, i: nat)
    requires i < |items| && UniqueSymbols(items)
    ensures LookupItem(items, items[i].symbol) == Some(items[i])
  {
    if i > 0 {
      LookupItemAt(items[1..], i - 1);
    }
  }

  lemma {:induction false} WalkStep<T>(items: seq<Item<T>>, it: Item<T>, rest: seq<T>, fuel: nat)
    requires fuel > 0 && LookupItem(items, it.symbol) == Some(it) && Walk(items, it.next, fuel - 1) == Some(rest)
    ensures Walk(items, Some(it.symbol), fuel) == Some([it.payload] + rest)
  {
  }

  lemma {:induction false} WalkEnd<T>(items: seq<Item<T>>, fuel: nat)
    ensures Walk(items, None, fuel) == Some([])
  {
  }

  lemma {:induction false} ChainedOnce<T>(items: seq<Item<T>>, names: seq<string>, i: nat, fuel: nat)
    requires UniqueSymbols(items) && PointsAlong(items, names) && names == SymbolsOf(items) && i < |items| && fuel > 0
    requires Walk(items, At(names, i + 1), fuel - 1) == Some(Payloads(items)[i + 1..])
    ensures Walk(items, At(names, i), fuel) == Some(Payloads(items)[i..])
  {
    var ps := Payloads(items);
    assert ps[i..] == [items[i].payload] + ps[i + 1..];
    LookupItemAt(items, i);
    assert items[i].next == At(names, i + 1);
    WalkStep(items, items[i], ps[i + 1..], fuel);
  }

  lemma {:induction false} ChainedWalk<T>(items: seq<Item<T>>, names: seq<string>, i: nat, fuel: nat)
    requires UniqueSymbols(items) && PointsAlong(items, names) && names == SymbolsOf(items)
    requires i <= |items| && fuel >= |items| - i
    ensures Walk(items, At(names, i), fuel) == Some(Payloads(items)[i..])
    decreases |items| - i
  {
    if i == |items| {
      ChainedEnd(items, names, fuel);
    } else {
      ChainedWalk(items, names, i + 1, fuel - 1);
      ChainedOnce(items, names, i, fuel);
    }
  }

  lemma {:induction false} ChainedEnd<T>(items: seq<Item<T>>, names: seq<string>, fuel: nat)
    requires names == SymbolsOf(items)
    ensures Walk(items, At(names, |items|), fuel) == Some(Payloads(items)[|items|..])
  {
    assert At(names, |items|) == None && Payloads(items)[|items|..] == [];
    WalkEnd(items, fuel);
  }

  ghost predicate UniquePayloads<T>(items: seq<Item<T>>) {
    forall a, b :: 0 <= a < b < |items| ==> items[a].payload != items[b].payload
  }

  /** A walk whose first payload is that of item i has met the name of item i, and goes on from there. */
  lemma {:induction false} WalkTellsOnce<T>(items: seq<Item<T>>, names: seq<string>, i: nat, fuel: nat, rest: seq<T>)
    requires UniqueSymbols(items) && PointsAlong(items, names) && i < |items| && UniquePayloads(items)
    requires Walk(items, At(names, i), fuel) == Some([items[i].payload] + rest)
    ensures fuel > 0 && i < |names| && names[i] == items[i].symbol
    ensures Walk(items, At(names, i + 1), fuel - 1) == Some(rest)
  {
    var all := [items[i].payload] + rest;
    assert all[0] == items[i].payload && all[1..] == rest;
    var it := LookupItem(items, names[i]).value;
    var j :| 0 <= j < |items| && items[j] == it;
    var later := Walk(items, it.next, fuel - 1).value;
    assert ([it.payload] + later)[0] == it.payload && ([it.payload] + later)[1..] == later;
    SamePayload(items, i, j);
    assert items[i].next == At(names, i + 1);
  }

  /** A walk that shows the payloads from place i on has met exactly the listed names. */
  lemma {:induction false} WalkTells<T>(items: seq<Item<T>>, names: seq<string>, i: nat, fuel: nat)
    requires UniqueSymbols(items) && PointsAlong(items, names) && i <= |items| && UniquePayloads(items)
    requires Walk(items, At(names, i), fuel) == Some(Payloads(items)[i..])
    ensures |names| <= |items| && (i < |items| ==> |names| == |items|)
    ensures forall k :: i <= k < |names| ==> names[k] == items[k].symbol
    decreases |items| - i
  {
    var ps := Payloads(items);
    if i == |items| {
      assert ps[i..] == [];
    } else {
      assert ps[i..] == [items[i].payload] + ps[i + 1..];
      WalkTellsOnce(items, names, i, fuel, ps[i + 1..]);
      WalkTells(items, names, i + 1, fuel - 1);
    }
  }

  lemma {:induction false} SamePayload<T>(items: seq<Item<T>>, i: nat, j: nat)
    requires i < |items| && j < |items| && items[i].payload == items[j].payload && UniquePayloads(items)
    ensures i == j
  {
  }

  /** From the head of the list the chain shows every item once, in order, and ends, exactly if the
      listed names are the items' own. */
  lemma {:induction false} WalkIff<T>(items: seq<Item<T>>, names: seq<string>, fuel: nat)
    requires UniqueSymbols(items) && PointsAlong(items, names) && UniquePayloads(items) && fuel >= |items|
    ensures Walk(items, At(names, 0), fuel) == Some(Payloads(items)) <==> names == SymbolsOf(items)
  {
    assert Payloads(items)[0..] == Payloads(items);
    if names == SymbolsOf(items) {
      ChainedWalk(items, names, 0, fuel);
    }
    if Walk(items, At(names, 0), fuel) == Some(Payloads(items)) {
      WalkTells(items, names, 0, fuel);
      assert names == SymbolsOf(items);
    }
  }

  /** An item that points to itself is never left. */
  lemma {:induction false} WalkStuck<T>(items: seq<Item<T>>, it: Item<T>, fuel: nat)
    requires LookupItem(items, it.symbol) == Some(it) && it.next == Some(it.symbol)
    ensures Walk(items, Some(it.symbol), fuel).None?
  {
    if fuel > 0 {
      WalkStuck(items, it, fuel - 1);
    }
  }
}
