/** A forest of model nodes, its layout as records that name each other by symbol, and the reader
    that follows those names back.  Nothing here knows about the generator: this is what a
    correctly linked table is. */
module PointerGraph {
  import opened Text
  import opened Instances

  /** Everything a record says besides its symbol and its pointers. */
  datatype Label =
    | LdLabel(inst: string)
    | LnLabel(ln: string)
    | DoLabel(name: string, count: int)
    | DaLabel(attr: Option<string>, fc: string, attrType: AttributeType, elements: int, index: int,
              trigger: Trigger, transient: bool, shortAddress: string)

  datatype Node = Node(data: Label, kids: seq<Node>)

  datatype Rec = Rec(symbol: string, data: Label, parent: string,
                     sibling: Option<string>, firstChild: Option<string>)

  /** The name a node adds to its path; an array element goes by its index. */
  function Component(l: Label): string {
    if l.LdLabel? then l.inst
    else if l.LnLabel? then l.ln
    else if l.DoLabel? then l.name
    else if l.attr.Some? then l.attr.value
    else if l.index >= 0 then Itoa(l.index) else ""
  }

  predicate IsSe(l: Label) {
    l.DaLabel? && l.fc == "SE"
  }

  /** A node's place in the model: its path from the logical device down, and whether it is the
      setting-group-edit copy of that path. */
  datatype Key = Key(se: bool, path: seq<string>)

  function Symbol(px: string, k: Key): string {
    px + (if k.se then "_SE" else "") + Join(k.path)
  }

  function KeyOf(path: seq<string>, n: Node): Key {
    Key(IsSe(n.data), path + [Component(n.data)])
  }

  function HeadSymbol(px: string, path: seq<string>, ns: seq<Node>, next: Option<string>): Option<string> {
    if ns == [] then next else Some(Symbol(px, KeyOf(path, ns[0])))
  }

  /** The correctly linked table of a forest that hangs below `path`, in document order. */
  function Layout(px: string, path: seq<string>, parent: string, ns: seq<Node>, next: Option<string>): seq<Rec>
    decreases ns
  {
    if ns == [] then []
    else
      var k := KeyOf(path, ns[0]);
      [HeadRec(px, path, parent, ns, next)]
      + Layout(px, k.path, Symbol(px, k), ns[0].kids, None)
      + Layout(px, path, parent, ns[1..], next)
  }

  function HeadRec(px: string, path: seq<string>, parent: string, ns: seq<Node>, next: Option<string>): Rec
    requires ns != []
  {
    var k := KeyOf(path, ns[0]);
    Rec(Symbol(px, k), ns[0].data, parent,
        HeadSymbol(px, path, ns[1..], next), HeadSymbol(px, k.path, ns[0].kids, None))
  }

  lemma {:induction false} LayoutParts(px: string, path: seq<string>, parent: string, ns: seq<Node>,
                                       next: Option<string>)
    requires ns != []
    ensures var k := KeyOf(path, ns[0]);
            var all := Layout(px, path, parent, ns, next);
            var kids := Layout(px, k.path, Symbol(px, k), ns[0].kids, None);
            var rest := Layout(px, path, parent, ns[1..], next);
            && |all| == 1 + |kids| + |rest|
            && HeadRec(px, path, parent, ns, next) in all
            && (forall r :: r in kids ==> r in all)
            && (forall r :: r in rest ==> r in all)
  {
    var k := KeyOf(path, ns[0]);
    var all := Layout(px, path, parent, ns, next);
    var kids := Layout(px, k.path, Symbol(px, k), ns[0].kids, None);
    var rest := Layout(px, path, parent, ns[1..], next);
    assert all == [HeadRec(px, path, parent, ns, next)] + kids + rest;
  }

  lemma {:induction false} LayoutAppend(px: string, path: seq<string>, parent: string,
                                        a: seq<Node>, b: seq<Node>, next: Option<string>)
    ensures Layout(px, path, parent, a + b, next)
         == Layout(px, path, parent, a, HeadSymbol(px, path, b, next)) + Layout(px, path, parent, b, next)
  {
    if a == [] {
      assert a + b == b;
    } else {
      AppendTail(a, b);
      LayoutAppend(px, path, parent, a[1..], b, next);
      var tail := HeadSymbol(px, path, b, next);
      HeadAppend(px, path, parent, a, b, next);
      var k := KeyOf(path, a[0]);
      var kids := Layout(px, k.path, Symbol(px, k), a[0].kids, None);
      var head := [HeadRec(px, path, parent, a, tail)];
      Assoc(head + kids, Layout(px, path, parent, a[1..], tail), Layout(px, path, parent, b, next));
    }
  }

  lemma {:induction false} AppendTail(a: seq<Node>, b: seq<Node>)
    requires a != []
    ensures (a + b)[1..] == a[1..] + b && (a + b)[0] == a[0]
  {
  }

  lemma {:induction false} HeadAppend(px: string, path: seq<string>, parent: string, a: seq<Node>, b: seq<Node>,
                                      next: Option<string>)
    requires a != []
    ensures HeadRec(px, path, parent, a + b, next) == HeadRec(px, path, parent, a, HeadSymbol(px, path, b, next))
  {
    AppendTail(a, b);
    if a[1..] == [] {
      assert a[1..] + b == b;
    } else {
      assert (a[1..] + b)[0] == a[1..][0];
    }
  }

  function Symbols(recs: seq<Rec>): (s: seq<string>)
    ensures |s| == |recs| && forall i :: 0 <= i < |s| ==> s[i] == recs[i].symbol
  {
    seq(|recs|, i requires 0 <= i < |recs| => recs[i].symbol)
  }

  // ----- following the pointers

  /** The record a symbol resolves to, if there is one. */
  function Lookup(recs: seq<Rec>, symbol: string): (r: Option<Rec>)
    ensures r.Some? ==> r.value.symbol == symbol
  {
    if recs == [] then None
    else if recs[0].symbol == symbol then Some(recs[0])
    else Lookup(recs[1..], symbol)
  }

  lemma {:induction false} LookupFinds(recs: seq<Rec>, i: nat)
    requires i < |recs| && Distinct(Symbols(recs))
    ensures Lookup(recs, recs[i].symbol) == Some(recs[i])
  {
    if i > 0 {
      assert Symbols(recs)[0] != Symbols(recs)[i];
      forall a, b | 0 <= a < b < |recs[1..]|
        ensures Symbols(recs[1..])[a] != Symbols(recs[1..])[b]
      {
        assert Symbols(recs)[a + 1] != Symbols(recs)[b + 1];
      }
      LookupFinds(recs[1..], i - 1);
    }
  }

  /** What a user of the table sees from the pointer `at`: the chain of siblings, each with the
      forest below its firstChild.  Fails on a dangling name, on a node whose parent pointer does
      not name the node it was reached from, and when `fuel` steps do not suffice (a cycle). */
  function ReadBack(recs: seq<Rec>, parent: string, at: Option<string>, fuel: nat): Option<seq<Node>>
    decreases fuel
  {
    if at.None? then Some([])
    else if fuel == 0 then None
    else
      var found := Lookup(recs, at.value);
      if found.None? || found.value.parent != parent then None
      else
        var r := found.value;
        var kids := ReadBack(recs, r.symbol, r.firstChild, fuel - 1);
        var rest := ReadBack(recs, parent, r.sibling, fuel - 1);
        if kids.None? || rest.None? then None
        else Some([Node(r.data, kids.value)] + rest.value)
  }

  /** Record i is the one a symbol resolves to. */
  predicate Stands(recs: seq<Rec>, symbol: string, i: nat) {
    i < |recs| && recs[i].symbol == symbol && forall k :: 0 <= k < i ==> recs[k].symbol != symbol
  }

  /** The pointer `at` shows the nodes `ns`: NULL shows none; otherwise the first record of that symbol
      names the parent it was reached from, carries the first node's data, shows that node's children
      from its firstChild and the other nodes from its sibling. */
  ghost predicate Shows(recs: seq<Rec>, parent: string, at: Option<string>, ns: seq<Node>)
    decreases ns
  {
    (at.None? <==> ns == [])
    && (ns != [] ==>
          exists i: nat ::
            && Stands(recs, at.value, i)
            && recs[i].parent == parent
            && recs[i].data == ns[0].data
            && Shows(recs, recs[i].symbol, recs[i].firstChild, ns[0].kids)
            && Shows(recs, parent, recs[i].sibling, ns[1..]))
  }

  lemma {:induction false} LookupStands(recs: seq<Rec>, symbol: string, i: nat)
    requires i < |recs|
    ensures Lookup(recs, symbol) == Some(recs[i]) <== Stands(recs, symbol, i)
  {
    if Stands(recs, symbol, i) && i > 0 {
      assert recs[0].symbol != symbol;
      forall k | 0 <= k < i - 1 ensures recs[1..][k].symbol != symbol {
        assert recs[k + 1].symbol != symbol;
      }
      LookupStands(recs[1..], symbol, i - 1);
    }
  }

  lemma {:induction false} LookupAt(recs: seq<Rec>, symbol: string) returns (i: nat)
    requires Lookup(recs, symbol).Some?
    ensures Stands(recs, symbol, i) && Lookup(recs, symbol) == Some(recs[i])
  {
    if recs[0].symbol == symbol {
      i := 0;
    } else {
      i := LookupAt(recs[1..], symbol);
      i := i + 1;
      assert forall k :: 0 < k < i ==> recs[k] == recs[1..][k - 1];
    }
  }

  lemma {:induction false} ReadBackMore(recs: seq<Rec>, parent: string, at: Option<string>, fuel: nat, more: nat)
    requires fuel <= more && ReadBack(recs, parent, at, fuel).Some?
    ensures ReadBack(recs, parent, at, more) == ReadBack(recs, parent, at, fuel)
    decreases fuel
  {
    if at.Some? {
      var r := Lookup(recs, at.value).value;
      ReadBackMore(recs, r.symbol, r.firstChild, fuel - 1, more - 1);
      ReadBackMore(recs, parent, r.sibling, fuel - 1, more - 1);
    }
  }

  lemma {:induction false} ReadIsShown(recs: seq<Rec>, parent: string, at: Option<string>, ns: seq<Node>, fuel: nat)
    requires ReadBack(recs, parent, at, fuel) == Some(ns)
    ensures Shows(recs, parent, at, ns)
    decreases fuel
  {
    if at.Some? {
      var i := LookupAt(recs, at.value);
      ReadIsShown(recs, recs[i].symbol, recs[i].firstChild, ns[0].kids, fuel - 1);
      ReadIsShown(recs, parent, recs[i].sibling, ns[1..], fuel - 1);
    }
  }

  lemma {:induction false} ShownIsRead(recs: seq<Rec>, parent: string, at: Option<string>, ns: seq<Node>)
    returns (fuel: nat)
    requires Shows(recs, parent, at, ns)
    ensures ReadBack(recs, parent, at, fuel) == Some(ns)
    decreases ns
  {
    if ns == [] {
      fuel := 0;
    } else {
      var i: nat :|
        && Stands(recs, at.value, i) && recs[i].parent == parent && recs[i].data == ns[0].data
        && Shows(recs, recs[i].symbol, recs[i].firstChild, ns[0].kids)
        && Shows(recs, parent, recs[i].sibling, ns[1..]);
      var a := ShownIsRead(recs, recs[i].symbol, recs[i].firstChild, ns[0].kids);
      var b := ShownIsRead(recs, parent, recs[i].sibling, ns[1..]);
      fuel := a + b;
      ReadBackMore(recs, recs[i].symbol, recs[i].firstChild, a, fuel);
      ReadBackMore(recs, parent, recs[i].sibling, b, fuel);
      LookupStands(recs, at.value, i);
      assert ns == [Node(ns[0].data, ns[0].kids)] + ns[1..];
      fuel := fuel + 1;
    }
  }

  /** The reader yields a forest exactly if the pointers show it. */
  lemma {:induction false} ReadBackExact(recs: seq<Rec>, parent: string, at: Option<string>, ns: seq<Node>)
    ensures (exists fuel :: ReadBack(recs, parent, at, fuel) == Some(ns)) <==> Shows(recs, parent, at, ns)
  {
    if fuel :| ReadBack(recs, parent, at, fuel) == Some(ns) {
      ReadIsShown(recs, parent, at, ns, fuel);
    }
    if Shows(recs, parent, at, ns) {
      var fuel := ShownIsRead(recs, parent, at, ns);
    }
  }

  ghost predicate Resolves(recs: seq<Rec>, part: seq<Rec>) {
    forall r :: r in part ==> Lookup(recs, r.symbol) == Some(r)
  }

  ghost predicate Within(recs: seq<Rec>, px: string, path: seq<string>, parent: string, ns: seq<Node>, fuel: nat) {
    && Resolves(recs, Layout(px, path, parent, ns, None))
    && fuel >= |Layout(px, path, parent, ns, None)|
  }

  lemma {:induction false} WithinParts(recs: seq<Rec>, px: string, path: seq<string>, parent: string, ns: seq<Node>,
                                       fuel: nat)
    requires ns != [] && Within(recs, px, path, parent, ns, fuel)
    ensures var k := KeyOf(path, ns[0]);
            var head := HeadRec(px, path, parent, ns, None);
            && fuel > 0 && Lookup(recs, head.symbol) == Some(head)
            && Within(recs, px, k.path, head.symbol, ns[0].kids, fuel - 1)
            && Within(recs, px, path, parent, ns[1..], fuel - 1)
  {
    LayoutParts(px, path, parent, ns, None);
  }

  ghost predicate Reads(recs: seq<Rec>, parent: string, at: Option<string>, fuel: nat, ns: seq<Node>) {
    ReadBack(recs, parent, at, fuel) == Some(ns)
  }

  lemma {:induction false} ReadsBackWithin(px: string, path: seq<string>, parent: string, ns: seq<Node>,
                                           recs: seq<Rec>, fuel: nat)
    requires Within(recs, px, path, parent, ns, fuel)
    ensures Reads(recs, parent, HeadSymbol(px, path, ns, None), fuel, ns)
    decreases ns
  {
    if ns == [] {
      ReadBackNull(recs, parent, fuel);
    } else {
      var k := KeyOf(path, ns[0]);
      WithinParts(recs, px, path, parent, ns, fuel);
      var head := HeadRec(px, path, parent, ns, None);
      ReadsBackWithin(px, k.path, head.symbol, ns[0].kids, recs, fuel - 1);
      ReadsBackWithin(px, path, parent, ns[1..], recs, fuel - 1);
      ReadBackStep(recs, head, ns[0].kids, ns[1..], fuel);
      assert ns == [ns[0]] + ns[1..];
    }
  }

  lemma {:induction false} ReadBackNull(recs: seq<Rec>, parent: string, fuel: nat)
    ensures Reads(recs, parent, None, fuel, [])
  {
  }

  lemma {:induction false} ReadBackStep(recs: seq<Rec>, r: Rec, kids: seq<Node>, rest: seq<Node>, fuel: nat)
    requires fuel > 0 && Lookup(recs, r.symbol) == Some(r)
    requires Reads(recs, r.symbol, r.firstChild, fuel - 1, kids)
    requires Reads(recs, r.parent, r.sibling, fuel - 1, rest)
    ensures Reads(recs, r.parent, Some(r.symbol), fuel, [Node(r.data, kids)] + rest)
  {
  }

  /** Round trip: a table whose symbols are pairwise distinct reads back as the forest it was laid
      out from, and as no other. */
  lemma {:induction false} ReadsBack(px: string, ns: seq<Node>, fuel: nat)
    requires var recs := Layout(px, [], px, ns, None); Distinct(Symbols(recs)) && fuel >= |recs|
    ensures ReadBack(Layout(px, [], px, ns, None), px, HeadSymbol(px, [], ns, None), fuel) == Some(ns)
  {
    var recs := Layout(px, [], px, ns, None);
    forall r | r in recs ensures Lookup(recs, r.symbol) == Some(r) {
      var i :| 0 <= i < |recs| && recs[i] == r;
      LookupFinds(recs, i);
    }
    ReadsBackWithin(px, [], px, ns, recs, fuel);
  }

  // ----- no dangling edge and no cycle

  /** Record i's pointers all land: the parent is the root or an earlier record; the first child is
      the very next record; the sibling is a later record with the same parent.  So parent edges
      only go backwards and the other edges only forwards. */
  ghost predicate Linked(recs: seq<Rec>, root: string, i: nat)
    requires i < |recs|
  {
    && (recs[i].parent == root || exists j :: 0 <= j < i && recs[j].symbol == recs[i].parent)
    && (recs[i].firstChild.Some? ==>
          && i + 1 < |recs|
          && recs[i + 1].symbol == recs[i].firstChild.value && recs[i + 1].parent == recs[i].symbol)
    && (recs[i].sibling.Some? ==>
          exists j :: i < j < |recs| && recs[j].symbol == recs[i].sibling.value && recs[j].parent == recs[i].parent)
  }

  ghost predicate Closed(recs: seq<Rec>, root: string) {
    forall i :: 0 <= i < |recs| ==> Linked(recs, root, i)
  }

  /** A record keeps its links when its table is placed inside a larger one, provided its parent,
      if it is not the local root, is local or the local root is a known symbol. */
  lemma {:induction false} LinkedInside(before: seq<Rec>, part: seq<Rec>, after: seq<Rec>, local: string, root: string,
                                        i: nat)
    requires i < |part| && Linked(part, local, i)
    requires local == root || exists b :: 0 <= b < |before| && before[b].symbol == local
    ensures Linked(before + part + after, root, |before| + i)
  {
    var all := before + part + after;
    var n := |before|;
    assert all[n + i] == part[i];
    if part[i].parent != local {
      var j :| 0 <= j < i && part[j].symbol == part[i].parent;
      assert all[n + j] == part[j];
    } else if local != root {
      var b :| 0 <= b < |before| && before[b].symbol == local;
      assert all[b] == before[b];
    }
    if part[i].firstChild.Some? {
      assert all[n + i + 1] == part[i + 1];
    }
    if part[i].sibling.Some? {
      var j :| i < j < |part| && part[j].symbol == part[i].sibling.value && part[j].parent == part[i].parent;
      assert all[n + j] == part[j];
    }
  }

  lemma {:induction false} LayoutClosed(px: string, path: seq<string>, parent: string, ns: seq<Node>)
    ensures Closed(Layout(px, path, parent, ns, None), parent)
    decreases ns
  {
    if ns != [] {
      var k := KeyOf(path, ns[0]);
      var symbol := Symbol(px, k);
      var head := HeadRec(px, path, parent, ns, None);
      var kids := Layout(px, k.path, symbol, ns[0].kids, None);
      var rest := Layout(px, path, parent, ns[1..], None);
      var all := Layout(px, path, parent, ns, None);
      assert all == [head] + kids + rest;
      LayoutClosed(px, k.path, symbol, ns[0].kids);
      LayoutClosed(px, path, parent, ns[1..]);
      forall i | 0 <= i < |all| ensures Linked(all, parent, i) {
        if i == 0 {
          LayoutHead(px, k.path, symbol, ns[0].kids);
          LayoutHead(px, path, parent, ns[1..]);
          assert kids != [] ==> all[1] == kids[0];
          assert rest != [] ==> all[1 + |kids|] == rest[0];
        } else if i <= |kids| {
          assert [head][0].symbol == symbol;
          LinkedInside([head], kids, rest, symbol, parent, i - 1);
        } else {
          assert [head] + kids + rest + [] == all;
          LinkedInside([head] + kids, rest, [], parent, parent, i - 1 - |kids|);
        }
      }
    }
  }

  lemma {:induction false} LayoutHead(px: string, path: seq<string>, parent: string, ns: seq<Node>)
    ensures var recs := Layout(px, path, parent, ns, None);
            if ns == [] then recs == []
            else recs != [] && Some(recs[0].symbol) == HeadSymbol(px, path, ns, None) && recs[0].parent == parent
  {
  }

  // ----- when symbols are distinct

  function Keys(path: seq<string>, ns: seq<Node>): seq<Key>
    decreases ns
  {
    if ns == [] then []
    else
      var k := KeyOf(path, ns[0]);
      [k] + Keys(k.path, ns[0].kids) + Keys(path, ns[1..])
  }

  function Render(px: string, ks: seq<Key>): (s: seq<string>)
    ensures |s| == |ks| && forall i :: 0 <= i < |s| ==> s[i] == Symbol(px, ks[i])
  {
    seq(|ks|, i requires 0 <= i < |ks| => Symbol(px, ks[i]))
  }

  lemma {:induction false} LayoutSymbols(px: string, path: seq<string>, parent: string, ns: seq<Node>,
                                         next: Option<string>)
    ensures Symbols(Layout(px, path, parent, ns, next)) == Render(px, Keys(path, ns))
    decreases ns
  {
    if ns != [] {
      var k := KeyOf(path, ns[0]);
      LayoutSymbols(px, k.path, Symbol(px, k), ns[0].kids, None);
      LayoutSymbols(px, path, parent, ns[1..], next);
    }
  }

  function NodeKeys(path: seq<string>, n: Node): seq<Key> {
    var k := KeyOf(path, n);
    [k] + Keys(k.path, n.kids)
  }

  lemma {:induction false} KeysSplit(path: seq<string>, ns: seq<Node>)
    requires ns != []
    ensures Keys(path, ns) == NodeKeys(path, ns[0]) + Keys(path, ns[1..])
  {
  }

  /** The root a key lies under. */
  lemma {:induction false} KeyAt(path: seq<string>, ns: seq<Node>, k: Key) returns (i: nat)
    requires k in Keys(path, ns)
    ensures i < |ns| && k in NodeKeys(path, ns[i])
    decreases ns
  {
    if k in NodeKeys(path, ns[0]) {
      i := 0;
    } else {
      i := KeyAt(path, ns[1..], k);
      i := i + 1;
    }
  }

  lemma {:induction false} KeyIn(path: seq<string>, ns: seq<Node>, i: nat, k: Key)
    requires i < |ns| && k in NodeKeys(path, ns[i])
    ensures k in Keys(path, ns)
    decreases ns
  {
    KeysSplit(path, ns);
    if i > 0 {
      KeyIn(path, ns[1..], i - 1, k);
    }
  }

  /** Every key of a subtree extends that of its root. */
  lemma {:induction false} KeyExtends(path: seq<string>, n: Node, k: Key)
    requires k in NodeKeys(path, n)
    ensures |k.path| > |path| && k.path[..|path|] == path && k.path[|path|] == Component(n.data)
    ensures |k.path| == |path| + 1 ==> k == KeyOf(path, n)
    decreases n
  {
    var head := KeyOf(path, n);
    if k != head {
      var i := KeyAt(head.path, n.kids, k);
      KeyExtends(head.path, n.kids[i], k);
      assert k.path[..|path|] == k.path[..|head.path|][..|path|];
      assert k.path[|path|] == k.path[..|head.path|][|path|];
    }
  }

  /** Two siblings clash if somewhere along a common path both have a node of the same copy. */
  predicate Clash(m: Node, n: Node) {
    && Component(m.data) == Component(n.data)
    && (IsSe(m.data) == IsSe(n.data)
        || exists i, j :: 0 <= i < |m.kids| && 0 <= j < |n.kids| && Clash(m.kids[i], n.kids[j]))
  }

  predicate SiblingsApart(ns: seq<Node>) {
    && (forall n :: n in ns ==> SiblingsApart(n.kids))
    && (forall i, j :: 0 <= i < j < |ns| ==> !Clash(ns[i], ns[j]))
  }

  lemma {:induction false} SharedKeyClashes(path: seq<string>, m: Node, n: Node, k: Key)
    requires k in NodeKeys(path, m) && k in NodeKeys(path, n)
    ensures Clash(m, n)
    decreases m
  {
    KeyExtends(path, m, k);
    KeyExtends(path, n, k);
    var p, q := KeyOf(path, m), KeyOf(path, n);
    if k != p && k != q {
      var i := KeyAt(p.path, m.kids, k);
      var j := KeyAt(q.path, n.kids, k);
      SharedKeyClashes(p.path, m.kids[i], n.kids[j], k);
    }
  }

  lemma {:induction false} ClashShares(path: seq<string>, m: Node, n: Node) returns (k: Key)
    requires Clash(m, n)
    ensures k in NodeKeys(path, m) && k in NodeKeys(path, n)
    decreases m
  {
    k := KeyOf(path, m);
    if IsSe(m.data) != IsSe(n.data) {
      var i, j :| 0 <= i < |m.kids| && 0 <= j < |n.kids| && Clash(m.kids[i], n.kids[j]);
      var below := k.path;
      k := ClashShares(below, m.kids[i], n.kids[j]);
      KeyIn(below, m.kids, i, k);
      KeyIn(below, n.kids, j, k);
    }
  }

  lemma {:induction false} NodeKeysDistinct(path: seq<string>, n: Node)
    ensures var k := KeyOf(path, n); Distinct(NodeKeys(path, n)) <==> Distinct(Keys(k.path, n.kids))
  {
    var k := KeyOf(path, n);
    var below := Keys(k.path, n.kids);
    forall x | x in below ensures x != k {
      var i := KeyAt(k.path, n.kids, x);
      KeyExtends(k.path, n.kids[i], x);
    }
    DistinctJoin([k], below);
  }

  lemma {:induction false} ApartFromRest(path: seq<string>, n: Node, rest: seq<Node>)
    ensures (forall x, y :: x in NodeKeys(path, n) && y in Keys(path, rest) ==> x != y)
       <==> forall j :: 0 <= j < |rest| ==> !Clash(n, rest[j])
  {
    if x, y :| x in NodeKeys(path, n) && y in Keys(path, rest) && x == y {
      var j := KeyAt(path, rest, y);
      SharedKeyClashes(path, n, rest[j], x);
    }
    if j :| 0 <= j < |rest| && Clash(n, rest[j]) {
      var k := ClashShares(path, n, rest[j]);
      KeyIn(path, rest, j, k);
    }
  }

  lemma {:induction false} SiblingsApartStep(ns: seq<Node>)
    requires ns != []
    ensures SiblingsApart(ns)
       <==> && SiblingsApart(ns[0].kids) && SiblingsApart(ns[1..])
            && forall j :: 0 <= j < |ns[1..]| ==> !Clash(ns[0], ns[1..][j])
  {
    assert forall n :: n in ns <==> n == ns[0] || n in ns[1..];
    if SiblingsApart(ns) {
      forall j | 0 <= j < |ns[1..]| ensures !Clash(ns[0], ns[1..][j]) {
        assert ns[1..][j] == ns[j + 1];
      }
      forall i, j | 0 <= i < j < |ns[1..]| ensures !Clash(ns[1..][i], ns[1..][j]) {
        assert ns[1..][i] == ns[i + 1] && ns[1..][j] == ns[j + 1];
      }
    }
    if
      && SiblingsApart(ns[0].kids) && SiblingsApart(ns[1..])
      && forall j :: 0 <= j < |ns[1..]| ==> !Clash(ns[0], ns[1..][j])
    {
      forall i, j | 0 <= i < j < |ns| ensures !Clash(ns[i], ns[j]) {
        assert ns[j] == ns[1..][j - 1];
        assert i > 0 ==> ns[i] == ns[1..][i - 1];
      }
    }
  }

  /** Keys are distinct exactly if siblings are apart, at every level. */
  lemma {:induction false} KeysDistinctIff(path: seq<string>, ns: seq<Node>)
    ensures Distinct(Keys(path, ns)) <==> SiblingsApart(ns)
    decreases ns
  {
    if ns != [] {
      KeysDistinctIff(KeyOf(path, ns[0]).path, ns[0].kids);
      KeysDistinctIff(path, ns[1..]);
      KeysSplit(path, ns);
      NodeKeysDistinct(path, ns[0]);
      ApartFromRest(path, ns[0], ns[1..]);
      DistinctJoin(NodeKeys(path, ns[0]), Keys(path, ns[1..]));
      SiblingsApartStep(ns);
    }
  }

  // ----- siblings that are apart by name or by copy

  /** All of a subtree lies in the setting-group-edit copy, or none of it does. */
  predicate AllSe(n: Node, se: bool) {
    IsSe(n.data) == se && forall kid :: kid in n.kids ==> AllSe(kid, se)
  }

  /** Two siblings stay apart: by name, or as the edit copy and the ordinary copy of one name. */
  predicate Apart(m: Node, n: Node) {
    || Component(m.data) != Component(n.data)
    || (AllSe(m, true) && AllSe(n, false))
    || (AllSe(m, false) && AllSe(n, true))
  }

  lemma {:induction false} CopiesNeverClash(m: Node, n: Node, se: bool)
    requires AllSe(m, se) && AllSe(n, !se)
    ensures !Clash(m, n)
    decreases m
  {
    forall i, j | 0 <= i < |m.kids| && 0 <= j < |n.kids| ensures !Clash(m.kids[i], n.kids[j]) {
      CopiesNeverClash(m.kids[i], n.kids[j], se);
    }
  }

  /** No name contains '_', at any level. */
  ghost predicate PlainForest(ns: seq<Node>) {
    forall n :: n in ns ==> Free(Component(n.data), {'_'}) && PlainForest(n.kids)
  }

  /** No name contains '_', and siblings stay apart, at every level. */
  ghost predicate Clean(ns: seq<Node>) {
    && (forall n :: n in ns ==> Free(Component(n.data), {'_'}) && Clean(n.kids))
    && (forall i, j :: 0 <= i < j < |ns| ==> Apart(ns[i], ns[j]))
  }

  lemma {:induction false} CleanFrom(ns: seq<Node>)
    requires forall i :: 0 <= i < |ns| ==> Free(Component(ns[i].data), {'_'}) && Clean(ns[i].kids)
    requires forall i, j :: 0 <= i < j < |ns| ==> Apart(ns[i], ns[j])
    ensures Clean(ns)
  {
  }

  lemma {:induction false} CleanIsApart(ns: seq<Node>)
    requires Clean(ns)
    ensures PlainForest(ns) && SiblingsApart(ns)
  {
    forall n | n in ns ensures PlainForest(n.kids) && SiblingsApart(n.kids) {
      CleanIsApart(n.kids);
    }
    forall i, j | 0 <= i < j < |ns| ensures !Clash(ns[i], ns[j]) {
      assert Apart(ns[i], ns[j]);
      if Component(ns[i].data) == Component(ns[j].data) {
        CopiesNeverClash(ns[i], ns[j], AllSe(ns[i], true));
      }
    }
  }

  lemma {:induction false} KeysPlain(path: seq<string>, ns: seq<Node>, k: Key)
    requires PlainForest(ns) && Plain(path) && k in Keys(path, ns)
    ensures Plain(k.path)
    decreases ns
  {
    var i := KeyAt(path, ns, k);
    var head := KeyOf(path, ns[i]);
    assert ns[i] in ns;
    if k != head {
      KeysPlain(head.path, ns[i].kids, k);
    }
  }

  /** The names a symbol spells after the prefix. */
  function Route(k: Key): seq<string> {
    if k.se then ["SE"] + k.path else k.path
  }

  lemma {:induction false} SymbolRoute(px: string, k: Key)
    ensures Symbol(px, k) == px + Join(Route(k))
  {
    if k.se {
      assert Route(k)[1..] == k.path;
    }
  }

  lemma {:induction false} SymbolInjective(px: string, k: Key, l: Key)
    requires Plain(k.path) && Plain(l.path) && k.path != [] && l.path != []
    requires k.path[0] != "SE" && l.path[0] != "SE"
    requires Symbol(px, k) == Symbol(px, l)
    ensures k == l
  {
    SymbolRoute(px, k);
    SymbolRoute(px, l);
    assert Join(Route(k)) == Symbol(px, k)[|px|..] == Symbol(px, l)[|px|..] == Join(Route(l));
    JoinInjective(Route(k), Route(l));
    RouteInjective(k, l);
  }

  lemma {:induction false} RouteInjective(k: Key, l: Key)
    requires k.path != [] && l.path != [] && k.path[0] != "SE" && l.path[0] != "SE"
    requires Route(k) == Route(l)
    ensures k == l
  {
    assert k.se == (Route(k)[0] == "SE") && l.se == (Route(l)[0] == "SE");
    assert k.path == Route(k)[if k.se then 1 else 0..] && l.path == Route(l)[if l.se then 1 else 0..];
  }

  /** Naming is injective: for a forest of logical devices without '_' in any name and none called
      SE, the symbols are pairwise distinct exactly if siblings are apart at every level. */
  lemma {:induction false} SymbolsDistinctIff(px: string, ns: seq<Node>)
    requires PlainForest(ns) && forall n :: n in ns ==> Component(n.data) != "SE"
    ensures Distinct(Symbols(Layout(px, [], px, ns, None))) <==> SiblingsApart(ns)
  {
    var ks := Keys([], ns);
    LayoutSymbols(px, [], px, ns, None);
    KeysDistinctIff([], ns);
    forall i, j | 0 <= i < j < |ks| ensures Symbol(px, ks[i]) == Symbol(px, ks[j]) <==> ks[i] == ks[j] {
      assert ks[i] in ks && ks[j] in ks;
      InForest(ns, ks[i]);
      InForest(ns, ks[j]);
      if Symbol(px, ks[i]) == Symbol(px, ks[j]) {
        SymbolInjective(px, ks[i], ks[j]);
      }
    }
  }

  lemma {:induction false} InForest(ns: seq<Node>, k: Key)
    requires PlainForest(ns) && (forall n :: n in ns ==> Component(n.data) != "SE") && k in Keys([], ns)
    ensures Plain(k.path) && k.path != [] && k.path[0] != "SE"
  {
    KeysPlain([], ns, k);
    var i := KeyAt([], ns, k);
    KeyExtends([], ns[i], k);
  }
}
