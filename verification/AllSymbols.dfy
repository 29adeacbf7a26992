/** The C symbols of everything the generator prints, taken together: model record, device, node, object
    and attribute records, control blocks of all kinds and the addresses of two of them, data sets and
    their entries. */
module AllSymbols {
  import opened Text
  import opened Instances
  import opened PointerGraph
  import opened ModelRecords
  import opened Linking
  import opened ModelTable
  import opened Chains
  import opened ControlBlocks
  import opened BlockPrinter
  import opened DataSets

  /** What a control block's symbol adds to that of its logical node, without the '_' between. */
  function LocalName(kind: Kind, k: nat): string {
    Suffix(kind)[1..] + (if kind.Sgcb? then "" else Itoa(k))
  }

  function BlockSymbols(kind: Kind, ap: ConnectedAp, sites: seq<Site>): seq<string> {
    EntryNames(AllEntries(kind, ap, sites))
  }

  function AllBlockSymbols(ap: ConnectedAp, sites: seq<Site>): seq<string> {
    BlockSymbols(Rcb, ap, sites) + BlockSymbols(Smv, ap, sites) + BlockSymbols(Gse, ap, sites)
    + BlockSymbols(Sgcb, ap, sites) + BlockSymbols(Lcb, ap, sites) + BlockSymbols(LogKind, ap, sites)
  }

  predicate HasAddress(b: Block) {
    match b
    case GseBlock(_, entry) => entry.address.Some?
    case SmvBlock(_, entry) => entry.Some? && entry.value.address.Some?
    case _ => false
  }

  /** The address objects printed in front of the blocks that have an address. */
  function AddressNames(es: seq<Entry>): seq<string> {
    if es == [] then []
    else (if HasAddress(es[0].block) then [es[0].name + "_address"] else []) + AddressNames(es[1..])
  }

  function AddressSymbols(ap: ConnectedAp, sites: seq<Site>): seq<string> {
    AddressNames(AllEntries(Gse, ap, sites)) + AddressNames(AllEntries(Smv, ap, sites))
  }

  function FcdaSymbols(px: string, sites: seq<DsSite>): seq<string> {
    SymbolsOf(AllFcdas(px, sites))
  }

  function PrintedSymbols(px: string, lds: seq<LogicalDevice>, ap: ConnectedAp): seq<string>
    requires Populated(lds)
  {
    [px] + Symbols(LdRecords(px, lds)) + (AllBlockSymbols(ap, Sites(px, lds)) + AddressSymbols(ap, Sites(px, lds)))
    + (DsNames(px, DsSites(lds)) + FcdaSymbols(px, DsSites(lds)))
  }

  // ----- what is among them

  predicate Addressed(e: Entry) {
    || (e.block.GseBlock? && e.block.gseAddress.address.Some?)
    || (e.block.SmvBlock? && e.block.smvAddress.Some? && e.block.smvAddress.value.address.Some?)
  }

  /** The symbol of a block of the kind, or of its address object. */
  ghost predicate OfBlock(kind: Kind, ap: ConnectedAp, sites: seq<Site>, x: string) {
    exists e :: e in AllEntries(kind, ap, sites)
                && (x == e.name || (kind in {Gse, Smv} && Addressed(e) && x == e.name + "_address"))
  }

  ghost predicate OfSomeBlock(ap: ConnectedAp, sites: seq<Site>, x: string) {
    exists kind :: OfBlock(kind, ap, sites, x)
  }

  ghost predicate OfRecord(recs: seq<Rec>, x: string) {
    exists r :: r in recs && r.symbol == x
  }

  ghost predicate OfDataSet(px: string, sites: seq<DsSite>, x: string) {
    exists s :: s in sites
                && (x == DsSymbol(px, s) || exists i: nat :: i < |s.ds.fcdas| && x == FcdaSymbol(DsSymbol(px, s), i))
  }

  lemma {:induction false} InAddresses(es: seq<Entry>, x: string)
    ensures x in AddressNames(es) <==> exists e :: e in es && Addressed(e) && x == e.name + "_address"
  {
    if es != [] {
      InAddresses(es[1..], x);
      assert forall e :: e in es <==> e == es[0] || e in es[1..];
    }
  }

  lemma {:induction false} InNames(es: seq<Entry>, x: string)
    ensures x in EntryNames(es) <==> exists e :: e in es && x == e.name
  {
    if x in EntryNames(es) {
      var i :| 0 <= i < |es| && EntryNames(es)[i] == x;
    }
    if e :| e in es && x == e.name {
      var i :| 0 <= i < |es| && es[i] == e;
      assert EntryNames(es)[i] == x;
    }
  }

  lemma {:induction false} InBlocks(ap: ConnectedAp, sites: seq<Site>, x: string)
    ensures x in AllBlockSymbols(ap, sites) + AddressSymbols(ap, sites) <==> OfSomeBlock(ap, sites, x)
  {
    InAllBlocks(ap, sites, x);
    forall kind: Kind
      ensures OfBlock(kind, ap, sites, x) <==> x in BlockSymbols(kind, ap, sites)
                                               || (kind in {Gse, Smv} && x in AddressNames(AllEntries(kind, ap, sites)))
    {
      InNames(AllEntries(kind, ap, sites), x);
      InAddresses(AllEntries(kind, ap, sites), x);
    }
  }

  lemma {:induction false} InDataSets(px: string, sites: seq<DsSite>, x: string)
    ensures x in DsNames(px, sites) + FcdaSymbols(px, sites) <==> OfDataSet(px, sites, x)
  {
    if x in DsNames(px, sites) {
      var n :| 0 <= n < |sites| && DsNames(px, sites)[n] == x;
      assert sites[n] in sites;
    }
    if x in FcdaSymbols(px, sites) {
      var t, i := EntrySymbol(px, sites, x);
      assert sites[t] in sites;
    }
    forall s | s in sites && x == DsSymbol(px, s) ensures x in DsNames(px, sites) {
      var n :| 0 <= n < |sites| && sites[n] == s;
      assert DsNames(px, sites)[n] == x;
    }
    forall s, i: nat | s in sites && i < |s.ds.fcdas| && x == FcdaSymbol(DsSymbol(px, s), i)
      ensures x in FcdaSymbols(px, sites)
    {
      var t :| 0 <= t < |sites| && sites[t] == s;
      EntryIsThere(px, sites, t, i);
    }
  }

  /** The symbols are those of the model, of every record, of every block and of every address object, of
      every data set and of every entry. */
  lemma {:induction false} EverySymbol(px: string, lds: seq<LogicalDevice>, ap: ConnectedAp, x: string)
    requires Populated(lds)
    ensures x in PrintedSymbols(px, lds, ap)
       <==> || x == px || OfRecord(LdRecords(px, lds), x)
            || OfSomeBlock(ap, Sites(px, lds), x) || OfDataSet(px, DsSites(lds), x)
  {
    InBlocks(ap, Sites(px, lds), x);
    InDataSets(px, DsSites(lds), x);
    InRecords(LdRecords(px, lds), x);
    InFour(px, Symbols(LdRecords(px, lds)), AllBlockSymbols(ap, Sites(px, lds)) + AddressSymbols(ap, Sites(px, lds)),
           DsNames(px, DsSites(lds)) + FcdaSymbols(px, DsSites(lds)), x);
  }

  lemma {:induction false} InRecords(recs: seq<Rec>, x: string)
    ensures x in Symbols(recs) <==> OfRecord(recs, x)
  {
    if x in Symbols(recs) {
      var i :| 0 <= i < |recs| && Symbols(recs)[i] == x;
      assert recs[i] in recs;
    }
    if r :| r in recs && r.symbol == x {
      var i :| 0 <= i < |recs| && recs[i] == r;
      assert Symbols(recs)[i] == x;
    }
  }

  lemma {:induction false} InFour(px: string, a: seq<string>, b: seq<string>, c: seq<string>, x: string)
    ensures x in [px] + a + b + c <==> x == px || x in a || x in b || x in c
  {
  }

  // ----- the naming conditions

  /** No data object is called like one of its node's control blocks: report0, gse0, sgcb and so on. */
  ghost predicate NoBlockNamed(ap: ConnectedAp, sites: seq<Site>) {
    forall s, kind, k, d :: s in sites && 0 <= k < |Blocks(kind, ap, s)| && d in s.ln.dos ==>
      d.name != LocalName(kind, k)
  }

  /** No data set is called like an entry of a data set of its node. */
  ghost predicate NoEntryNamed(lds: seq<LogicalDevice>) {
    forall ld, ln :: ld in lds && ln in ld.lns ==> EntriesApart(ln.dataSets)
  }

  ghost predicate EntriesApart(dataSets: seq<DataSet>) {
    forall a, b, i :: a in dataSets && b in dataSets && 0 <= i < |b.fcdas| ==> a.name != FcdaSymbol(b.name, i)
  }

  // ----- control blocks against one another

  lemma {:induction false} LocalNameTells(a: Kind, i: nat, b: Kind, j: nat)
    requires LocalName(a, i) == LocalName(b, j)
    ensures a == b
  {
    var x, y := LocalName(a, i), LocalName(b, j);
    assert x[0] == Suffix(a)[1] && y[0] == Suffix(b)[1] && x[1] == Suffix(a)[2] && y[1] == Suffix(b)[2];
  }

  lemma {:induction false} LocalNamePlain(kind: Kind, k: nat)
    ensures Free(LocalName(kind, k), {'_'})
  {
    assert Suffix(kind)[1..] in {"report", "lcb", "log", "gse", "smv", "sgcb"};
  }

  lemma {:induction false} LocalPart(head: string, kind: Kind, k: nat)
    ensures BlockName(kind, head, k) == head + "_" + LocalName(kind, k)
  {
    assert Suffix(kind) == "_" + Suffix(kind)[1..];
    Assoc(head, "_", Suffix(kind)[1..]);
    Assoc(head + "_", Suffix(kind)[1..], if kind.Sgcb? then "" else Itoa(k));
  }

  lemma {:induction false} BlockPath(px: string, inst: string, ln: string, kind: Kind, k: nat)
    ensures BlockName(kind, px + "_" + inst + "_" + ln, k) == Symbol(px, Key(false, [inst, ln, LocalName(kind, k)]))
  {
    var local := LocalName(kind, k);
    LocalPart(px + "_" + inst + "_" + ln, kind, k);
    PathSymbol(px, inst, ln);
    ChildSymbol(px, Key(false, [inst, ln]), local);
    assert [inst, ln] + [local] == [inst, ln, local];
    assert Symbol(px, Key(false, [inst, ln])) == px + Join([inst, ln]);
  }

  lemma {:induction false} KindsApart(px: string, lds: seq<LogicalDevice>, ap: ConnectedAp, a: Kind, b: Kind)
    requires WellNamed(lds) && a != b
    ensures forall x, y :: x in BlockSymbols(a, ap, Sites(px, lds)) && y in BlockSymbols(b, ap, Sites(px, lds)) ==>
              x != y
  {
    forall x, y | x in BlockSymbols(a, ap, Sites(px, lds)) && y in BlockSymbols(b, ap, Sites(px, lds)) ensures x != y {
      var k, i := BlockKey(px, lds, ap, a, x);
      var l, j := BlockKey(px, lds, ap, b, y);
      if x == y {
        SymbolInjective(px, k, l);
        assert k.path[2] == l.path[2];
        LocalNameTells(a, i, b, j);
      }
    }
  }

  /** The place a block's symbol spells. */
  lemma {:induction false} BlockKey(px: string, lds: seq<LogicalDevice>, ap: ConnectedAp, kind: Kind, x: string)
    returns (key: Key, k: nat)
    requires WellNamed(lds) && x in BlockSymbols(kind, ap, Sites(px, lds))
    ensures x == Symbol(px, key) && |key.path| == 3 && !key.se && Plain(key.path) && key.path[0] != "SE"
    ensures key.path[2] == LocalName(kind, k)
    ensures exists s :: s in Sites(px, lds) && SiteAt(px, s, key.path[0], key.path[1]) && k < |Blocks(kind, ap, s)|
  {
    var es := AllEntries(kind, ap, Sites(px, lds));
    var n :| 0 <= n < |es| && es[n].name == x;
    var s: Site;
    s, k := EntryOrigin(kind, ap, Sites(px, lds), es[n]);
    var d, m := SiteOrigin(px, lds, s);
    var inst, ln := lds[d].inst, lds[d].lns[m].Name();
    key := Key(false, [inst, ln, LocalName(kind, k)]);
    BlockPath(px, inst, ln, kind, k);
    LocalNamePlain(kind, k);
    assert lds[d] in lds && lds[d].lns[m] in lds[d].lns;
    assert SiteAt(px, s, inst, ln);
  }

  predicate SiteAt(px: string, s: Site, inst: string, ln: string) {
    s.symbol == px + "_" + inst + "_" + ln && s.ln.Name() == ln
  }

  lemma {:induction false} BlocksDistinct(px: string, lds: seq<LogicalDevice>, ap: ConnectedAp)
    requires WellNamed(lds)
    ensures Distinct(AllBlockSymbols(ap, Sites(px, lds)))
  {
    var sites := Sites(px, lds);
    SitesDistinct(px, lds);
    forall kind: Kind ensures Distinct(BlockSymbols(kind, ap, sites)) {
      EntriesDistinct(kind, ap, sites);
    }
    forall a: Kind, b: Kind | a != b
      ensures forall x, y :: x in BlockSymbols(a, ap, sites) && y in BlockSymbols(b, ap, sites) ==> x != y
    {
      KindsApart(px, lds, ap, a, b);
    }
    SixDistinct(BlockSymbols(Rcb, ap, sites), BlockSymbols(Smv, ap, sites), BlockSymbols(Gse, ap, sites),
                BlockSymbols(Sgcb, ap, sites), BlockSymbols(Lcb, ap, sites), BlockSymbols(LogKind, ap, sites));
  }

  ghost predicate NoShared(a: seq<string>, b: seq<string>) {
    forall x, y :: x in a && y in b ==> x != y
  }

  lemma {:induction false} SixDistinct(a: seq<string>, b: seq<string>, c: seq<string>, d: seq<string>, e: seq<string>,
                                       f: seq<string>)
    requires Distinct(a) && Distinct(b) && Distinct(c) && Distinct(d) && Distinct(e) && Distinct(f)
    requires NoShared(a, b) && NoShared(a, c) && NoShared(a, d) && NoShared(a, e) && NoShared(a, f)
    requires NoShared(b, c) && NoShared(b, d) && NoShared(b, e) && NoShared(b, f)
    requires NoShared(c, d) && NoShared(c, e) && NoShared(c, f) && NoShared(d, e) && NoShared(d, f) && NoShared(e, f)
    ensures Distinct(a + b + c + d + e + f)
  {
    DistinctJoin(a, b);
    DistinctJoin(a + b, c);
    DistinctJoin(a + b + c, d);
    DistinctJoin(a + b + c + d, e);
    DistinctJoin(a + b + c + d + e, f);
  }

  // ----- control blocks against data objects

  ghost predicate HasObject(lds: seq<LogicalDevice>, inst: string, ln: string, name: string) {
    exists d, n, m :: 0 <= d < |lds| && 0 <= n < |lds[d].lns| && 0 <= m < |lds[d].lns[n].dos|
                      && IsObject(lds, d, n, m, inst, ln, name)
  }

  predicate IsObject(lds: seq<LogicalDevice>, d: nat, n: nat, m: nat, inst: string, ln: string, name: string)
    requires d < |lds| && n < |lds[d].lns| && m < |lds[d].lns[n].dos|
  {
    lds[d].inst == inst && lds[d].lns[n].Name() == ln && lds[d].lns[n].dos[m].name == name
  }

  /** The keys of three names outside the edit copy are those of data objects. */
  lemma {:induction false} ObjectKey(lds: seq<LogicalDevice>, inst: string, ln: string, name: string)
    ensures Key(false, [inst, ln, name]) in Keys([], ModelForest(lds)) <==> HasObject(lds, inst, ln, name)
  {
    var k := Key(false, [inst, ln, name]);
    if k in Keys([], ModelForest(lds)) {
      ObjectOfKey(lds, k);
    }
    if d, n, m :| 0 <= d < |lds| && 0 <= n < |lds[d].lns| && 0 <= m < |lds[d].lns[n].dos|
                  && IsObject(lds, d, n, m, inst, ln, name)
    {
      KeyOfObject(lds, d, n, m);
      assert [] + [lds[d].inst] + [lds[d].lns[n].Name()] + [lds[d].lns[n].dos[m].name] == [inst, ln, name];
    }
  }

  lemma {:induction false} KeyOfObject(lds: seq<LogicalDevice>, d: nat, n: nat, m: nat)
    requires d < |lds| && n < |lds[d].lns| && m < |lds[d].lns[n].dos|
    ensures Key(false, [] + [lds[d].inst] + [lds[d].lns[n].Name()] + [lds[d].lns[n].dos[m].name])
            in Keys([], ModelForest(lds))
  {
    var ld, ln := lds[d], lds[d].lns[n];
    var lnPath := [] + [ld.inst] + [ln.Name()];
    var k := Key(false, lnPath + [ln.dos[m].name]);
    ModelForestAt(lds, d);
    LnForestAt(ld.lns, n);
    DoForestAt(ln.dos, false, m);
    assert k == KeyOf(lnPath, DoForest(ln.dos, false)[m]);
    KeyIn(lnPath, DoForest(ln.dos, false), m, k);
    KeyIn([] + [ld.inst], LnForest(ld.lns), n, k);
    KeyIn([], ModelForest(lds), d, k);
  }

  lemma {:induction false} KidKey(path: seq<string>, n: Node, k: Key)
    requires k in NodeKeys(path, n) && |k.path| > |path| + 1
    ensures k.path[|path|] == Component(n.data) && k in Keys(path + [Component(n.data)], n.kids)
  {
    KeyExtends(path, n, k);
    assert k != KeyOf(path, n);
  }

  lemma {:induction false} DeviceOfKey(lds: seq<LogicalDevice>, k: Key) returns (d: nat)
    requires k in Keys([], ModelForest(lds)) && |k.path| >= 3
    ensures d < |lds| && k.path[0] == lds[d].inst && k in Keys([] + [lds[d].inst], LnForest(lds[d].lns))
  {
    d := KeyAt([], ModelForest(lds), k);
    if lds != [] {
      ModelForestAt(lds, 0);
    }
    ModelForestAt(lds, d);
    KidKey([], ModelForest(lds)[d], k);
  }

  lemma {:induction false} NodeOfKey(inst: string, lns: seq<LogicalNode>, k: Key) returns (n: nat)
    requires k in Keys([] + [inst], LnForest(lns)) && |k.path| >= 3
    ensures n < |lns| && k.path[1] == lns[n].Name()
    ensures k in Keys([] + [inst] + [lns[n].Name()], DoForest(lns[n].dos, false))
  {
    n := KeyAt([] + [inst], LnForest(lns), k);
    if lns != [] {
      LnForestAt(lns, 0);
    }
    LnForestAt(lns, n);
    KidKey([] + [inst], LnForest(lns)[n], k);
  }

  lemma {:induction false} DoOfKey(path: seq<string>, dos: seq<DataObject>, k: Key) returns (m: nat)
    requires k in Keys(path, DoForest(dos, false)) && |path| == 2
    ensures m < |dos| && |k.path| >= 3 && k.path[2] == dos[m].name
  {
    m := KeyAt(path, DoForest(dos, false), k);
    if dos != [] {
      DoForestAt(dos, false, 0);
    }
    DoForestAt(dos, false, m);
    KeyExtends(path, DoForest(dos, false)[m], k);
  }

  /** Three names into the table one is at a data object. */
  lemma {:induction false} ObjectOfKey(lds: seq<LogicalDevice>, k: Key)
    requires k in Keys([], ModelForest(lds)) && |k.path| >= 3
    ensures HasObject(lds, k.path[0], k.path[1], k.path[2])
  {
    var d := DeviceOfKey(lds, k);
    var n := NodeOfKey(lds[d].inst, lds[d].lns, k);
    var m := DoOfKey([] + [lds[d].inst] + [lds[d].lns[n].Name()], lds[d].lns[n].dos, k);
    assert IsObject(lds, d, n, m, k.path[0], k.path[1], k.path[2]);
  }

  /** A symbol that spells plain names is a record's exactly if its key is a node's. */
  lemma {:induction false} KeyRecord(px: string, lds: seq<LogicalDevice>, key: Key)
    requires FitsCut(px) && Populated(lds) && WellNamed(lds)
    requires key.path != [] && Plain(key.path) && key.path[0] != "SE"
    ensures Symbol(px, key) in Symbols(LdRecords(px, lds)) <==> key in Keys([], ModelForest(lds))
  {
    var ns := ModelForest(lds);
    var ks := Keys([], ns);
    ModelClean(lds);
    CleanIsApart(ns);
    ModelFitting(lds);
    ModelLinked(px, lds);
    LayoutSymbols(px, [], px, ns, None);
    if key in ks {
      var i :| 0 <= i < |ks| && ks[i] == key;
      assert Render(px, ks)[i] == Symbol(px, key);
    }
    if Symbol(px, key) in Render(px, ks) {
      var i :| 0 <= i < |ks| && Render(px, ks)[i] == Symbol(px, key);
      InForest(ns, ks[i]);
      SymbolInjective(px, ks[i], key);
    }
  }

  /** A symbol that spells three names is a record's exactly if there is such a data object. */
  lemma {:induction false} ObjectRecord(px: string, lds: seq<LogicalDevice>, key: Key)
    requires FitsCut(px) && Populated(lds) && WellNamed(lds)
    requires |key.path| == 3 && !key.se && Plain(key.path) && key.path[0] != "SE"
    ensures Symbol(px, key) in Symbols(LdRecords(px, lds)) <==> HasObject(lds, key.path[0], key.path[1], key.path[2])
  {
    KeyRecord(px, lds, key);
    ObjectKey(lds, key.path[0], key.path[1], key.path[2]);
    assert key == Key(false, [key.path[0], key.path[1], key.path[2]]);
  }

  lemma {:induction false} ObjectOfSite(px: string, lds: seq<LogicalDevice>, s: Site, inst: string, ln: string,
                                        name: string)
    requires WellNamed(lds) && s in Sites(px, lds) && SiteAt(px, s, inst, ln) && HasObject(lds, inst, ln, name)
    ensures exists o :: o in s.ln.dos && o.name == name
  {
    var d, n, m :| 0 <= d < |lds| && 0 <= n < |lds[d].lns| && 0 <= m < |lds[d].lns[n].dos|
                   && IsObject(lds, d, n, m, inst, ln, name);
    SameNode(px, lds, s, d, n);
    assert lds[d].lns[n].dos[m] in s.ln.dos;
  }

  lemma {:induction false} BlocksFromObjects(px: string, lds: seq<LogicalDevice>, ap: ConnectedAp, kind: Kind,
                                             x: string)
    requires FitsCut(px) && Populated(lds) && WellNamed(lds)
    requires NoBlockNamed(ap, Sites(px, lds)) && x in BlockSymbols(kind, ap, Sites(px, lds))
    ensures x !in Symbols(LdRecords(px, lds))
  {
    var key, k := BlockKey(px, lds, ap, kind, x);
    ObjectRecord(px, lds, key);
    var s :| s in Sites(px, lds) && SiteAt(px, s, key.path[0], key.path[1]) && k < |Blocks(kind, ap, s)|;
    if HasObject(lds, key.path[0], key.path[1], key.path[2]) {
      ObjectOfSite(px, lds, s, key.path[0], key.path[1], key.path[2]);
    }
  }

  /** A logical node is told by its names. */
  lemma {:induction false} SameNode(px: string, lds: seq<LogicalDevice>, s: Site, d: nat, n: nat)
    requires WellNamed(lds) && s in Sites(px, lds) && d < |lds| && n < |lds[d].lns|
    requires SiteAt(px, s, lds[d].inst, lds[d].lns[n].Name())
    ensures s.ln == lds[d].lns[n]
  {
    var e, m := SiteOrigin(px, lds, s);
    assert lds[d] in lds && lds[e] in lds && lds[d].lns[n] in lds[d].lns && lds[e].lns[m] in lds[e].lns;
    LnSymbolInjective(px, lds[d].inst, lds[d].lns[n].Name(), lds[e].inst, lds[e].lns[m].Name());
    assert d == e;
  }

  lemma {:induction false} EntryPresent(kind: Kind, ap: ConnectedAp, sites: seq<Site>, s: Site, k: nat)
    requires s in sites && k < |Blocks(kind, ap, s)|
    ensures BlockName(kind, s.symbol, k) in BlockSymbols(kind, ap, sites)
  {
    var here := EntriesFrom(kind, sites[0].symbol, 0, Blocks(kind, ap, sites[0]));
    EntryNamesAppend(here, AllEntries(kind, ap, sites[1..]));
    if s == sites[0] {
      assert EntryNames(here)[k] == BlockName(kind, s.symbol, k);
    } else {
      EntryPresent(kind, ap, sites[1..], s, k);
    }
  }

  lemma {:induction false} InAllBlocks(ap: ConnectedAp, sites: seq<Site>, x: string)
    ensures x in AllBlockSymbols(ap, sites) <==> exists kind :: x in BlockSymbols(kind, ap, sites)
  {
    if kind :| x in BlockSymbols(kind, ap, sites) {
      match kind
      case Rcb => case Smv => case Gse => case Sgcb => case Lcb => case LogKind =>
    }
  }

  lemma {:induction false} NamedBlockCollides(px: string, lds: seq<LogicalDevice>, ap: ConnectedAp, s: Site,
                                              kind: Kind, k: nat, o: DataObject)
    requires FitsCut(px) && Populated(lds) && WellNamed(lds)
    requires s in Sites(px, lds) && k < |Blocks(kind, ap, s)| && o in s.ln.dos && o.name == LocalName(kind, k)
    ensures exists x :: x in Symbols(LdRecords(px, lds)) && x in BlockSymbols(kind, ap, Sites(px, lds))
  {
    var d, n := SiteOrigin(px, lds, s);
    var inst, ln := lds[d].inst, lds[d].lns[n].Name();
    var key := Key(false, [inst, ln, LocalName(kind, k)]);
    BlockPath(px, inst, ln, kind, k);
    LocalNamePlain(kind, k);
    assert lds[d] in lds && lds[d].lns[n] in lds[d].lns;
    var m :| 0 <= m < |s.ln.dos| && s.ln.dos[m] == o;
    assert IsObject(lds, d, n, m, inst, ln, o.name);
    ObjectRecord(px, lds, key);
    EntryPresent(kind, ap, Sites(px, lds), s, k);
    assert Symbol(px, key) in Symbols(LdRecords(px, lds));
  }

  lemma {:induction false} UnnamedIsApart(px: string, lds: seq<LogicalDevice>, ap: ConnectedAp)
    requires FitsCut(px) && Populated(lds) && WellNamed(lds) && NoBlockNamed(ap, Sites(px, lds))
    ensures NoShared(Symbols(LdRecords(px, lds)), AllBlockSymbols(ap, Sites(px, lds)))
  {
    forall x | x in AllBlockSymbols(ap, Sites(px, lds)) ensures x !in Symbols(LdRecords(px, lds)) {
      InAllBlocks(ap, Sites(px, lds), x);
      var kind :| x in BlockSymbols(kind, ap, Sites(px, lds));
      BlocksFromObjects(px, lds, ap, kind, x);
    }
  }

  lemma {:induction false} NamedIsShared(px: string, lds: seq<LogicalDevice>, ap: ConnectedAp)
    requires FitsCut(px) && Populated(lds) && WellNamed(lds) && !NoBlockNamed(ap, Sites(px, lds))
    ensures !NoShared(Symbols(LdRecords(px, lds)), AllBlockSymbols(ap, Sites(px, lds)))
  {
    var sites := Sites(px, lds);
    var s, kind, k, o :| s in sites && 0 <= k < |Blocks(kind, ap, s)| && o in s.ln.dos && o.name == LocalName(kind, k);
    NamedBlockCollides(px, lds, ap, s, kind, k, o);
    var x :| x in Symbols(LdRecords(px, lds)) && x in BlockSymbols(kind, ap, sites);
    InAllBlocks(ap, sites, x);
  }

  // ----- addresses

  lemma {:induction false} AddressOf(es: seq<Entry>, x: string) returns (n: nat)
    requires x in AddressNames(es)
    ensures n < |es| && x == es[n].name + "_address"
  {
    if HasAddress(es[0].block) && x == es[0].name + "_address" {
      n := 0;
    } else {
      n := AddressOf(es[1..], x);
      n := n + 1;
    }
  }

  lemma {:induction false} AddressesDistinct(es: seq<Entry>)
    requires Distinct(EntryNames(es))
    ensures Distinct(AddressNames(es))
  {
    if es != [] {
      var names := EntryNames(es);
      assert forall i :: 0 <= i < |es| ==> names[i] == es[i].name;
      assert EntryNames(es[1..]) == names[1..];
      AddressesDistinct(es[1..]);
      var here := if HasAddress(es[0].block) then [es[0].name + "_address"] else [];
      forall x, y | x in here && y in AddressNames(es[1..]) ensures x != y {
        var n := AddressOf(es[1..], y);
        assert names[0] != names[n + 1];
        assert x[..|x| - 8] == es[0].name && y[..|y| - 8] == es[1..][n].name;
      }
      DistinctJoin(here, AddressNames(es[1..]));
    }
  }

  /** The place an address object's symbol spells: one below that of its block. */
  lemma {:induction false} AddressKey(px: string, lds: seq<LogicalDevice>, ap: ConnectedAp, kind: Kind, x: string)
    returns (key: Key, k: nat)
    requires WellNamed(lds) && x in AddressNames(AllEntries(kind, ap, Sites(px, lds)))
    ensures x == Symbol(px, key) && |key.path| == 4 && !key.se && Plain(key.path) && key.path[0] != "SE"
    ensures key.path[2] == LocalName(kind, k)
    ensures exists s :: s in Sites(px, lds) && SiteAt(px, s, key.path[0], key.path[1]) && k < |Blocks(kind, ap, s)|
  {
    var es := AllEntries(kind, ap, Sites(px, lds));
    var n := AddressOf(es, x);
    assert EntryNames(es)[n] == es[n].name;
    var block: Key;
    block, k := BlockKey(px, lds, ap, kind, es[n].name);
    key := Key(false, block.path + ["address"]);
    AddressPath(px, block);
  }

  lemma {:induction false} AddressPath(px: string, block: Key)
    requires !block.se && Plain(block.path)
    ensures Symbol(px, Key(false, block.path + ["address"])) == Symbol(px, block) + "_address"
    ensures Plain(block.path + ["address"])
  {
    ChildSymbol(px, block, "address");
    Assoc(Symbol(px, block), "_", "address");
    assert "_" + "address" == "_address" && Free("address", {'_'});
  }

  lemma {:induction false} AddressesApart(px: string, lds: seq<LogicalDevice>, ap: ConnectedAp)
    requires WellNamed(lds)
    ensures Distinct(AddressSymbols(ap, Sites(px, lds)))
  {
    var sites := Sites(px, lds);
    SitesDistinct(px, lds);
    EntriesDistinct(Gse, ap, sites);
    EntriesDistinct(Smv, ap, sites);
    AddressesDistinct(AllEntries(Gse, ap, sites));
    AddressesDistinct(AllEntries(Smv, ap, sites));
    var gse, smv := AddressNames(AllEntries(Gse, ap, sites)), AddressNames(AllEntries(Smv, ap, sites));
    forall x, y | x in gse && y in smv ensures x != y {
      var k, i := AddressKey(px, lds, ap, Gse, x);
      var l, j := AddressKey(px, lds, ap, Smv, y);
      if x == y {
        SymbolInjective(px, k, l);
        LocalNameTells(Gse, i, Smv, j);
      }
    }
    DistinctJoin(gse, smv);
  }

  lemma {:induction false} AddressKind(ap: ConnectedAp, sites: seq<Site>, x: string) returns (kind: Kind)
    requires x in AddressSymbols(ap, sites)
    ensures x in AddressNames(AllEntries(kind, ap, sites))
  {
    kind := if x in AddressNames(AllEntries(Gse, ap, sites)) then Gse else Smv;
  }

  lemma {:induction false} BlocksAgainstAddresses(px: string, lds: seq<LogicalDevice>, ap: ConnectedAp)
    requires WellNamed(lds)
    ensures NoShared(AllBlockSymbols(ap, Sites(px, lds)), AddressSymbols(ap, Sites(px, lds)))
  {
    var sites := Sites(px, lds);
    forall x, y | x in AllBlockSymbols(ap, sites) && y in AddressSymbols(ap, sites) ensures x != y {
      InAllBlocks(ap, sites, x);
      var a: Kind :| x in BlockSymbols(a, ap, sites);
      var b := AddressKind(ap, sites, y);
      var k, i := BlockKey(px, lds, ap, a, x);
      var l, j := AddressKey(px, lds, ap, b, y);
      if x == y {
        SymbolInjective(px, k, l);
      }
    }
  }

  /** A record below a place called like a block would need a data object of that name. */
  lemma {:induction false} RecordsAgainstAddresses(px: string, lds: seq<LogicalDevice>, ap: ConnectedAp)
    requires FitsCut(px) && Populated(lds) && WellNamed(lds) && NoBlockNamed(ap, Sites(px, lds))
    ensures NoShared(Symbols(LdRecords(px, lds)), AddressSymbols(ap, Sites(px, lds)))
  {
    forall x | x in AddressSymbols(ap, Sites(px, lds)) ensures x !in Symbols(LdRecords(px, lds)) {
      var kind := AddressKind(ap, Sites(px, lds), x);
      AddressNoRecord(px, lds, ap, kind, x);
    }
  }

  lemma {:induction false} AddressNoRecord(px: string, lds: seq<LogicalDevice>, ap: ConnectedAp, kind: Kind, x: string)
    requires FitsCut(px) && Populated(lds) && WellNamed(lds) && NoBlockNamed(ap, Sites(px, lds))
    requires x in AddressNames(AllEntries(kind, ap, Sites(px, lds)))
    ensures x !in Symbols(LdRecords(px, lds))
  {
    var key, k := AddressKey(px, lds, ap, kind, x);
    KeyRecord(px, lds, key);
    var s :| s in Sites(px, lds) && SiteAt(px, s, key.path[0], key.path[1]) && k < |Blocks(kind, ap, s)|;
    if key in Keys([], ModelForest(lds)) {
      ObjectOfKey(lds, key);
      ObjectOfSite(px, lds, s, key.path[0], key.path[1], key.path[2]);
    }
  }

  lemma {:induction false} RecordsAgainstBlocks(px: string, lds: seq<LogicalDevice>, ap: ConnectedAp)
    requires FitsCut(px) && Populated(lds) && WellNamed(lds)
    ensures NoShared(Symbols(LdRecords(px, lds)), AllBlockSymbols(ap, Sites(px, lds)))
       <==> NoBlockNamed(ap, Sites(px, lds))
  {
    if NoBlockNamed(ap, Sites(px, lds)) {
      UnnamedIsApart(px, lds, ap);
    } else {
      NamedIsShared(px, lds, ap);
    }
  }

  // ----- data sets against their entries

  lemma {:induction false} EntryAsDataSet(px: string, s: DsSite, i: nat)
    ensures FcdaSymbol(DsSymbol(px, s), i) == DsSymbol(px, s.(ds := s.ds.(name := FcdaSymbol(s.ds.name, i))))
  {
    var head := px + "ds_" + s.ldInst + "_" + s.lnName + "_";
    assert head + s.ds.name + "_fcda" + Itoa(i) == head + (s.ds.name + "_fcda" + Itoa(i));
  }

  lemma {:induction false} EntrySymbol(px: string, sites: seq<DsSite>, x: string) returns (t: nat, i: nat)
    requires x in FcdaSymbols(px, sites)
    ensures t < |sites| && i < |sites[t].ds.fcdas| && x == FcdaSymbol(DsSymbol(px, sites[t]), i)
  {
    var items := AllFcdas(px, sites);
    var n :| 0 <= n < |items| && items[n].symbol == x;
    t, i := FcdaOrigin(px, sites, items[n]);
  }

  lemma {:induction false} EntryIsThere(px: string, sites: seq<DsSite>, t: nat, i: nat)
    requires t < |sites| && i < |sites[t].ds.fcdas|
    ensures FcdaSymbol(DsSymbol(px, sites[t]), i) in FcdaSymbols(px, sites)
  {
    var ds, fcdas := DsSymbol(px, sites[t]), sites[t].ds.fcdas;
    FcdaPresent(px, sites, t, i);
    FcdaItemAt(ds, fcdas, 0, i);
    var items := AllFcdas(px, sites);
    var n :| 0 <= n < |items| && items[n] == FcdaItems(ds, fcdas, 0)[i];
    assert SymbolsOf(items)[n] == FcdaSymbol(ds, i);
  }

  lemma {:induction false} FcdasDistinct(px: string, sites: seq<DsSite>)
    requires DistinctDs(px, sites)
    ensures Distinct(FcdaSymbols(px, sites))
  {
    if sites != [] {
      var s, rest := sites[0], sites[1..];
      var here := FcdaItems(DsSymbol(px, s), s.ds.fcdas, 0);
      forall i, j | 0 <= i < j < |rest| ensures DsSymbol(px, rest[i]) != DsSymbol(px, rest[j]) {
        assert rest[i] == sites[i + 1] && rest[j] == sites[j + 1];
      }
      FcdasDistinct(px, rest);
      OwnDistinct(DsSymbol(px, s), s.ds.fcdas);
      forall x, y | x in SymbolsOf(here) && y in FcdaSymbols(px, rest) ensures x != y {
        var i :| 0 <= i < |here| && here[i].symbol == x;
        FcdaItemAt(DsSymbol(px, s), s.ds.fcdas, 0, i);
        var t, j := EntrySymbol(px, rest, y);
        assert DsSymbol(px, sites[0]) != DsSymbol(px, sites[t + 1]);
        if x == y {
          FcdaSymbolInjective(DsSymbol(px, s), i, DsSymbol(px, rest[t]), j);
        }
      }
      DistinctJoin(SymbolsOf(here), FcdaSymbols(px, rest));
      assert FcdaSymbols(px, sites) == SymbolsOf(here) + FcdaSymbols(px, rest);
    }
  }

  lemma {:induction false} OwnDistinct(ds: string, fcdas: seq<Fcda>)
    ensures Distinct(SymbolsOf(FcdaItems(ds, fcdas, 0)))
  {
    var items := FcdaItems(ds, fcdas, 0);
    forall i, j | 0 <= i < j < |items| ensures items[i].symbol != items[j].symbol {
      FcdaItemAt(ds, fcdas, 0, i);
      FcdaItemAt(ds, fcdas, 0, j);
      if items[i].symbol == items[j].symbol {
        FcdaSymbolInjective(ds, i, ds, j);
      }
    }
  }

  /** Entries are apart from data sets exactly if they are by name within each site's node. */
  ghost predicate SitesNoEntryNamed(sites: seq<DsSite>) {
    forall a, b, i ::
      a in sites && b in sites && a.ldInst == b.ldInst && a.lnName == b.lnName && 0 <= i < |b.ds.fcdas| ==>
      a.ds.name != FcdaSymbol(b.ds.name, i)
  }

  lemma {:induction false} EntryNamedShared(px: string, sites: seq<DsSite>, a: DsSite, b: DsSite, i: nat)
    requires a in sites && b in sites && a.ldInst == b.ldInst && a.lnName == b.lnName && i < |b.ds.fcdas|
    requires a.ds.name == FcdaSymbol(b.ds.name, i)
    ensures DsSymbol(px, a) in DsNames(px, sites) && DsSymbol(px, a) in FcdaSymbols(px, sites)
  {
    var n :| 0 <= n < |sites| && sites[n] == a;
    var t :| 0 <= t < |sites| && sites[t] == b;
    EntryAsDataSet(px, b, i);
    EntryIsThere(px, sites, t, i);
    assert DsNames(px, sites)[n] == DsSymbol(px, a) == FcdaSymbol(DsSymbol(px, b), i);
  }

  lemma {:induction false} EntriesUnshared(px: string, sites: seq<DsSite>, x: string, y: string)
    requires PlainSites(sites) && SitesNoEntryNamed(sites) && x in DsNames(px, sites) && y in FcdaSymbols(px, sites)
    ensures x != y
  {
    var n :| 0 <= n < |sites| && DsNames(px, sites)[n] == x;
    var t, i := EntrySymbol(px, sites, y);
    var b := sites[t].(ds := sites[t].ds.(name := FcdaSymbol(sites[t].ds.name, i)));
    EntryAsDataSet(px, sites[t], i);
    assert sites[n] in sites && sites[t] in sites;
    if x == y {
      DsSymbolInjective(px, sites[n], b);
    }
  }

  lemma {:induction false} SetsAgainstEntries(px: string, sites: seq<DsSite>)
    requires PlainSites(sites)
    ensures NoShared(DsNames(px, sites), FcdaSymbols(px, sites)) <==> SitesNoEntryNamed(sites)
  {
    if SitesNoEntryNamed(sites) {
      forall x, y | x in DsNames(px, sites) && y in FcdaSymbols(px, sites) ensures x != y {
        EntriesUnshared(px, sites, x, y);
      }
    } else {
      var a, b, i :| a in sites && b in sites && a.ldInst == b.ldInst && a.lnName == b.lnName && 0 <= i < |b.ds.fcdas|
                     && a.ds.name == FcdaSymbol(b.ds.name, i);
      EntryNamedShared(px, sites, a, b, i);
    }
  }

  lemma {:induction false} SiteIsThere(lds: seq<LogicalDevice>, ld: LogicalDevice, ln: LogicalNode, ds: DataSet)
    requires ld in lds && ln in ld.lns && ds in ln.dataSets
    ensures DsSite(ld.inst, ln.Name(), ds) in DsSites(lds)
  {
    if ld == lds[0] {
      LnSiteIsThere(ld.inst, ld.lns, ln, ds);
    } else {
      SiteIsThere(lds[1..], ld, ln, ds);
    }
  }

  lemma {:induction false} LnSiteIsThere(inst: string, lns: seq<LogicalNode>, ln: LogicalNode, ds: DataSet)
    requires ln in lns && ds in ln.dataSets
    ensures DsSite(inst, ln.Name(), ds) in LnDsSites(inst, lns)
  {
    if ln == lns[0] {
      var i :| 0 <= i < |ln.dataSets| && ln.dataSets[i] == ds;
      assert HereSites(inst, ln)[i] == DsSite(inst, ln.Name(), ds);
    } else {
      LnSiteIsThere(inst, lns[1..], ln, ds);
    }
  }

  lemma {:induction false} LnSiteOf(inst: string, lns: seq<LogicalNode>, s: DsSite) returns (n: nat)
    requires s in LnDsSites(inst, lns)
    ensures n < |lns| && s.ldInst == inst && s.lnName == lns[n].Name() && s.ds in lns[n].dataSets
  {
    if s in HereSites(inst, lns[0]) {
      n := 0;
    } else {
      n := LnSiteOf(inst, lns[1..], s);
      n := n + 1;
    }
  }

  lemma {:induction false} DsSiteOf(lds: seq<LogicalDevice>, s: DsSite) returns (d: nat, n: nat)
    requires s in DsSites(lds)
    ensures d < |lds| && n < |lds[d].lns|
    ensures s.ldInst == lds[d].inst && s.lnName == lds[d].lns[n].Name() && s.ds in lds[d].lns[n].dataSets
  {
    if s in LnDsSites(lds[0].inst, lds[0].lns) {
      d := 0;
      n := LnSiteOf(lds[0].inst, lds[0].lns, s);
    } else {
      d, n := DsSiteOf(lds[1..], s);
      d := d + 1;
    }
  }

  lemma {:induction false} NoEntryNamedIff(lds: seq<LogicalDevice>)
    requires WellNamed(lds)
    ensures SitesNoEntryNamed(DsSites(lds)) <==> NoEntryNamed(lds)
  {
    var sites := DsSites(lds);
    if NoEntryNamed(lds) {
      forall a, b, i | a in sites && b in sites && a.ldInst == b.ldInst && a.lnName == b.lnName && 0 <= i < |b.ds.fcdas|
        ensures a.ds.name != FcdaSymbol(b.ds.name, i)
      {
        var d, n := DsSiteOf(lds, a);
        var e, m := DsSiteOf(lds, b);
        assert lds[d] in lds && lds[d].lns[n] in lds[d].lns && d == e && n == m;
        assert EntriesApart(lds[d].lns[n].dataSets);
      }
    }
    if SitesNoEntryNamed(sites) {
      forall ld, ln, a, b, i | ld in lds && ln in ld.lns && a in ln.dataSets && b in ln.dataSets && 0 <= i < |b.fcdas|
        ensures a.name != FcdaSymbol(b.name, i)
      {
        SiteIsThere(lds, ld, ln, a);
        SiteIsThere(lds, ld, ln, b);
        assert DsSite(ld.inst, ln.Name(), a).ds.name != FcdaSymbol(DsSite(ld.inst, ln.Name(), b).ds.name, i);
      }
    }
  }

  // ----- everything

  /** Symbols of records and blocks go on after the prefix with '_'; those of data sets with 'd'. */
  predicate GoesOn(px: string, x: string, c: char) {
    |x| > |px| && x[..|px|] == px && x[|px|] == c
  }

  lemma {:induction false} GoesOnMore(px: string, a: string, b: string, c: char)
    requires GoesOn(px, a, c)
    ensures GoesOn(px, a + b, c)
  {
    assert (a + b)[..|px|] == a[..|px|];
  }

  lemma {:induction false} DataSetGoesOn(px: string, s: DsSite)
    ensures GoesOn(px, DsSymbol(px, s), 'd')
  {
    var a := px + "ds_";
    assert a[..|px|] == px;
    GoesOnMore(px, a, s.ldInst, 'd');
    GoesOnMore(px, a + s.ldInst, "_", 'd');
    GoesOnMore(px, a + s.ldInst + "_", s.lnName, 'd');
    GoesOnMore(px, a + s.ldInst + "_" + s.lnName, "_", 'd');
    GoesOnMore(px, a + s.ldInst + "_" + s.lnName + "_", s.ds.name, 'd');
  }

  lemma {:induction false} DataSetsGoOn(px: string, sites: seq<DsSite>)
    ensures forall x :: x in DsNames(px, sites) + FcdaSymbols(px, sites) ==> GoesOn(px, x, 'd')
  {
    forall x | x in DsNames(px, sites) ensures GoesOn(px, x, 'd') {
      var n :| 0 <= n < |sites| && DsNames(px, sites)[n] == x;
      DataSetGoesOn(px, sites[n]);
    }
    forall x | x in FcdaSymbols(px, sites) ensures GoesOn(px, x, 'd') {
      var t, i := EntrySymbol(px, sites, x);
      DataSetGoesOn(px, sites[t]);
      GoesOnMore(px, DsSymbol(px, sites[t]), "_fcda", 'd');
      GoesOnMore(px, DsSymbol(px, sites[t]) + "_fcda", Itoa(i), 'd');
    }
  }

  lemma {:induction false} KeysGoOn(px: string, k: Key)
    requires k.path != []
    ensures GoesOn(px, Symbol(px, k), '_')
  {
    SymbolRoute(px, k);
  }

  lemma {:induction false} RecordsGoOn(px: string, lds: seq<LogicalDevice>)
    requires FitsCut(px) && Populated(lds) && WellNamed(lds)
    ensures forall x :: x in Symbols(LdRecords(px, lds)) ==> GoesOn(px, x, '_')
  {
    var ns := ModelForest(lds);
    var ks := Keys([], ns);
    ModelFitting(lds);
    ModelLinked(px, lds);
    LayoutSymbols(px, [], px, ns, None);
    forall x | x in Symbols(LdRecords(px, lds)) ensures GoesOn(px, x, '_') {
      var i :| 0 <= i < |ks| && Render(px, ks)[i] == x;
      var n := KeyAt([], ns, ks[i]);
      KeyExtends([], ns[n], ks[i]);
      KeysGoOn(px, ks[i]);
    }
  }

  lemma {:induction false} BlocksGoOn(px: string, lds: seq<LogicalDevice>, ap: ConnectedAp)
    requires WellNamed(lds)
    ensures forall x :: x in AllBlockSymbols(ap, Sites(px, lds)) + AddressSymbols(ap, Sites(px, lds)) ==>
              GoesOn(px, x, '_')
  {
    forall x | x in AllBlockSymbols(ap, Sites(px, lds)) ensures GoesOn(px, x, '_') {
      InAllBlocks(ap, Sites(px, lds), x);
      var kind :| x in BlockSymbols(kind, ap, Sites(px, lds));
      var key, k := BlockKey(px, lds, ap, kind, x);
      KeysGoOn(px, key);
    }
    forall x | x in AddressSymbols(ap, Sites(px, lds)) ensures GoesOn(px, x, '_') {
      var kind := AddressKind(ap, Sites(px, lds), x);
      var key, k := AddressKey(px, lds, ap, kind, x);
      KeysGoOn(px, key);
    }
  }

  lemma {:induction false} DataSetSymbolsDistinct(px: string, lds: seq<LogicalDevice>)
    requires WellNamed(lds)
    ensures Distinct(DsNames(px, DsSites(lds)) + FcdaSymbols(px, DsSites(lds)))
       <==> UniqueDataSets(lds) && NoEntryNamed(lds)
  {
    var sites := DsSites(lds);
    SitesPlain(lds);
    DistinctIffUnique(px, lds);
    SetsAgainstEntries(px, sites);
    NoEntryNamedIff(lds);
    DistinctJoin(DsNames(px, sites), FcdaSymbols(px, sites));
    assert Distinct(DsNames(px, sites)) <==> DistinctDs(px, sites);
    if DistinctDs(px, sites) {
      FcdasDistinct(px, sites);
    }
  }

  /** For a well-named model and a fitting prefix, no two things that are printed share a C symbol if and
      only if no data object is called like a control block of its node, data sets of one node have
      different names, and none is called like an entry of another. */
  lemma {:induction false} AllDistinctIff(px: string, lds: seq<LogicalDevice>, ap: ConnectedAp)
    requires FitsCut(px) && Populated(lds) && WellNamed(lds)
    ensures Distinct(PrintedSymbols(px, lds, ap))
       <==> NoBlockNamed(ap, Sites(px, lds)) && UniqueDataSets(lds) && NoEntryNamed(lds)
  {
    var recs, sites := Symbols(LdRecords(px, lds)), Sites(px, lds);
    var blocks, addresses := AllBlockSymbols(ap, sites), AddressSymbols(ap, sites);
    TableFaithful(px, lds);
    BlocksDistinct(px, lds, ap);
    AddressesApart(px, lds, ap);
    BlocksAgainstAddresses(px, lds, ap);
    DistinctJoin(blocks, addresses);
    RecordsAgainstAll(px, lds, ap);
    DataSetSymbolsDistinct(px, lds);
    RecordsGoOn(px, lds);
    BlocksGoOn(px, lds, ap);
    DataSetsGoOn(px, DsSites(lds));
    FourDistinct(px, recs, blocks + addresses, DsNames(px, DsSites(lds)) + FcdaSymbols(px, DsSites(lds)));
  }

  lemma {:induction false} RecordsAgainstAll(px: string, lds: seq<LogicalDevice>, ap: ConnectedAp)
    requires FitsCut(px) && Populated(lds) && WellNamed(lds)
    ensures NoShared(Symbols(LdRecords(px, lds)),
                     AllBlockSymbols(ap, Sites(px, lds)) + AddressSymbols(ap, Sites(px, lds)))
       <==> NoBlockNamed(ap, Sites(px, lds))
  {
    var blocks, addresses := AllBlockSymbols(ap, Sites(px, lds)), AddressSymbols(ap, Sites(px, lds));
    RecordsAgainstBlocks(px, lds, ap);
    assert forall y :: y in blocks + addresses <==> y in blocks || y in addresses;
    if NoBlockNamed(ap, Sites(px, lds)) {
      RecordsAgainstAddresses(px, lds, ap);
    }
  }

  lemma {:induction false} FourDistinct(px: string, recs: seq<string>, blocks: seq<string>, sets: seq<string>)
    requires Distinct(recs) && Distinct(blocks)
    requires (forall x :: x in recs ==> GoesOn(px, x, '_')) && (forall x :: x in blocks ==> GoesOn(px, x, '_'))
    requires forall x :: x in sets ==> GoesOn(px, x, 'd')
    ensures Distinct([px] + recs + blocks + sets) <==> NoShared(recs, blocks) && Distinct(sets)
  {
    var all := [px] + recs + blocks;
    DistinctJoin(all, sets);
    DistinctJoin([px] + recs, blocks);
    DistinctJoin([px], recs);
    forall x, y | x in all && y in sets ensures x != y {
      assert x == px || GoesOn(px, x, '_');
    }
    assert forall x, y :: x in [px] && y in recs ==> x != y;
    assert forall x :: x in [px] + recs <==> x == px || x in recs;
  }

  // ----- a data object called report0

  /** One logical node with a data object called report0 and one report control block. */
  function ReportModel(): seq<LogicalDevice> {
    [LogicalDevice("LD0", [OneLn([PlainDo("report0", [])]).(reports := [ReportControl("r", true, None)])])]
  }

  lemma {:induction false} ReportCollides(px: string, ap: ConnectedAp)
    requires FitsCut(px)
    ensures WellNamed(ReportModel()) && Populated(ReportModel()) && !Distinct(PrintedSymbols(px, ReportModel(), ap))
  {
    var dos, reports := [PlainDo("report0", [])], [ReportControl("r", true, None)];
    var ln := OneLn(dos).(reports := reports);
    assert ln.Name() == "LLN0" && Over("report0", PLAIN);
    NodeNamed(ln, "report0");
    var s := Site(px + "_" + "LD0", px + "_" + "LD0" + "_" + "LLN0", ln);
    assert LnSites(px + "_" + "LD0", [ln])[0] == s && s in Sites(px, ReportModel());
    assert |Blocks(Rcb, ap, s)| >= 1 by {
      assert RcbBlocks(reports) == RcbInstances(reports[0], 0) + RcbBlocks(reports[1..]);
    }
    assert Itoa(0) == "0" && LocalName(Rcb, 0) == "report0";
    assert dos[0] in s.ln.dos && dos[0].name == LocalName(Rcb, 0);
    assert !NoBlockNamed(ap, Sites(px, ReportModel()));
    AllDistinctIff(px, ReportModel(), ap);
  }
}
