/** Data sets and their entries: one chain over all data sets, and one chain of entries below each.
    The pointer to a data set's first entry is printed unconditionally, so the table reads back
    exactly if no data set is empty. */
module DataSets {
  import opened Text
  import opened Instances
  import opened ModelRecords
  import opened ModelTable
  import opened Chains

  /** What a data set record says; `first` is the symbol of its first entry. */
  datatype DsInfo = DsInfo(ldInst: string, lnName: string, name: string, count: nat, first: string)

  datatype DsSite = DsSite(ldInst: string, lnName: string, ds: DataSet)

  function DsSites(lds: seq<LogicalDevice>): seq<DsSite> {
    if lds == [] then [] else LnDsSites(lds[0].inst, lds[0].lns) + DsSites(lds[1..])
  }

  function LnDsSites(inst: string, lns: seq<LogicalNode>): seq<DsSite> {
    if lns == [] then []
    else HereSites(inst, lns[0]) + LnDsSites(inst, lns[1..])
  }

  function HereSites(inst: string, ln: LogicalNode): (sites: seq<DsSite>)
    ensures |sites| == |ln.dataSets|
    ensures forall i :: 0 <= i < |sites| ==> sites[i] == DsSite(inst, ln.Name(), ln.dataSets[i])
  {
    seq(|ln.dataSets|, i requires 0 <= i < |ln.dataSets| => DsSite(inst, ln.Name(), ln.dataSets[i]))
  }

  function DsSymbol(px: string, s: DsSite): string {
    px + "ds_" + s.ldInst + "_" + s.lnName + "_" + s.ds.name
  }

  function FcdaSymbol(ds: string, i: nat): string {
    ds + "_fcda" + Itoa(i)
  }

  function FcdaItems(ds: string, fcdas: seq<Fcda>, from: nat): (items: seq<Item<Fcda>>)
    requires from <= |fcdas|
    ensures |items| == |fcdas| - from
    decreases |fcdas| - from
  {
    if from == |fcdas| then []
    else
      [Item(FcdaSymbol(ds, from), fcdas[from], if from + 1 < |fcdas| then Some(FcdaSymbol(ds, from + 1)) else None)]
      + FcdaItems(ds, fcdas, from + 1)
  }

  function DsNames(px: string, sites: seq<DsSite>): (ns: seq<string>)
    ensures |ns| == |sites| && forall i :: 0 <= i < |sites| ==> ns[i] == DsSymbol(px, sites[i])
  {
    seq(|sites|, i requires 0 <= i < |sites| => DsSymbol(px, sites[i]))
  }

  function DsItem(names: seq<string>, s: DsSite, i: nat): Item<DsInfo>
    requires i < |names|
  {
    Item(names[i], DsInfo(s.ldInst, s.lnName, s.ds.name, |s.ds.fcdas|, FcdaSymbol(names[i], 0)), At(names, i + 1))
  }

  function DsItems(names: seq<string>, sites: seq<DsSite>): (items: seq<Item<DsInfo>>)
    requires |names| == |sites|
    ensures |items| == |sites| && forall i {:trigger items[i]} :: 0 <= i < |sites| ==>
              items[i] == DsItem(names, sites[i], i)
  {
    seq(|sites|, i requires 0 <= i < |sites| => DsItem(names, sites[i], i))
  }

  function AllFcdas(px: string, sites: seq<DsSite>): seq<Item<Fcda>> {
    if sites == [] then []
    else FcdaItems(DsSymbol(px, sites[0]), sites[0].ds.fcdas, 0) + AllFcdas(px, sites[1..])
  }

  /** The two outputs of the printing pass. */
  datatype Progress = Progress(dataSets: seq<Item<DsInfo>>, entries: seq<Item<Fcda>>)

  /** The outputs once the first `count` data sets have been printed. */
  function Advanced(px: string, start: Progress, sites: seq<DsSite>, count: nat): Progress
    requires count <= |sites|
  {
    Progress(start.dataSets + DsItems(DsNames(px, sites), sites)[..count], start.entries + AllFcdas(px, sites[..count]))
  }

  lemma {:induction false} FcdasAppend(px: string, a: seq<DsSite>, s: DsSite)
    ensures AllFcdas(px, a + [s]) == AllFcdas(px, a) + FcdaItems(DsSymbol(px, s), s.ds.fcdas, 0)
  {
    if a == [] {
      assert a + [s] == [s] && [s][1..] == [];
      assert AllFcdas(px, []) == [];
    } else {
      assert (a + [s])[1..] == a[1..] + [s];
      FcdasAppend(px, a[1..], s);
    }
  }

  lemma {:induction false} NextSite(sites: seq<DsSite>, next: nat, here: seq<DsSite>, k: nat, later: seq<DsSite>)
    requires next <= |sites| && k < |here| && sites[next..] == here[k..] + later
    ensures next < |sites| && sites[next] == here[k] && sites[next + 1..] == here[k + 1..] + later
  {
    assert sites[next..][0] == here[k] && sites[next..][1..] == sites[next + 1..];
    assert (here[k..] + later)[1..] == here[k + 1..] + later;
  }

  lemma {:induction false} AdvancedStep(px: string, start: Progress, sites: seq<DsSite>, i: nat)
    requires i < |sites|
    ensures var names, before := DsNames(px, sites), Advanced(px, start, sites, i);
            Advanced(px, start, sites, i + 1)
            == Progress(before.dataSets + [DsItem(names, sites[i], i)],
                        before.entries + FcdaItems(names[i], sites[i].ds.fcdas, 0))
  {
    var items := DsItems(DsNames(px, sites), sites);
    assert sites[..i + 1] == sites[..i] + [sites[i]];
    FcdasAppend(px, sites[..i], sites[i]);
    assert items[..i + 1] == items[..i] + [items[i]];
  }

  lemma {:induction false} AdvancedAll(px: string, start: Progress, sites: seq<DsSite>)
    ensures Advanced(px, start, sites, |sites|)
         == Progress(start.dataSets + DsItems(DsNames(px, sites), sites), start.entries + AllFcdas(px, sites))
  {
    assert sites[..|sites|] == sites;
  }

  lemma {:induction false} NamesStep(px: string, here: seq<DsSite>, k: nat, rest: seq<DsSite>, done: seq<string>)
    requires k < |here|
    ensures done + DsNames(px, here[k..] + rest) == done + [DsSymbol(px, here[k])] + DsNames(px, here[k + 1..] + rest)
  {
    assert here[k..] + rest == [here[k]] + (here[k + 1..] + rest);
    assert DsNames(px, here[k..] + rest) == [DsSymbol(px, here[k])] + DsNames(px, here[k + 1..] + rest);
  }

  lemma {:induction false} LnSitesStep(ld: LogicalDevice, j: nat, later: seq<DsSite>)
    requires j < |ld.lns|
    ensures LnDsSites(ld.inst, ld.lns[j..]) + later
         == HereSites(ld.inst, ld.lns[j]) + (LnDsSites(ld.inst, ld.lns[j + 1..]) + later)
  {
    assert ld.lns[j..][1..] == ld.lns[j + 1..];
    Assoc(HereSites(ld.inst, ld.lns[j]), LnDsSites(ld.inst, ld.lns[j + 1..]), later);
  }

  class DataSetPrinter {
    const modelPrefix: string
    var dataSetNames: seq<string>
    var dataSets: seq<Item<DsInfo>>
    var entries: seq<Item<Fcda>>

    constructor (modelPrefix: string)
      ensures this.modelPrefix == modelPrefix && dataSetNames == [] && dataSets == [] && entries == []
    {
      this.modelPrefix, dataSetNames, dataSets, entries := modelPrefix, [], [], [];
    }

    method PrintDataSets(lds: seq<LogicalDevice>)
      requires dataSetNames == []
      modifies this
      ensures dataSetNames == DsNames(modelPrefix, DsSites(lds))
      ensures dataSets == old(dataSets) + DsItems(DsNames(modelPrefix, DsSites(lds)), DsSites(lds))
      ensures entries == old(entries) + AllFcdas(modelPrefix, DsSites(lds))
    {
      ListDataSets(lds);
      ghost var sites, start := DsSites(lds), Progress(dataSets, entries);
      var index := 0;
      assert sites[0..] == sites && lds[0..] == lds;
      for i := 0 to |lds|
        invariant dataSetNames == DsNames(modelPrefix, sites)
        invariant index <= |sites| && sites[index..] == DsSites(lds[i..])
        invariant Progress(dataSets, entries) == Advanced(modelPrefix, start, sites, index)
      {
        assert lds[i..][1..] == lds[i + 1..];
        index := PrintLogicalDevice(lds[i], index, start, sites, DsSites(lds[i + 1..]));
      }
      assert sites[index..] == [] && index == |sites|;
      AdvancedAll(modelPrefix, start, sites);
    }

    method ListDataSets(lds: seq<LogicalDevice>)
      requires dataSetNames == []
      modifies this`dataSetNames
      ensures dataSetNames == DsNames(modelPrefix, DsSites(lds))
    {
      ghost var target := DsNames(modelPrefix, DsSites(lds));
      assert lds[0..] == lds;
      for i := 0 to |lds|
        invariant dataSetNames + DsNames(modelPrefix, DsSites(lds[i..])) == target
      {
        assert lds[i..][1..] == lds[i + 1..];
        ListLogicalDevice(lds[i], DsSites(lds[i + 1..]), target);
      }
      assert DsNames(modelPrefix, DsSites(lds[|lds|..])) == [];
    }

    method ListLogicalDevice(ld: LogicalDevice, ghost later: seq<DsSite>, ghost target: seq<string>)
      requires dataSetNames + DsNames(modelPrefix, LnDsSites(ld.inst, ld.lns) + later) == target
      modifies this`dataSetNames
      ensures dataSetNames + DsNames(modelPrefix, later) == target
    {
      assert ld.lns[0..] == ld.lns;
      for j := 0 to |ld.lns|
        invariant dataSetNames + DsNames(modelPrefix, LnDsSites(ld.inst, ld.lns[j..]) + later) == target
      {
        ghost var rest := LnDsSites(ld.inst, ld.lns[j + 1..]) + later;
        LnSitesStep(ld, j, later);
        ListLogicalNode(ld.inst, ld.lns[j], rest, target);
      }
      assert LnDsSites(ld.inst, ld.lns[|ld.lns|..]) + later == later;
    }

    method ListLogicalNode(inst: string, ln: LogicalNode, ghost later: seq<DsSite>, ghost target: seq<string>)
      requires dataSetNames + DsNames(modelPrefix, HereSites(inst, ln) + later) == target
      modifies this`dataSetNames
      ensures dataSetNames + DsNames(modelPrefix, later) == target
    {
      ghost var here := HereSites(inst, ln);
      assert here[0..] == here;
      for k := 0 to |ln.dataSets|
        invariant dataSetNames + DsNames(modelPrefix, here[k..] + later) == target
      {
        NamesStep(modelPrefix, here, k, later, dataSetNames);
        dataSetNames := dataSetNames + [DsSymbol(modelPrefix, DsSite(inst, ln.Name(), ln.dataSets[k]))];
      }
      assert here[|ln.dataSets|..] + later == later;
    }

    /** The data sets of one logical device, the first of them the index-th overall. */
    method PrintLogicalDevice(ld: LogicalDevice, index: nat, ghost start: Progress, ghost sites: seq<DsSite>,
                              ghost later: seq<DsSite>)
      returns (next: nat)
      requires dataSetNames == DsNames(modelPrefix, sites) && index <= |sites|
      requires sites[index..] == LnDsSites(ld.inst, ld.lns) + later
      requires Progress(dataSets, entries) == Advanced(modelPrefix, start, sites, index)
      modifies this`dataSets, this`entries
      ensures index <= next <= |sites| && sites[next..] == later
      ensures Progress(dataSets, entries) == Advanced(modelPrefix, start, sites, next)
    {
      next := index;
      assert ld.lns[0..] == ld.lns;
      for j := 0 to |ld.lns|
        invariant index <= next <= |sites|
        invariant sites[next..] == LnDsSites(ld.inst, ld.lns[j..]) + later
        invariant Progress(dataSets, entries) == Advanced(modelPrefix, start, sites, next)
      {
        ghost var rest := LnDsSites(ld.inst, ld.lns[j + 1..]) + later;
        LnSitesStep(ld, j, later);
        next := PrintLogicalNode(ld.inst, ld.lns[j], next, start, sites, rest);
      }
      assert LnDsSites(ld.inst, ld.lns[|ld.lns|..]) + later == later;
    }

    /** The data sets of one logical node, the first of them the index-th overall. */
    method PrintLogicalNode(inst: string, ln: LogicalNode, index: nat, ghost start: Progress, ghost sites: seq<DsSite>,
                            ghost later: seq<DsSite>)
      returns (next: nat)
      requires dataSetNames == DsNames(modelPrefix, sites) && index <= |sites|
      requires sites[index..] == HereSites(inst, ln) + later
      requires Progress(dataSets, entries) == Advanced(modelPrefix, start, sites, index)
      modifies this`dataSets, this`entries
      ensures index <= next <= |sites| && sites[next..] == later
      ensures Progress(dataSets, entries) == Advanced(modelPrefix, start, sites, next)
    {
      next := index;
      for k := 0 to |ln.dataSets|
        invariant next == index + k && next <= |sites|
        invariant sites[next..] == HereSites(inst, ln)[k..] + later
        invariant Progress(dataSets, entries) == Advanced(modelPrefix, start, sites, next)
      {
        ghost var before := Progress(dataSets, entries);
        NextSite(sites, next, HereSites(inst, ln), k, later);
        PrintDataSet(inst, ln.Name(), ln.dataSets[k], next);
        AdvancedStep(modelPrefix, start, sites, next);
        next := next + 1;
      }
      assert HereSites(inst, ln)[|ln.dataSets|..] + later == later;
    }

    method PrintDataSet(inst: string, lnName: string, dataSet: DataSet, index: nat)
      requires index < |dataSetNames|
      modifies this`dataSets, this`entries
      ensures dataSets == old(dataSets) + [DsItem(dataSetNames, DsSite(inst, lnName, dataSet), index)]
      ensures entries == old(entries) + FcdaItems(dataSetNames[index], dataSet.fcdas, 0)
    {
      var ds := dataSetNames[index];
      PrintEntries(ds, dataSet.fcdas);
      var next := if index + 1 < |dataSetNames| then Some(dataSetNames[index + 1]) else None;
      var info := DsInfo(inst, lnName, dataSet.name, |dataSet.fcdas|, FcdaSymbol(ds, 0));
      dataSets := dataSets + [Item(ds, info, next)];
    }

    method PrintEntries(ds: string, fcdas: seq<Fcda>)
      modifies this`entries
      ensures entries == old(entries) + FcdaItems(ds, fcdas, 0)
    {
      for i := 0 to |fcdas|
        invariant entries + FcdaItems(ds, fcdas, i) == old(entries) + FcdaItems(ds, fcdas, 0)
      {
        var next := if i + 1 < |fcdas| then Some(FcdaSymbol(ds, i + 1)) else None;
        entries := entries + [Item(FcdaSymbol(ds, i), fcdas[i], next)];
      }
    }
  }

  // ----- reading back

  /** Every data set with the entries its record leads to. */
  function WithEntries(infos: seq<DsInfo>, entries: seq<Item<Fcda>>, fuel: nat): Option<seq<DsSite>> {
    if infos == [] then Some([])
    else
      var fcdas := Walk(entries, Some(infos[0].first), fuel);
      var rest := WithEntries(infos[1..], entries, fuel);
      if fcdas.None? || rest.None? || |fcdas.value| != infos[0].count then None
      else Some([DsSite(infos[0].ldInst, infos[0].lnName, DataSet(infos[0].name, fcdas.value))] + rest.value)
  }

  function ReadDataSets(dataSets: seq<Item<DsInfo>>, entries: seq<Item<Fcda>>, head: Option<string>, fuel: nat)
    : Option<seq<DsSite>>
  {
    var infos := Walk(dataSets, head, fuel);
    if infos.None? then None else WithEntries(infos.value, entries, fuel)
  }

  ghost predicate DistinctDs(px: string, sites: seq<DsSite>) {
    forall i, j :: 0 <= i < j < |sites| ==> DsSymbol(px, sites[i]) != DsSymbol(px, sites[j])
  }

  lemma {:induction false} FcdaSymbolInjective(a: string, i: nat, b: string, j: nat)
    requires FcdaSymbol(a, i) == FcdaSymbol(b, j)
    ensures a == b && i == j
  {
    var s := "_fcda";
    assert EndsPlain(a + s) && EndsPlain(b + s);
    if |a| < |b| {
      ShorterStemDiffers(a + s, Itoa(i), b + s, Itoa(j));
    } else if |b| < |a| {
      ShorterStemDiffers(b + s, Itoa(j), a + s, Itoa(i));
    }
    assert a == FcdaSymbol(a, i)[..|a|] && b == FcdaSymbol(b, j)[..|b|];
    assert Itoa(i) == FcdaSymbol(a, i)[|a + s|..] && Itoa(j) == FcdaSymbol(b, j)[|b + s|..];
    ItoaInjective(i, j);
  }

  lemma {:induction false} FcdaItemAt(ds: string, fcdas: seq<Fcda>, from: nat, i: nat)
    requires from + i < |fcdas|
    ensures FcdaItems(ds, fcdas, from)[i]
         == Item(FcdaSymbol(ds, from + i), fcdas[from + i],
                 if from + i + 1 < |fcdas| then Some(FcdaSymbol(ds, from + i + 1)) else None)
    decreases i
  {
    if i > 0 {
      FcdaItemAt(ds, fcdas, from + 1, i - 1);
    }
  }

  /** Every entry record belongs to an entry of a data set, and looks as printed for it. */
  lemma {:induction false} FcdaOrigin(px: string, sites: seq<DsSite>, it: Item<Fcda>) returns (s: nat, i: nat)
    requires it in AllFcdas(px, sites)
    ensures s < |sites| && i < |sites[s].ds.fcdas|
    ensures it == FcdaItems(DsSymbol(px, sites[s]), sites[s].ds.fcdas, 0)[i]
    ensures it.symbol == FcdaSymbol(DsSymbol(px, sites[s]), i)
  {
    var here := FcdaItems(DsSymbol(px, sites[0]), sites[0].ds.fcdas, 0);
    if it in here {
      s := 0;
      i :| 0 <= i < |here| && here[i] == it;
      FcdaItemAt(DsSymbol(px, sites[0]), sites[0].ds.fcdas, 0, i);
    } else {
      s, i := FcdaOrigin(px, sites[1..], it);
      s := s + 1;
    }
  }

  lemma {:induction false} FcdaPresent(px: string, sites: seq<DsSite>, s: nat, i: nat)
    requires s < |sites| && i < |sites[s].ds.fcdas|
    ensures FcdaItems(DsSymbol(px, sites[s]), sites[s].ds.fcdas, 0)[i] in AllFcdas(px, sites)
  {
    if s > 0 {
      FcdaPresent(px, sites[1..], s - 1, i);
    }
  }

  lemma {:induction false} SitesDiffer(px: string, sites: seq<DsSite>, s: nat, t: nat)
    requires DistinctDs(px, sites) && s < |sites| && t < |sites| && s != t
    ensures DsSymbol(px, sites[s]) != DsSymbol(px, sites[t])
  {
  }

  /** An entry's symbol leads to that entry's record. */
  lemma {:induction false} FcdaFound(px: string, sites: seq<DsSite>, s: nat, i: nat)
    requires DistinctDs(px, sites) && s < |sites| && i < |sites[s].ds.fcdas|
    ensures var it := FcdaItems(DsSymbol(px, sites[s]), sites[s].ds.fcdas, 0)[i];
            LookupItem(AllFcdas(px, sites), FcdaSymbol(DsSymbol(px, sites[s]), i)) == Some(it)
  {
    FcdaPresent(px, sites, s, i);
    FcdaItemAt(DsSymbol(px, sites[s]), sites[s].ds.fcdas, 0, i);
    var found := LookupItem(AllFcdas(px, sites), FcdaSymbol(DsSymbol(px, sites[s]), i)).value;
    var t, j := FcdaOrigin(px, sites, found);
    FcdaSymbolInjective(DsSymbol(px, sites[s]), i, DsSymbol(px, sites[t]), j);
    if s != t {
      SitesDiffer(px, sites, s, t);
    }
  }

  lemma {:induction false} EntriesWalk(px: string, sites: seq<DsSite>, s: nat, i: nat, fuel: nat)
    requires DistinctDs(px, sites) && s < |sites| && i < |sites[s].ds.fcdas| && fuel >= |sites[s].ds.fcdas| - i
    ensures Walk(AllFcdas(px, sites), Some(FcdaSymbol(DsSymbol(px, sites[s]), i)), fuel) == Some(sites[s].ds.fcdas[i..])
    decreases |sites[s].ds.fcdas| - i
  {
    var ds, fcdas := DsSymbol(px, sites[s]), sites[s].ds.fcdas;
    if i + 1 < |fcdas| {
      EntriesWalk(px, sites, s, i + 1, fuel - 1);
      EntryStep(px, sites, s, i, fuel, Some(FcdaSymbol(ds, i + 1)));
    } else {
      assert fcdas[i + 1..] == [];
      EntryStep(px, sites, s, i, fuel, None);
    }
  }

  lemma {:induction false} EntryStep(px: string, sites: seq<DsSite>, s: nat, i: nat, fuel: nat, next: Option<string>)
    requires DistinctDs(px, sites) && s < |sites| && i < |sites[s].ds.fcdas| && fuel > 0
    requires next == if i + 1 < |sites[s].ds.fcdas| then Some(FcdaSymbol(DsSymbol(px, sites[s]), i + 1)) else None
    requires Walk(AllFcdas(px, sites), next, fuel - 1) == Some(sites[s].ds.fcdas[i + 1..])
    ensures Walk(AllFcdas(px, sites), Some(FcdaSymbol(DsSymbol(px, sites[s]), i)), fuel) == Some(sites[s].ds.fcdas[i..])
  {
    var ds, fcdas := DsSymbol(px, sites[s]), sites[s].ds.fcdas;
    FcdaFound(px, sites, s, i);
    FcdaItemAt(ds, fcdas, 0, i);
    assert fcdas[i..] == [fcdas[i]] + fcdas[i + 1..];
    WalkStep(AllFcdas(px, sites), Item(FcdaSymbol(ds, i), fcdas[i], next), fcdas[i + 1..], fuel);
  }

  /** The first pointer of an empty data set names no record. */
  lemma {:induction false} EmptyDangles(px: string, sites: seq<DsSite>, s: nat, fuel: nat)
    requires DistinctDs(px, sites) && s < |sites| && sites[s].ds.fcdas == []
    ensures Walk(AllFcdas(px, sites), Some(FcdaSymbol(DsSymbol(px, sites[s]), 0)), fuel).None?
  {
    var r := LookupItem(AllFcdas(px, sites), FcdaSymbol(DsSymbol(px, sites[s]), 0));
    if r.Some? {
      var t, j := FcdaOrigin(px, sites, r.value);
      FcdaSymbolInjective(DsSymbol(px, sites[s]), 0, DsSymbol(px, sites[t]), j);
      if s != t {
        SitesDiffer(px, sites, s, t);
      }
    }
  }

  function InfoOf(px: string, s: DsSite): DsInfo {
    DsInfo(s.ldInst, s.lnName, s.ds.name, |s.ds.fcdas|, FcdaSymbol(DsSymbol(px, s), 0))
  }

  function Infos(px: string, sites: seq<DsSite>): (infos: seq<DsInfo>)
    ensures |infos| == |sites| && forall i :: 0 <= i < |sites| ==> infos[i] == InfoOf(px, sites[i])
  {
    seq(|sites|, i requires 0 <= i < |sites| => InfoOf(px, sites[i]))
  }

  lemma {:induction false} DataSetsWalk(px: string, sites: seq<DsSite>, fuel: nat)
    requires DistinctDs(px, sites) && fuel >= |sites|
    ensures var names := DsNames(px, sites);
            Walk(DsItems(names, sites), At(names, 0), fuel) == Some(Infos(px, sites))
  {
    var names := DsNames(px, sites);
    var items := DsItems(names, sites);
    assert SymbolsOf(items) == names;
    ChainedWalk(items, names, 0, fuel);
    assert Payloads(items)[0..] == Infos(px, sites);
  }

  lemma {:induction false} EntriesRead(px: string, sites: seq<DsSite>, i: nat, fuel: nat)
    requires DistinctDs(px, sites) && i <= |sites|
    requires forall s :: s in sites ==> fuel >= |s.ds.fcdas|
    ensures WithEntries(Infos(px, sites)[i..], AllFcdas(px, sites), fuel)
         == if NoneEmpty(sites[i..]) then Some(sites[i..]) else None
    decreases |sites| - i
  {
    if i == |sites| {
      assert sites[i..] == [] && Infos(px, sites)[i..] == [];
    } else {
      assert sites[i] in sites;
      EntriesRead(px, sites, i + 1, fuel);
      FirstSetRead(px, sites, i, fuel);
      NoneEmptyStep(sites, i);
    }
  }

  predicate NoneEmpty(sites: seq<DsSite>) {
    forall s :: s in sites ==> s.ds.fcdas != []
  }

  lemma {:induction false} NoneEmptyStep(sites: seq<DsSite>, i: nat)
    requires i < |sites|
    ensures sites[i..] == [sites[i]] + sites[i + 1..]
    ensures NoneEmpty(sites[i..]) <==> sites[i].ds.fcdas != [] && NoneEmpty(sites[i + 1..])
  {
    assert forall s :: s in sites[i..] <==> s == sites[i] || s in sites[i + 1..];
  }

  /** One data set in front of others. */
  lemma {:induction false} FirstSetRead(px: string, sites: seq<DsSite>, i: nat, fuel: nat)
    requires DistinctDs(px, sites) && i < |sites| && fuel >= |sites[i].ds.fcdas|
    ensures var rest := WithEntries(Infos(px, sites)[i + 1..], AllFcdas(px, sites), fuel);
            WithEntries(Infos(px, sites)[i..], AllFcdas(px, sites), fuel)
            == if sites[i].ds.fcdas == [] || rest.None? then None else Some([sites[i]] + rest.value)
  {
    var s, infos := sites[i], Infos(px, sites);
    assert infos[i..][0] == infos[i] && infos[i..][1..] == infos[i + 1..];
    if s.ds.fcdas == [] {
      EmptyDangles(px, sites, i, fuel);
    } else {
      EntriesWalk(px, sites, i, 0, fuel);
      assert s.ds.fcdas[0..] == s.ds.fcdas;
      assert DsSite(s.ldInst, s.lnName, DataSet(s.ds.name, s.ds.fcdas)) == s;
    }
  }

  /** The printed data sets read back, in order and with all their entries, exactly if none is empty. */
  lemma {:induction false} DataSetsReadBack(px: string, sites: seq<DsSite>, fuel: nat)
    requires DistinctDs(px, sites)
    requires fuel >= |sites| && forall s :: s in sites ==> fuel >= |s.ds.fcdas|
    ensures var names := DsNames(px, sites);
            ReadDataSets(DsItems(names, sites), AllFcdas(px, sites), At(names, 0), fuel) == Some(sites)
            <==> NoneEmpty(sites)
  {
    DataSetsWalk(px, sites, fuel);
    EntriesRead(px, sites, 0, fuel);
    assert Infos(px, sites)[0..] == Infos(px, sites) && sites[0..] == sites;
  }

  // ----- when the symbols are distinct

  ghost predicate UniqueNames(dataSets: seq<DataSet>) {
    forall i, j :: 0 <= i < j < |dataSets| ==> dataSets[i].name != dataSets[j].name
  }

  ghost predicate UniqueDataSets(lds: seq<LogicalDevice>) {
    forall ld, ln :: ld in lds && ln in ld.lns ==> UniqueNames(ln.dataSets)
  }

  predicate SameSite(a: DsSite, b: DsSite) {
    a.ldInst == b.ldInst && a.lnName == b.lnName && a.ds.name == b.ds.name
  }

  ghost predicate SitesDiffering(sites: seq<DsSite>) {
    forall i, j :: 0 <= i < j < |sites| ==> !SameSite(sites[i], sites[j])
  }

  ghost predicate PlainSites(sites: seq<DsSite>) {
    forall s :: s in sites ==> Free(s.ldInst, {'_'}) && Free(s.lnName, {'_'})
  }

  /** The symbol tells the logical device, the logical node and the data set; the data set's own name,
      being last, may contain '_'. */
  lemma {:induction false} DsSymbolInjective(px: string, a: DsSite, b: DsSite)
    requires PlainSites([a, b]) && DsSymbol(px, a) == DsSymbol(px, b)
    ensures SameSite(a, b)
  {
    assert a in [a, b] && b in [a, b];
    var head := px + "ds_";
    var x, y := "_" + a.lnName + ("_" + a.ds.name), "_" + b.lnName + ("_" + b.ds.name);
    assert DsSymbol(px, a) == head + (a.ldInst + x) && DsSymbol(px, b) == head + (b.ldInst + y);
    assert a.ldInst + x == DsSymbol(px, a)[|head|..] && b.ldInst + y == DsSymbol(px, b)[|head|..];
    UniqueSplit(a.ldInst, x, b.ldInst, y, {'_'});
    assert x[1..] == a.lnName + ("_" + a.ds.name) && y[1..] == b.lnName + ("_" + b.ds.name);
    UniqueSplit(a.lnName, "_" + a.ds.name, b.lnName, "_" + b.ds.name, {'_'});
    assert ("_" + a.ds.name)[1..] == a.ds.name && ("_" + b.ds.name)[1..] == b.ds.name;
  }

  lemma {:induction false} ApartIsDistinct(px: string, sites: seq<DsSite>)
    requires PlainSites(sites) && SitesDiffering(sites)
    ensures DistinctDs(px, sites)
  {
    forall i, j | 0 <= i < j < |sites| ensures DsSymbol(px, sites[i]) != DsSymbol(px, sites[j]) {
      assert sites[i] in sites && sites[j] in sites;
      if DsSymbol(px, sites[i]) == DsSymbol(px, sites[j]) {
        DsSymbolInjective(px, sites[i], sites[j]);
      }
    }
  }

  lemma {:induction false} DistinctIsApart(px: string, sites: seq<DsSite>)
    requires DistinctDs(px, sites)
    ensures SitesDiffering(sites)
  {
    forall i, j | 0 <= i < j < |sites| ensures !SameSite(sites[i], sites[j]) {
      assert DsSymbol(px, sites[i]) != DsSymbol(px, sites[j]);
    }
  }

  lemma {:induction false} ApartParts(a: seq<DsSite>, b: seq<DsSite>)
    requires SitesDiffering(a + b)
    ensures SitesDiffering(a) && SitesDiffering(b)
  {
    forall i, j | 0 <= i < j < |a| ensures !SameSite(a[i], a[j]) {
      assert (a + b)[i] == a[i] && (a + b)[j] == a[j];
    }
    forall i, j | 0 <= i < j < |b| ensures !SameSite(b[i], b[j]) {
      assert (a + b)[|a| + i] == b[i] && (a + b)[|a| + j] == b[j];
    }
  }

  lemma {:induction false} ApartJoin(a: seq<DsSite>, b: seq<DsSite>)
    requires SitesDiffering(a) && SitesDiffering(b) && forall x, y :: x in a && y in b ==> !SameSite(x, y)
    ensures SitesDiffering(a + b)
  {
    forall i, j | 0 <= i < j < |a + b| ensures !SameSite((a + b)[i], (a + b)[j]) {
      if i < |a| <= j {
        assert (a + b)[i] in a && (a + b)[j] in b;
      }
    }
  }

  lemma {:induction false} LnDsSiteOrigin(inst: string, lns: seq<LogicalNode>, s: DsSite)
    requires s in LnDsSites(inst, lns)
    ensures s.ldInst == inst && exists ln :: ln in lns && ln.Name() == s.lnName
  {
    if s in LnDsSites(inst, lns[1..]) {
      LnDsSiteOrigin(inst, lns[1..], s);
    } else {
      assert lns[0] in lns;
    }
  }

  lemma {:induction false} DsSiteOrigin(lds: seq<LogicalDevice>, s: DsSite)
    requires s in DsSites(lds)
    ensures exists ld, ln :: ld in lds && ln in ld.lns && ld.inst == s.ldInst && ln.Name() == s.lnName
  {
    if s in DsSites(lds[1..]) {
      DsSiteOrigin(lds[1..], s);
    } else {
      LnDsSiteOrigin(lds[0].inst, lds[0].lns, s);
      assert lds[0] in lds;
    }
  }

  lemma {:induction false} LnSitesApart(inst: string, lns: seq<LogicalNode>)
    requires forall i, j :: 0 <= i < j < |lns| ==> lns[i].Name() != lns[j].Name()
    ensures SitesDiffering(LnDsSites(inst, lns)) <==> forall ln :: ln in lns ==> UniqueNames(ln.dataSets)
  {
    if lns != [] {
      var here := HereSites(inst, lns[0]);
      LnSitesApart(inst, lns[1..]);
      HereApart(inst, lns[0]);
      forall x, y | x in here && y in LnDsSites(inst, lns[1..]) ensures !SameSite(x, y) {
        LnDsSiteOrigin(inst, lns[1..], y);
      }
      if SitesDiffering(LnDsSites(inst, lns)) {
        ApartParts(here, LnDsSites(inst, lns[1..]));
      } else if SitesDiffering(here) && SitesDiffering(LnDsSites(inst, lns[1..])) {
        ApartJoin(here, LnDsSites(inst, lns[1..]));
      }
      assert forall ln :: ln in lns <==> ln == lns[0] || ln in lns[1..];
    }
  }

  lemma {:induction false} HereApart(inst: string, ln: LogicalNode)
    ensures SitesDiffering(HereSites(inst, ln)) <==> UniqueNames(ln.dataSets)
  {
    var here := HereSites(inst, ln);
    if SitesDiffering(here) {
      forall i, j | 0 <= i < j < |ln.dataSets| ensures ln.dataSets[i].name != ln.dataSets[j].name {
        assert !SameSite(here[i], here[j]);
      }
    }
  }

  lemma {:induction false} SitesApart(lds: seq<LogicalDevice>)
    requires WellNamed(lds)
    ensures SitesDiffering(DsSites(lds)) <==> UniqueDataSets(lds)
  {
    if lds != [] {
      var here, later := LnDsSites(lds[0].inst, lds[0].lns), DsSites(lds[1..]);
      assert lds[0] in lds;
      LnSitesApart(lds[0].inst, lds[0].lns);
      SitesApart(lds[1..]);
      forall x, y | x in here && y in later ensures !SameSite(x, y) {
        LnDsSiteOrigin(lds[0].inst, lds[0].lns, x);
        DsSiteOrigin(lds[1..], y);
      }
      if SitesDiffering(DsSites(lds)) {
        ApartParts(here, later);
      } else if SitesDiffering(here) && SitesDiffering(later) {
        ApartJoin(here, later);
      }
      assert forall ld :: ld in lds <==> ld == lds[0] || ld in lds[1..];
    }
  }

  lemma {:induction false} SitesPlain(lds: seq<LogicalDevice>)
    requires WellNamed(lds)
    ensures PlainSites(DsSites(lds))
  {
    forall s | s in DsSites(lds) ensures Free(s.ldInst, {'_'}) && Free(s.lnName, {'_'}) {
      DsSiteOrigin(lds, s);
    }
  }

  /** In a well-named model the data-set symbols are distinct exactly if the data sets of each logical
      node have different names. */
  lemma {:induction false} DistinctIffUnique(px: string, lds: seq<LogicalDevice>)
    requires WellNamed(lds)
    ensures DistinctDs(px, DsSites(lds)) <==> UniqueDataSets(lds)
  {
    SitesApart(lds);
    SitesPlain(lds);
    if SitesDiffering(DsSites(lds)) {
      ApartIsDistinct(px, DsSites(lds));
    } else if DistinctDs(px, DsSites(lds)) {
      DistinctIsApart(px, DsSites(lds));
    }
  }

  // ----- which data sets these are, told from the model

  /** The data sets of the nodes, one node after the other. */
  ghost predicate ListsNodes(inst: string, lns: seq<LogicalNode>, sites: seq<DsSite>) {
    if lns == [] then sites == []
    else
      var sets := lns[0].dataSets;
      && |sets| <= |sites|
      && (forall k :: 0 <= k < |sets| ==> sites[k] == DsSite(inst, lns[0].Name(), sets[k]))
      && ListsNodes(inst, lns[1..], sites[|sets|..])
  }

  /** The data sets of the devices, one device after the other. */
  ghost predicate ListsDevices(lds: seq<LogicalDevice>, sites: seq<DsSite>) {
    if lds == [] then sites == []
    else exists cut: nat :: cut <= |sites| && ListsNodes(lds[0].inst, lds[0].lns, sites[..cut])
                            && ListsDevices(lds[1..], sites[cut..])
  }

  lemma {:induction false} NodesListed(inst: string, lns: seq<LogicalNode>)
    ensures ListsNodes(inst, lns, LnDsSites(inst, lns))
  {
    if lns != [] {
      var here, rest := HereSites(inst, lns[0]), LnDsSites(inst, lns[1..]);
      NodesListed(inst, lns[1..]);
      assert (here + rest)[|here|..] == rest;
    }
  }

  lemma {:induction false} DevicesListed(lds: seq<LogicalDevice>)
    ensures ListsDevices(lds, DsSites(lds))
  {
    if lds != [] {
      var here, rest := LnDsSites(lds[0].inst, lds[0].lns), DsSites(lds[1..]);
      NodesListed(lds[0].inst, lds[0].lns);
      DevicesListed(lds[1..]);
      assert (here + rest)[..|here|] == here && (here + rest)[|here|..] == rest;
    }
  }

  lemma {:induction false} OneNodesList(inst: string, lns: seq<LogicalNode>, a: seq<DsSite>)
    requires ListsNodes(inst, lns, a)
    ensures a == LnDsSites(inst, lns)
  {
    if lns != [] {
      var here := HereSites(inst, lns[0]);
      OneNodesList(inst, lns[1..], a[|here|..]);
      assert a[..|here|] == here && a == here + a[|here|..];
    }
  }

  lemma {:induction false} OneDevicesList(lds: seq<LogicalDevice>, a: seq<DsSite>)
    requires ListsDevices(lds, a)
    ensures a == DsSites(lds)
  {
    if lds != [] {
      var cut: nat :| cut <= |a| && ListsNodes(lds[0].inst, lds[0].lns, a[..cut]) && ListsDevices(lds[1..], a[cut..]);
      OneNodesList(lds[0].inst, lds[0].lns, a[..cut]);
      OneDevicesList(lds[1..], a[cut..]);
      assert a == a[..cut] + a[cut..];
    }
  }

  /** A well-named model's data sets read back, with all their entries, exactly if none is empty; what is
      read back lists the data sets of its nodes in document order. */
  lemma {:induction false} ModelDataSetsReadBack(px: string, lds: seq<LogicalDevice>, fuel: nat)
    requires WellNamed(lds) && UniqueDataSets(lds)
    requires fuel >= |DsSites(lds)| && forall s :: s in DsSites(lds) ==> fuel >= |s.ds.fcdas|
    ensures var names := DsNames(px, DsSites(lds));
            var r := ReadDataSets(DsItems(names, DsSites(lds)), AllFcdas(px, DsSites(lds)), At(names, 0), fuel);
            && (r.Some? && ListsDevices(lds, r.value)
                <==> forall ld, ln, ds :: ld in lds && ln in ld.lns && ds in ln.dataSets ==> ds.fcdas != [])
  {
    DevicesListed(lds);
    forall a | ListsDevices(lds, a) ensures a == DsSites(lds) {
      OneDevicesList(lds, a);
    }
    DistinctIffUnique(px, lds);
    DataSetsReadBack(px, DsSites(lds), fuel);
    NonEmptySites(lds);
  }

  lemma {:induction false} NonEmptyLnSites(inst: string, lns: seq<LogicalNode>)
    ensures NoneEmpty(LnDsSites(inst, lns))
            <==> forall ln, ds :: ln in lns && ds in ln.dataSets ==> ds.fcdas != []
  {
    if lns != [] {
      var here := HereSites(inst, lns[0]);
      NonEmptyLnSites(inst, lns[1..]);
      forall ds | ds in lns[0].dataSets ensures DsSite(inst, lns[0].Name(), ds) in here {
        var i :| 0 <= i < |lns[0].dataSets| && lns[0].dataSets[i] == ds;
        assert here[i] in here;
      }
      assert forall s :: s in here ==> s.ds in lns[0].dataSets;
      assert forall s :: s in LnDsSites(inst, lns) <==> s in here || s in LnDsSites(inst, lns[1..]);
      assert forall ln :: ln in lns <==> ln == lns[0] || ln in lns[1..];
      assert forall s :: s in here ==> s in LnDsSites(inst, lns);
    }
  }

  lemma {:induction false} NonEmptySites(lds: seq<LogicalDevice>)
    ensures NoneEmpty(DsSites(lds))
            <==> forall ld, ln, ds :: ld in lds && ln in ld.lns && ds in ln.dataSets ==> ds.fcdas != []
  {
    if lds != [] {
      NonEmptyLnSites(lds[0].inst, lds[0].lns);
      NonEmptySites(lds[1..]);
      assert forall s :: s in DsSites(lds) <==> s in LnDsSites(lds[0].inst, lds[0].lns) || s in DsSites(lds[1..]);
      assert forall ld :: ld in lds <==> ld == lds[0] || ld in lds[1..];
    }
  }

  /** One logical node with one data set that has no entry. */
  function EmptyDataSetModel(): seq<LogicalDevice> {
    [LogicalDevice("LD0", [OneLn([PlainDo("Mod", [])]).(dataSets := [DataSet("ds", [])])])]
  }

  /** Its record points to an entry, and there is none. */
  lemma {:induction false} EmptyDataSetDangles(px: string)
    ensures WellNamed(EmptyDataSetModel()) && Populated(EmptyDataSetModel())
    ensures var sites := DsSites(EmptyDataSetModel());
            var items := DsItems(DsNames(px, sites), sites);
            |items| == 1 && AllFcdas(px, sites) == [] && LookupItem(AllFcdas(px, sites), items[0].payload.first).None?
  {
    assert EmptyDataSetModel()[0].lns[0].Name() == "LLN0" && Over("Mod", PLAIN);
    NodeNamed(EmptyDataSetModel()[0].lns[0], "Mod");
    EmptyDataSetSites();
    assert [DsSite("LD0", "LLN0", DataSet("ds", []))][1..] == [];
    assert AllFcdas(px, [DsSite("LD0", "LLN0", DataSet("ds", []))]) == [];
  }

  lemma {:induction false} EmptyDataSetSites()
    ensures DsSites(EmptyDataSetModel()) == [DsSite("LD0", "LLN0", DataSet("ds", []))]
  {
    var ln := EmptyDataSetModel()[0].lns[0];
    assert ln.Name() == "LLN0";
    assert HereSites("LD0", ln) == [DsSite("LD0", "LLN0", DataSet("ds", []))];
    assert LnDsSites("LD0", [ln][1..]) == [] && DsSites(EmptyDataSetModel()[1..]) == [];
    assert DsSites(EmptyDataSetModel()) == LnDsSites("LD0", [ln]);
  }
}
