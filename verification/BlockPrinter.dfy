/** The two passes over control blocks as the generator runs them, and the exact conditions under
    which every chain comes out right. */
module BlockPrinter {
  import opened Text
  import opened Instances
  import opened ModelRecords
  import opened ModelTable
  import opened Chains
  import opened ControlBlocks

  /** The state the generator keeps for one kind of block. */
  datatype Chain = Chain(names: seq<string>, current: nat, printed: seq<Item<Entry>>)

  /** The chain after the given blocks have been printed. */
  function Printed(c: Chain, es: seq<Entry>): Chain {
    Chain(c.names, c.current + |es|, c.printed + Cells(es, c.names, c.current))
  }

  /** Printing one block: the counter moves on, and the pointer is the next listed name. */
  function Emit(c: Chain, name: string, lnName: string, block: Block): (c': Chain)
    ensures c' == Printed(c, [Entry(name, lnName, block)])
  {
    var current := c.current + 1;
    var next := if current < |c.names| then Some(c.names[current]) else None;
    Chain(c.names, current, c.printed + [Item(name, Entry(name, lnName, block), next)])
  }

  lemma {:induction false} PrintedJoin(c: Chain, a: seq<Entry>, b: seq<Entry>)
    ensures Printed(Printed(c, a), b) == Printed(c, a + b)
  {
    assert Cells(a + b, c.names, c.current) == Cells(a, c.names, c.current) + Cells(b, c.names, c.current + |a|);
  }

  lemma {:induction false} PrintedNone(c: Chain)
    ensures Printed(c, []) == c
  {
  }

  lemma {:induction false} EntriesSplit(kind: Kind, ln: string, from: nat, a: seq<Block>, b: seq<Block>)
    ensures EntriesFrom(kind, ln, from, a + b)
         == EntriesFrom(kind, ln, from, a) + EntriesFrom(kind, ln, from + |a|, b)
  {
  }

  lemma {:induction false} PrintFirst(c: Chain, kind: Kind, ln: string, from: nat, bs: seq<Block>)
    requires bs != []
    ensures Printed(Printed(c, [Entry(BlockName(kind, ln, from), ln, bs[0])]), EntriesFrom(kind, ln, from + 1, bs[1..]))
         == Printed(c, EntriesFrom(kind, ln, from, bs))
  {
    var one := EntriesFrom(kind, ln, from, [bs[0]]);
    assert bs == [bs[0]] + bs[1..];
    EntriesSplit(kind, ln, from, [bs[0]], bs[1..]);
    assert one == [Entry(BlockName(kind, ln, from), ln, bs[0])];
    PrintedJoin(c, one, EntriesFrom(kind, ln, from + 1, bs[1..]));
  }

  lemma {:induction false} PrintReportFirst(before: Chain, after: Chain, target: Chain, ln: string, from: nat, to: nat,
                                            rc: ReportControl, rest: seq<ReportControl>, rs: seq<ReportControl>)
    requires rs == [rc] + rest && to == from + |RcbInstances(rc, 0)|
    requires Printed(before, EntriesFrom(Rcb, ln, from, RcbBlocks(rs))) == target
    requires after == Printed(before, EntriesFrom(Rcb, ln, from, RcbInstances(rc, 0)))
    ensures Printed(after, EntriesFrom(Rcb, ln, to, RcbBlocks(rest))) == target
  {
    assert rs[0] == rc && rs[1..] == rest;
    var here, later := EntriesFrom(Rcb, ln, from, RcbInstances(rc, 0)), EntriesFrom(Rcb, ln, to, RcbBlocks(rest));
    assert EntriesFrom(Rcb, ln, from, RcbBlocks(rs)) == here + later by {
      EntriesSplit(Rcb, ln, from, RcbInstances(rc, 0), RcbBlocks(rest));
    }
    PrintedJoin(before, here, later);
  }

  function WithNames(c: Chain, more: seq<string>): Chain {
    c.(names := c.names + more)
  }

  lemma {:induction false} RcbStep(c: Chain, lnName: string, number: nat, rc: ReportControl, i: nat)
    requires i < PrintedInstances(rc)
    ensures Printed(c, EntriesFrom(Rcb, lnName, number, RcbInstances(rc, i)))
         == Printed(Emit(c, BlockName(Rcb, lnName, number), lnName,
                         RcbBlock(rc, if rc.indexed then Pad2(i + 1) else "")),
                    EntriesFrom(Rcb, lnName, number + 1, RcbInstances(rc, i + 1)))
  {
    PrintFirst(c, Rcb, lnName, number, RcbInstances(rc, i));
    assert RcbInstances(rc, i)[1..] == RcbInstances(rc, i + 1);
  }

  // ----- the six chains together

  datatype SixChains = SixChains(rcb: Chain, lcb: Chain, log: Chain, gse: Chain, smv: Chain, sgcb: Chain) {
    function Get(kind: Kind): Chain {
      match kind
      case Rcb => rcb
      case Lcb => lcb
      case LogKind => log
      case Gse => gse
      case Smv => smv
      case Sgcb => sgcb
    }
  }

  function ListedNode(cs: SixChains, lnName: string, ln: LogicalNode): SixChains {
    SixChains(WithNames(cs.rcb, NamesFrom(Rcb, lnName, 0, Listed(Rcb, ln))),
           WithNames(cs.lcb, NamesFrom(Lcb, lnName, 0, Listed(Lcb, ln))),
           WithNames(cs.log, NamesFrom(LogKind, lnName, 0, Listed(LogKind, ln))),
           WithNames(cs.gse, NamesFrom(Gse, lnName, 0, Listed(Gse, ln))),
           WithNames(cs.smv, NamesFrom(Smv, lnName, 0, Listed(Smv, ln))),
           WithNames(cs.sgcb, NamesFrom(Sgcb, lnName, 0, Listed(Sgcb, ln))))
  }

  function ListedAll(cs: SixChains, sites: seq<Site>): (r: SixChains)
    ensures forall kind :: r.Get(kind) == WithNames(cs.Get(kind), AllNames(kind, sites))
  {
    SixChains(WithNames(cs.rcb, AllNames(Rcb, sites)), WithNames(cs.lcb, AllNames(Lcb, sites)),
           WithNames(cs.log, AllNames(LogKind, sites)), WithNames(cs.gse, AllNames(Gse, sites)),
           WithNames(cs.smv, AllNames(Smv, sites)), WithNames(cs.sgcb, AllNames(Sgcb, sites)))
  }

  function PrintedNode(cs: SixChains, ap: ConnectedAp, site: Site): SixChains {
    SixChains(Printed(cs.rcb, EntriesFrom(Rcb, site.symbol, 0, Blocks(Rcb, ap, site))),
           Printed(cs.lcb, EntriesFrom(Lcb, site.symbol, 0, Blocks(Lcb, ap, site))),
           Printed(cs.log, EntriesFrom(LogKind, site.symbol, 0, Blocks(LogKind, ap, site))),
           Printed(cs.gse, EntriesFrom(Gse, site.symbol, 0, Blocks(Gse, ap, site))),
           Printed(cs.smv, EntriesFrom(Smv, site.symbol, 0, Blocks(Smv, ap, site))),
           Printed(cs.sgcb, EntriesFrom(Sgcb, site.symbol, 0, Blocks(Sgcb, ap, site))))
  }

  function PrintedAll(cs: SixChains, ap: ConnectedAp, sites: seq<Site>): (r: SixChains)
    ensures forall kind :: r.Get(kind) == Printed(cs.Get(kind), AllEntries(kind, ap, sites))
  {
    SixChains(Printed(cs.rcb, AllEntries(Rcb, ap, sites)), Printed(cs.lcb, AllEntries(Lcb, ap, sites)),
           Printed(cs.log, AllEntries(LogKind, ap, sites)), Printed(cs.gse, AllEntries(Gse, ap, sites)),
           Printed(cs.smv, AllEntries(Smv, ap, sites)), Printed(cs.sgcb, AllEntries(Sgcb, ap, sites)))
  }

  lemma {:induction false} AllNamesJoin(kind: Kind, a: seq<Site>, b: seq<Site>)
    ensures AllNames(kind, a + b) == AllNames(kind, a) + AllNames(kind, b)
  {
    if a == [] {
      assert a + b == b;
    } else {
      assert (a + b)[1..] == a[1..] + b;
      AllNamesJoin(kind, a[1..], b);
      Assoc(NamesFrom(kind, a[0].symbol, 0, Listed(kind, a[0].ln)), AllNames(kind, a[1..]), AllNames(kind, b));
    }
  }

  lemma {:induction false} AllEntriesJoin(kind: Kind, ap: ConnectedAp, a: seq<Site>, b: seq<Site>)
    ensures AllEntries(kind, ap, a + b) == AllEntries(kind, ap, a) + AllEntries(kind, ap, b)
  {
    if a == [] {
      assert a + b == b;
    } else {
      assert (a + b)[1..] == a[1..] + b;
      AllEntriesJoin(kind, ap, a[1..], b);
      Assoc(EntriesFrom(kind, a[0].symbol, 0, Blocks(kind, ap, a[0])), AllEntries(kind, ap, a[1..]),
            AllEntries(kind, ap, b));
    }
  }

  lemma {:induction false} ListJoin(c: Chain, kind: Kind, a: seq<Site>, b: seq<Site>)
    ensures WithNames(WithNames(c, AllNames(kind, a)), AllNames(kind, b)) == WithNames(c, AllNames(kind, a + b))
  {
    AllNamesJoin(kind, a, b);
    Assoc(c.names, AllNames(kind, a), AllNames(kind, b));
  }

  lemma {:induction false} ListAllJoin(cs: SixChains, a: seq<Site>, b: seq<Site>)
    ensures ListedAll(ListedAll(cs, a), b) == ListedAll(cs, a + b)
  {
    ListJoin(cs.rcb, Rcb, a, b);
    ListJoin(cs.lcb, Lcb, a, b);
    ListJoin(cs.log, LogKind, a, b);
    ListJoin(cs.gse, Gse, a, b);
    ListJoin(cs.smv, Smv, a, b);
    ListJoin(cs.sgcb, Sgcb, a, b);
  }

  lemma {:induction false} ListAllStep(cs: SixChains, site: Site, rest: seq<Site>)
    ensures ListedAll(ListedNode(cs, site.symbol, site.ln), rest) == ListedAll(cs, [site] + rest)
  {
    ListStep(cs.rcb, Rcb, site, rest);
    ListStep(cs.lcb, Lcb, site, rest);
    ListStep(cs.log, LogKind, site, rest);
    ListStep(cs.gse, Gse, site, rest);
    ListStep(cs.smv, Smv, site, rest);
    ListStep(cs.sgcb, Sgcb, site, rest);
  }

  lemma {:induction false} ListNothing(cs: SixChains)
    ensures ListedAll(cs, []) == cs
  {
    assert forall c: Chain :: WithNames(c, []) == c;
  }

  lemma {:induction false} PrintJoin(c: Chain, kind: Kind, ap: ConnectedAp, a: seq<Site>, b: seq<Site>)
    ensures Printed(Printed(c, AllEntries(kind, ap, a)), AllEntries(kind, ap, b))
         == Printed(c, AllEntries(kind, ap, a + b))
  {
    AllEntriesJoin(kind, ap, a, b);
    PrintedJoin(c, AllEntries(kind, ap, a), AllEntries(kind, ap, b));
  }

  lemma {:induction false} PrintAllJoin(cs: SixChains, ap: ConnectedAp, a: seq<Site>, b: seq<Site>)
    ensures PrintedAll(PrintedAll(cs, ap, a), ap, b) == PrintedAll(cs, ap, a + b)
  {
    PrintJoin(cs.rcb, Rcb, ap, a, b);
    PrintJoin(cs.lcb, Lcb, ap, a, b);
    PrintJoin(cs.log, LogKind, ap, a, b);
    PrintJoin(cs.gse, Gse, ap, a, b);
    PrintJoin(cs.smv, Smv, ap, a, b);
    PrintJoin(cs.sgcb, Sgcb, ap, a, b);
  }

  lemma {:induction false} PrintAllStep(cs: SixChains, ap: ConnectedAp, site: Site, rest: seq<Site>)
    ensures PrintedAll(PrintedNode(cs, ap, site), ap, rest) == PrintedAll(cs, ap, [site] + rest)
  {
    PrintStep(cs.rcb, Rcb, ap, site, rest);
    PrintStep(cs.lcb, Lcb, ap, site, rest);
    PrintStep(cs.log, LogKind, ap, site, rest);
    PrintStep(cs.gse, Gse, ap, site, rest);
    PrintStep(cs.smv, Smv, ap, site, rest);
    PrintStep(cs.sgcb, Sgcb, ap, site, rest);
  }

  lemma {:induction false} PrintNothing(cs: SixChains, ap: ConnectedAp)
    ensures PrintedAll(cs, ap, []) == cs
  {
    PrintedNone(cs.rcb);
    PrintedNone(cs.lcb);
    PrintedNone(cs.log);
    PrintedNone(cs.gse);
    PrintedNone(cs.smv);
    PrintedNone(cs.sgcb);
  }

  /** One GSE control of a list: skipped without an entry, else printed under the next number. */
  lemma {:induction false} GseStep(c: Chain, ap: ConnectedAp, ldName: string, lnName: string, number: nat,
                                   gses: seq<GseControl>)
    requires gses != []
    ensures var entry, rest := LookupEntry(ap.gses, ldName, gses[0].name), GseBlocks(ap, ldName, gses[1..]);
            && (entry.None? ==> GseBlocks(ap, ldName, gses) == rest)
            && (entry.Some? ==>
                  Printed(Emit(c, BlockName(Gse, lnName, number), lnName, GseBlock(gses[0], entry.value)),
                          EntriesFrom(Gse, lnName, number + 1, rest))
                  == Printed(c, EntriesFrom(Gse, lnName, number, GseBlocks(ap, ldName, gses))))
  {
    var entry, bs := LookupEntry(ap.gses, ldName, gses[0].name), GseBlocks(ap, ldName, gses);
    if entry.Some? {
      assert bs[0] == GseBlock(gses[0], entry.value) && bs[1..] == GseBlocks(ap, ldName, gses[1..]);
      PrintFirst(c, Gse, lnName, number, bs);
    }
  }

  class ControlBlockPrinter {
    const modelPrefix: string
    const connectedAP: ConnectedAp
    var rcb: Chain
    var lcb: Chain
    var log: Chain
    var gse: Chain
    var smv: Chain
    var sgcb: Chain

    constructor (modelPrefix: string, connectedAP: ConnectedAp)
      ensures this.modelPrefix == modelPrefix && this.connectedAP == connectedAP
      ensures forall kind :: Get(kind) == Chain([], 0, [])
    {
      this.modelPrefix, this.connectedAP := modelPrefix, connectedAP;
      var empty := Chain([], 0, []);
      rcb, lcb, log, gse, smv, sgcb := empty, empty, empty, empty, empty, empty;
    }

    function All(): SixChains
      reads this
    {
      SixChains(rcb, lcb, log, gse, smv, sgcb)
    }

    function Get(kind: Kind): Chain
      reads this
    {
      All().Get(kind)
    }

    // ----- the listing pass

    method ListLogicalNode(lnName: string, ln: LogicalNode)
      modifies this
      ensures All() == ListedNode(old(All()), lnName, ln)
    {
      var reports := ListReports(rcb, lnName, ln.reports);
      var lcbs := ListMany(lcb, Lcb, lnName, |ln.lcbs|);
      var logs := ListMany(log, LogKind, lnName, |ln.logs|);
      var gses := ListMany(gse, Gse, lnName, |ln.gses|);
      var smvs := ListMany(smv, Smv, lnName, |ln.smvs|);
      var settings := ListMany(sgcb, Sgcb, lnName, |ln.settings|);
      rcb, lcb, log, gse, smv, sgcb := reports, lcbs, logs, gses, smvs, settings;
    }

    method ListReports(c: Chain, lnName: string, reports: seq<ReportControl>) returns (c': Chain)
      ensures c' == WithNames(c, NamesFrom(Rcb, lnName, 0, ListedRcbs(reports)))
    {
      c' := c;
      var rcbCount := 0;
      for r := 0 to |reports|
        invariant rcbCount + ListedRcbs(reports[r..]) == ListedRcbs(reports)
        invariant c' == WithNames(c, NamesFrom(Rcb, lnName, 0, rcbCount))
      {
        assert reports[r..][1..] == reports[r + 1..];
        var maxInstances := MaxInstances(reports[r]);
        for i := 0 to maxInstances
          invariant rcbCount + (maxInstances - i) + ListedRcbs(reports[r + 1..]) == ListedRcbs(reports)
          invariant c' == WithNames(c, NamesFrom(Rcb, lnName, 0, rcbCount))
        {
          c' := c'.(names := c'.names + [BlockName(Rcb, lnName, rcbCount)]);
          rcbCount := rcbCount + 1;
        }
      }
      assert reports[|reports|..] == [];
    }

    method ListMany(c: Chain, kind: Kind, lnName: string, count: nat) returns (c': Chain)
      ensures c' == WithNames(c, NamesFrom(kind, lnName, 0, count))
    {
      c' := c;
      for i := 0 to count
        invariant c' == WithNames(c, NamesFrom(kind, lnName, 0, i))
      {
        c' := c'.(names := c'.names + [BlockName(kind, lnName, i)]);
      }
    }

    method ListLogicalNodes(ldName: string, lns: seq<LogicalNode>)
      modifies this
      ensures All() == ListedAll(old(All()), LnSites(ldName, lns))
    {
      for j := 0 to |lns|
        invariant ListedAll(All(), LnSites(ldName, lns[j..])) == ListedAll(old(All()), LnSites(ldName, lns))
      {
        ghost var before := All();
        var lnName := ldName + "_" + lns[j].Name();
        assert lns[j..][1..] == lns[j + 1..];
        ListLogicalNode(lnName, lns[j]);
        ListAllStep(before, Site(ldName, lnName, lns[j]), LnSites(ldName, lns[j + 1..]));
      }
      assert LnSites(ldName, lns[|lns|..]) == [];
      ListNothing(All());
    }

    method CreateLNSubVariableList(lds: seq<LogicalDevice>)
      modifies this
      ensures forall kind :: Get(kind) == WithNames(old(Get(kind)), AllNames(kind, Sites(modelPrefix, lds)))
    {
      for i := 0 to |lds|
        invariant ListedAll(All(), Sites(modelPrefix, lds[i..])) == ListedAll(old(All()), Sites(modelPrefix, lds))
      {
        ghost var before := All();
        var ldName := modelPrefix + "_" + lds[i].inst;
        assert lds[i..][1..] == lds[i + 1..];
        ListLogicalNodes(ldName, lds[i].lns);
        ListAllJoin(before, LnSites(ldName, lds[i].lns), Sites(modelPrefix, lds[i + 1..]));
      }
      assert Sites(modelPrefix, lds[|lds|..]) == [];
      ListNothing(All());
    }

    // ----- the printing pass

    method PrintReportControlBlocks(lnName: string, reports: seq<ReportControl>)
      modifies this`rcb
      ensures rcb == Printed(old(rcb), EntriesFrom(Rcb, lnName, 0, RcbBlocks(reports)))
    {
      var c, reportNumber := rcb, 0;
      ghost var target := Printed(rcb, EntriesFrom(Rcb, lnName, 0, RcbBlocks(reports)));
      for r := 0 to |reports|
        invariant Printed(c, EntriesFrom(Rcb, lnName, reportNumber, RcbBlocks(reports[r..]))) == target
      {
        ghost var before, number := c, reportNumber;
        c, reportNumber := PrintReport(c, lnName, reports[r], reportNumber);
        PrintReportFirst(before, c, target, lnName, number, reportNumber, reports[r], reports[r + 1..], reports[r..]);
      }
      assert RcbBlocks(reports[|reports|..]) == [];
      PrintedNone(c);
      rcb := c;
    }

    method PrintReport(c: Chain, lnName: string, rc: ReportControl, number: nat) returns (c': Chain, reportNumber: nat)
      ensures c' == Printed(c, EntriesFrom(Rcb, lnName, number, RcbInstances(rc, 0)))
      ensures reportNumber == number + |RcbInstances(rc, 0)|
    {
      c', reportNumber := c, number;
      ghost var all := Printed(c, EntriesFrom(Rcb, lnName, number, RcbInstances(rc, 0)));
      if rc.indexed {
        for i := 0 to MaxInstances(rc)
          invariant reportNumber == number + i
          invariant Printed(c', EntriesFrom(Rcb, lnName, reportNumber, RcbInstances(rc, i))) == all
        {
          RcbStep(c', lnName, reportNumber, rc, i);
          c' := Emit(c', BlockName(Rcb, lnName, reportNumber), lnName, RcbBlock(rc, Pad2(i + 1)));
          reportNumber := reportNumber + 1;
        }
      } else {
        RcbStep(c, lnName, number, rc, 0);
        c' := Emit(c', BlockName(Rcb, lnName, number), lnName, RcbBlock(rc, ""));
        reportNumber := reportNumber + 1;
      }
      PrintedNone(c');
    }

    method PrintGSEControlBlocks(ldName: string, lnName: string, gses: seq<GseControl>)
      modifies this`gse
      ensures gse == Printed(old(gse), EntriesFrom(Gse, lnName, 0, GseBlocks(connectedAP, SecondPart(ldName), gses)))
    {
      var logicalDeviceName := SecondPart(ldName);
      var gseControlNumber := 0;
      for i := 0 to |gses|
        invariant Printed(gse, EntriesFrom(Gse, lnName, gseControlNumber,
                                           GseBlocks(connectedAP, logicalDeviceName, gses[i..])))
               == Printed(old(gse), EntriesFrom(Gse, lnName, 0, GseBlocks(connectedAP, logicalDeviceName, gses)))
      {
        assert gses[i..][1..] == gses[i + 1..];
        GseStep(gse, connectedAP, logicalDeviceName, lnName, gseControlNumber, gses[i..]);
        var entry := LookupEntry(connectedAP.gses, logicalDeviceName, gses[i].name);
        if entry.Some? {
          gse := Emit(gse, BlockName(Gse, lnName, gseControlNumber), lnName, GseBlock(gses[i], entry.value));
          gseControlNumber := gseControlNumber + 1;
        }
      }
      assert gses[|gses|..] == [];
      PrintedNone(gse);
    }

    method PrintSVControlBlocks(ldName: string, lnName: string, smvs: seq<SmvControl>)
      modifies this`smv
      ensures smv == Printed(old(smv), EntriesFrom(Smv, lnName, 0, SmvBlocks(connectedAP, SecondPart(ldName), smvs)))
    {
      var logicalDeviceName := SecondPart(ldName);
      for i := 0 to |smvs|
        invariant Printed(smv, EntriesFrom(Smv, lnName, i, SmvBlocks(connectedAP, logicalDeviceName, smvs[i..])))
               == Printed(old(smv), EntriesFrom(Smv, lnName, 0, SmvBlocks(connectedAP, logicalDeviceName, smvs)))
      {
        assert smvs[i..][1..] == smvs[i + 1..];
        var block := SmvBlock(smvs[i], LookupEntry(connectedAP.smvs, logicalDeviceName, smvs[i].name));
        var bs := SmvBlocks(connectedAP, logicalDeviceName, smvs[i..]);
        assert bs[0] == block && bs[1..] == SmvBlocks(connectedAP, logicalDeviceName, smvs[i + 1..]);
        PrintFirst(smv, Smv, lnName, i, bs);
        smv := Emit(smv, BlockName(Smv, lnName, i), lnName, block);
      }
      assert smvs[|smvs|..] == [];
      PrintedNone(smv);
    }

    method PrintMany(c: Chain, kind: Kind, lnName: string, bs: seq<Block>) returns (c': Chain)
      ensures c' == Printed(c, EntriesFrom(kind, lnName, 0, bs))
    {
      c' := c;
      for i := 0 to |bs|
        invariant Printed(c', EntriesFrom(kind, lnName, i, bs[i..])) == Printed(c, EntriesFrom(kind, lnName, 0, bs))
      {
        assert bs[i..][1..] == bs[i + 1..];
        PrintFirst(c', kind, lnName, i, bs[i..]);
        c' := Emit(c', BlockName(kind, lnName, i), lnName, bs[i]);
      }
      assert bs[|bs|..] == [];
      PrintedNone(c');
    }

    method PrintSettingControlBlock(lnName: string, settings: seq<SettingControl>)
      modifies this`sgcb
      ensures sgcb == Printed(old(sgcb), EntriesFrom(Sgcb, lnName, 0,
                                                     if settings == [] then [] else [SgcbBlock(settings[0])]))
    {
      if |settings| > 0 {
        sgcb := Emit(sgcb, BlockName(Sgcb, lnName, 0), lnName, SgcbBlock(settings[0]));
      } else {
        PrintedNone(sgcb);
      }
    }

    method PrintLogicalNode(ldName: string, lnName: string, ln: LogicalNode)
      modifies this
      ensures All() == PrintedNode(old(All()), connectedAP, Site(ldName, lnName, ln))
    {
      PrintReportControlBlocks(lnName, ln.reports);
      lcb := PrintMany(lcb, Lcb, lnName, LcbBlocks(ln.lcbs));
      log := PrintMany(log, LogKind, lnName, LogBlocks(ln.logs));
      PrintGSEControlBlocks(ldName, lnName, ln.gses);
      PrintSVControlBlocks(ldName, lnName, ln.smvs);
      PrintSettingControlBlock(lnName, ln.settings);
      ghost var cs, site := old(All()), Site(ldName, lnName, ln);
      assert gse == Printed(cs.gse, EntriesFrom(Gse, lnName, 0, Blocks(Gse, connectedAP, site)));
      assert smv == Printed(cs.smv, EntriesFrom(Smv, lnName, 0, Blocks(Smv, connectedAP, site)));
      assert sgcb == Printed(cs.sgcb, EntriesFrom(Sgcb, lnName, 0, Blocks(Sgcb, connectedAP, site)));
    }

    method PrintLogicalNodes(ldName: string, lns: seq<LogicalNode>)
      modifies this
      ensures All() == PrintedAll(old(All()), connectedAP, LnSites(ldName, lns))
    {
      for j := 0 to |lns|
        invariant PrintedAll(All(), connectedAP, LnSites(ldName, lns[j..]))
               == PrintedAll(old(All()), connectedAP, LnSites(ldName, lns))
      {
        ghost var before := All();
        var lnName := ldName + "_" + lns[j].Name();
        assert lns[j..][1..] == lns[j + 1..];
        PrintLogicalNode(ldName, lnName, lns[j]);
        PrintAllStep(before, connectedAP, Site(ldName, lnName, lns[j]), LnSites(ldName, lns[j + 1..]));
      }
      assert LnSites(ldName, lns[|lns|..]) == [];
      PrintNothing(All(), connectedAP);
    }

    method PrintControlBlocks(lds: seq<LogicalDevice>)
      modifies this
      ensures forall kind ::
        Get(kind) == Printed(old(Get(kind)), AllEntries(kind, connectedAP, Sites(modelPrefix, lds)))
    {
      for i := 0 to |lds|
        invariant PrintedAll(All(), connectedAP, Sites(modelPrefix, lds[i..]))
               == PrintedAll(old(All()), connectedAP, Sites(modelPrefix, lds))
      {
        ghost var before := All();
        var ldName := modelPrefix + "_" + lds[i].inst;
        assert lds[i..][1..] == lds[i + 1..];
        PrintLogicalNodes(ldName, lds[i].lns);
        PrintAllJoin(before, connectedAP, LnSites(ldName, lds[i].lns), Sites(modelPrefix, lds[i + 1..]));
      }
      assert Sites(modelPrefix, lds[|lds|..]) == [];
      PrintNothing(All(), connectedAP);
    }
  }

  lemma {:induction false} ListStep(c: Chain, kind: Kind, site: Site, rest: seq<Site>)
    ensures WithNames(WithNames(c, NamesFrom(kind, site.symbol, 0, Listed(kind, site.ln))), AllNames(kind, rest))
         == WithNames(c, AllNames(kind, [site] + rest))
  {
    assert ([site] + rest)[1..] == rest;
    var here := NamesFrom(kind, site.symbol, 0, Listed(kind, site.ln));
    assert c.names + here + AllNames(kind, rest) == c.names + (here + AllNames(kind, rest));
  }

  lemma {:induction false} PrintStep(c: Chain, kind: Kind, ap: ConnectedAp, site: Site, rest: seq<Site>)
    ensures Printed(Printed(c, EntriesFrom(kind, site.symbol, 0, Blocks(kind, ap, site))), AllEntries(kind, ap, rest))
         == Printed(c, AllEntries(kind, ap, [site] + rest))
  {
    assert ([site] + rest)[1..] == rest;
    PrintedJoin(c, EntriesFrom(kind, site.symbol, 0, Blocks(kind, ap, site)), AllEntries(kind, ap, rest));
  }

  // ----- exactly when the chains are right

  lemma {:induction false} GseCount(ap: ConnectedAp, ldName: string, gs: seq<GseControl>)
    ensures |GseBlocks(ap, ldName, gs)| == |gs|
       <==> forall g :: g in gs ==> LookupEntry(ap.gses, ldName, g.name).Some?
  {
    if gs != [] {
      GseCount(ap, ldName, gs[1..]);
      assert forall g :: g in gs <==> g == gs[0] || g in gs[1..];
    }
  }

  /** How many more report instances are listed than printed: a block that is not indexed is printed
      once, but listed as often as its max says. */
  function Surplus(rs: seq<ReportControl>): int {
    if rs == [] then 0 else (if rs[0].indexed then 0 else MaxInstances(rs[0]) - 1) + Surplus(rs[1..])
  }

  lemma {:induction false} RcbCount(rs: seq<ReportControl>)
    ensures ListedRcbs(rs) - |RcbBlocks(rs)| == Surplus(rs)
  {
    if rs != [] {
      RcbCount(rs[1..]);
    }
  }

  /** What the parser sees to: a block that is not indexed has one instance. */
  predicate Normal(rs: seq<ReportControl>) {
    forall r :: r in rs && !r.indexed ==> MaxInstances(r) == 1
  }

  lemma {:induction false} NormalSurplus(rs: seq<ReportControl>)
    requires Normal(rs)
    ensures Surplus(rs) == 0
  {
    if rs != [] {
      assert rs[0] in rs;
      NormalSurplus(rs[1..]);
    }
  }

  /** The shape the chains need: every GSE control block has an entry in the connected access point,
      no logical node has two setting controls, and the instances of the report control blocks that are
      not indexed add up to their number. */
  ghost predicate ControlsFit(ap: ConnectedAp, sites: seq<Site>) {
    forall s :: s in sites ==> SiteFits(ap, s)
  }

  ghost predicate SiteFits(ap: ConnectedAp, s: Site) {
    AddressesFit(ap, s) && Surplus(s.ln.reports) == 0
  }

  ghost predicate AddressesFit(ap: ConnectedAp, s: Site) {
    && (forall g :: g in s.ln.gses ==> LookupEntry(ap.gses, SecondPart(s.ldSymbol), g.name).Some?)
    && |s.ln.settings| <= 1
  }

  lemma {:induction false} SiteCounts(ap: ConnectedAp, s: Site)
    ensures (forall kind :: |Blocks(kind, ap, s)| == Listed(kind, s.ln)) <==> SiteFits(ap, s)
  {
    GseCount(ap, SecondPart(s.ldSymbol), s.ln.gses);
    RcbCount(s.ln.reports);
    assert |Blocks(Sgcb, ap, s)| == Listed(Sgcb, s.ln) <==> |s.ln.settings| <= 1;
    assert |Blocks(Rcb, ap, s)| == Listed(Rcb, s.ln) <==> Surplus(s.ln.reports) == 0;
    assert |Blocks(Gse, ap, s)| == |GseBlocks(ap, SecondPart(s.ldSymbol), s.ln.gses)|;
    forall kind: Kind | SiteFits(ap, s) ensures |Blocks(kind, ap, s)| == Listed(kind, s.ln) {
    }
  }

  lemma {:induction false} AllCounts(ap: ConnectedAp, sites: seq<Site>)
    ensures (forall kind :: CountsAgree(kind, ap, sites)) <==> ControlsFit(ap, sites)
  {
    if sites != [] {
      AllCounts(ap, sites[1..]);
      SiteCounts(ap, sites[0]);
      forall kind: Kind
        ensures CountsAgree(kind, ap, sites)
           <==> |Blocks(kind, ap, sites[0])| == Listed(kind, sites[0].ln) && CountsAgree(kind, ap, sites[1..])
      {
        CountsAgreeStep(kind, ap, sites);
      }
      assert forall s :: s in sites <==> s == sites[0] || s in sites[1..];
    }
  }

  ghost predicate NamesKept(kind: Kind, ap: ConnectedAp, sites: seq<Site>) {
    EntryNames(AllEntries(kind, ap, sites)) == AllNames(kind, sites)
  }

  /** All six chains have their k-th block carry the k-th listed name exactly under ControlsFit. */
  lemma {:induction false} AllPassesAgree(ap: ConnectedAp, sites: seq<Site>)
    requires DistinctSites(sites)
    ensures (forall kind :: NamesKept(kind, ap, sites)) <==> ControlsFit(ap, sites)
  {
    AllCounts(ap, sites);
    forall kind: Kind ensures NamesKept(kind, ap, sites) <==> CountsAgree(kind, ap, sites) {
      PassesAgree(kind, ap, sites);
    }
    if forall kind :: NamesKept(kind, ap, sites) {
      assert forall kind :: CountsAgree(kind, ap, sites) by {
        forall kind: Kind ensures CountsAgree(kind, ap, sites) {
          assert NamesKept(kind, ap, sites);
        }
      }
    }
  }

  /** With report control blocks as the parser leaves them: all six kinds agree exactly if every GSE
      control block has an entry and no logical node has two setting controls. */
  lemma {:induction false} NormalPassesAgree(ap: ConnectedAp, sites: seq<Site>)
    requires DistinctSites(sites) && forall s :: s in sites ==> Normal(s.ln.reports)
    ensures (forall kind :: NamesKept(kind, ap, sites)) <==> forall s :: s in sites ==> AddressesFit(ap, s)
  {
    AllPassesAgree(ap, sites);
    forall s | s in sites ensures SiteFits(ap, s) <==> AddressesFit(ap, s) {
      NormalSurplus(s.ln.reports);
    }
  }

  lemma {:induction false} LnSiteOrigin(ldSymbol: string, lns: seq<LogicalNode>, i: nat)
    requires i < |LnSites(ldSymbol, lns)|
    ensures |LnSites(ldSymbol, lns)| == |lns|
    ensures LnSites(ldSymbol, lns)[i] == Site(ldSymbol, ldSymbol + "_" + lns[i].Name(), lns[i])
  {
    if i > 0 {
      LnSiteOrigin(ldSymbol, lns[1..], i - 1);
    } else if |lns| > 1 {
      LnSiteOrigin(ldSymbol, lns[1..], 0);
    }
  }

  lemma {:induction false} SiteOrigin(px: string, lds: seq<LogicalDevice>, s: Site) returns (d: nat, n: nat)
    requires s in Sites(px, lds)
    ensures d < |lds| && n < |lds[d].lns|
    ensures s == Site(px + "_" + lds[d].inst, px + "_" + lds[d].inst + "_" + lds[d].lns[n].Name(), lds[d].lns[n])
  {
    var here := LnSites(px + "_" + lds[0].inst, lds[0].lns);
    if s in here {
      d := 0;
      n :| 0 <= n < |here| && here[n] == s;
      LnSiteOrigin(px + "_" + lds[0].inst, lds[0].lns, n);
    } else {
      d, n := SiteOrigin(px, lds[1..], s);
      d := d + 1;
    }
  }

  lemma {:induction false} PathSymbol(px: string, inst: string, name: string)
    ensures px + "_" + inst + "_" + name == px + Join([inst, name])
  {
    assert [inst, name][1..] == [name] && [name][1..] == [];
    assert Join([name]) == "_" + name + "";
    assert Join([inst, name]) == "_" + inst + Join([name]);
  }

  /** Distinct logical nodes have distinct symbols. */
  lemma {:induction false} LnSymbolInjective(px: string, a: string, m: string, b: string, n: string)
    requires Free(a, {'_'}) && Free(b, {'_'}) && Free(m, {'_'}) && Free(n, {'_'})
    requires px + "_" + a + "_" + m == px + "_" + b + "_" + n
    ensures a == b && m == n
  {
    PathSymbol(px, a, m);
    PathSymbol(px, b, n);
    assert Join([a, m]) == (px + Join([a, m]))[|px|..] == (px + Join([b, n]))[|px|..] == Join([b, n]);
    JoinInjective([a, m], [b, n]);
    assert [a, m][0] == [b, n][0] && [a, m][1] == [b, n][1];
  }

  lemma {:induction false} LnSitesDistinct(px: string, inst: string, lns: seq<LogicalNode>)
    requires Free(inst, {'_'}) && CleanLns(lns, PLAIN)
    ensures DistinctSites(LnSites(px + "_" + inst, lns))
  {
    var sites := LnSites(px + "_" + inst, lns);
    forall i, j | 0 <= i < j < |sites| ensures sites[i].symbol != sites[j].symbol {
      LnSiteOrigin(px + "_" + inst, lns, i);
      LnSiteOrigin(px + "_" + inst, lns, j);
      assert lns[i] in lns && lns[j] in lns;
      if sites[i].symbol == sites[j].symbol {
        LnSymbolInjective(px, inst, lns[i].Name(), inst, lns[j].Name());
      }
    }
  }

  lemma {:induction false} SitesDistinct(px: string, lds: seq<LogicalDevice>)
    requires WellNamed(lds)
    ensures DistinctSites(Sites(px, lds))
  {
    if lds != [] {
      var ld, later := lds[0], Sites(px, lds[1..]);
      var here := LnSites(px + "_" + ld.inst, ld.lns);
      assert ld in lds;
      LnSitesDistinct(px, ld.inst, ld.lns);
      SitesDistinct(px, lds[1..]);
      forall x, y | x in here && y in later ensures x.symbol != y.symbol {
        var i :| 0 <= i < |here| && here[i] == x;
        LnSiteOrigin(px + "_" + ld.inst, ld.lns, i);
        var d, n := SiteOrigin(px, lds[1..], y);
        assert lds[d + 1] in lds && ld.lns[i] in ld.lns && lds[d + 1].lns[n] in lds[d + 1].lns;
        if x.symbol == y.symbol {
          LnSymbolInjective(px, ld.inst, ld.lns[i].Name(), lds[d + 1].inst, lds[d + 1].lns[n].Name());
        }
      }
      forall i, j | 0 <= i < j < |here + later| ensures (here + later)[i].symbol != (here + later)[j].symbol {
        if i < |here| <= j {
          assert here[i] in here && later[j - |here|] in later;
        }
      }
    }
  }

  /** The printed blocks of a kind and the listed names, as the generator leaves them behind. */
  function Final(kind: Kind, ap: ConnectedAp, sites: seq<Site>): Chain {
    Printed(Chain(AllNames(kind, sites), 0, []), AllEntries(kind, ap, sites))
  }

  /** Following "next" from the head shows every block printed, once, in document order, and ends. */
  ghost predicate Shown(kind: Kind, ap: ConnectedAp, sites: seq<Site>, fuel: nat) {
    var c := Final(kind, ap, sites);
    Walk(c.printed, At(c.names, 0), fuel) == Some(AllEntries(kind, ap, sites))
  }

  lemma {:induction false} ShownIff(kind: Kind, ap: ConnectedAp, sites: seq<Site>, fuel: nat)
    requires DistinctSites(sites) && fuel >= |AllEntries(kind, ap, sites)|
    ensures Shown(kind, ap, sites, fuel) <==> CountsAgree(kind, ap, sites)
  {
    ChainComplete(kind, ap, sites, fuel);
    var es := AllEntries(kind, ap, sites);
    assert [] + Cells(es, AllNames(kind, sites), 0) == Cells(es, AllNames(kind, sites), 0);
  }

  /** For a well-named model all six chains show what was printed exactly if its controls fit. */
  lemma {:induction false} ChainsComplete(px: string, lds: seq<LogicalDevice>, ap: ConnectedAp, fuel: nat)
    requires WellNamed(lds) && forall kind :: fuel >= |AllEntries(kind, ap, Sites(px, lds))|
    ensures (forall kind :: Shown(kind, ap, Sites(px, lds), fuel)) <==> ControlsFit(ap, Sites(px, lds))
  {
    var sites := Sites(px, lds);
    SitesDistinct(px, lds);
    AllCounts(ap, sites);
    forall kind: Kind ensures Shown(kind, ap, sites, fuel) <==> CountsAgree(kind, ap, sites) {
      ShownIff(kind, ap, sites, fuel);
    }
    if forall kind :: Shown(kind, ap, sites, fuel) {
      forall kind: Kind ensures CountsAgree(kind, ap, sites) {
        assert Shown(kind, ap, sites, fuel);
      }
    }
  }

  // ----- what breaks at concrete models

  /** One logical node with the given controls. */
  function ControlModel(gses: seq<GseControl>, settings: seq<SettingControl>): seq<LogicalDevice> {
    [LogicalDevice("LD0", [OneLn([PlainDo("Mod", [])]).(gses := gses, settings := settings)])]
  }

  lemma {:induction false} ControlModelNamed(px: string, gses: seq<GseControl>, settings: seq<SettingControl>)
    ensures WellNamed(ControlModel(gses, settings)) && Populated(ControlModel(gses, settings))
    ensures var ln := ControlModel(gses, settings)[0].lns[0];
            Sites(px, ControlModel(gses, settings)) == [Site(px + "_" + "LD0", px + "_" + "LD0" + "_" + "LLN0", ln)]
  {
    var ln := ControlModel(gses, settings)[0].lns[0];
    assert ln.Name() == "LLN0" && Over("Mod", PLAIN);
    NodeNamed(ln, "Mod");
    assert [ln][1..] == [] && LnSites(px + "_" + "LD0", []) == [];
  }

  /** A GSE control block without an entry: the head of the chain names a block that is not printed. */
  lemma {:induction false} GseHeadDangles(px: string, fuel: nat)
    ensures var lds, ap := ControlModel([GseControl("g")], []), ConnectedAp([], []);
            var c := Final(Gse, ap, Sites(px, lds));
            && WellNamed(lds) && Populated(lds)
            && c.printed == [] && At(c.names, 0).Some? && Walk(c.printed, At(c.names, 0), fuel).None?
  {
    var gses, ap := [GseControl("g")], ConnectedAp([], []);
    ControlModelNamed(px, gses, []);
    var site := Sites(px, ControlModel(gses, []))[0];
    assert [site][1..] == [] && gses[1..] == [];
    assert GseBlocks(ap, SecondPart(site.ldSymbol), gses) == [];
    assert AllEntries(Gse, ap, [site]) == [];
    assert AllNames(Gse, [site]) == NamesFrom(Gse, site.symbol, 0, 1);
  }

  /** Two setting controls of one logical node: both are listed under one name and one is printed, so
      its "next" names itself and the chain never ends. */
  lemma {:induction false} SettingChainLoops(px: string, fuel: nat)
    ensures var lds, ap := ControlModel([], [SettingControl(1, 1), SettingControl(2, 2)]), ConnectedAp([], []);
            var c := Final(Sgcb, ap, Sites(px, lds));
            && WellNamed(lds) && Populated(lds)
            && |c.printed| == 1 && c.printed[0].next == Some(c.printed[0].symbol)
            && Walk(c.printed, At(c.names, 0), fuel).None?
  {
    var settings, ap := [SettingControl(1, 1), SettingControl(2, 2)], ConnectedAp([], []);
    ControlModelNamed(px, [], settings);
    var site := Sites(px, ControlModel([], settings))[0];
    assert [site][1..] == [];
    assert AllNames(Sgcb, [site]) == NamesFrom(Sgcb, site.symbol, 0, 2);
    assert AllEntries(Sgcb, ap, [site]) == EntriesFrom(Sgcb, site.symbol, 0, [SgcbBlock(settings[0])]);
    var c := Final(Sgcb, ap, [site]);
    assert c.printed[0].symbol == c.names[0] == c.names[1];
    assert LookupItem(c.printed, c.printed[0].symbol) == Some(c.printed[0]);
    WalkStuck(c.printed, c.printed[0], fuel);
  }

  // ----- the parser's normalisation of report control blocks

  /** A report control block as read: attributes still text, RptEnabled's max absent or text. */
  datatype RawReport = RawReport(name: string, indexedStr: string, rptEnabled: Option<string>)

  /** `toBool` and `toInt` are the conversions of the cast library. */
  function Normalise(raw: RawReport, toBool: string -> bool, toInt: string -> Option<int>): Option<ReportControl> {
    var indexed := raw.indexedStr == "" || toBool(raw.indexedStr);
    if raw.rptEnabled.None? then Some(ReportControl(raw.name, indexed, None))
    else
      var max := if raw.rptEnabled.value == "" then Some(1) else toInt(raw.rptEnabled.value);
      if max.None? || (!indexed && max.value != 1) then None
      else Some(ReportControl(raw.name, indexed, max))
  }

  /** A report is accepted exactly if its maximum, where it has one, can be read and is 1 unless the report
      is indexed; an absent flag means indexed, and an empty maximum 1. */
  lemma {:induction false} NormaliseExact(raw: RawReport, toBool: string -> bool, toInt: string -> Option<int>,
                                          rc: ReportControl)
    ensures Normalise(raw, toBool, toInt) == Some(rc)
       <==> && rc.name == raw.name
            && (rc.indexed <==> (raw.indexedStr != "" ==> toBool(raw.indexedStr)))
            && (rc.rptEnabledMax.Some? <==> raw.rptEnabled.Some?)
            && (raw.rptEnabled == Some("") ==> rc.rptEnabledMax == Some(1))
            && (raw.rptEnabled.Some? && raw.rptEnabled.value != "" ==> toInt(raw.rptEnabled.value) == rc.rptEnabledMax)
            && (rc.rptEnabledMax.Some? && !rc.indexed ==> rc.rptEnabledMax.value == 1)
  {
  }

  method NormaliseReports(raws: seq<RawReport>, toBool: string -> bool, toInt: string -> Option<int>)
    returns (r: Option<seq<ReportControl>>)
    ensures r.Some? <==> forall raw :: raw in raws ==> Normalise(raw, toBool, toInt).Some?
    ensures r.Some? ==> |r.value| == |raws| && Normal(r.value) && |RcbBlocks(r.value)| == ListedRcbs(r.value)
    ensures r.Some? ==> forall i :: 0 <= i < |raws| ==> Normalise(raws[i], toBool, toInt) == Some(r.value[i])
  {
    var done: seq<ReportControl> := [];
    for i := 0 to |raws|
      invariant |done| == i
      invariant forall k :: 0 <= k < i ==> Normalise(raws[k], toBool, toInt) == Some(done[k])
    {
      var rc := Normalise(raws[i], toBool, toInt);
      if rc.None? {
        return None;
      }
      done := done + [rc.value];
    }
    RcbCount(done);
    NormalSurplus(done);
    return Some(done);
  }

  /** Without the parser's rule the report chain breaks: one non-indexed block with max = 2 is
      printed once but listed twice, so its "next" dangles. */
  lemma {:induction false} UnnormalisedBreaks(ln: string)
    ensures var rs := [ReportControl("r", false, Some(2))];
            && |RcbBlocks(rs)| == 1 && ListedRcbs(rs) == 2
            && var cs := Cells(EntriesFrom(Rcb, ln, 0, RcbBlocks(rs)), NamesFrom(Rcb, ln, 0, ListedRcbs(rs)), 0);
               LookupItem(cs, cs[0].next.GetOr("")).None?
  {
    var rs := [ReportControl("r", false, Some(2))];
    assert RcbBlocks(rs) == RcbInstances(rs[0], 0) + RcbBlocks([]);
    assert ListedRcbs(rs) == 2 + ListedRcbs([]);
    var names := NamesFrom(Rcb, ln, 0, 2);
    if names[0] == names[1] {
      BlockNameInjective(Rcb, ln, 0, ln, 1);
    }
  }
}
