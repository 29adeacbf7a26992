/** What the printed control blocks say, told from the logical nodes: which control stands under which
    name, in which order, with which index or address. */
module BlockContents {
  import opened Text
  import opened Instances
  import opened ModelTable
  import opened Chains
  import opened ControlBlocks
  import opened BlockPrinter

  // ----- the blocks of one node

  /** The first entry of the access point for a control of a device. */
  ghost predicate FirstEntry(entries: seq<CommEntry>, device: string, name: string, e: CommEntry) {
    exists t: nat :: t < |entries| && entries[t] == e && Matching(e, device, name)
                     && forall j :: 0 <= j < t ==> !Matching(entries[j], device, name)
  }

  predicate Matching(e: CommEntry, device: string, name: string) {
    e.ldInst == device && e.cbName == name
  }

  predicate HasEntry(entries: seq<CommEntry>, device: string, name: string) {
    exists e :: e in entries && Matching(e, device, name)
  }

  /** How often a report is printed: as often as its maximum says, or once. */
  function Times(r: ReportControl): nat {
    if r.indexed && r.rptEnabledMax.Some? then
      if r.rptEnabledMax.value < 0 then 0 else r.rptEnabledMax.value
    else 1
  }

  /** Where the blocks of report number r begin. */
  function ReportsBefore(rs: seq<ReportControl>, r: nat): nat
    requires r <= |rs|
  {
    if r == 0 then 0 else ReportsBefore(rs, r - 1) + Times(rs[r - 1])
  }

  /** At least two digits that stand for the number. */
  predicate TwoDigits(t: string, n: nat) {
    && (forall c :: c in t ==> '0' <= c <= '9') && Number(t) == n
    && |t| >= 2 && (|t| > 2 ==> t[0] != '0')
  }

  ghost predicate ReportAt(e: Entry, lnSymbol: string, k: nat, r: ReportControl, i: nat) {
    && e.name == lnSymbol + "_report" + Itoa(k) && e.ln == lnSymbol
    && e.block.RcbBlock? && e.block.rcb == r
    && if r.indexed then TwoDigits(e.block.index, i + 1) else e.block.index == ""
  }

  /** Each report as often as it is printed, its instances numbered from 1 if it is indexed. */
  ghost predicate ShowsReports(lnSymbol: string, rs: seq<ReportControl>, es: seq<Entry>) {
    && |es| == ReportsBefore(rs, |rs|)
    && forall r: nat, i: nat {:trigger ReportPlace(rs, r, i)} :: r < |rs| && i < Times(rs[r]) ==>
         var k := ReportPlace(rs, r, i);
         k < |es| && ReportAt(es[k], lnSymbol, k, rs[r], i)
  }

  function ReportPlace(rs: seq<ReportControl>, r: nat, i: nat): nat
    requires r < |rs|
  {
    ReportsBefore(rs, r) + i
  }

  /** How many of the first j GSE controls have an entry. */
  function GsesBefore(ap: ConnectedAp, device: string, gs: seq<GseControl>, j: nat): nat
    requires j <= |gs|
  {
    if j == 0 then 0
    else GsesBefore(ap, device, gs, j - 1) + if HasEntry(ap.gses, device, gs[j - 1].name) then 1 else 0
  }

  ghost predicate GseAt(e: Entry, lnSymbol: string, k: nat, ap: ConnectedAp, device: string, g: GseControl) {
    && e.name == lnSymbol + "_gse" + Itoa(k) && e.ln == lnSymbol
    && e.block.GseBlock? && e.block.gse == g && FirstEntry(ap.gses, device, g.name, e.block.gseAddress)
  }

  /** The GSE controls that have an entry, in order, each with the first one. */
  ghost predicate ShowsGses(lnSymbol: string, ap: ConnectedAp, device: string, gs: seq<GseControl>, es: seq<Entry>) {
    && |es| == GsesBefore(ap, device, gs, |gs|)
    && forall j :: 0 <= j < |gs| && HasEntry(ap.gses, device, gs[j].name) ==>
         var k := GsesBefore(ap, device, gs, j);
         k < |es| && GseAt(es[k], lnSymbol, k, ap, device, gs[j])
  }

  ghost predicate SmvAt(e: Entry, lnSymbol: string, k: nat, ap: ConnectedAp, device: string, s: SmvControl) {
    && e.name == lnSymbol + "_smv" + Itoa(k) && e.ln == lnSymbol
    && e.block.SmvBlock? && e.block.smv == s
    && (e.block.smvAddress.Some? <==> HasEntry(ap.smvs, device, s.name))
    && (e.block.smvAddress.Some? ==> FirstEntry(ap.smvs, device, s.name, e.block.smvAddress.value))
  }

  ghost predicate ShowsSmvs(lnSymbol: string, ap: ConnectedAp, device: string, ss: seq<SmvControl>, es: seq<Entry>) {
    |es| == |ss| && forall k :: 0 <= k < |ss| ==> SmvAt(es[k], lnSymbol, k, ap, device, ss[k])
  }

  predicate ShowsLcbs(lnSymbol: string, ls: seq<LogControl>, es: seq<Entry>) {
    |es| == |ls| && forall k :: 0 <= k < |ls| ==>
      es[k] == Entry(lnSymbol + "_lcb" + Itoa(k), lnSymbol, LcbBlock(ls[k]))
  }

  predicate ShowsLogs(lnSymbol: string, ls: seq<Log>, es: seq<Entry>) {
    |es| == |ls| && forall k :: 0 <= k < |ls| ==>
      es[k] == Entry(lnSymbol + "_log" + Itoa(k), lnSymbol, LogBlock(ls[k]))
  }

  /** Only the first setting control. */
  predicate ShowsSetting(lnSymbol: string, ss: seq<SettingControl>, es: seq<Entry>) {
    es == if ss == [] then [] else [Entry(lnSymbol + "_sgcb", lnSymbol, SgcbBlock(ss[0]))]
  }

  /** The blocks of one kind are those of the node; addresses are looked up under the name recovered
      from the device's symbol. */
  ghost predicate ShowsNode(kind: Kind, ap: ConnectedAp, ldSymbol: string, ln: LogicalNode, es: seq<Entry>) {
    var symbol, device := ldSymbol + "_" + ln.Name(), SecondPart(ldSymbol);
    match kind
    case Rcb => ShowsReports(symbol, ln.reports, es)
    case Lcb => ShowsLcbs(symbol, ln.lcbs, es)
    case LogKind => ShowsLogs(symbol, ln.logs, es)
    case Gse => ShowsGses(symbol, ap, device, ln.gses, es)
    case Smv => ShowsSmvs(symbol, ap, device, ln.smvs, es)
    case Sgcb => ShowsSetting(symbol, ln.settings, es)
  }

  // ----- the blocks of a model: node after node, device after device

  ghost predicate ShowsLns(kind: Kind, ap: ConnectedAp, ldSymbol: string, lns: seq<LogicalNode>, es: seq<Entry>) {
    if lns == [] then es == []
    else exists cut: nat :: cut <= |es| && ShowsNode(kind, ap, ldSymbol, lns[0], es[..cut])
                            && ShowsLns(kind, ap, ldSymbol, lns[1..], es[cut..])
  }

  ghost predicate ShowsLds(kind: Kind, ap: ConnectedAp, px: string, lds: seq<LogicalDevice>, es: seq<Entry>) {
    if lds == [] then es == []
    else exists cut: nat :: cut <= |es| && ShowsLns(kind, ap, px + "_" + lds[0].inst, lds[0].lns, es[..cut])
                            && ShowsLds(kind, ap, px, lds[1..], es[cut..])
  }

  // ----- the printed blocks are these

  lemma {:induction false} LookupIsFirst(entries: seq<CommEntry>, device: string, name: string)
    ensures var r := LookupEntry(entries, device, name);
            (r.Some? <==> HasEntry(entries, device, name)) && (r.Some? ==> FirstEntry(entries, device, name, r.value))
  {
    if entries != [] {
      LookupIsFirst(entries[1..], device, name);
      if Matching(entries[0], device, name) {
        assert entries[0] in entries;
      } else {
        assert HasEntry(entries, device, name) <==> HasEntry(entries[1..], device, name) by {
          assert forall e :: e in entries <==> e == entries[0] || e in entries[1..];
        }
        if HasEntry(entries[1..], device, name) {
          FirstLater(entries, device, name, LookupEntry(entries[1..], device, name).value);
        }
      }
    }
  }

  lemma {:induction false} FirstLater(entries: seq<CommEntry>, device: string, name: string, e: CommEntry)
    requires entries != [] && !Matching(entries[0], device, name) && FirstEntry(entries[1..], device, name, e)
    ensures FirstEntry(entries, device, name, e)
  {
    var t: nat :| t < |entries[1..]| && entries[1..][t] == e && Matching(e, device, name)
                  && forall j :: 0 <= j < t ==> !Matching(entries[1..][j], device, name);
    assert entries[t + 1] == e;
    forall j | 0 <= j < t + 1 ensures !Matching(entries[j], device, name) {
      assert j > 0 ==> entries[j] == entries[1..][j - 1];
    }
  }

  lemma {:induction false} Pad2Reads(n: nat)
    ensures TwoDigits(Pad2(n), n)
  {
    ItoaReads(n);
    if n < 10 {
      var t := Pad2(n);
      assert t[..1] == "0" && t[..1][..0] == "" && Itoa(n)[..0] == "";
    }
  }

  lemma {:induction false} TimesPrinted(r: ReportControl)
    ensures Times(r) == PrintedInstances(r)
  {
  }

  lemma {:induction false} InstanceAt(r: ReportControl, from: nat, k: nat)
    requires from <= k < PrintedInstances(r)
    ensures RcbInstances(r, from)[k - from] == RcbBlock(r, if r.indexed then Pad2(k + 1) else "")
    decreases k - from
  {
    var head, rest := RcbBlock(r, if r.indexed then Pad2(from + 1) else ""), RcbInstances(r, from + 1);
    assert RcbInstances(r, from) == [head] + rest;
    if from < k {
      InstanceAt(r, from + 1, k);
      assert ([head] + rest)[k - from] == rest[k - from - 1];
    }
  }

  lemma {:induction false} BeforeTail(rs: seq<ReportControl>, r: nat)
    requires 0 < r <= |rs|
    ensures ReportsBefore(rs, r) == Times(rs[0]) + ReportsBefore(rs[1..], r - 1)
  {
    if r > 1 {
      BeforeTail(rs, r - 1);
      assert rs[1..][r - 2] == rs[r - 1];
    }
  }

  lemma {:induction false} FirstReportAt(rs: seq<ReportControl>, i: nat)
    requires rs != [] && i < Times(rs[0])
    ensures ReportPlace(rs, 0, i) == i < |RcbBlocks(rs)|
    ensures RcbBlocks(rs)[i] == RcbBlock(rs[0], if rs[0].indexed then Pad2(i + 1) else "")
  {
    TimesPrinted(rs[0]);
    InstanceAt(rs[0], 0, i);
  }

  lemma {:induction false} ReportBlockAt(rs: seq<ReportControl>, r: nat, i: nat)
    requires r < |rs| && i < Times(rs[r])
    ensures ReportPlace(rs, r, i) < |RcbBlocks(rs)|
    ensures RcbBlocks(rs)[ReportPlace(rs, r, i)] == RcbBlock(rs[r], if rs[r].indexed then Pad2(i + 1) else "")
  {
    if r == 0 {
      FirstReportAt(rs, i);
    } else {
      var later := ReportPlace(rs[1..], r - 1, i);
      ReportBlockAt(rs[1..], r - 1, i);
      TimesPrinted(rs[0]);
      BeforeTail(rs, r);
      BehindFirst(RcbInstances(rs[0], 0), RcbBlocks(rs[1..]), later);
    }
  }

  lemma {:induction false} BehindFirst(here: seq<Block>, rest: seq<Block>, k: nat)
    requires k < |rest|
    ensures (here + rest)[|here| + k] == rest[k]
  {
  }

  lemma {:induction false} ReportBlocksCount(rs: seq<ReportControl>)
    ensures |RcbBlocks(rs)| == ReportsBefore(rs, |rs|)
  {
    if rs != [] {
      TimesPrinted(rs[0]);
      ReportBlocksCount(rs[1..]);
      BeforeTail(rs, |rs|);
    }
  }

  lemma {:induction false} ReportsShown(symbol: string, rs: seq<ReportControl>)
    ensures ShowsReports(symbol, rs, EntriesFrom(Rcb, symbol, 0, RcbBlocks(rs)))
  {
    var es := EntriesFrom(Rcb, symbol, 0, RcbBlocks(rs));
    ReportBlocksCount(rs);
    forall r: nat, i: nat | r < |rs| && i < Times(rs[r])
      ensures var k := ReportPlace(rs, r, i); k < |es| && ReportAt(es[k], symbol, k, rs[r], i)
    {
      ReportBlockAt(rs, r, i);
      Pad2Reads(i + 1);
    }
  }

  lemma {:induction false} GsesTail(ap: ConnectedAp, device: string, gs: seq<GseControl>, j: nat)
    requires 0 < j <= |gs|
    ensures GsesBefore(ap, device, gs, j)
         == (if HasEntry(ap.gses, device, gs[0].name) then 1 else 0) + GsesBefore(ap, device, gs[1..], j - 1)
  {
    if j > 1 {
      GsesTail(ap, device, gs, j - 1);
      assert gs[1..][j - 2] == gs[j - 1];
    }
  }

  lemma {:induction false} GseBlocksCount(ap: ConnectedAp, device: string, gs: seq<GseControl>)
    ensures |GseBlocks(ap, device, gs)| == GsesBefore(ap, device, gs, |gs|)
  {
    if gs != [] {
      LookupIsFirst(ap.gses, device, gs[0].name);
      GseBlocksCount(ap, device, gs[1..]);
      GsesTail(ap, device, gs, |gs|);
    }
  }

  lemma {:induction false} GseBlockAt(ap: ConnectedAp, device: string, gs: seq<GseControl>, j: nat)
    requires j < |gs| && HasEntry(ap.gses, device, gs[j].name)
    ensures var bs, k := GseBlocks(ap, device, gs), GsesBefore(ap, device, gs, j);
            && k < |bs| && bs[k].GseBlock? && bs[k].gse == gs[j]
            && FirstEntry(ap.gses, device, gs[j].name, bs[k].gseAddress)
  {
    LookupIsFirst(ap.gses, device, gs[0].name);
    if j > 0 {
      GseBlockAt(ap, device, gs[1..], j - 1);
      GsesTail(ap, device, gs, j);
    }
  }

  lemma {:induction false} GsesShown(symbol: string, ap: ConnectedAp, device: string, gs: seq<GseControl>)
    ensures ShowsGses(symbol, ap, device, gs, EntriesFrom(Gse, symbol, 0, GseBlocks(ap, device, gs)))
  {
    GseBlocksCount(ap, device, gs);
    forall j | 0 <= j < |gs| && HasEntry(ap.gses, device, gs[j].name)
      ensures var es, k := EntriesFrom(Gse, symbol, 0, GseBlocks(ap, device, gs)), GsesBefore(ap, device, gs, j);
              k < |es| && GseAt(es[k], symbol, k, ap, device, gs[j])
    {
      GseBlockAt(ap, device, gs, j);
    }
  }

  lemma {:induction false} SmvBlockAt(ap: ConnectedAp, device: string, ss: seq<SmvControl>, k: nat)
    requires k < |ss|
    ensures SmvBlocks(ap, device, ss)[k] == SmvBlock(ss[k], LookupEntry(ap.smvs, device, ss[k].name))
  {
    if k > 0 {
      SmvBlockAt(ap, device, ss[1..], k - 1);
    }
  }

  lemma {:induction false} SmvsShown(symbol: string, ap: ConnectedAp, device: string, ss: seq<SmvControl>)
    ensures ShowsSmvs(symbol, ap, device, ss, EntriesFrom(Smv, symbol, 0, SmvBlocks(ap, device, ss)))
  {
    forall k | 0 <= k < |ss|
      ensures SmvAt(EntriesFrom(Smv, symbol, 0, SmvBlocks(ap, device, ss))[k], symbol, k, ap, device, ss[k])
    {
      SmvBlockAt(ap, device, ss, k);
      LookupIsFirst(ap.smvs, device, ss[k].name);
    }
  }

  lemma {:induction false} SettingShown(symbol: string, ss: seq<SettingControl>)
    ensures ShowsSetting(symbol, ss, EntriesFrom(Sgcb, symbol, 0, if ss == [] then [] else [SgcbBlock(ss[0])]))
  {
    assert BlockName(Sgcb, symbol, 0) == symbol + "_sgcb";
  }

  lemma {:induction false} NodeShown(kind: Kind, ap: ConnectedAp, ldSymbol: string, ln: LogicalNode)
    ensures var site := Site(ldSymbol, ldSymbol + "_" + ln.Name(), ln);
            ShowsNode(kind, ap, ldSymbol, ln, EntriesFrom(kind, site.symbol, 0, Blocks(kind, ap, site)))
  {
    var symbol, device := ldSymbol + "_" + ln.Name(), SecondPart(ldSymbol);
    match kind
    case Rcb => ReportsShown(symbol, ln.reports);
    case Gse => GsesShown(symbol, ap, device, ln.gses);
    case Smv => SmvsShown(symbol, ap, device, ln.smvs);
    case Sgcb => SettingShown(symbol, ln.settings);
    case Lcb =>
    case LogKind =>
  }

  lemma {:induction false} ShowsFirst(kind: Kind, ap: ConnectedAp, ldSymbol: string, lns: seq<LogicalNode>,
                                      here: seq<Entry>, rest: seq<Entry>)
    requires lns != [] && ShowsNode(kind, ap, ldSymbol, lns[0], here) && ShowsLns(kind, ap, ldSymbol, lns[1..], rest)
    ensures ShowsLns(kind, ap, ldSymbol, lns, here + rest)
  {
    var es, cut := here + rest, |here|;
    assert es[..cut] == here && es[cut..] == rest;
  }

  lemma {:induction false} LnsShown(kind: Kind, ap: ConnectedAp, ldSymbol: string, lns: seq<LogicalNode>)
    ensures ShowsLns(kind, ap, ldSymbol, lns, AllEntries(kind, ap, LnSites(ldSymbol, lns)))
  {
    if lns != [] {
      var site := Site(ldSymbol, ldSymbol + "_" + lns[0].Name(), lns[0]);
      var here := EntriesFrom(kind, site.symbol, 0, Blocks(kind, ap, site));
      var rest := AllEntries(kind, ap, LnSites(ldSymbol, lns[1..]));
      NodeShown(kind, ap, ldSymbol, lns[0]);
      LnsShown(kind, ap, ldSymbol, lns[1..]);
      assert LnSites(ldSymbol, lns)[0] == site && LnSites(ldSymbol, lns)[1..] == LnSites(ldSymbol, lns[1..]);
      ShowsFirst(kind, ap, ldSymbol, lns, here, rest);
    }
  }

  /** Whatever the model: the printed blocks of each kind are those of its nodes, in document order. */
  lemma {:induction false} BlocksShown(kind: Kind, ap: ConnectedAp, px: string, lds: seq<LogicalDevice>)
    ensures ShowsLds(kind, ap, px, lds, AllEntries(kind, ap, Sites(px, lds)))
  {
    if lds != [] {
      var ldSymbol := px + "_" + lds[0].inst;
      var here := AllEntries(kind, ap, LnSites(ldSymbol, lds[0].lns));
      var rest := AllEntries(kind, ap, Sites(px, lds[1..]));
      LnsShown(kind, ap, ldSymbol, lds[0].lns);
      BlocksShown(kind, ap, px, lds[1..]);
      AllEntriesJoin(kind, ap, LnSites(ldSymbol, lds[0].lns), Sites(px, lds[1..]));
      assert (here + rest)[..|here|] == here && (here + rest)[|here|..] == rest;
    }
  }

  /** If the controls of a well-named model fit, following the chain of a kind from its head shows exactly
      the blocks of its nodes, and ends. */
  lemma {:induction false} ChainShowsNodes(kind: Kind, ap: ConnectedAp, px: string, lds: seq<LogicalDevice>, fuel: nat)
    requires WellNamed(lds) && ControlsFit(ap, Sites(px, lds)) && fuel >= |AllEntries(kind, ap, Sites(px, lds))|
    ensures var c := Final(kind, ap, Sites(px, lds));
            var walk := Walk(c.printed, At(c.names, 0), fuel);
            walk.Some? && ShowsLds(kind, ap, px, lds, walk.value)
  {
    var sites := Sites(px, lds);
    SitesDistinct(px, lds);
    AllCounts(ap, sites);
    ShownIff(kind, ap, sites, fuel);
    BlocksShown(kind, ap, px, lds);
    assert CountsAgree(kind, ap, sites);
  }
}
