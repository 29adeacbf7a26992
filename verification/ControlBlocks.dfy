/** The chains of control blocks.  One pass lists the names all blocks of a kind are going to have;
    a later pass prints the blocks, numbering them anew, and takes each block's "next" pointer from
    the list at a running counter.  The results say exactly when the two passes agree. */
module ControlBlocks {
  import opened Text
  import opened Instances
  import opened Chains

  datatype Kind = Rcb | Lcb | LogKind | Gse | Smv | Sgcb

  datatype Block =
    | RcbBlock(rcb: ReportControl, index: string)
    | LcbBlock(lcb: LogControl)
    | LogBlock(log: Log)
    | GseBlock(gse: GseControl, gseAddress: CommEntry)
    | SmvBlock(smv: SmvControl, smvAddress: Option<CommEntry>)
    | SgcbBlock(setting: SettingControl)

  /** A GSE or SMV entry of the connected access point. */
  datatype CommEntry = CommEntry(ldInst: string, cbName: string, address: Option<string>)
  datatype ConnectedAp = ConnectedAp(gses: seq<CommEntry>, smvs: seq<CommEntry>)

  function LookupEntry(entries: seq<CommEntry>, ldName: string, name: string): (r: Option<CommEntry>)
    ensures r.Some? <==> exists e :: e in entries && e.ldInst == ldName && e.cbName == name
    ensures r.Some? ==> r.value in entries && r.value.ldInst == ldName && r.value.cbName == name
  {
    if entries == [] then None
    else if entries[0].ldInst == ldName && entries[0].cbName == name then Some(entries[0])
    else LookupEntry(entries[1..], ldName, name)
  }

  /** strings.Split(s, "_")[1]: the text between the first two underscores. */
  function SecondPart(s: string): string {
    if s == "" then "" else if s[0] == '_' then FirstPart(s[1..]) else SecondPart(s[1..])
  }

  function FirstPart(s: string): (r: string)
    ensures Free(r, {'_'})
  {
    if s == "" || s[0] == '_' then "" else [s[0]] + FirstPart(s[1..])
  }

  lemma {:induction false} FirstPartFree(s: string)
    ensures FirstPart(s) == s <==> Free(s, {'_'})
  {
    if s != "" {
      FirstPartFree(s[1..]);
      assert s == [s[0]] + s[1..];
      assert FirstPart(s) == s ==> FirstPart(s) != "" && FirstPart(s)[1..] == s[1..];
    }
  }

  lemma {:induction false} FirstPartStops(s: string, t: string)
    ensures FirstPart(s + "_" + t) == FirstPart(s)
  {
    if s != "" && s[0] != '_' {
      assert (s + "_" + t)[1..] == s[1..] + "_" + t;
      FirstPartStops(s[1..], t);
    } else if s == "" {
      assert s + "_" + t == "_" + t;
    }
  }

  /** Recovered from its symbol, the name of a logical device is right exactly if neither the prefix nor
      the name has '_', or the prefix has one and the name happens to be what follows it. */
  lemma {:induction false} DeviceNameRecovered(px: string, inst: string)
    ensures SecondPart(px + "_" + inst) == (if Free(px, {'_'}) then FirstPart(inst) else SecondPart(px))
    ensures SecondPart(px + "_" + inst) == inst
       <==> if Free(px, {'_'}) then Free(inst, {'_'}) else inst == SecondPart(px)
  {
    FirstPartFree(inst);
    if px == "" {
      assert ("_" + inst)[1..] == inst;
      assert px + "_" + inst == "_" + inst;
    } else {
      assert (px + "_" + inst)[1..] == px[1..] + "_" + inst;
      if px[0] == '_' {
        assert px[0] in px;
        FirstPartStops(px[1..], inst);
      } else {
        assert Free(px, {'_'}) <==> Free(px[1..], {'_'}) by {
          assert px == [px[0]] + px[1..];
        }
        DeviceNameRecovered(px[1..], inst);
      }
    }
  }

  /** The prefix my_model has the eight characters the cut needs, but every device is taken for "model". */
  lemma {:induction false} UnderscorePrefixMisleads(inst: string)
    ensures |"my_model"| == 8 && SecondPart("my_model" + "_" + inst) == "model"
  {
    var px := "my_model";
    assert px[2] == '_' && px[2] in px;
    DeviceNameRecovered(px, inst);
    assert px[1..] == "y_model" && px[1..][1..] == "_model" && px[1..][1..][1..] == "model";
    assert Free("model", {'_'});
    FirstPartFree("model");
  }

  // ----- one logical node

  /** A logical node with the symbols of itself and of its device. */
  datatype Site = Site(ldSymbol: string, symbol: string, ln: LogicalNode)

  function Suffix(kind: Kind): string {
    match kind
    case Rcb => "_report"
    case Lcb => "_lcb"
    case LogKind => "_log"
    case Gse => "_gse"
    case Smv => "_smv"
    case Sgcb => "_sgcb"
  }

  function BlockName(kind: Kind, ln: string, k: nat): string {
    ln + Suffix(kind) + (if kind.Sgcb? then "" else Itoa(k))
  }

  function MaxInstances(r: ReportControl): nat {
    if r.rptEnabledMax.None? then 1
    else if r.rptEnabledMax.value < 0 then 0 else r.rptEnabledMax.value
  }

  function PrintedInstances(r: ReportControl): nat {
    if r.indexed then MaxInstances(r) else 1
  }

  function ListedRcbs(rs: seq<ReportControl>): nat {
    if rs == [] then 0 else MaxInstances(rs[0]) + ListedRcbs(rs[1..])
  }

  /** How many names the listing pass reserves for a logical node. */
  function Listed(kind: Kind, ln: LogicalNode): nat {
    match kind
    case Rcb => ListedRcbs(ln.reports)
    case Lcb => |ln.lcbs|
    case LogKind => |ln.logs|
    case Gse => |ln.gses|
    case Smv => |ln.smvs|
    case Sgcb => |ln.settings|
  }

  /** "%02d". */
  function Pad2(n: nat): string {
    if n < 10 then "0" + Itoa(n) else Itoa(n)
  }

  function RcbInstances(r: ReportControl, i: nat): (bs: seq<Block>)
    requires i <= PrintedInstances(r)
    ensures |bs| == PrintedInstances(r) - i
    decreases PrintedInstances(r) - i
  {
    if i == PrintedInstances(r) then []
    else [RcbBlock(r, if r.indexed then Pad2(i + 1) else "")] + RcbInstances(r, i + 1)
  }

  function RcbBlocks(rs: seq<ReportControl>): seq<Block> {
    if rs == [] then [] else RcbInstances(rs[0], 0) + RcbBlocks(rs[1..])
  }

  /** GSE control blocks without an entry in the connected access point are skipped. */
  function GseBlocks(ap: ConnectedAp, ldName: string, gs: seq<GseControl>): (bs: seq<Block>)
    ensures |bs| <= |gs|
  {
    if gs == [] then []
    else
      var e := LookupEntry(ap.gses, ldName, gs[0].name);
      (if e.Some? then [GseBlock(gs[0], e.value)] else []) + GseBlocks(ap, ldName, gs[1..])
  }

  function SmvBlocks(ap: ConnectedAp, ldName: string, ss: seq<SmvControl>): (bs: seq<Block>)
    ensures |bs| == |ss|
  {
    if ss == [] then []
    else [SmvBlock(ss[0], LookupEntry(ap.smvs, ldName, ss[0].name))] + SmvBlocks(ap, ldName, ss[1..])
  }

  function LcbBlocks(ls: seq<LogControl>): seq<Block> {
    seq(|ls|, i requires 0 <= i < |ls| => LcbBlock(ls[i]))
  }

  function LogBlocks(ls: seq<Log>): seq<Block> {
    seq(|ls|, i requires 0 <= i < |ls| => LogBlock(ls[i]))
  }

  /** The blocks of one kind the printing pass prints for a logical node, in order. */
  function Blocks(kind: Kind, ap: ConnectedAp, site: Site): seq<Block> {
    match kind
    case Rcb => RcbBlocks(site.ln.reports)
    case Lcb => LcbBlocks(site.ln.lcbs)
    case LogKind => LogBlocks(site.ln.logs)
    case Gse => GseBlocks(ap, SecondPart(site.ldSymbol), site.ln.gses)
    case Smv => SmvBlocks(ap, SecondPart(site.ldSymbol), site.ln.smvs)
    case Sgcb => if site.ln.settings == [] then [] else [SgcbBlock(site.ln.settings[0])]
  }

  // ----- the whole model

  function Sites(px: string, lds: seq<LogicalDevice>): seq<Site> {
    if lds == [] then []
    else LnSites(px + "_" + lds[0].inst, lds[0].lns) + Sites(px, lds[1..])
  }

  function LnSites(ldSymbol: string, lns: seq<LogicalNode>): seq<Site> {
    if lns == [] then []
    else [Site(ldSymbol, ldSymbol + "_" + lns[0].Name(), lns[0])] + LnSites(ldSymbol, lns[1..])
  }

  function NamesFrom(kind: Kind, ln: string, from: nat, count: nat): (ns: seq<string>)
    ensures |ns| == count && forall i :: 0 <= i < count ==> ns[i] == BlockName(kind, ln, from + i)
  {
    seq(count, i requires 0 <= i < count => BlockName(kind, ln, from + i))
  }

  function AllNames(kind: Kind, sites: seq<Site>): seq<string> {
    if sites == [] then []
    else NamesFrom(kind, sites[0].symbol, 0, Listed(kind, sites[0].ln)) + AllNames(kind, sites[1..])
  }

  datatype Entry = Entry(name: string, ln: string, block: Block)

  function EntriesFrom(kind: Kind, ln: string, from: nat, bs: seq<Block>): (es: seq<Entry>)
    ensures |es| == |bs|
    ensures forall i :: 0 <= i < |es| ==> es[i] == Entry(BlockName(kind, ln, from + i), ln, bs[i])
  {
    seq(|bs|, i requires 0 <= i < |bs| => Entry(BlockName(kind, ln, from + i), ln, bs[i]))
  }

  function AllEntries(kind: Kind, ap: ConnectedAp, sites: seq<Site>): seq<Entry> {
    if sites == [] then []
    else EntriesFrom(kind, sites[0].symbol, 0, Blocks(kind, ap, sites[0])) + AllEntries(kind, ap, sites[1..])
  }

  function EntryNames(es: seq<Entry>): (ns: seq<string>)
    ensures |ns| == |es| && forall i :: 0 <= i < |es| ==> ns[i] == es[i].name
  {
    seq(|es|, i requires 0 <= i < |es| => es[i].name)
  }

  /** The printed items: the c-th block of its kind points to the (c+1)-st listed name, if any. */
  function Cells(es: seq<Entry>, names: seq<string>, c: nat): (cs: seq<Item<Entry>>)
    ensures |cs| == |es|
    ensures forall i {:trigger cs[i]} :: 0 <= i < |es| ==> cs[i] == Item(es[i].name, es[i], At(names, c + i + 1))
  {
    seq(|es|, i requires 0 <= i < |es| => Item(es[i].name, es[i], At(names, c + i + 1)))
  }

  // ----- when the passes agree

  ghost predicate CountsAgree(kind: Kind, ap: ConnectedAp, sites: seq<Site>) {
    forall s :: s in sites ==> |Blocks(kind, ap, s)| == Listed(kind, s.ln)
  }

  ghost predicate DistinctSites(sites: seq<Site>) {
    forall i, j :: 0 <= i < j < |sites| ==> sites[i].symbol != sites[j].symbol
  }

  /** A block's name tells its logical node. */
  lemma {:induction false} BlockNameInjective(kind: Kind, a: string, i: nat, b: string, j: nat)
    requires BlockName(kind, a, i) == BlockName(kind, b, j)
    ensures a == b && (!kind.Sgcb? ==> i == j)
  {
    var s := Suffix(kind);
    assert s == "_report" || s == "_lcb" || s == "_log" || s == "_gse" || s == "_smv" || s == "_sgcb";
    if kind.Sgcb? {
      assert a == BlockName(kind, a, i)[..|a|] && b == BlockName(kind, b, j)[..|b|];
    } else {
      assert EndsPlain(a + s) && EndsPlain(b + s);
      if |a| < |b| {
        ShorterStemDiffers(a + s, Itoa(i), b + s, Itoa(j));
      } else if |b| < |a| {
        ShorterStemDiffers(b + s, Itoa(j), a + s, Itoa(i));
      }
      assert a == BlockName(kind, a, i)[..|a|] && b == BlockName(kind, b, j)[..|b|];
      assert Itoa(i) == BlockName(kind, a, i)[|a + s|..] && Itoa(j) == BlockName(kind, b, j)[|b + s|..];
      ItoaInjective(i, j);
    }
  }

  lemma {:induction false} NameOrigin(kind: Kind, sites: seq<Site>, name: string) returns (s: Site, k: nat)
    requires name in AllNames(kind, sites)
    ensures s in sites && name == BlockName(kind, s.symbol, k)
  {
    var here := NamesFrom(kind, sites[0].symbol, 0, Listed(kind, sites[0].ln));
    if name in here {
      s := sites[0];
      k :| 0 <= k < |here| && here[k] == name;
    } else {
      s, k := NameOrigin(kind, sites[1..], name);
    }
  }

  lemma {:induction false} EntryOrigin(kind: Kind, ap: ConnectedAp, sites: seq<Site>, e: Entry)
    returns (s: Site, k: nat)
    requires e in AllEntries(kind, ap, sites)
    ensures s in sites && e.ln == s.symbol && e.name == BlockName(kind, s.symbol, k) && k < |Blocks(kind, ap, s)|
  {
    var here := EntriesFrom(kind, sites[0].symbol, 0, Blocks(kind, ap, sites[0]));
    if e in here {
      s := sites[0];
      k :| 0 <= k < |here| && here[k] == e;
    } else {
      s, k := EntryOrigin(kind, ap, sites[1..], e);
    }
  }

  lemma {:induction false} EntryNamesAppend(a: seq<Entry>, b: seq<Entry>)
    ensures EntryNames(a + b) == EntryNames(a) + EntryNames(b)
  {
  }

  lemma {:induction false} SamePrefix<T>(p: seq<T>, x: seq<T>, y: seq<T>)
    ensures p + x == p + y <==> x == y
  {
    assert (p + x)[|p|..] == x && (p + y)[|p|..] == y;
  }

  lemma {:induction false} CountsAgreeStep(kind: Kind, ap: ConnectedAp, sites: seq<Site>)
    requires sites != []
    ensures CountsAgree(kind, ap, sites)
       <==> |Blocks(kind, ap, sites[0])| == Listed(kind, sites[0].ln) && CountsAgree(kind, ap, sites[1..])
  {
    assert forall t :: t in sites <==> t == sites[0] || t in sites[1..];
  }

  /** The k-th block printed has the k-th name listed, for all k, exactly if at every logical node
      as many blocks are printed as names were listed. */
  lemma {:induction false} PassesAgree(kind: Kind, ap: ConnectedAp, sites: seq<Site>)
    requires DistinctSites(sites)
    ensures EntryNames(AllEntries(kind, ap, sites)) == AllNames(kind, sites) <==> CountsAgree(kind, ap, sites)
  {
    if sites != [] {
      var s, rest := sites[0], sites[1..];
      var p, l := |Blocks(kind, ap, s)|, Listed(kind, s.ln);
      var listed := NamesFrom(kind, s.symbol, 0, l);
      var printed := EntriesFrom(kind, s.symbol, 0, Blocks(kind, ap, s));
      CountsAgreeStep(kind, ap, sites);
      if p == l {
        PassesAgree(kind, ap, rest);
        EntryNamesAppend(printed, AllEntries(kind, ap, rest));
        assert EntryNames(printed) == listed;
        SamePrefix(listed, EntryNames(AllEntries(kind, ap, rest)), AllNames(kind, rest));
      } else {
        var i := if p < l then p else l;
        if i < |AllNames(kind, sites)| && i < |AllEntries(kind, ap, sites)| {
          FirstDiffers(kind, ap, sites, i);
          assert EntryNames(AllEntries(kind, ap, sites))[i] != AllNames(kind, sites)[i];
        }
      }
    }
  }

  /** Where one list still names the first site and the other has moved on, the names differ. */
  lemma {:induction false} FirstDiffers(kind: Kind, ap: ConnectedAp, sites: seq<Site>, i: nat)
    requires sites != [] && DistinctSites(sites)
    requires var p, l := |Blocks(kind, ap, sites[0])|, Listed(kind, sites[0].ln);
             (p <= i < l && i == p) || (l <= i < p && i == l)
    requires i < |AllNames(kind, sites)| && i < |AllEntries(kind, ap, sites)|
    ensures AllNames(kind, sites)[i] != AllEntries(kind, ap, sites)[i].name
  {
    var s, rest := sites[0], sites[1..];
    var names, entries := AllNames(kind, sites), AllEntries(kind, ap, sites);
    var other: Site;
    var k: nat;
    if i < Listed(kind, s.ln) {
      assert names[i] == BlockName(kind, s.symbol, i);
      assert entries[i] == AllEntries(kind, ap, rest)[0];
      other, k := EntryOrigin(kind, ap, rest, entries[i]);
    } else {
      assert entries[i].name == BlockName(kind, s.symbol, i);
      assert names[i] == AllNames(kind, rest)[0];
      other, k := NameOrigin(kind, rest, names[i]);
    }
    var j :| 0 <= j < |rest| && rest[j] == other;
    assert sites[j + 1] == other;
    if BlockName(kind, s.symbol, i) == BlockName(kind, other.symbol, k) {
      BlockNameInjective(kind, s.symbol, i, other.symbol, k);
    }
  }

  // ----- following a chain

  /** Blocks of one kind never share a name. */
  lemma {:induction false} EntriesDistinct(kind: Kind, ap: ConnectedAp, sites: seq<Site>)
    requires DistinctSites(sites)
    ensures Distinct(EntryNames(AllEntries(kind, ap, sites)))
  {
    if sites != [] {
      var s, rest := sites[0], sites[1..];
      var here := EntriesFrom(kind, s.symbol, 0, Blocks(kind, ap, s));
      EntriesDistinct(kind, ap, rest);
      EntryNamesAppend(here, AllEntries(kind, ap, rest));
      forall i, j | 0 <= i < j < |here| ensures here[i].name != here[j].name {
        if here[i].name == here[j].name {
          BlockNameInjective(kind, s.symbol, i, s.symbol, j);
        }
      }
      forall x, y | x in EntryNames(here) && y in EntryNames(AllEntries(kind, ap, rest)) ensures x != y {
        var i :| 0 <= i < |here| && here[i].name == x;
        var n :| 0 <= n < |AllEntries(kind, ap, rest)| && AllEntries(kind, ap, rest)[n].name == y;
        var other, k := EntryOrigin(kind, ap, rest, AllEntries(kind, ap, rest)[n]);
        var j :| 0 <= j < |rest| && rest[j] == other;
        assert sites[j + 1] == other;
        if x == y {
          BlockNameInjective(kind, s.symbol, i, other.symbol, k);
        }
      }
      DistinctJoin(EntryNames(here), EntryNames(AllEntries(kind, ap, rest)));
    }
  }

  /** From the head kept in the IedModel record, the chain of a kind visits every printed block exactly
      once, in document order, and ends, if and only if as many blocks are printed as were listed, at
      every logical node. */
  lemma {:induction false} ChainComplete(kind: Kind, ap: ConnectedAp, sites: seq<Site>, fuel: nat)
    requires DistinctSites(sites) && fuel >= |AllEntries(kind, ap, sites)|
    ensures var names, es := AllNames(kind, sites), AllEntries(kind, ap, sites);
            Walk(Cells(es, names, 0), At(names, 0), fuel) == Some(es) <==> CountsAgree(kind, ap, sites)
  {
    var names, es := AllNames(kind, sites), AllEntries(kind, ap, sites);
    var items := Cells(es, names, 0);
    PassesAgree(kind, ap, sites);
    EntriesDistinct(kind, ap, sites);
    forall a, b | 0 <= a < b < |items|
      ensures items[a].symbol != items[b].symbol && items[a].payload != items[b].payload
    {
      assert EntryNames(es)[a] != EntryNames(es)[b];
    }
    assert Payloads(items) == es && SymbolsOf(items) == EntryNames(es);
    WalkIff(items, names, fuel);
  }
}
