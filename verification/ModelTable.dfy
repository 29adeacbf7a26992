/** The generator's main results: for well-named models the printed table has pairwise distinct
    symbols and no dangling or cyclic pointer, and reads back as the model; and the model prefixes
    for which that is so are exactly those that fit the cut. */
module ModelTable {
  import opened Text
  import opened Instances
  import opened PointerGraph
  import opened ModelRecords
  import opened Linking

  // ----- naming conditions on a model

  ghost predicate Over(name: string, allowed: iset<char>) {
    forall c :: c in name ==> c in allowed
  }

  ghost const PLAIN: iset<char> := iset c: char | c != '_'

  ghost predicate CleanDa(da: DataAttribute, allowed: iset<char>) {
    && Over(da.name, allowed)
    && (forall sub :: sub in da.subs ==> CleanDa(sub, allowed))
    && (forall i, j :: 0 <= i < j < |da.subs| ==> da.subs[i].name != da.subs[j].name)
  }

  /** Two attributes of one data object: different names, or exactly one is the edit copy. */
  predicate DasApart(a: DataAttribute, b: DataAttribute) {
    a.name != b.name || (a.fc == "SE") != (b.fc == "SE")
  }

  predicate AllDasApart(das: seq<DataAttribute>) {
    forall i, j :: 0 <= i < j < |das| ==> DasApart(das[i], das[j])
  }

  ghost predicate CleanDas(das: seq<DataAttribute>, allowed: iset<char>) {
    && (forall da :: da in das ==> CleanDa(da, allowed) && Uniform(da))
    && AllDasApart(das)
  }

  ghost predicate CleanDos(dos: seq<DataObject>, allowed: iset<char>) {
    && (forall d :: d in dos ==>
          Over(d.name, allowed) && CleanDos(d.sdos, allowed) && CleanDas(d.das, allowed) && KidsApart(d))
    && (forall i, j :: 0 <= i < j < |dos| ==> dos[i].name != dos[j].name)
  }

  predicate KidsApart(d: DataObject) {
    forall s, da :: s in d.sdos && da in d.das ==> s.name != da.name
  }

  ghost predicate CleanLns(lns: seq<LogicalNode>, allowed: iset<char>) {
    && (forall ln :: ln in lns ==> Over(ln.Name(), allowed) && CleanDos(ln.dos, allowed))
    && (forall i, j :: 0 <= i < j < |lns| ==> lns[i].Name() != lns[j].Name())
  }

  /** Names use the allowed characters only and are unique among siblings, except that an attribute
      may have an edit copy; below an attribute copies do not mix. */
  ghost predicate NamedOver(lds: seq<LogicalDevice>, allowed: iset<char>) {
    && (forall ld :: ld in lds ==> Over(ld.inst, allowed) && CleanLns(ld.lns, allowed))
    && (forall i, j :: 0 <= i < j < |lds| ==> lds[i].inst != lds[j].inst)
  }

  predicate NoSeDevice(lds: seq<LogicalDevice>) {
    forall ld :: ld in lds ==> ld.inst != "SE"
  }

  /** Unique names without '_', and no logical device called SE. */
  ghost predicate WellNamed(lds: seq<LogicalDevice>) {
    NamedOver(lds, PLAIN) && NoSeDevice(lds)
  }

  // ----- a well-named model is a clean forest

  lemma {:induction false} DaAllSe(da: DataAttribute, transient: bool)
    requires Uniform(da)
    ensures AllSe(DaNode(da, transient), da.fc == "SE")
    decreases da
  {
    var below := DaForest(da.subs, transient);
    forall i | 0 <= i < |below| ensures AllSe(below[i], da.fc == "SE") {
      DaForestAt(da.subs, transient, i);
      DaAllSe(da.subs[i], transient);
    }
    if da.count > 0 {
      var elements := Elements(da, transient, 0);
      forall i | 0 <= i < |elements| ensures AllSe(elements[i], da.fc == "SE") {
        ElementsAt(da, transient, 0, i);
      }
    }
  }

  lemma {:induction false} DaNodeName(da: DataAttribute, transient: bool)
    ensures Component(DaNode(da, transient).data) == da.name
  {
  }

  lemma {:induction false} NamedApart(m: Node, n: Node)
    requires Component(m.data) != Component(n.data)
    ensures Apart(m, n)
  {
  }

  lemma {:induction false} ElementsApart(da: DataAttribute, transient: bool, i: nat, j: nat)
    requires i < j < da.count
    ensures Apart(Elements(da, transient, 0)[i], Elements(da, transient, 0)[j])
  {
    ElementsAt(da, transient, 0, i);
    ElementsAt(da, transient, 0, j);
    if Itoa(i) == Itoa(j) {
      ItoaInjective(i, j);
    }
  }

  lemma {:induction false} ElementPlain(da: DataAttribute, transient: bool, i: nat)
    requires i < da.count
    ensures var n := Elements(da, transient, 0)[i];
            n.kids == DaForest(da.subs, transient) && Free(Component(n.data), {'_'})
  {
    ElementsAt(da, transient, 0, i);
  }

  lemma {:induction false} ElementsClean(da: DataAttribute, transient: bool)
    requires da.count > 0 && Clean(DaForest(da.subs, transient))
    ensures Clean(Elements(da, transient, 0))
  {
    var ns := Elements(da, transient, 0);
    forall i, j | 0 <= i < j < |ns| ensures Apart(ns[i], ns[j]) {
      ElementsApart(da, transient, i, j);
    }
    forall i | 0 <= i < |ns| ensures Free(Component(ns[i].data), {'_'}) && Clean(ns[i].kids) {
      ElementPlain(da, transient, i);
    }
    CleanFrom(ns);
  }

  lemma {:induction false} DaClean(da: DataAttribute, transient: bool)
    requires CleanDa(da, PLAIN) && Uniform(da)
    ensures Clean(DaNode(da, transient).kids)
    decreases da
  {
    var below := DaForest(da.subs, transient);
    forall n | n in below ensures Free(Component(n.data), {'_'}) && Clean(n.kids) {
      var i :| 0 <= i < |below| && below[i] == n;
      DaForestAt(da.subs, transient, i);
      DaNodeName(da.subs[i], transient);
      DaClean(da.subs[i], transient);
    }
    forall i, j | 0 <= i < j < |below| ensures Apart(below[i], below[j]) {
      DaForestAt(da.subs, transient, i);
      DaForestAt(da.subs, transient, j);
      DaNodeName(da.subs[i], transient);
      DaNodeName(da.subs[j], transient);
      NamedApart(below[i], below[j]);
    }
    if da.count > 0 {
      ElementsClean(da, transient);
    }
  }

  lemma {:induction false} DaNodesApart(a: DataAttribute, b: DataAttribute, transient: bool)
    requires Uniform(a) && Uniform(b) && DasApart(a, b)
    ensures Apart(DaNode(a, transient), DaNode(b, transient))
  {
    DaNodeName(a, transient);
    DaNodeName(b, transient);
    DaAllSe(a, transient);
    DaAllSe(b, transient);
  }

  lemma {:induction false} DasClean(das: seq<DataAttribute>, transient: bool)
    requires CleanDas(das, PLAIN)
    ensures Clean(DaForest(das, transient))
  {
    var ns := DaForest(das, transient);
    forall n | n in ns ensures Free(Component(n.data), {'_'}) && Clean(n.kids) {
      var i :| 0 <= i < |ns| && ns[i] == n;
      DaForestAt(das, transient, i);
      DaNodeName(das[i], transient);
      DaClean(das[i], transient);
    }
    forall i, j | 0 <= i < j < |ns| ensures Apart(ns[i], ns[j]) {
      DaForestAt(das, transient, i);
      DaForestAt(das, transient, j);
      DaNodesApart(das[i], das[j], transient);
    }
  }

  lemma {:induction false} DoForestAt(dos: seq<DataObject>, transient: bool, i: nat)
    requires i < |dos|
    ensures |DoForest(dos, transient)| == |dos|
    ensures DoForest(dos, transient)[i]
         == Node(DoLabel(dos[i].name, dos[i].count), DoKids(dos[i], transient || dos[i].trans))
  {
    if i > 0 {
      DoForestAt(dos[1..], transient, i - 1);
    } else if |dos| > 1 {
      DoForestAt(dos[1..], transient, 0);
    }
  }

  lemma {:induction false} CleanDosAt(dos: seq<DataObject>, i: nat)
    requires CleanDos(dos, PLAIN) && i < |dos|
    ensures Free(dos[i].name, {'_'}) && CleanDos(dos[i].sdos, PLAIN) && CleanDas(dos[i].das, PLAIN) && KidsApart(dos[i])
    ensures forall j :: i < j < |dos| ==> dos[i].name != dos[j].name
  {
    assert dos[i] in dos;
  }

  lemma {:induction false} DosApart(dos: seq<DataObject>, transient: bool, i: nat, j: nat)
    requires CleanDos(dos, PLAIN) && i < j < |dos|
    ensures |DoForest(dos, transient)| == |dos|
    ensures Apart(DoForest(dos, transient)[i], DoForest(dos, transient)[j])
  {
    DoForestAt(dos, transient, i);
    DoForestAt(dos, transient, j);
    CleanDosAt(dos, i);
  }

  lemma {:induction false} DosClean(dos: seq<DataObject>, transient: bool)
    requires CleanDos(dos, PLAIN)
    ensures Clean(DoForest(dos, transient))
    decreases dos
  {
    var ns := DoForest(dos, transient);
    if dos != [] {
      DoForestAt(dos, transient, 0);
    }
    forall i | 0 <= i < |ns| ensures Free(Component(ns[i].data), {'_'}) && Clean(ns[i].kids) {
      DoForestAt(dos, transient, i);
      CleanDosAt(dos, i);
      KidsClean(dos[i], transient || dos[i].trans);
    }
    forall i, j | 0 <= i < j < |ns| ensures Apart(ns[i], ns[j]) {
      DosApart(dos, transient, i, j);
    }
    CleanFrom(ns);
  }

  lemma {:induction false} SdoDaApart(d: DataObject, transient: bool, i: nat, j: nat)
    requires KidsApart(d) && i < |d.sdos| && j < |d.das| && |DoForest(d.sdos, transient)| == |d.sdos|
    ensures Apart(DoForest(d.sdos, transient)[i], DaForest(d.das, transient)[j])
  {
    DoForestAt(d.sdos, transient, i);
    DaForestAt(d.das, transient, j);
    DaNodeName(d.das[j], transient);
    assert d.sdos[i] in d.sdos && d.das[j] in d.das;
    NamedApart(DoForest(d.sdos, transient)[i], DaForest(d.das, transient)[j]);
  }

  lemma {:induction false} KidsClean(d: DataObject, transient: bool)
    requires CleanDos(d.sdos, PLAIN) && CleanDas(d.das, PLAIN) && KidsApart(d)
    ensures Clean(DoKids(d, transient))
    decreases d
  {
    var a, b := DoForest(d.sdos, transient), DaForest(d.das, transient);
    DosClean(d.sdos, transient);
    DasClean(d.das, transient);
    if d.sdos != [] {
      DoForestAt(d.sdos, transient, 0);
    }
    forall i, j | 0 <= i < |a| && 0 <= j < |b| ensures Apart(a[i], b[j]) {
      SdoDaApart(d, transient, i, j);
    }
    CleanJoin(a, b);
  }

  lemma {:induction false} CleanJoin(a: seq<Node>, b: seq<Node>)
    requires Clean(a) && Clean(b) && forall i, j :: 0 <= i < |a| && 0 <= j < |b| ==> Apart(a[i], b[j])
    ensures Clean(a + b)
  {
  }

  lemma {:induction false} LnForestAt(lns: seq<LogicalNode>, i: nat)
    requires i < |lns|
    ensures |LnForest(lns)| == |lns|
    ensures LnForest(lns)[i] == Node(LnLabel(lns[i].Name()), DoForest(lns[i].dos, false))
  {
    if i > 0 {
      LnForestAt(lns[1..], i - 1);
    } else if |lns| > 1 {
      LnForestAt(lns[1..], 0);
    }
  }

  lemma {:induction false} LnsClean(lns: seq<LogicalNode>)
    requires CleanLns(lns, PLAIN)
    ensures Clean(LnForest(lns))
  {
    var ns := LnForest(lns);
    if lns != [] {
      LnForestAt(lns, 0);
    }
    forall n | n in ns ensures Free(Component(n.data), {'_'}) && Clean(n.kids) {
      var i :| 0 <= i < |ns| && ns[i] == n;
      LnForestAt(lns, i);
      DosClean(lns[i].dos, false);
    }
    forall i, j | 0 <= i < j < |ns| ensures Apart(ns[i], ns[j]) {
      LnForestAt(lns, i);
      LnForestAt(lns, j);
    }
  }

  lemma {:induction false} ModelForestAt(lds: seq<LogicalDevice>, i: nat)
    requires i < |lds|
    ensures |ModelForest(lds)| == |lds|
    ensures ModelForest(lds)[i] == Node(LdLabel(lds[i].inst), LnForest(lds[i].lns))
  {
    if i > 0 {
      ModelForestAt(lds[1..], i - 1);
    } else if |lds| > 1 {
      ModelForestAt(lds[1..], 0);
    }
  }

  lemma {:induction false} ModelClean(lds: seq<LogicalDevice>)
    requires WellNamed(lds)
    ensures Clean(ModelForest(lds))
    ensures forall n :: n in ModelForest(lds) ==> Component(n.data) != "SE"
  {
    var ns := ModelForest(lds);
    if lds != [] {
      ModelForestAt(lds, 0);
    }
    forall n | n in ns ensures Free(Component(n.data), {'_'}) && Component(n.data) != "SE" && Clean(n.kids) {
      var i :| 0 <= i < |ns| && ns[i] == n;
      ModelForestAt(lds, i);
      LnsClean(lds[i].lns);
    }
    forall i, j | 0 <= i < j < |ns| ensures Apart(ns[i], ns[j]) {
      ModelForestAt(lds, i);
      ModelForestAt(lds, j);
    }
  }

  lemma {:induction false} DosFitting(dos: seq<DataObject>)
    requires CleanDos(dos, PLAIN)
    ensures DosFit(dos)
    decreases dos
  {
    forall d | d in dos ensures Fits(false, d.das) && DosFit(d.sdos) {
      DosFitting(d.sdos);
    }
  }

  lemma {:induction false} ModelFitting(lds: seq<LogicalDevice>)
    requires WellNamed(lds)
    ensures Fitting(lds)
  {
    forall ld, ln | ld in lds && ln in ld.lns ensures DosFit(ln.dos) {
      DosFitting(ln.dos);
    }
  }

  // ----- the main results

  /** A faithful table: names are unique, no pointer dangles, and following the pointers from the
      root shows exactly the forest. */
  ghost predicate Faithful(px: string, recs: seq<Rec>, head: Option<string>, forest: seq<Node>) {
    && Distinct(Symbols(recs))
    && Closed(recs, px)
    && forall fuel: nat :: fuel >= |recs| ==> ReadBack(recs, px, head, fuel) == Some(forest)
  }

  /** The pointer the IedModel record holds to its first logical device. */
  function ModelHead(px: string, lds: seq<LogicalDevice>): Option<string> {
    if lds == [] then None else Some(px + "_" + lds[0].inst)
  }

  /** For any model without '_' in its names and without a device called SE, whose attributes do not
      mix copies, the table is faithful exactly if siblings are apart at every level. */
  lemma {:induction false} FaithfulIff(px: string, lds: seq<LogicalDevice>)
    requires FitsCut(px) && Populated(lds) && Fitting(lds) && PlainForest(ModelForest(lds))
    ensures Faithful(px, LdRecords(px, lds), ModelHead(px, lds), ModelForest(lds)) <==> SiblingsApart(ModelForest(lds))
  {
    var ns := ModelForest(lds);
    ModelLinked(px, lds);
    forall n | n in ns ensures Component(n.data) != "SE" {
      var i :| 0 <= i < |ns| && ns[i] == n;
      ModelForestAt(lds, 0);
      ModelForestAt(lds, i);
      assert InModel([lds[i].inst]);
    }
    SymbolsDistinctIff(px, ns);
    LayoutClosed(px, [], px, ns);
    if Distinct(Symbols(LdRecords(px, lds))) {
      ReadsBackModel(px, lds);
    }
  }

  lemma {:induction false} ReadsBackModel(px: string, lds: seq<LogicalDevice>)
    requires FitsCut(px) && Populated(lds) && Fitting(lds) && Distinct(Symbols(LdRecords(px, lds)))
    ensures forall fuel: nat :: fuel >= |LdRecords(px, lds)| ==>
              ReadBack(LdRecords(px, lds), px, ModelHead(px, lds), fuel) == Some(ModelForest(lds))
  {
    var ns := ModelForest(lds);
    ModelLinked(px, lds);
    if lds != [] {
      LdSymbol(px, lds[0].inst);
      assert [] + [lds[0].inst] == [lds[0].inst];
    }
    forall fuel: nat | fuel >= |LdRecords(px, lds)|
      ensures ReadBack(LdRecords(px, lds), px, ModelHead(px, lds), fuel) == Some(ns)
    {
      ReadsBack(px, ns, fuel);
    }
  }

  lemma {:induction false} TableFaithful(px: string, lds: seq<LogicalDevice>)
    requires FitsCut(px) && Populated(lds) && WellNamed(lds)
    ensures Faithful(px, LdRecords(px, lds), ModelHead(px, lds), ModelForest(lds))
  {
    ModelClean(lds);
    CleanIsApart(ModelForest(lds));
    ModelFitting(lds);
    FaithfulIff(px, lds);
  }

  // ----- the condition on the prefix is exact

  ghost predicate AlwaysFaithful(px: string) {
    forall lds: seq<LogicalDevice> :: WellNamed(lds) && Printable(px, lds) ==>
      Faithful(px, LdRecords(px, lds), ModelHead(px, lds), ModelForest(lds))
  }

  /** Outside FitsCut the rewritten name is not recognised as rewritten. */
  lemma {:induction false} CutMisses(px: string, t: string, x: string)
    requires !FitsCut(px) && |t| >= 2 && t[0] == '_' && t[1] != 'S' && |px + t| >= 9
    ensures !HasPrefix((px + t)[..9] + "SE_" + (px + t)[9..] + x, px + "_SE_")
  {
    var s, mark := px + t, px + "_SE_";
    var cut := s[..9] + "SE_" + s[9..] + x;
    if |px| < 8 {
      assert cut[|px| + 1] == s[|px| + 1] == t[1];
      assert cut[|px| + 1..|px| + 2] == [t[1]] && mark[|px| + 1..|px| + 2] == "S";
      SliceDiffers(cut, mark, |px| + 1, |px| + 2);
    } else {
      var u := px[9..];
      assert px == px[..9] + u;
      assert s[..9] == px[..9] && s[9..] == u + t;
      assert cut[9..|px| + 3] == "SE_" + u;
      assert mark[9..|px| + 3] == u + "_SE";
      SliceDiffers(cut, mark, 9, |px| + 3);
    }
  }

  lemma {:induction false} SliceDiffers(s: string, prefix: string, lo: nat, hi: nat)
    requires lo <= hi <= |prefix| && hi <= |s| && s[lo..hi] != prefix[lo..hi]
    ensures !HasPrefix(s, prefix)
  {
    if |prefix| <= |s| {
      assert s[..|prefix|][lo..hi] == s[lo..hi];
    }
  }

  function PlainDo(name: string, sdos: seq<DataObject>): DataObject {
    DataObject(name, 0, false, sdos, [])
  }

  function OneLn(dos: seq<DataObject>): LogicalNode {
    LogicalNode("", "LLN0", "", dos, [], [], [], [], [], [], [])
  }

  function EditAttribute(name: string, subs: seq<DataAttribute>): DataAttribute {
    DataAttribute(name, "SE", Constructed, 0, Trigger(false, false, false), None, "", 0, subs)
  }

  /** One logical device with one edit attribute that has a sub attribute. */
  function EditModel(): seq<LogicalDevice> {
    var a := EditAttribute("A", [EditAttribute("B", [])]);
    [LogicalDevice("LDEVICE1", [OneLn([DataObject("D", 0, false, [], [a])])])]
  }

  lemma {:induction false} EditModelWellNamed(px: string)
    ensures WellNamed(EditModel()) && Printable(px, EditModel())
  {
    var b := EditAttribute("B", []);
    var a := EditAttribute("A", [b]);
    assert Over("A", PLAIN) && Over("B", PLAIN) && Over("D", PLAIN) && Over("LLN0", PLAIN) && Over("LDEVICE1", PLAIN);
    assert CleanDa(b, PLAIN) && Uniform(b);
    assert CleanDa(a, PLAIN) && Uniform(a);
    assert CleanDas([a], PLAIN) && CleanDos([], PLAIN);
    assert EditModel()[0].lns[0].Name() == "LLN0";
    OneNamed("LDEVICE1", [DataObject("D", 0, false, [], [a])]);
    LongPrintable(px, EditModel());
  }

  /** A model with one logical node is well named if its data objects are. */
  lemma {:induction false} OneNamed(inst: string, dos: seq<DataObject>)
    requires Over(inst, PLAIN) && dos != [] && CleanDos(dos, PLAIN)
    ensures var lds := [LogicalDevice(inst, [OneLn(dos)])]; NamedOver(lds, PLAIN) && Populated(lds)
    ensures OneLn(dos).Name() == "LLN0"
  {
    assert OneLn(dos).Name() == "LLN0";
    assert Over("LLN0", PLAIN);
    assert CleanLns([OneLn(dos)], PLAIN);
  }

  /** A model with one logical node that has one data object, whatever else the node has. */
  lemma {:induction false} NodeNamed(ln: LogicalNode, name: string)
    requires ln.dos == [PlainDo(name, [])] && ln.Name() == "LLN0" && Over(name, PLAIN)
    ensures var lds := [LogicalDevice("LD0", [ln])]; WellNamed(lds) && Populated(lds)
  {
    assert "LD0" != "SE" by { assert |"LD0"| == 3; }
    assert Over("LD0", PLAIN) && Over("LLN0", PLAIN);
    assert CleanDas([], PLAIN) && CleanDos([], PLAIN);
    assert CleanDos(ln.dos, PLAIN);
    assert CleanLns([ln], PLAIN);
  }

  /** The records of EditModel that matter: the edit attribute and its sub attribute. */
  lemma {:induction false} EditDoRecords(px: string, lnSymbol: string)
    ensures var b, doSymbol := EditAttribute("B", []), lnSymbol + "_" + "D";
            var a, dos := EditAttribute("A", [b]), EditModel()[0].lns[0].dos;
            DoRecords(px, lnSymbol, dos, None, false)
            == [DoHead(px, lnSymbol, dos, None), DaHead(px, doSymbol, [a], false),
                DaHead(px, DaSymbol(px, doSymbol, a), [b], false)]
  {
    var b, doSymbol := EditAttribute("B", []), lnSymbol + "_" + "D";
    var a, dos := EditAttribute("A", [b]), EditModel()[0].lns[0].dos;
    var aSymbol := DaSymbol(px, doSymbol, a);
    assert DaRecords(px, aSymbol, [b], false) == [DaHead(px, aSymbol, [b], false)];
    assert DaRecords(px, doSymbol, [a], false) == [DaHead(px, doSymbol, [a], false), DaHead(px, aSymbol, [b], false)];
    OneDoRecords(px, lnSymbol, "D", [a]);
  }

  lemma {:induction false} EditModelRecords(px: string)
    requires Populated(EditModel())
    ensures var recs := LdRecords(px, EditModel());
            var a := DaSymbol(px, px + "_" + "LDEVICE1" + "_" + "LLN0" + "_" + "D",
                              EditAttribute("A", [EditAttribute("B", [])]));
            && |recs| == 5
            && recs[3].data == DaData(EditAttribute("A", [EditAttribute("B", [])]), false)
            && recs[3].firstChild == Some(a + "_B")
            && recs[4].symbol == SeFix(px, a + "_B", "SE")
            && forall i :: 0 <= i < 4 ==> |recs[i].symbol| < |a + "_B"|
  {
    var b := EditAttribute("B", []);
    var a, dos := EditAttribute("A", [b]), EditModel()[0].lns[0].dos;
    var lnSymbol := px + "_" + "LDEVICE1" + "_" + "LLN0";
    var aSymbol := DaSymbol(px, lnSymbol + "_" + "D", a);
    OneLnRecords(px, "LDEVICE1", dos);
    EditDoRecords(px, lnSymbol);
    EditLengths(px, lnSymbol, a);
    var heads := [LdHead(px, EditModel()), LnHead(px + "_" + "LDEVICE1", EditModel()[0].lns)];
    FiveRecords(heads, DoRecords(px, lnSymbol, dos, None, false), |aSymbol + "_B"|);
  }

  lemma {:induction false} FiveRecords(heads: seq<Rec>, rest: seq<Rec>, bound: nat)
    requires |heads| == 2 && |rest| == 3 && |heads[0].symbol| < bound && |heads[1].symbol| < bound
    requires |rest[0].symbol| < bound && |rest[1].symbol| < bound
    ensures var recs := heads + rest;
            && |recs| == 5 && recs[3] == rest[1] && recs[4] == rest[2]
            && forall i :: 0 <= i < 4 ==> |recs[i].symbol| < bound
  {
  }

  lemma {:induction false} EditLengths(px: string, lnSymbol: string, a: DataAttribute)
    requires a.name == "A"
    ensures var aSymbol := DaSymbol(px, lnSymbol + "_" + "D", a);
            |lnSymbol + "_" + "D"| < |aSymbol| && aSymbol + "_" + "B" == aSymbol + "_B"
  {
  }

  lemma {:induction false} EditPath(px: string)
    ensures px + "_" + "LDEVICE1" + "_" + "LLN0" + "_" + "D" + "_" + "A" == px + "_LDEVICE1_LLN0_D_A"
    ensures !HasPrefix(px + "_LDEVICE1_LLN0_D_A", px + "_SE_")
  {
    var t := "_LDEVICE1_LLN0_D_A";
    PrefixUnderPrefix(px, t, "_SE_");
    assert t[1..2] == "L" && "_SE_"[1..2] == "S";
    SliceDiffers(t, "_SE_", 1, 2);
  }

  lemma {:induction false} LookupMisses(recs: seq<Rec>, symbol: string)
    requires forall i :: 0 <= i < |recs| ==> recs[i].symbol != symbol
    ensures Lookup(recs, symbol).None?
  {
    if recs != [] {
      LookupMisses(recs[1..], symbol);
    }
  }

  /** The first child pointer of the edit attribute names no record. */
  lemma {:induction false} EditModelDangles(px: string)
    requires !FitsCut(px) && Populated(EditModel())
    ensures var recs := LdRecords(px, EditModel());
            && |recs| == 5 && recs[3].data.DaLabel? && recs[3].data.attr == Some("A")
            && recs[3].firstChild.Some? && Lookup(recs, recs[3].firstChild.value).None?
            && !Closed(recs, px)
  {
    EditModelRecords(px);
    EditCut(px);
    MissingChild(LdRecords(px, EditModel()), px, 3);
  }

  lemma {:induction false} MissingChild(recs: seq<Rec>, px: string, i: nat)
    requires i + 2 == |recs| && recs[i].firstChild.Some? && recs[i + 1].symbol != recs[i].firstChild.value
    requires forall j :: 0 <= j <= i ==> |recs[j].symbol| < |recs[i].firstChild.value|
    ensures Lookup(recs, recs[i].firstChild.value).None? && !Closed(recs, px)
  {
    LookupMisses(recs, recs[i].firstChild.value);
    assert !Linked(recs, px, i);
  }

  /** The symbol printed for the sub attribute is not the one its parent refers to. */
  lemma {:induction false} EditCut(px: string)
    requires !FitsCut(px)
    ensures var a := DaSymbol(px, px + "_" + "LDEVICE1" + "_" + "LLN0" + "_" + "D",
                              EditAttribute("A", [EditAttribute("B", [])]));
            SeFix(px, a + "_B", "SE") != a + "_B"
  {
    EditPath(px);
    CutMisses(px, "_LDEVICE1_LLN0_D_A", "_B");
  }

  /** The table is right for every well-named model if and only if the prefix fits the cut. */
  lemma {:induction false} PrefixExact(px: string)
    ensures FitsCut(px) <==> AlwaysFaithful(px)
  {
    if FitsCut(px) {
      forall lds: seq<LogicalDevice> | WellNamed(lds) && Printable(px, lds)
        ensures Faithful(px, LdRecords(px, lds), ModelHead(px, lds), ModelForest(lds))
      {
        TableFaithful(px, lds);
      }
    } else {
      EditModelWellNamed(px);
      EditModelDangles(px);
    }
  }

  // ----- the naming conditions matter

  lemma {:induction false} OneDevice(px: string, inst: string, lns: seq<LogicalNode>)
    requires lns != [] && forall ln :: ln in lns ==> ln.dos != []
    ensures var lds := [LogicalDevice(inst, lns)];
            Populated(lds) && LdRecords(px, lds) == [LdHead(px, lds)] + LnRecords(px, px + "_" + inst, lns)
  {
    var lds := [LogicalDevice(inst, lns)];
    assert lds[1..] == [] && LdRecords(px, []) == [];
    assert LdRecords(px, lds) == LdChunk(px, lds) + LdRecords(px, lds[1..]);
  }

  /** The table of a model with one logical node. */
  lemma {:induction false} OneLnRecords(px: string, inst: string, dos: seq<DataObject>)
    requires dos != []
    ensures var lds := [LogicalDevice(inst, [OneLn(dos)])];
            var parent := px + "_" + inst + "_" + "LLN0";
            && Populated(lds)
            && LdRecords(px, lds)
               == [LdHead(px, lds), LnHead(px + "_" + inst, [OneLn(dos)])] + DoRecords(px, parent, dos, None, false)
  {
    var ldSymbol := px + "_" + inst;
    OneDevice(px, inst, [OneLn(dos)]);
    OneNode(px, ldSymbol, OneLn(dos));
    assert OneLn(dos).Name() == "LLN0";
    var ldHead, lnHead := LdHead(px, [LogicalDevice(inst, [OneLn(dos)])]), LnHead(ldSymbol, [OneLn(dos)]);
    Assoc([ldHead], [lnHead], DoRecords(px, ldSymbol + "_" + "LLN0", dos, None, false));
    assert [ldHead] + [lnHead] == [ldHead, lnHead];
  }

  lemma {:induction false} OneNode(px: string, parent: string, ln: LogicalNode)
    requires ln.dos != []
    ensures LnRecords(px, parent, [ln])
         == [LnHead(parent, [ln])] + DoRecords(px, parent + "_" + ln.Name(), ln.dos, None, false)
  {
    assert [ln][1..] == [] && LnRecords(px, parent, []) == [];
  }

  function UnderscoreModel(): seq<LogicalDevice> {
    var dos := [PlainDo("___", []), PlainDo("_", [PlainDo("_", [])])];
    [LogicalDevice("_", [LogicalNode("_", "", "", dos, [], [], [], [], [], [], [])])]
  }

  lemma {:induction false} UnderscoreModelNamed(allowed: iset<char>)
    requires '_' in allowed
    ensures NamedOver(UnderscoreModel(), allowed) && NoSeDevice(UnderscoreModel()) && Populated(UnderscoreModel())
  {
    var inner := [PlainDo("_", [])];
    var dos := [PlainDo("___", []), PlainDo("_", inner)];
    assert Over("_", allowed) && Over("___", allowed);
    assert "_" != "SE" by { assert |"SE"| == 2; }
    assert "___" != "_" by { assert |"___"| == 3; }
    assert CleanDos([], allowed) && CleanDas([], allowed);
    assert CleanDos(inner, allowed);
    assert CleanDos(dos, allowed);
    assert UnderscoreModel()[0].lns[0].Name() == "_";
  }

  /** Two data objects, one symbol: a name with an underscore spells another node's path. */
  lemma {:induction false} UnderscoreCollides(px: string)
    requires Populated(UnderscoreModel())
    ensures var recs := LdRecords(px, UnderscoreModel());
            |recs| == 5 && recs[2].symbol == recs[4].symbol && !Distinct(Symbols(recs))
  {
    var lds := UnderscoreModel();
    var ln := lds[0].lns[0];
    var dos := ln.dos;
    var ldSymbol := px + "_" + "_";
    assert ln.Name() == "_";
    var lnSymbol := ldSymbol + "_" + "_";
    var outer := lnSymbol + "_" + "_";
    assert DoRecords(px, outer, dos[1].sdos, None, false) == [DoHead(px, outer, dos[1].sdos, None)];
    assert DoRecords(px, lnSymbol, dos[1..], None, false)
        == [DoHead(px, lnSymbol, dos[1..], None), DoHead(px, outer, dos[1].sdos, None)];
    assert DoRecords(px, lnSymbol, dos, None, false)
        == [DoHead(px, lnSymbol, dos, None)] + DoRecords(px, lnSymbol, dos[1..], None, false);
    assert LnRecords(px, ldSymbol, [ln]) == [LnHead(ldSymbol, [ln])] + DoRecords(px, lnSymbol, dos, None, false);
    var recs := LdRecords(px, lds);
    assert lds[1..] == [] && LdRecords(px, []) == [];
    assert recs == [LdHead(px, lds)] + LnRecords(px, ldSymbol, [ln]);
    assert recs[2].symbol == lnSymbol + "_" + "___";
    assert recs[4].symbol == outer + "_" + "_";
    assert outer + "_" + "_" == lnSymbol + "_" + "___";
    assert Symbols(recs)[2] == Symbols(recs)[4];
  }

  ghost predicate AlwaysDistinct(px: string, allowed: iset<char>) {
    forall lds: seq<LogicalDevice> :: NamedOver(lds, allowed) && NoSeDevice(lds) && Populated(lds) ==>
      Distinct(Symbols(LdRecords(px, lds)))
  }

  lemma {:induction false} NamedOverMore(lds: seq<LogicalDevice>, some: iset<char>, more: iset<char>)
    requires NamedOver(lds, some) && some <= more
    ensures NamedOver(lds, more)
  {
    forall ld, ln | ld in lds && ln in ld.lns ensures CleanDos(ln.dos, more) {
      CleanDosMore(ln.dos, some, more);
    }
  }

  lemma {:induction false} CleanDosMore(dos: seq<DataObject>, some: iset<char>, more: iset<char>)
    requires CleanDos(dos, some) && some <= more
    ensures CleanDos(dos, more)
    decreases dos
  {
    forall d | d in dos ensures CleanDos(d.sdos, more) && CleanDas(d.das, more) {
      CleanDosMore(d.sdos, some, more);
      forall da | da in d.das ensures CleanDa(da, more) {
        CleanDaMore(da, some, more);
      }
    }
  }

  lemma {:induction false} CleanDaMore(da: DataAttribute, some: iset<char>, more: iset<char>)
    requires CleanDa(da, some) && some <= more
    ensures CleanDa(da, more)
    decreases da
  {
    forall sub | sub in da.subs ensures CleanDa(sub, more) {
      CleanDaMore(sub, some, more);
    }
  }

  /** Whatever characters names may use: the symbols of every sibling-unique model without a device
      called SE are distinct if and only if '_' is not among them. */
  lemma {:induction false} UnderscoreExact(px: string, allowed: iset<char>)
    requires FitsCut(px)
    ensures '_' !in allowed <==> AlwaysDistinct(px, allowed)
  {
    if '_' in allowed {
      UnderscoreModelNamed(allowed);
      UnderscoreCollides(px);
    } else {
      forall lds: seq<LogicalDevice> | NamedOver(lds, allowed) && NoSeDevice(lds) && Populated(lds)
        ensures Distinct(Symbols(LdRecords(px, lds)))
      {
        NamedOverMore(lds, allowed, PLAIN);
        TableFaithful(px, lds);
      }
    }
  }

  /** A device called SE with one setting: the SG and the SE attribute that every SE definition yields. */
  function SeDeviceModel(): seq<LogicalDevice> {
    [LogicalDevice("SE", [OneLn([DataObject("D", 0, false, [], SettingPair())])])]
  }

  function SettingPair(): seq<DataAttribute> {
    [EditAttribute("A", []).(fc := "SG"), EditAttribute("A", [])]
  }

  lemma {:induction false} SeDeviceModelNamed()
    ensures NamedOver(SeDeviceModel(), PLAIN) && Populated(SeDeviceModel())
  {
    var das := SettingPair();
    var d := DataObject("D", 0, false, [], das);
    assert Over("A", PLAIN) && Over("D", PLAIN) && Over("SE", PLAIN);
    assert CleanDa(das[0], PLAIN) && CleanDa(das[1], PLAIN) && Uniform(das[0]) && Uniform(das[1]);
    assert DasApart(das[0], das[1]);
    assert CleanDos([], PLAIN) && CleanDas(das, PLAIN);
    assert CleanDos([d], PLAIN);
    OneNamed("SE", [d]);
  }

  /** Below a device called SE every name already looks rewritten, so the SE attribute is printed
      under the name of its SG copy. */
  lemma {:induction false} SeDeviceCollides(px: string)
    requires Populated(SeDeviceModel())
    ensures var recs := LdRecords(px, SeDeviceModel());
            && |recs| == 5 && recs[3].symbol == recs[4].symbol && !Distinct(Symbols(recs))
            && recs[3].data.DaLabel? && recs[3].data.fc == "SG" && recs[4].data.DaLabel? && recs[4].data.fc == "SE"
  {
    var das := SettingPair();
    var dos := [DataObject("D", 0, false, [], das)];
    OneLnRecords(px, "SE", dos);
    var parent := px + "_" + "SE" + "_" + "LLN0";
    SettingPairRecords(px, parent + "_" + "D");
    SeMarked(px);
    OneDoRecords(px, parent, "D", das);
    var recs := LdRecords(px, SeDeviceModel());
    assert Symbols(recs)[3] == Symbols(recs)[4];
  }

  lemma {:induction false} OneDoRecords(px: string, parent: string, name: string, das: seq<DataAttribute>)
    ensures var dos := [DataObject(name, 0, false, [], das)];
            DoRecords(px, parent, dos, None, false)
            == [DoHead(px, parent, dos, None)] + DaRecords(px, parent + "_" + name, das, false)
  {
    var dos := [DataObject(name, 0, false, [], das)];
    var symbol := parent + "_" + name;
    assert dos[1..] == [] && DoRecords(px, parent, [], None, false) == [];
    assert DoRecords(px, symbol, [], FirstDa(px, symbol, das), false) == [];
    assert DoChunk(px, parent, dos, None, false) == [DoHead(px, parent, dos, None)] + DaRecords(px, symbol, das, false);
  }

  lemma {:induction false} SeMarked(px: string)
    ensures HasPrefix(px + "_" + "SE" + "_" + "LLN0" + "_" + "D" + "_" + "A", px + "_SE_")
  {
    assert (px + "_" + "SE" + "_" + "LLN0" + "_" + "D" + "_" + "A")[..|px + "_SE_"|] == px + "_SE_";
  }

  lemma {:induction false} LeafFirst(px: string, parent: string, das: seq<DataAttribute>)
    requires das != [] && das[0].count <= 0 && das[0].subs == []
    ensures DaRecords(px, parent, das, false)
         == [DaHead(px, parent, das, false)] + DaRecords(px, parent, das[1..], false)
  {
    assert DaBelow(px, DaSymbol(px, parent, das[0]), das[0], false) == [];
  }

  lemma {:induction false} SettingPairRecords(px: string, parent: string)
    ensures var recs := DaRecords(px, parent, SettingPair(), false);
            && |recs| == 2
            && recs[0].symbol == parent + "_" + "A" && recs[0].data == DaData(SettingPair()[0], false)
            && recs[1].symbol == SeFix(px, parent + "_" + "A", "SE") && recs[1].data == DaData(SettingPair()[1], false)
  {
    var das := SettingPair();
    assert das[1..] == [das[1]] && das[1..][1..] == [];
    LeafFirst(px, parent, das);
    LeafFirst(px, parent, das[1..]);
    assert DaRecords(px, parent, das[1..][1..], false) == [];
  }

  ghost predicate AlwaysDistinctFor(px: string, insts: iset<string>) {
    forall lds: seq<LogicalDevice> ::
      NamedOver(lds, PLAIN) && Populated(lds) && (forall ld :: ld in lds ==> ld.inst in insts) ==>
      Distinct(Symbols(LdRecords(px, lds)))
  }

  /** Whatever the devices may be called: the symbols of every well-named model are distinct if and
      only if SE is not among their names. */
  lemma {:induction false} SeDeviceExact(px: string, insts: iset<string>)
    requires FitsCut(px)
    ensures "SE" !in insts <==> AlwaysDistinctFor(px, insts)
  {
    if "SE" in insts {
      SeDeviceModelNamed();
      SeDeviceCollides(px);
    } else {
      forall lds: seq<LogicalDevice> | NamedOver(lds, PLAIN) && Populated(lds)
          && (forall ld :: ld in lds ==> ld.inst in insts)
        ensures Distinct(Symbols(LdRecords(px, lds)))
      {
        TableFaithful(px, lds);
      }
    }
  }
}
