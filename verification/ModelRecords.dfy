/** The records the generator prints for logical devices, logical nodes, data objects and data
    attributes, with every pointer spelled the way the generator spells it, and the proof that
    those spellings agree: the printed table is the correctly linked layout of the model. */
module ModelRecords {
  import opened Text
  import opened Instances
  import opened PointerGraph

  // ----- spelling of symbols

  predicate NeedsCut(px: string, s: string, fc: string) {
    fc == "SE" && !HasPrefix(s, px + "_SE_")
  }

  /** The cut at offset 9 stays within the name; the source panics otherwise. */
  predicate Cuttable(px: string, s: string, fc: string) {
    NeedsCut(px, s, fc) ==> |s| >= 9
  }

  /** Inserts "SE_" at offset 9 unless the name already lies in the edit copy.  The offset is the
      generator's: it fits prefixes of 8 characters.  What happens to a name that is not Cuttable is
      of no account: whatever prints requires that there be none. */
  function SeFix(px: string, s: string, fc: string): string {
    if NeedsCut(px, s, fc) && |s| >= 9 then s[..9] + "SE_" + s[9..] else s
  }

  function DaSymbol(px: string, parent: string, da: DataAttribute): string {
    SeFix(px, parent + "_" + da.name, da.fc)
  }

  /** The spelling used when an attribute is named from a neighbour rather than printed. */
  function DaReference(px: string, parent: string, da: DataAttribute): string
  {
    SeFix(px, parent, da.fc) + "_" + da.name
  }

  function SiblingOf(px: string, parent: string, das: seq<DataAttribute>): Option<string>
  {
    if |das| > 1 then Some(DaReference(px, parent, das[1])) else None
  }

  function FirstDa(px: string, symbol: string, das: seq<DataAttribute>): Option<string>
  {
    if das == [] then None else Some(DaReference(px, symbol, das[0]))
  }

  /** A constructed attribute's first child, spelled without the edit-copy rewrite. */
  function FirstSub(symbol: string, subs: seq<DataAttribute>): Option<string> {
    if subs == [] then None else Some(symbol + "_" + subs[0].name)
  }

  // ----- records, in the order they are printed

  function DaData(da: DataAttribute, transient: bool): Label {
    DaLabel(Some(da.name), da.fc, da.attrType, da.count, -1, da.trigger, transient, da.shortAddress)
  }

  function ElementData(da: DataAttribute, index: nat, transient: bool): Label {
    DaLabel(None, da.fc, da.attrType, 0, index, da.trigger, transient, "0")
  }

  function DaHead(px: string, parent: string, das: seq<DataAttribute>, transient: bool): Rec
    requires das != []
  {
    var symbol := DaSymbol(px, parent, das[0]);
    Rec(symbol, DaData(das[0], transient), parent, SiblingOf(px, parent, das),
        if das[0].count > 0 then Some(symbol + "_0") else FirstSub(symbol, das[0].subs))
  }

  function DaRecords(px: string, parent: string, das: seq<DataAttribute>, transient: bool): seq<Rec>
    decreases das, 0
  {
    if das == [] then []
    else DaChunk(px, parent, das, transient) + DaRecords(px, parent, das[1..], transient)
  }

  /** One attribute and everything below it. */
  function DaChunk(px: string, parent: string, das: seq<DataAttribute>, transient: bool): seq<Rec>
    requires das != []
    decreases das[0], 2
  {
    [DaHead(px, parent, das, transient)]
    + DaBelow(px, DaSymbol(px, parent, das[0]), das[0], transient)
  }

  function DaBelow(px: string, symbol: string, da: DataAttribute, transient: bool): seq<Rec>
    decreases da, 1
  {
    if da.count > 0 then ElementRecords(px, symbol, da, transient, 0)
    else DaRecords(px, symbol, da.subs, transient)
  }

  function ElementHead(symbol: string, da: DataAttribute, transient: bool, index: nat): Rec {
    var element := symbol + "_" + Itoa(index);
    Rec(element, ElementData(da, index, transient), symbol,
        if index != da.count - 1 then Some(symbol + "_" + Itoa(index + 1)) else None,
        FirstSub(element, da.subs))
  }

  function ElementRecords(px: string, symbol: string, da: DataAttribute, transient: bool, index: nat): seq<Rec>
    requires index <= da.count
    decreases da, 0, da.count - index
  {
    if index == da.count then []
    else ElementChunk(px, symbol, da, transient, index) + ElementRecords(px, symbol, da, transient, index + 1)
  }

  function ElementChunk(px: string, symbol: string, da: DataAttribute, transient: bool, index: nat): seq<Rec>
    decreases da, 0, 0
  {
    [ElementHead(symbol, da, transient, index)]
    + DaRecords(px, symbol + "_" + Itoa(index), da.subs, transient)
  }

  function DoHead(px: string, parent: string, dos: seq<DataObject>, tail: Option<string>): Rec
    requires dos != []
  {
    var d := dos[0];
    var symbol := parent + "_" + d.name;
    Rec(symbol, DoLabel(d.name, d.count), parent,
        if |dos| > 1 then Some(parent + "_" + dos[1].name) else tail,
        if d.sdos != [] then Some(symbol + "_" + d.sdos[0].name) else FirstDa(px, symbol, d.das))
  }

  /** `tail` is the attribute the last data object of the list is followed by. */
  function DoRecords(px: string, parent: string, dos: seq<DataObject>, tail: Option<string>, transient: bool): seq<Rec>
    decreases dos, 1
  {
    if dos == [] then []
    else DoChunk(px, parent, dos, tail, transient) + DoRecords(px, parent, dos[1..], tail, transient)
  }

  function DoChunk(px: string, parent: string, dos: seq<DataObject>, tail: Option<string>, transient: bool): seq<Rec>
    requires dos != []
    decreases dos[0], 0
  {
    var d := dos[0];
    var symbol := parent + "_" + d.name;
    [DoHead(px, parent, dos, tail)]
    + DoRecords(px, symbol, d.sdos, FirstDa(px, symbol, d.das), transient || d.trans)
    + DaRecords(px, symbol, d.das, transient || d.trans)
  }

  function LnHead(parent: string, lns: seq<LogicalNode>): Rec
    requires lns != [] && lns[0].dos != []
  {
    var symbol := parent + "_" + lns[0].Name();
    Rec(symbol, LnLabel(lns[0].Name()), parent,
        if |lns| > 1 then Some(parent + "_" + lns[1].Name()) else None,
        Some(symbol + "_" + lns[0].dos[0].name))
  }

  function LnRecords(px: string, parent: string, lns: seq<LogicalNode>): seq<Rec>
    requires forall ln :: ln in lns ==> ln.dos != []
    decreases lns
  {
    if lns == [] then []
    else LnChunk(px, parent, lns) + LnRecords(px, parent, lns[1..])
  }

  function LnChunk(px: string, parent: string, lns: seq<LogicalNode>): seq<Rec>
    requires lns != [] && lns[0].dos != []
  {
    [LnHead(parent, lns)] + DoRecords(px, parent + "_" + lns[0].Name(), lns[0].dos, None, false)
  }

  function LdHead(px: string, lds: seq<LogicalDevice>): Rec
    requires lds != [] && lds[0].lns != []
  {
    var symbol := px + "_" + lds[0].inst;
    Rec(symbol, LdLabel(lds[0].inst), px,
        if |lds| > 1 then Some(px + "_" + lds[1].inst) else None,
        Some(symbol + "_" + lds[0].lns[0].Name()))
  }

  /** The shapes the generator indexes into without a check: it panics on a logical device without
      logical nodes and on a logical node without data objects. */
  predicate Populated(lds: seq<LogicalDevice>) {
    forall ld :: ld in lds ==> ld.lns != [] && forall ln :: ln in ld.lns ==> ln.dos != []
  }

  function LdRecords(px: string, lds: seq<LogicalDevice>): seq<Rec>
    requires Populated(lds)
    decreases lds
  {
    if lds == [] then []
    else
      assert lds[0] in lds;
      LdChunk(px, lds) + LdRecords(px, lds[1..])
  }

  function LdChunk(px: string, lds: seq<LogicalDevice>): seq<Rec>
    requires lds != [] && Populated(lds)
  {
    assert lds[0] in lds;
    [LdHead(px, lds)] + LnRecords(px, px + "_" + lds[0].inst, lds[0].lns)
  }

  // ----- where the generator cuts names

  /** Every name that printing these siblings cuts can be cut: each attribute's own, and the parent's
      in a reference to a sibling. */
  ghost predicate DasCuttable(px: string, parent: string, das: seq<DataAttribute>)
    decreases das, 0
  {
    && (forall i :: 0 <= i < |das| ==> DaCuttable(px, parent, das[i]))
    && (forall i :: 0 < i < |das| ==> Cuttable(px, parent, das[i].fc))
  }

  ghost predicate DaCuttable(px: string, parent: string, da: DataAttribute)
    decreases da, 1
  {
    var symbol := DaSymbol(px, parent, da);
    && Cuttable(px, parent + "_" + da.name, da.fc)
    && if da.count > 0
       then forall k: nat :: k < da.count ==> DasCuttable(px, symbol + "_" + Itoa(k), da.subs)
       else DasCuttable(px, symbol, da.subs)
  }

  /** A data object's own name is cut to name its first attribute. */
  ghost predicate DosCuttable(px: string, parent: string, dos: seq<DataObject>)
    decreases dos
  {
    forall d :: d in dos ==>
      var symbol := parent + "_" + d.name;
      && (d.das != [] ==> Cuttable(px, symbol, d.das[0].fc))
      && DosCuttable(px, symbol, d.sdos) && DasCuttable(px, symbol, d.das)
  }

  /** What the source demands of a model: printing it does not panic. */
  ghost predicate Printable(px: string, lds: seq<LogicalDevice>) {
    Populated(lds) && forall ld, ln :: ld in lds && ln in ld.lns ==>
      DosCuttable(px, px + "_" + ld.inst + "_" + ln.Name(), ln.dos)
  }

  lemma {:induction false} LongSymbol(px: string, parent: string, da: DataAttribute)
    requires |parent| >= 9
    ensures |DaSymbol(px, parent, da)| >= 9
  {
  }

  lemma {:induction false} LongDaCuttable(px: string, parent: string, da: DataAttribute)
    requires |parent| >= 9
    ensures DaCuttable(px, parent, da)
    decreases da, 1
  {
    var symbol := DaSymbol(px, parent, da);
    LongSymbol(px, parent, da);
    LongDasCuttable(px, symbol, da.subs);
    forall k: nat | k < da.count ensures DasCuttable(px, symbol + "_" + Itoa(k), da.subs) {
      LongDasCuttable(px, symbol + "_" + Itoa(k), da.subs);
    }
  }

  lemma {:induction false} LongDasCuttable(px: string, parent: string, das: seq<DataAttribute>)
    requires |parent| >= 9
    ensures DasCuttable(px, parent, das)
    decreases das, 0
  {
    forall i | 0 <= i < |das| ensures DaCuttable(px, parent, das[i]) {
      LongDaCuttable(px, parent, das[i]);
    }
  }

  lemma {:induction false} LongDosCuttable(px: string, parent: string, dos: seq<DataObject>)
    requires |parent| >= 9
    ensures DosCuttable(px, parent, dos)
    decreases dos
  {
    forall d | d in dos
      ensures DosCuttable(px, parent + "_" + d.name, d.sdos) && DasCuttable(px, parent + "_" + d.name, d.das)
    {
      LongDosCuttable(px, parent + "_" + d.name, d.sdos);
      LongDasCuttable(px, parent + "_" + d.name, d.das);
    }
  }

  /** With logical node names of nine characters or more nothing is too short to cut. */
  lemma {:induction false} LongPrintable(px: string, lds: seq<LogicalDevice>)
    requires Populated(lds)
    requires forall ld, ln :: ld in lds && ln in ld.lns ==> |px + "_" + ld.inst + "_" + ln.Name()| >= 9
    ensures Printable(px, lds)
  {
    forall ld, ln | ld in lds && ln in ld.lns
      ensures DosCuttable(px, px + "_" + ld.inst + "_" + ln.Name(), ln.dos)
    {
      LongDosCuttable(px, px + "_" + ld.inst + "_" + ln.Name(), ln.dos);
    }
  }

  // ----- the model as a plain forest

  function DaNode(da: DataAttribute, transient: bool): Node
    decreases da, 1
  {
    Node(DaData(da, transient), if da.count > 0 then Elements(da, transient, 0) else DaForest(da.subs, transient))
  }

  function DaForest(das: seq<DataAttribute>, transient: bool): (ns: seq<Node>)
    ensures |ns| == |das|
    decreases das, 0
  {
    if das == [] then [] else [DaNode(das[0], transient)] + DaForest(das[1..], transient)
  }

  function Elements(da: DataAttribute, transient: bool, index: nat): (ns: seq<Node>)
    requires index <= da.count
    ensures |ns| == da.count - index
    decreases da, 0, da.count - index
  {
    if index == da.count then []
    else [Node(ElementData(da, index, transient), DaForest(da.subs, transient))] + Elements(da, transient, index + 1)
  }

  /** A data object's children are its sub data objects, then its data attributes. */
  function DoForest(dos: seq<DataObject>, transient: bool): seq<Node>
    decreases dos
  {
    if dos == [] then []
    else
      var t := transient || dos[0].trans;
      [Node(DoLabel(dos[0].name, dos[0].count), DoForest(dos[0].sdos, t) + DaForest(dos[0].das, t))]
      + DoForest(dos[1..], transient)
  }

  function LnForest(lns: seq<LogicalNode>): seq<Node> {
    if lns == [] then []
    else [Node(LnLabel(lns[0].Name()), DoForest(lns[0].dos, false))] + LnForest(lns[1..])
  }

  function ModelForest(lds: seq<LogicalDevice>): seq<Node> {
    if lds == [] then []
    else [Node(LdLabel(lds[0].inst), LnForest(lds[0].lns))] + ModelForest(lds[1..])
  }

  lemma {:induction false} DaForestAt(das: seq<DataAttribute>, transient: bool, i: nat)
    requires i < |das|
    ensures DaForest(das, transient)[i] == DaNode(das[i], transient)
  {
    if i > 0 {
      DaForestAt(das[1..], transient, i - 1);
    }
  }

  lemma {:induction false} ElementsAt(da: DataAttribute, transient: bool, index: nat, i: nat)
    requires index + i < da.count
    ensures Elements(da, transient, index)[i]
         == Node(ElementData(da, index + i, transient), DaForest(da.subs, transient))
    decreases i
  {
    if i > 0 {
      ElementsAt(da, transient, index + 1, i - 1);
    }
  }
}
