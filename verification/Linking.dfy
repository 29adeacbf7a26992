/** Every pointer the generator spells names the record it means: the printed records are exactly
    the layout of the model forest. */
module Linking {
  import opened Text
  import opened Instances
  import opened PointerGraph
  import opened ModelRecords

  /** The prefixes for which inserting "SE_" at offset 9 turns "prefix_..." into "prefix_SE_...":
      eight characters, or nine characters followed by SE (SE_SE, ...). */
  predicate FitsCut(px: string) {
    |px| == 8 || (|px| > 8 && "SE_" + px[9..] == px[9..] + "_SE")
  }

  lemma {:induction false} CutOnce(px: string, t: string)
    requires FitsCut(px) && t != "" && t[0] == '_'
    ensures |px + t| >= 9 && (px + t)[..9] + "SE_" + (px + t)[9..] == px + "_SE" + t
    ensures HasPrefix(px + "_SE" + t, px + "_SE_") && SeFix(px, px + "_SE" + t, "SE") == px + "_SE" + t
  {
    var s := px + t;
    assert (px + "_SE" + t)[..|px + "_SE_"|] == px + "_SE_";
    if |px| == 8 {
      assert s[..9] == px + "_" && s[9..] == t[1..];
      assert t == "_" + t[1..];
    } else {
      assert s[..9] == px[..9] && s[9..] == px[9..] + t;
      assert px == px[..9] + px[9..];
      calc {
        s[..9] + "SE_" + s[9..];
        px[..9] + ("SE_" + px[9..]) + t;
        px[..9] + (px[9..] + "_SE") + t;
        px + "_SE" + t;
      }
    }
  }

  predicate InModel(path: seq<string>) {
    path != [] && path[0] != "SE" && Free(path[0], {'_'})
  }

  lemma {:induction false} PrefixUnderPrefix(px: string, t: string, m: string)
    ensures HasPrefix(px + t, px + m) == HasPrefix(t, m)
  {
    if |m| <= |t| {
      assert (px + t)[..|px + m|] == px + t[..|m|];
      assert (px + t)[..|px + m|][|px|..] == t[..|m|];
      assert (px + m)[|px|..] == m;
    }
  }

  lemma {:induction false} NotMarkedPath(path: seq<string>)
    requires InModel(path)
    ensures !HasPrefix(Join(path), "_SE_")
  {
    var s := Join(path);
    if HasPrefix(s, "_SE_") {
      var rest := s[4..];
      assert s[1..] == path[0] + Join(path[1..]);
      assert s[1..] == s[..4][1..] + rest == "SE" + ("_" + rest);
      UniqueSplit(path[0], Join(path[1..]), "SE", "_" + rest, {'_'});
    }
  }

  lemma {:induction false} NotMarked(px: string, path: seq<string>)
    requires InModel(path)
    ensures !HasPrefix(px + Join(path), px + "_SE_")
  {
    PrefixUnderPrefix(px, Join(path), "_SE_");
    NotMarkedPath(path);
  }

  lemma {:induction false} Marked(px: string, path: seq<string>)
    requires path != []
    ensures HasPrefix(px + "_SE" + Join(path), px + "_SE_")
  {
    PrefixUnderPrefix(px, "_SE" + Join(path), "_SE_");
    assert px + ("_SE" + Join(path)) == px + "_SE" + Join(path);
    assert ("_SE" + Join(path))[..4] == "_SE_";
  }

  /** A child's symbol extends its parent's, within one copy. */
  lemma {:induction false} ChildSymbol(px: string, k: Key, name: string)
    ensures Symbol(px, Key(k.se, k.path + [name])) == Symbol(px, k) + "_" + name
  {
    JoinAppend(k.path, name);
    assert forall a: string :: a + (Join(k.path) + "_" + name) == a + Join(k.path) + "_" + name;
  }

  lemma {:induction false} FixSymbol(px: string, k: Key, fc: string)
    requires FitsCut(px) && InModel(k.path) && (k.se ==> fc == "SE")
    ensures SeFix(px, Symbol(px, k), fc) == Symbol(px, Key(fc == "SE", k.path))
  {
    if k.se {
      Marked(px, k.path);
    } else if fc == "SE" {
      assert Symbol(px, k) == px + Join(k.path);
      NotMarked(px, k.path);
      CutOnce(px, Join(k.path));
    }
  }

  /** Printed and referenced spelling of one attribute agree, and are its symbol. */
  lemma {:induction false} Spelling(px: string, k: Key, da: DataAttribute)
    requires FitsCut(px) && InModel(k.path) && (k.se ==> da.fc == "SE")
    ensures DaSymbol(px, Symbol(px, k), da) == Symbol(px, Key(da.fc == "SE", k.path + [da.name]))
    ensures DaReference(px, Symbol(px, k), da) == Symbol(px, Key(da.fc == "SE", k.path + [da.name]))
  {
    var child := Key(k.se, k.path + [da.name]);
    ChildSymbol(px, k, da.name);
    FixSymbol(px, child, da.fc);
    FixSymbol(px, k, da.fc);
    ChildSymbol(px, Key(da.fc == "SE", k.path), da.name);
  }

  /** Below an edit attribute everything is edit copy, below any other nothing is. */
  predicate Uniform(da: DataAttribute) {
    forall sub :: sub in da.subs ==> (sub.fc == "SE") == (da.fc == "SE") && Uniform(sub)
  }

  /** What DaRecords needs of a list of siblings below a node with the given edit flag. */
  predicate Fits(se: bool, das: seq<DataAttribute>) {
    forall da :: da in das ==> Uniform(da) && (se ==> da.fc == "SE")
  }

  function DaKey(path: seq<string>, da: DataAttribute): Key {
    Key(da.fc == "SE", path + [da.name])
  }

  lemma {:induction false} DaNodeKey(path: seq<string>, da: DataAttribute, transient: bool)
    ensures KeyOf(path, DaNode(da, transient)) == DaKey(path, da)
  {
  }

  lemma {:induction false} DaForestStep(das: seq<DataAttribute>, transient: bool)
    requires das != []
    ensures var ns := DaForest(das, transient);
            ns != [] && ns[0] == DaNode(das[0], transient) && ns[1..] == DaForest(das[1..], transient)
  {
  }

  lemma {:induction false} DaHeadLinked(px: string, se: bool, path: seq<string>, das: seq<DataAttribute>,
                                        transient: bool)
    requires FitsCut(px) && InModel(path) && das != [] && Fits(se, das)
    ensures var parent := Symbol(px, Key(se, path));
            DaHead(px, parent, das, transient) == HeadRec(px, path, parent, DaForest(das, transient), None)
  {
    var k := DaKey(path, das[0]);
    var ns := DaForest(das, transient);
    DaForestStep(das, transient);
    Spelling(px, Key(se, path), das[0]);
    DaNodeKey(path, das[0], transient);
    BelowHead(px, k, das[0], transient);
    if |das| > 1 {
      Spelling(px, Key(se, path), das[1]);
      DaForestStep(das[1..], transient);
      DaNodeKey(path, das[1], transient);
    }
  }

  lemma {:induction false} BelowHead(px: string, k: Key, da: DataAttribute, transient: bool)
    requires InModel(k.path) && k.se == (da.fc == "SE") && Uniform(da)
    ensures HeadSymbol(px, k.path, DaNode(da, transient).kids, None)
         == if da.count > 0 then Some(Symbol(px, k) + "_0") else FirstSub(Symbol(px, k), da.subs)
  {
    if da.count > 0 {
      ElementKey(px, k, 0);
      assert Symbol(px, k) + "_" + Itoa(0) == Symbol(px, k) + "_0";
      ElementNodeKey(k.path, da, transient, 0, DaForest(da.subs, transient));
    } else {
      FirstSubIs(px, k, da.subs, transient);
    }
  }

  lemma {:induction false} DaLinked(px: string, se: bool, path: seq<string>, das: seq<DataAttribute>, transient: bool)
    requires FitsCut(px) && InModel(path) && Fits(se, das)
    ensures var parent := Symbol(px, Key(se, path));
            DaRecords(px, parent, das, transient) == Layout(px, path, parent, DaForest(das, transient), None)
    decreases das, 0
  {
    if das != [] {
      var k := DaKey(path, das[0]);
      Spelling(px, Key(se, path), das[0]);
      DaForestStep(das, transient);
      DaNodeKey(path, das[0], transient);
      DaHeadLinked(px, se, path, das, transient);
      DaBelowLinked(px, k, das[0], transient);
      DaLinked(px, se, path, das[1..], transient);
    }
  }

  lemma {:induction false} DaBelowLinked(px: string, k: Key, da: DataAttribute, transient: bool)
    requires FitsCut(px) && InModel(k.path) && k.se == (da.fc == "SE") && Uniform(da)
    ensures DaBelow(px, Symbol(px, k), da, transient)
         == Layout(px, k.path, Symbol(px, k), DaNode(da, transient).kids, None)
    decreases da, 1
  {
    if da.count > 0 {
      ElementsLinked(px, k, da, transient, 0);
    } else {
      DaLinked(px, k.se, k.path, da.subs, transient);
    }
  }

  lemma {:induction false} FirstSubIs(px: string, k: Key, subs: seq<DataAttribute>, transient: bool)
    requires InModel(k.path) && forall sub :: sub in subs ==> (sub.fc == "SE") == k.se
    ensures HeadSymbol(px, k.path, DaForest(subs, transient), None) == FirstSub(Symbol(px, k), subs)
  {
    if subs != [] {
      ChildSymbol(px, k, subs[0].name);
      assert DaForest(subs, transient)[0] == DaNode(subs[0], transient);
    }
  }

  lemma {:induction false} ElementNodeKey(path: seq<string>, da: DataAttribute, transient: bool, index: nat,
                                          kids: seq<Node>)
    ensures KeyOf(path, Node(ElementData(da, index, transient), kids)) == Key(da.fc == "SE", path + [Itoa(index)])
  {
  }

  lemma {:induction false} ElementKey(px: string, k: Key, index: nat)
    ensures Symbol(px, Key(k.se, k.path + [Itoa(index)])) == Symbol(px, k) + "_" + Itoa(index)
  {
    ChildSymbol(px, k, Itoa(index));
  }

  lemma {:induction false} ElementsLinked(px: string, k: Key, da: DataAttribute, transient: bool, index: nat)
    requires FitsCut(px) && InModel(k.path) && k.se == (da.fc == "SE") && Uniform(da)
    requires index <= da.count
    ensures var symbol := Symbol(px, k);
            ElementRecords(px, symbol, da, transient, index)
            == Layout(px, k.path, symbol, Elements(da, transient, index), None)
    decreases da, 0, da.count - index
  {
    if index < da.count {
      var ns := Elements(da, transient, index);
      var element := Key(k.se, k.path + [Itoa(index)]);
      assert ns[1..] == Elements(da, transient, index + 1);
      ElementNodeKey(k.path, da, transient, index, ns[0].kids);
      ElementHeadLinked(px, k, da, transient, index);
      ElementKey(px, k, index);
      ElementsLinked(px, k, da, transient, index + 1);
      DaLinked(px, element.se, element.path, da.subs, transient);
    }
  }

  lemma {:induction false} ElementHeadLinked(px: string, k: Key, da: DataAttribute, transient: bool, index: nat)
    requires InModel(k.path) && k.se == (da.fc == "SE") && Uniform(da) && index < da.count
    ensures ElementHead(Symbol(px, k), da, transient, index)
         == HeadRec(px, k.path, Symbol(px, k), Elements(da, transient, index), None)
  {
    var ns := Elements(da, transient, index);
    var element := Key(k.se, k.path + [Itoa(index)]);
    ElementKey(px, k, index);
    ElementNodeKey(k.path, da, transient, index, ns[0].kids);
    FirstSubIs(px, element, da.subs, transient);
    if index + 1 < da.count {
      ElementKey(px, k, index + 1);
      ElementNodeKey(k.path, da, transient, index + 1, ns[1..][0].kids);
    }
  }

  // ----- data objects, logical nodes, logical devices

  /** What DoRecords needs: attributes directly below a data object may mix edit and other copies. */
  predicate DosFit(dos: seq<DataObject>) {
    forall d :: d in dos ==> Fits(false, d.das) && DosFit(d.sdos)
  }

  function DoKids(d: DataObject, transient: bool): seq<Node> {
    DoForest(d.sdos, transient) + DaForest(d.das, transient)
  }

  lemma {:induction false} DoForestStep(path: seq<string>, dos: seq<DataObject>, transient: bool)
    requires dos != []
    ensures var ns := DoForest(dos, transient);
            && ns != [] && ns[1..] == DoForest(dos[1..], transient)
            && ns[0] == Node(DoLabel(dos[0].name, dos[0].count), DoKids(dos[0], transient || dos[0].trans))
            && KeyOf(path, ns[0]) == Key(false, path + [dos[0].name])
  {
  }

  lemma {:induction false} DoSiblingLinked(px: string, path: seq<string>, dos: seq<DataObject>, tail: Option<string>,
                                           transient: bool)
    ensures HeadSymbol(px, path, DoForest(dos, transient), tail)
         == if dos == [] then tail else Some(Symbol(px, Key(false, path)) + "_" + dos[0].name)
  {
    if dos != [] {
      ChildSymbol(px, Key(false, path), dos[0].name);
      DoForestStep(path, dos, transient);
    }
  }

  lemma {:induction false} DoFirstChildLinked(px: string, path: seq<string>, d: DataObject, transient: bool)
    requires FitsCut(px) && InModel(path)
    ensures var symbol := Symbol(px, Key(false, path));
      HeadSymbol(px, path, DoKids(d, transient), None)
      == if d.sdos != [] then Some(symbol + "_" + d.sdos[0].name) else FirstDa(px, symbol, d.das)
  {
    FirstDaIs(px, path, d.das, transient);
    DoSiblingLinked(px, path, d.sdos, FirstDa(px, Symbol(px, Key(false, path)), d.das), transient);
    var a, b := DoForest(d.sdos, transient), DaForest(d.das, transient);
    if a == [] {
      assert a + b == b;
    } else {
      assert (a + b)[0] == a[0];
    }
  }

  lemma {:induction false} DoHeadLinked(px: string, path: seq<string>, dos: seq<DataObject>, tail: Option<string>,
                                        transient: bool)
    requires FitsCut(px) && InModel(path) && dos != []
    ensures var parent := Symbol(px, Key(false, path));
            DoHead(px, parent, dos, tail) == HeadRec(px, path, parent, DoForest(dos, transient), tail)
  {
    DoForestStep(path, dos, transient);
    ChildSymbol(px, Key(false, path), dos[0].name);
    DoFirstChildLinked(px, path + [dos[0].name], dos[0], transient || dos[0].trans);
    DoSiblingLinked(px, path, dos[1..], tail, transient);
  }

  lemma {:induction false} FirstDaIs(px: string, path: seq<string>, das: seq<DataAttribute>, transient: bool)
    requires FitsCut(px) && InModel(path)
    ensures FirstDa(px, Symbol(px, Key(false, path)), das) == HeadSymbol(px, path, DaForest(das, transient), None)
  {
    if das != [] {
      Spelling(px, Key(false, path), das[0]);
      DaForestStep(das, transient);
      DaNodeKey(path, das[0], transient);
    }
  }

  lemma {:induction false} DoKidsLinked(px: string, path: seq<string>, d: DataObject, transient: bool, below: seq<Rec>)
    requires FitsCut(px) && InModel(path) && Fits(false, d.das)
    requires var symbol := Symbol(px, Key(false, path));
      below == Layout(px, path, symbol, DoForest(d.sdos, transient), FirstDa(px, symbol, d.das))
    ensures var symbol := Symbol(px, Key(false, path));
      below + DaRecords(px, symbol, d.das, transient) == Layout(px, path, symbol, DoKids(d, transient), None)
  {
    var symbol := Symbol(px, Key(false, path));
    DaLinked(px, false, path, d.das, transient);
    FirstDaIs(px, path, d.das, transient);
    LayoutAppend(px, path, symbol, DoForest(d.sdos, transient), DaForest(d.das, transient), None);
  }

  lemma {:induction false} DoLinked(px: string, path: seq<string>, dos: seq<DataObject>, tail: Option<string>,
                                    transient: bool)
    requires FitsCut(px) && InModel(path) && DosFit(dos)
    ensures var parent := Symbol(px, Key(false, path));
      DoRecords(px, parent, dos, tail, transient) == Layout(px, path, parent, DoForest(dos, transient), tail)
    decreases dos
  {
    if dos != [] {
      var parent := Symbol(px, Key(false, path));
      var d, below := dos[0], path + [dos[0].name];
      var t, symbol := transient || d.trans, parent + "_" + d.name;
      ChildSymbol(px, Key(false, path), d.name);
      DoForestStep(path, dos, transient);
      DoHeadLinked(px, path, dos, tail, transient);
      var sdoRecords := DoRecords(px, symbol, d.sdos, FirstDa(px, symbol, d.das), t);
      DoLinked(px, below, d.sdos, FirstDa(px, symbol, d.das), t);
      DoKidsLinked(px, below, d, t, sdoRecords);
      DoLinked(px, path, dos[1..], tail, transient);
      Assoc([DoHead(px, parent, dos, tail)], sdoRecords, DaRecords(px, symbol, d.das, t));
    }
  }

  lemma {:induction false} LnLinked(px: string, inst: string, lns: seq<LogicalNode>)
    requires FitsCut(px) && InModel([inst])
    requires forall ln :: ln in lns ==> ln.dos != [] && DosFit(ln.dos)
    ensures LnRecords(px, px + "_" + inst, lns) == Layout(px, [inst], px + "_" + inst, LnForest(lns), None)
  {
    var parent := px + "_" + inst;
    ChildSymbol(px, Key(false, []), inst);
    assert [] + [inst] == [inst];
    assert Symbol(px, Key(false, [inst])) == parent;
    if lns != [] {
      var ln, path := lns[0], [inst] + [lns[0].Name()];
      ChildSymbol(px, Key(false, [inst]), ln.Name());
      ChildSymbol(px, Key(false, path), ln.dos[0].name);
      if |lns| > 1 {
        ChildSymbol(px, Key(false, [inst]), lns[1].Name());
      }
      assert LnHead(parent, lns) == HeadRec(px, [inst], parent, LnForest(lns), None);
      DoLinked(px, path, ln.dos, None, false);
      LnLinked(px, inst, lns[1..]);
    }
  }

  predicate Fitting(lds: seq<LogicalDevice>) {
    forall ld :: ld in lds ==> InModel([ld.inst]) && forall ln :: ln in ld.lns ==> DosFit(ln.dos)
  }

  /** The printed table is the layout of the model: every spelled pointer is the right one. */
  lemma {:induction false} ModelLinked(px: string, lds: seq<LogicalDevice>)
    requires FitsCut(px) && Populated(lds) && Fitting(lds)
    ensures LdRecords(px, lds) == Layout(px, [], px, ModelForest(lds), None)
  {
    if lds != [] {
      var ld := lds[0];
      assert ld in lds;
      LnLinked(px, ld.inst, ld.lns);
      LdHeadLinked(px, lds);
      assert KeyOf([], ModelForest(lds)[0]) == Key(false, [ld.inst]);
      LdSymbol(px, ld.inst);
      ModelLinked(px, lds[1..]);
    }
  }

  lemma {:induction false} LdSymbol(px: string, inst: string)
    ensures Symbol(px, Key(false, [inst])) == px + "_" + inst
  {
    ChildSymbol(px, Key(false, []), inst);
    assert [] + [inst] == [inst];
  }

  lemma {:induction false} LdHeadLinked(px: string, lds: seq<LogicalDevice>)
    requires lds != [] && lds[0].lns != []
    ensures LdHead(px, lds) == HeadRec(px, [], px, ModelForest(lds), None)
  {
    LdSymbol(px, lds[0].inst);
    assert [] + [lds[0].inst] == [lds[0].inst];
    ChildSymbol(px, Key(false, [lds[0].inst]), lds[0].lns[0].Name());
    if |lds| > 1 {
      LdSymbol(px, lds[1].inst);
      assert [] + [lds[1].inst] == [lds[1].inst];
    }
  }
}
