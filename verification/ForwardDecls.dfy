/** The pass that prints extern declarations, with its de-duplication, and its agreement with the
    pass that prints definitions. */
module ForwardDecls {
  import opened Text
  import opened Instances
  import opened PointerGraph
  import opened ModelRecords
  import opened Linking
  import opened ModelTable

  /** Names declared so far in the current scope travel with the declarations. */
  datatype Decls = Decls(names: seq<string>, seen: set<string>)

  function DeclDas(px: string, parent: string, das: seq<DataAttribute>, seen: set<string>): Decls
    decreases das
  {
    if das == [] then Decls([], seen)
    else
      var name := DaSymbol(px, parent, das[0]);
      if name in seen then DeclDas(px, parent, das[1..], seen)
      else
        var below := DeclDas(px, name, das[0].subs, seen + {name});
        var rest := DeclDas(px, parent, das[1..], below.seen);
        Decls([name] + below.names + rest.names, rest.seen)
  }

  /** Data objects share one scope per logical node; the attributes of each have their own. */
  function DeclDos(px: string, parent: string, dos: seq<DataObject>, seen: set<string>): Decls
    decreases dos
  {
    if dos == [] then Decls([], seen)
    else
      var name := parent + "_" + dos[0].name;
      if name in seen then DeclDos(px, parent, dos[1..], seen)
      else
        var below := DeclDos(px, name, dos[0].sdos, seen + {name});
        var das := DeclDas(px, name, dos[0].das, {});
        var rest := DeclDos(px, parent, dos[1..], below.seen);
        Decls([name] + below.names + das.names + rest.names, rest.seen)
  }

  function DeclLns(px: string, parent: string, lns: seq<LogicalNode>): seq<string>
  {
    if lns == [] then []
    else
      var name := parent + "_" + lns[0].Name();
      [name] + DeclDos(px, name, lns[0].dos, {}).names + DeclLns(px, parent, lns[1..])
  }

  function DeclLds(px: string, lds: seq<LogicalDevice>): seq<string> {
    if lds == [] then []
    else
      var name := px + "_" + lds[0].inst;
      [name] + DeclLns(px, name, lds[0].lns) + DeclLds(px, lds[1..])
  }

  // ----- where this pass cuts names: each attribute's own only, and no element's

  ghost predicate DeclDasCuttable(px: string, parent: string, das: seq<DataAttribute>, seen: set<string>)
    decreases das
  {
    das != [] ==>
      var name := DaSymbol(px, parent, das[0]);
      && Cuttable(px, parent + "_" + das[0].name, das[0].fc)
      && if name in seen then DeclDasCuttable(px, parent, das[1..], seen)
         else
           && DeclDasCuttable(px, name, das[0].subs, seen + {name})
           && DeclDasCuttable(px, parent, das[1..], DeclDas(px, name, das[0].subs, seen + {name}).seen)
  }

  ghost predicate DeclDosCuttable(px: string, parent: string, dos: seq<DataObject>, seen: set<string>)
    decreases dos
  {
    dos != [] ==>
      var name := parent + "_" + dos[0].name;
      if name in seen then DeclDosCuttable(px, parent, dos[1..], seen)
      else
        && DeclDosCuttable(px, name, dos[0].sdos, seen + {name})
        && DeclDasCuttable(px, name, dos[0].das, {})
        && DeclDosCuttable(px, parent, dos[1..], DeclDos(px, name, dos[0].sdos, seen + {name}).seen)
  }

  /** What the source demands of a model: declaring it does not panic. */
  ghost predicate Declarable(px: string, lds: seq<LogicalDevice>) {
    forall ld, ln :: ld in lds && ln in ld.lns ==>
      DeclDosCuttable(px, px + "_" + ld.inst + "_" + ln.Name(), ln.dos, {})
  }

  class HeaderPrinter {
    const modelPrefix: string
    var hOut: seq<string>

    constructor (modelPrefix: string)
      ensures this.modelPrefix == modelPrefix && hOut == []
    {
      this.modelPrefix, hOut := modelPrefix, [];
    }

    method PrintByDA(doName: string, das: seq<DataAttribute>, daNames: set<string>) returns (seen: set<string>)
      requires DeclDasCuttable(modelPrefix, doName, das, daNames)
      modifies this
      ensures var d := DeclDas(modelPrefix, doName, das, daNames); hOut == old(hOut) + d.names && seen == d.seen
      decreases das
    {
      seen := daNames;
      ghost var target := old(hOut) + DeclDas(modelPrefix, doName, das, daNames).names;
      for i := 0 to |das|
        invariant DeclDasCuttable(modelPrefix, doName, das[i..], seen)
        invariant hOut + DeclDas(modelPrefix, doName, das[i..], seen).names == target
        invariant DeclDas(modelPrefix, doName, das[i..], seen).seen == DeclDas(modelPrefix, doName, das, daNames).seen
      {
        assert das[i..][1..] == das[i + 1..];
        var daName := doName + "_" + das[i].name;
        if das[i].fc == "SE" {
          if !HasPrefix(daName, modelPrefix + "_SE_") {
            daName := daName[..9] + "SE_" + daName[9..];
          }
        }
        if daName in seen {
          continue;
        }
        ghost var out, before := hOut, seen;
        hOut := hOut + [daName];
        seen := PrintByDA(daName, das[i].subs, seen + {daName});
        ghost var below := DeclDas(modelPrefix, daName, das[i].subs, before + {daName}).names;
        Assoc4(out, [daName], below, DeclDas(modelPrefix, doName, das[i + 1..], seen).names);
      }
    }

    method PrintByDO(prefix: string, dos: seq<DataObject>, doNames: set<string>) returns (seen: set<string>)
      requires DeclDosCuttable(modelPrefix, prefix, dos, doNames)
      modifies this
      ensures var d := DeclDos(modelPrefix, prefix, dos, doNames); hOut == old(hOut) + d.names && seen == d.seen
      decreases dos
    {
      seen := doNames;
      ghost var target := old(hOut) + DeclDos(modelPrefix, prefix, dos, doNames).names;
      for i := 0 to |dos|
        invariant DeclDosCuttable(modelPrefix, prefix, dos[i..], seen)
        invariant hOut + DeclDos(modelPrefix, prefix, dos[i..], seen).names == target
        invariant DeclDos(modelPrefix, prefix, dos[i..], seen).seen == DeclDos(modelPrefix, prefix, dos, doNames).seen
      {
        assert dos[i..][1..] == dos[i + 1..];
        var doName := prefix + "_" + dos[i].name;
        if doName in seen {
          continue;
        }
        ghost var out, before := hOut, seen;
        hOut := hOut + [doName];
        seen := PrintByDO(doName, dos[i].sdos, seen + {doName});
        var _ := PrintByDA(doName, dos[i].das, {});
        ghost var below := DeclDos(modelPrefix, doName, dos[i].sdos, before + {doName}).names;
        ghost var das := DeclDas(modelPrefix, doName, dos[i].das, {}).names;
        Assoc5(out, [doName], below, das, DeclDos(modelPrefix, prefix, dos[i + 1..], seen).names);
      }
    }

    method PrintForwardDeclarations(lds: seq<LogicalDevice>)
      requires Declarable(modelPrefix, lds)
      modifies this
      ensures hOut == old(hOut) + DeclLds(modelPrefix, lds)
    {
      ghost var target := old(hOut) + DeclLds(modelPrefix, lds);
      for i := 0 to |lds|
        invariant hOut + DeclLds(modelPrefix, lds[i..]) == target
      {
        assert lds[i..][1..] == lds[i + 1..] && lds[i] in lds;
        ghost var out := hOut;
        var ldName := modelPrefix + "_" + lds[i].inst;
        hOut := hOut + [ldName];
        PrintLogicalNodes(ldName, lds[i].lns);
        Assoc4(out, [ldName], DeclLns(modelPrefix, ldName, lds[i].lns), DeclLds(modelPrefix, lds[i + 1..]));
      }
    }

    method PrintLogicalNodes(ldName: string, lns: seq<LogicalNode>)
      requires forall ln :: ln in lns ==> DeclDosCuttable(modelPrefix, ldName + "_" + ln.Name(), ln.dos, {})
      modifies this
      ensures hOut == old(hOut) + DeclLns(modelPrefix, ldName, lns)
    {
      ghost var target := old(hOut) + DeclLns(modelPrefix, ldName, lns);
      for i := 0 to |lns|
        invariant hOut + DeclLns(modelPrefix, ldName, lns[i..]) == target
      {
        assert lns[i..][1..] == lns[i + 1..];
        ghost var out := hOut;
        var lnName := ldName + "_" + lns[i].Name();
        hOut := hOut + [lnName];
        var _ := PrintByDO(lnName, lns[i].dos, {});
        Assoc4(out, [lnName], DeclDos(modelPrefix, lnName, lns[i].dos, {}).names,
               DeclLns(modelPrefix, ldName, lns[i + 1..]));
      }
    }
  }

  // ----- agreement with the definitions

  predicate DaArrayFree(da: DataAttribute) {
    da.count <= 0 && forall sub :: sub in da.subs ==> DaArrayFree(sub)
  }

  predicate DasArrayFree(das: seq<DataAttribute>) {
    forall da :: da in das ==> DaArrayFree(da)
  }

  predicate DosArrayFree(dos: seq<DataObject>) {
    forall d :: d in dos ==> DosArrayFree(d.sdos) && DasArrayFree(d.das)
  }

  predicate ArrayFree(lds: seq<LogicalDevice>) {
    forall ld, ln :: ld in lds && ln in ld.lns ==> DosArrayFree(ln.dos)
  }

  function Range<T>(s: seq<T>): set<T> {
    set x | x in s
  }

  lemma {:induction false} DistinctParts<T>(a: seq<T>, b: seq<T>)
    requires Distinct(a + b)
    ensures Distinct(a) && Distinct(b) && Range(a) !! Range(b)
  {
    DistinctJoin(a, b);
  }

  lemma {:induction false} SymbolsAppend(a: seq<Rec>, b: seq<Rec>)
    ensures Symbols(a + b) == Symbols(a) + Symbols(b)
  {
  }

  lemma {:induction false} DeclDasAll(px: string, parent: string, das: seq<DataAttribute>, transient: bool,
                                      seen: set<string>)
    requires DasArrayFree(das)
    requires var s := Symbols(DaRecords(px, parent, das, transient)); Distinct(s) && Range(s) !! seen
    ensures var s := Symbols(DaRecords(px, parent, das, transient));
            DeclDas(px, parent, das, seen) == Decls(s, seen + Range(s))
    decreases das
  {
    if das != [] {
      var da := das[0];
      assert da in das && DaArrayFree(da);
      var name := DaSymbol(px, parent, da);
      var head := [DaHead(px, parent, das, transient)];
      var below := DaRecords(px, name, da.subs, transient);
      var rest := DaRecords(px, parent, das[1..], transient);
      var b, r := Symbols(below), Symbols(rest);
      SymbolsAppend(head, below);
      SymbolsAppend(head + below, rest);
      assert DaBelow(px, name, da, transient) == below;
      assert DaRecords(px, parent, das, transient) == head + below + rest;
      assert Symbols(head) == [name];
      assert Symbols(DaRecords(px, parent, das, transient)) == [name] + b + r;
      DistinctParts([name] + b, r);
      DistinctParts([name], b);
      RangeJoin([name], b);
      RangeJoin([name] + b, r);
      DeclDasAll(px, name, da.subs, transient, seen + {name});
      DeclDasAll(px, parent, das[1..], transient, seen + {name} + Range(b));
    }
  }

  lemma {:induction false} RangeJoin<T>(a: seq<T>, b: seq<T>)
    ensures Range(a + b) == Range(a) + Range(b)
    ensures |a| == 1 ==> Range(a) == {a[0]}
  {
  }

  lemma {:induction false} DeclDosAll(px: string, parent: string, dos: seq<DataObject>, tail: Option<string>,
                                      transient: bool, seen: set<string>)
    requires DosArrayFree(dos)
    requires var s := Symbols(DoRecords(px, parent, dos, tail, transient)); Distinct(s) && Range(s) !! seen
    ensures var s := Symbols(DoRecords(px, parent, dos, tail, transient));
            var d := DeclDos(px, parent, dos, seen);
            d.names == s && d.seen <= seen + Range(s)
    decreases dos
  {
    if dos != [] {
      var d := dos[0];
      var name := parent + "_" + d.name;
      var t, first := transient || d.trans, FirstDa(px, name, d.das);
      var head := [DoHead(px, parent, dos, tail)];
      var below := DoRecords(px, name, d.sdos, first, t);
      var attrs := DaRecords(px, name, d.das, t);
      var rest := DoRecords(px, parent, dos[1..], tail, transient);
      var b, a, r := Symbols(below), Symbols(attrs), Symbols(rest);
      SymbolsAppend(head, below);
      SymbolsAppend(head + below, attrs);
      SymbolsAppend(head + below + attrs, rest);
      assert Symbols(head) == [name];
      assert Symbols(DoRecords(px, parent, dos, tail, transient)) == [name] + b + a + r;
      DistinctParts([name] + b + a, r);
      DistinctParts([name] + b, a);
      DistinctParts([name], b);
      RangeJoin([name], b);
      RangeJoin([name] + b, a);
      RangeJoin([name] + b + a, r);
      DeclDosAll(px, name, d.sdos, first, t, seen + {name});
      DeclDasAll(px, name, d.das, t, {});
      DeclDosAll(px, parent, dos[1..], tail, transient, DeclDos(px, name, d.sdos, seen + {name}).seen);
    }
  }

  lemma {:induction false} DeclLnsAll(px: string, parent: string, lns: seq<LogicalNode>)
    requires forall ln :: ln in lns ==> ln.dos != [] && DosArrayFree(ln.dos)
    requires Distinct(Symbols(LnRecords(px, parent, lns)))
    ensures DeclLns(px, parent, lns) == Symbols(LnRecords(px, parent, lns))
  {
    if lns != [] {
      assert lns[0] in lns;
      var name := parent + "_" + lns[0].Name();
      var head := [LnHead(parent, lns)];
      var dos := DoRecords(px, name, lns[0].dos, None, false);
      var rest := LnRecords(px, parent, lns[1..]);
      SymbolsAppend(head, dos);
      SymbolsAppend(head + dos, rest);
      assert Symbols(head) == [name];
      DistinctParts([name] + Symbols(dos), Symbols(rest));
      DistinctParts([name], Symbols(dos));
      DeclDosAll(px, name, lns[0].dos, None, false, {});
      DeclLnsAll(px, parent, lns[1..]);
    }
  }

  lemma {:induction false} DeclLdsAll(px: string, lds: seq<LogicalDevice>)
    requires Populated(lds) && ArrayFree(lds) && Distinct(Symbols(LdRecords(px, lds)))
    ensures DeclLds(px, lds) == Symbols(LdRecords(px, lds))
  {
    if lds != [] {
      assert lds[0] in lds;
      var name := px + "_" + lds[0].inst;
      var head := [LdHead(px, lds)];
      var lns := LnRecords(px, name, lds[0].lns);
      var rest := LdRecords(px, lds[1..]);
      SymbolsAppend(head, lns);
      SymbolsAppend(head + lns, rest);
      assert Symbols(head) == [name];
      DistinctParts([name] + Symbols(lns), Symbols(rest));
      DistinctParts([name], Symbols(lns));
      DeclLnsAll(px, name, lds[0].lns);
      DeclLdsAll(px, lds[1..]);
    }
  }

  // ----- an array attribute has definitions that are not declared

  lemma {:induction false} FewerDas(px: string, p: string, q: string, das: seq<DataAttribute>, transient: bool,
                                    seen: set<string>)
    ensures |DeclDas(px, p, das, seen).names| <= |DaRecords(px, q, das, transient)|
    ensures !DasArrayFree(das) ==> |DeclDas(px, p, das, seen).names| < |DaRecords(px, q, das, transient)|
    decreases das, 0
  {
    if das != [] {
      var da, name := das[0], DaSymbol(px, p, das[0]);
      assert !DasArrayFree(das) ==> !DaArrayFree(da) || !DasArrayFree(das[1..]);
      if name in seen {
        FewerDas(px, p, q, das[1..], transient, seen);
      } else {
        FewerBelow(px, name, DaSymbol(px, q, da), da, transient, seen + {name});
        FewerDas(px, p, q, das[1..], transient, DeclDas(px, name, da.subs, seen + {name}).seen);
      }
    }
  }

  lemma {:induction false} FewerBelow(px: string, p: string, q: string, da: DataAttribute, transient: bool,
                                      seen: set<string>)
    ensures |DeclDas(px, p, da.subs, seen).names| <= |DaBelow(px, q, da, transient)|
    ensures !DaArrayFree(da) ==> |DeclDas(px, p, da.subs, seen).names| < |DaBelow(px, q, da, transient)|
    decreases da, 1
  {
    if da.count > 0 {
      FewerDas(px, p, q + "_" + Itoa(0), da.subs, transient, seen);
      assert |ElementRecords(px, q, da, transient, 0)| >= |ElementChunk(px, q, da, transient, 0)|;
    } else {
      FewerDas(px, p, q, da.subs, transient, seen);
    }
  }

  lemma {:induction false} FewerDos(px: string, parent: string, dos: seq<DataObject>, tail: Option<string>,
                                    transient: bool, seen: set<string>)
    ensures |DeclDos(px, parent, dos, seen).names| <= |DoRecords(px, parent, dos, tail, transient)|
    ensures !DosArrayFree(dos) ==>
              |DeclDos(px, parent, dos, seen).names| < |DoRecords(px, parent, dos, tail, transient)|
    decreases dos
  {
    if dos != [] {
      var d, name := dos[0], parent + "_" + dos[0].name;
      var t, first := transient || d.trans, FirstDa(px, name, d.das);
      assert !DosArrayFree(dos) ==> !DosArrayFree(d.sdos) || !DasArrayFree(d.das) || !DosArrayFree(dos[1..]);
      if name in seen {
        FewerDos(px, parent, dos[1..], tail, transient, seen);
      } else {
        FewerDos(px, name, d.sdos, first, t, seen + {name});
        FewerDas(px, name, name, d.das, t, {});
        FewerDos(px, parent, dos[1..], tail, transient, DeclDos(px, name, d.sdos, seen + {name}).seen);
      }
    }
  }

  predicate LnsArrayFree(lns: seq<LogicalNode>) {
    forall ln :: ln in lns ==> DosArrayFree(ln.dos)
  }

  lemma {:induction false} FewerLns(px: string, parent: string, lns: seq<LogicalNode>)
    requires forall ln :: ln in lns ==> ln.dos != []
    ensures |DeclLns(px, parent, lns)| <= |LnRecords(px, parent, lns)|
    ensures !LnsArrayFree(lns) ==> |DeclLns(px, parent, lns)| < |LnRecords(px, parent, lns)|
  {
    if lns != [] {
      assert !LnsArrayFree(lns) ==> !DosArrayFree(lns[0].dos) || !LnsArrayFree(lns[1..]);
      FewerDos(px, parent + "_" + lns[0].Name(), lns[0].dos, None, false, {});
      FewerLns(px, parent, lns[1..]);
    }
  }

  lemma {:induction false} FewerLds(px: string, lds: seq<LogicalDevice>)
    requires Populated(lds)
    ensures |DeclLds(px, lds)| <= |LdRecords(px, lds)|
    ensures !ArrayFree(lds) ==> |DeclLds(px, lds)| < |LdRecords(px, lds)|
  {
    if lds != [] {
      assert lds[0] in lds;
      assert !ArrayFree(lds) ==> !LnsArrayFree(lds[0].lns) || !ArrayFree(lds[1..]);
      FewerLns(px, px + "_" + lds[0].inst, lds[0].lns);
      FewerLds(px, lds[1..]);
    }
  }

  /** Declarations and definitions are the same list of names, in the same order, exactly for the
      models without array attributes; de-duplication then drops nothing. */
  lemma {:induction false} DeclaredIsDefined(px: string, lds: seq<LogicalDevice>)
    requires FitsCut(px) && Populated(lds) && WellNamed(lds)
    ensures DeclLds(px, lds) == Symbols(LdRecords(px, lds)) <==> ArrayFree(lds)
  {
    TableFaithful(px, lds);
    if ArrayFree(lds) {
      DeclLdsAll(px, lds);
    } else {
      FewerLds(px, lds);
    }
  }

  // ----- what is declared if there are arrays

  function FlatDas(das: seq<DataAttribute>): (r: seq<DataAttribute>)
    ensures |r| == |das|
    ensures forall i :: 0 <= i < |das| ==> r[i] == das[i].(count := 0, subs := FlatDas(das[i].subs))
    decreases das
  {
    if das == [] then [] else [das[0].(count := 0, subs := FlatDas(das[0].subs))] + FlatDas(das[1..])
  }

  function FlatDos(dos: seq<DataObject>): (r: seq<DataObject>)
    ensures |r| == |dos|
    ensures forall i :: 0 <= i < |dos| ==>
              r[i] == dos[i].(sdos := FlatDos(dos[i].sdos), das := FlatDas(dos[i].das))
    decreases dos
  {
    if dos == [] then []
    else [dos[0].(sdos := FlatDos(dos[0].sdos), das := FlatDas(dos[0].das))] + FlatDos(dos[1..])
  }

  function FlatLns(lns: seq<LogicalNode>): (r: seq<LogicalNode>)
    ensures |r| == |lns| && forall i :: 0 <= i < |lns| ==> r[i] == lns[i].(dos := FlatDos(lns[i].dos))
  {
    if lns == [] then [] else [lns[0].(dos := FlatDos(lns[0].dos))] + FlatLns(lns[1..])
  }

  /** The model with every array attribute made a single one. */
  function Flat(lds: seq<LogicalDevice>): (r: seq<LogicalDevice>)
    ensures |r| == |lds| && forall i :: 0 <= i < |lds| ==> r[i] == lds[i].(lns := FlatLns(lds[i].lns))
  {
    if lds == [] then [] else [lds[0].(lns := FlatLns(lds[0].lns))] + Flat(lds[1..])
  }

  lemma {:induction false} FlatDasClean(das: seq<DataAttribute>)
    ensures DasArrayFree(FlatDas(das))
    ensures (forall da :: da in das ==> CleanDa(da, PLAIN)) ==> forall da :: da in FlatDas(das) ==> CleanDa(da, PLAIN)
    ensures (forall da :: da in das ==> Uniform(da)) ==> forall da :: da in FlatDas(das) ==> Uniform(da)
    decreases das
  {
    var r := FlatDas(das);
    forall i | 0 <= i < |r|
      ensures DaArrayFree(r[i]) && (CleanDa(das[i], PLAIN) ==> CleanDa(r[i], PLAIN))
              && (Uniform(das[i]) ==> Uniform(r[i]))
    {
      FlatDasClean(das[i].subs);
      FlatUniform(das[i]);
    }
  }

  lemma {:induction false} FlatUniform(da: DataAttribute)
    requires Uniform(da) ==> forall sub :: sub in FlatDas(da.subs) ==> Uniform(sub)
    ensures Uniform(da) ==> Uniform(da.(count := 0, subs := FlatDas(da.subs)))
  {
    forall sub | Uniform(da) && sub in FlatDas(da.subs) ensures (sub.fc == "SE") == (da.fc == "SE") {
      var i :| 0 <= i < |da.subs| && FlatDas(da.subs)[i] == sub;
      assert da.subs[i] in da.subs;
    }
  }

  lemma {:induction false} FlatDosClean(dos: seq<DataObject>)
    ensures DosArrayFree(FlatDos(dos))
    ensures CleanDos(dos, PLAIN) ==> CleanDos(FlatDos(dos), PLAIN)
    decreases dos
  {
    var r := FlatDos(dos);
    forall i | 0 <= i < |r|
      ensures DosArrayFree(r[i].sdos) && DasArrayFree(r[i].das) && r[i].name == dos[i].name
      ensures CleanDos(dos, PLAIN) ==> FlatObjectClean(r[i])
    {
      FlatDosClean(dos[i].sdos);
      FlatDasClean(dos[i].das);
      if CleanDos(dos, PLAIN) {
        assert dos[i] in dos;
        FlatObject(dos[i]);
      }
    }
    if CleanDos(dos, PLAIN) {
      forall d | d in r ensures FlatObjectClean(d) {
        var i :| 0 <= i < |r| && r[i] == d;
      }
    }
  }

  ghost predicate FlatObjectClean(d: DataObject) {
    Over(d.name, PLAIN) && CleanDos(d.sdos, PLAIN) && CleanDas(d.das, PLAIN) && KidsApart(d)
  }

  lemma {:induction false} FlatApart(das: seq<DataAttribute>)
    requires AllDasApart(das)
    ensures AllDasApart(FlatDas(das))
  {
    var r := FlatDas(das);
    forall i, j | 0 <= i < j < |r| ensures DasApart(r[i], r[j]) {
      assert DasApart(das[i], das[j]);
    }
  }

  lemma {:induction false} FlatKids(d: DataObject)
    requires KidsApart(d)
    ensures KidsApart(d.(sdos := FlatDos(d.sdos), das := FlatDas(d.das)))
  {
    var sdos, das := FlatDos(d.sdos), FlatDas(d.das);
    forall s, da | s in sdos && da in das ensures s.name != da.name {
      var o := FlatDoFrom(d.sdos, s);
      var a := FlatDaFrom(d.das, da);
    }
  }

  lemma {:induction false} FlatDoFrom(dos: seq<DataObject>, s: DataObject) returns (o: DataObject)
    requires s in FlatDos(dos)
    ensures o in dos && o.name == s.name
  {
    var i :| 0 <= i < |dos| && FlatDos(dos)[i] == s;
    o := dos[i];
  }

  lemma {:induction false} FlatDaFrom(das: seq<DataAttribute>, da: DataAttribute) returns (a: DataAttribute)
    requires da in FlatDas(das)
    ensures a in das && a.name == da.name
  {
    var i :| 0 <= i < |das| && FlatDas(das)[i] == da;
    a := das[i];
  }

  lemma {:induction false} FlatObject(d: DataObject)
    requires FlatObjectClean(d) && CleanDos(FlatDos(d.sdos), PLAIN)
    ensures FlatObjectClean(d.(sdos := FlatDos(d.sdos), das := FlatDas(d.das)))
  {
    FlatDasClean(d.das);
    FlatApart(d.das);
    FlatKids(d);
    assert CleanDas(FlatDas(d.das), PLAIN);
  }

  lemma {:induction false} FlatLnsClean(lns: seq<LogicalNode>)
    requires CleanLns(lns, PLAIN)
    ensures CleanLns(FlatLns(lns), PLAIN)
  {
    var r := FlatLns(lns);
    forall i | 0 <= i < |r| ensures r[i].Name() == lns[i].Name() && CleanDos(r[i].dos, PLAIN) && lns[i] in lns {
      FlatDosClean(lns[i].dos);
    }
  }

  lemma {:induction false} FlatNamed(lds: seq<LogicalDevice>)
    requires WellNamed(lds)
    ensures WellNamed(Flat(lds))
  {
    var r := Flat(lds);
    forall i | 0 <= i < |r| ensures CleanLns(r[i].lns, PLAIN) && lds[i] in lds {
      FlatLnsClean(lds[i].lns);
    }
  }

  lemma {:induction false} FlatNodes(lns: seq<LogicalNode>)
    requires forall ln :: ln in lns ==> ln.dos != []
    ensures forall ln :: ln in FlatLns(lns) ==> ln.dos != [] && DosArrayFree(ln.dos)
  {
    var r := FlatLns(lns);
    forall i | 0 <= i < |r| ensures r[i].dos != [] && DosArrayFree(r[i].dos) {
      assert lns[i] in lns;
      FlatDosClean(lns[i].dos);
    }
  }

  lemma {:induction false} FlatPopulated(lds: seq<LogicalDevice>)
    requires Populated(lds)
    ensures Populated(Flat(lds)) && ArrayFree(Flat(lds))
  {
    var r := Flat(lds);
    forall i | 0 <= i < |r|
      ensures r[i].lns != [] && forall ln :: ln in r[i].lns ==> ln.dos != [] && DosArrayFree(ln.dos)
    {
      assert lds[i] in lds;
      FlatNodes(lds[i].lns);
    }
  }

  lemma {:induction false} FlatDeclDas(px: string, parent: string, das: seq<DataAttribute>, seen: set<string>)
    ensures DeclDas(px, parent, FlatDas(das), seen) == DeclDas(px, parent, das, seen)
    decreases das
  {
    if das != [] {
      var name := DaSymbol(px, parent, das[0]);
      assert FlatDas(das)[1..] == FlatDas(das[1..]);
      assert DaSymbol(px, parent, FlatDas(das)[0]) == name;
      FlatDeclDas(px, parent, das[1..], seen);
      FlatDeclDas(px, name, das[0].subs, seen + {name});
      FlatDeclDas(px, parent, das[1..], DeclDas(px, name, das[0].subs, seen + {name}).seen);
    }
  }

  lemma {:induction false} FlatDeclDos(px: string, parent: string, dos: seq<DataObject>, seen: set<string>)
    ensures DeclDos(px, parent, FlatDos(dos), seen) == DeclDos(px, parent, dos, seen)
    decreases dos
  {
    if dos != [] {
      var name := parent + "_" + dos[0].name;
      assert FlatDos(dos)[1..] == FlatDos(dos[1..]);
      FlatDeclDos(px, parent, dos[1..], seen);
      FlatDeclDos(px, name, dos[0].sdos, seen + {name});
      FlatDeclDas(px, name, dos[0].das, {});
      FlatDeclDos(px, parent, dos[1..], DeclDos(px, name, dos[0].sdos, seen + {name}).seen);
    }
  }

  lemma {:induction false} FlatDeclLns(px: string, parent: string, lns: seq<LogicalNode>)
    ensures DeclLns(px, parent, FlatLns(lns)) == DeclLns(px, parent, lns)
  {
    if lns != [] {
      assert FlatLns(lns)[1..] == FlatLns(lns[1..]) && FlatLns(lns)[0].Name() == lns[0].Name();
      FlatDeclDos(px, parent + "_" + lns[0].Name(), lns[0].dos, {});
      FlatDeclLns(px, parent, lns[1..]);
    }
  }

  lemma {:induction false} FlatDeclLds(px: string, lds: seq<LogicalDevice>)
    ensures DeclLds(px, Flat(lds)) == DeclLds(px, lds)
  {
    if lds != [] {
      assert Flat(lds)[1..] == Flat(lds[1..]);
      FlatDeclLns(px, px + "_" + lds[0].inst, lds[0].lns);
      FlatDeclLds(px, lds[1..]);
    }
  }

  /** Whatever arrays a model has, declared is exactly what would be defined if it had none. */
  lemma {:induction false} DeclaredAsFlat(px: string, lds: seq<LogicalDevice>)
    requires FitsCut(px) && Populated(lds) && WellNamed(lds)
    ensures Populated(Flat(lds)) && DeclLds(px, lds) == Symbols(LdRecords(px, Flat(lds)))
  {
    FlatNamed(lds);
    FlatPopulated(lds);
    FlatDeclLds(px, lds);
    DeclaredIsDefined(px, Flat(lds));
  }

  // ----- a model with an array attribute

  /** One array attribute with one element, and one sub-attribute below it. */
  function ArrayModel(): seq<LogicalDevice> {
    [LogicalDevice("LD0", [OneLn([DataObject("D", 0, false, [], [ArrayAttribute()])])])]
  }

  function ArrayAttribute(): DataAttribute {
    DataAttribute("A", "ST", Constructed, 1, Trigger(false, false, false), None, "", 0, [SubAttribute()])
  }

  function SubAttribute(): DataAttribute {
    DataAttribute("B", "ST", Basic(0), 0, Trigger(false, false, false), None, "", 1, [])
  }

  /** Its element is defined and never declared, and the sub-attribute is declared outside of the element,
      where it is never defined. */
  lemma {:induction false} ArrayElementUndeclared(px: string)
    ensures WellNamed(ArrayModel()) && Populated(ArrayModel()) && !ArrayFree(ArrayModel())
    ensures var name := px + "_" + "LD0" + "_" + "LLN0" + "_" + "D" + "_" + "A";
            var declared, defined := DeclLds(px, ArrayModel()), Symbols(LdRecords(px, ArrayModel()));
            && name + "_" + "0" in defined && name + "_" + "0" !in declared
            && name + "_" + "B" in declared && name + "_" + "B" !in defined
  {
    ArrayModelNamed();
    ArrayDecls(px);
    ArraySymbols(px);
    var ln := px + "_" + "LD0" + "_" + "LLN0";
    ElementAndSub(px + "_" + "LD0", ln, ln + "_" + "D", ln + "_" + "D" + "_" + "A",
                  DeclLds(px, ArrayModel()), Symbols(LdRecords(px, ArrayModel())));
  }

  lemma {:induction false} ElementAndSub(ld: string, ln: string, o: string, name: string,
                                         declared: seq<string>, defined: seq<string>)
    requires |ld| < |name| && |ln| < |name| && |o| < |name|
    requires declared == [ld, ln, o, name, name + "_" + "B"]
    requires defined == [ld, ln, o, name, name + "_" + "0", name + "_" + "0" + "_" + "B"]
    ensures name + "_" + "0" in defined && name + "_" + "0" !in declared
    ensures name + "_" + "B" in declared && name + "_" + "B" !in defined
  {
    assert declared[4] == name + "_" + "B" && defined[4] == name + "_" + "0";
    assert (name + "_" + "B")[|name| + 1] == 'B' && (name + "_" + "0")[|name| + 1] == '0';
  }

  lemma {:induction false} ArraySymbols(px: string)
    ensures var ln := px + "_" + "LD0" + "_" + "LLN0";
            var name := ln + "_" + "D" + "_" + "A";
            && Populated(ArrayModel())
            && Symbols(LdRecords(px, ArrayModel()))
               == [px + "_" + "LD0", ln, ln + "_" + "D", name, name + "_" + "0", name + "_" + "0" + "_" + "B"]
  {
    var ln := px + "_" + "LD0" + "_" + "LLN0";
    OneLnRecords(px, "LD0", ArrayModel()[0].lns[0].dos);
    ArrayRecords(px, ln);
    var heads := [LdHead(px, ArrayModel()), LnHead(px + "_" + "LD0", ArrayModel()[0].lns)];
    assert ArrayModel()[0].lns[0].Name() == "LLN0";
    assert Symbols(heads) == [px + "_" + "LD0", ln];
    SymbolsAppend(heads, DoRecords(px, ln, ArrayModel()[0].lns[0].dos, None, false));
  }

  lemma {:induction false} ArrayModelNamed()
    ensures WellNamed(ArrayModel()) && Populated(ArrayModel()) && !ArrayFree(ArrayModel())
  {
    var a, b := ArrayAttribute(), SubAttribute();
    var d := DataObject("D", 0, false, [], [a]);
    assert Over("A", PLAIN) && Over("B", PLAIN) && Over("D", PLAIN) && Over("LD0", PLAIN) && "LD0" != "SE" by {
      assert |"LD0"| == 3;
    }
    assert CleanDa(b, PLAIN) && Uniform(b);
    assert CleanDa(a, PLAIN) && Uniform(a) && CleanDas([a], PLAIN) && CleanDos([], PLAIN);
    assert CleanDos([d], PLAIN);
    OneNamed("LD0", [d]);
    assert a in d.das && d in ArrayModel()[0].lns[0].dos && !DaArrayFree(a);
  }

  lemma {:induction false} ElementRecord(px: string, name: string)
    ensures var below := DaBelow(px, name, ArrayAttribute(), false);
            && |below| == 2 && below[0] == ElementHead(name, ArrayAttribute(), false, 0)
            && below[1].symbol == name + "_" + "0" + "_" + "B"
  {
    var a, b := ArrayAttribute(), SubAttribute();
    var element := name + "_" + Itoa(0);
    assert Itoa(0) == "0";
    assert ElementRecords(px, name, a, false, 1) == [] && DaRecords(px, element + "_" + "B", [], false) == [];
    assert [b][1..] == [] && DaRecords(px, element, [], false) == [];
    assert DaSymbol(px, element, b) == element + "_" + "B" && DaBelow(px, element + "_" + "B", b, false) == [];
    assert DaRecords(px, element, [b], false) == DaChunk(px, element, [b], false) == [DaHead(px, element, [b], false)];
    assert ElementChunk(px, name, a, false, 0)
        == [ElementHead(name, a, false, 0)] + [DaHead(px, element, [b], false)];
  }

  lemma {:induction false} ArrayRecords(px: string, parent: string)
    ensures var recs := DoRecords(px, parent, [DataObject("D", 0, false, [], [ArrayAttribute()])], None, false);
            var name := parent + "_" + "D" + "_" + "A";
            Symbols(recs) == [parent + "_" + "D", name, name + "_" + "0", name + "_" + "0" + "_" + "B"]
  {
    var a := ArrayAttribute();
    var dos := [DataObject("D", 0, false, [], [a])];
    var symbol := parent + "_" + "D";
    var name := symbol + "_" + "A";
    assert DaSymbol(px, symbol, a) == name && Itoa(0) == "0";
    ElementRecord(px, name);
    var below := DaBelow(px, name, a, false);
    assert [a][1..] == [] && DaRecords(px, symbol, [], false) == [];
    assert DaRecords(px, symbol, [a], false) == DaChunk(px, symbol, [a], false)
        == [DaHead(px, symbol, [a], false)] + below;
    OneDoRecords(px, parent, "D", [a]);
  }

  lemma {:induction false} ArrayDecls(px: string)
    ensures var ln := px + "_" + "LD0" + "_" + "LLN0";
            var name := ln + "_" + "D" + "_" + "A";
            DeclLds(px, ArrayModel()) == [px + "_" + "LD0", ln, ln + "_" + "D", name, name + "_" + "B"]
  {
    var a, b := ArrayAttribute(), SubAttribute();
    var dos := [DataObject("D", 0, false, [], [a])];
    var ld := px + "_" + "LD0";
    var ln := ld + "_" + "LLN0";
    var symbol := ln + "_" + "D";
    var name := symbol + "_" + "A";
    assert OneLn(dos).Name() == "LLN0";
    assert DaSymbol(px, symbol, a) == name && DaSymbol(px, name, b) == name + "_" + "B";
    assert name + "_" + "B" != name;
    assert [b][1..] == [] && DeclDas(px, name, [b], {name}).names == [name + "_" + "B"];
    assert [a][1..] == [] && DeclDas(px, symbol, [a], {}).names == [name, name + "_" + "B"];
    assert dos[1..] == [] && DeclDos(px, ln, dos, {}).names == [symbol, name, name + "_" + "B"];
    assert [OneLn(dos)][1..] == [] && DeclLns(px, ld, [OneLn(dos)]) == [ln, symbol, name, name + "_" + "B"];
    assert ArrayModel()[1..] == [] && DeclLds(px, []) == [];
    assert DeclLds(px, ArrayModel()) == [ld] + DeclLns(px, ld, [OneLn(dos)]) + DeclLds(px, ArrayModel()[1..]);
  }
}
