/** The code generator's passes over logical devices, logical nodes, data objects and data
    attributes: one that prints extern declarations, one that prints definitions and collects the
    list of variables and the initial values. */
module Generator {
  import opened Text
  import opened Instances
  import opened Templates
  import opened PointerGraph
  import opened ModelRecords

  // ----- initial values

  datatype Initializer = Initializer(symbol: string, attrType: AttributeType, value: Scalar)

  /** The value an attribute starts with: its own, or else the default of its definition. */
  function InitialValue(decls: seq<TypeDecl>, defs: Defaults, da: DataAttribute): Option<Scalar>
    requires AllResolvable(decls, defs)
  {
    if da.value.Some? then da.value
    else if da.slot in defs then Some(Resolve(decls, defs[da.slot]).value)
    else None
  }

  /** The value each attribute starts with. */
  type Values = DataAttribute -> Option<Scalar>

  function ValuesOf(decls: seq<TypeDecl>, defs: Defaults): Values {
    da => if AllResolvable(decls, defs) then InitialValue(decls, defs, da) else None
  }

  function OwnInit(vals: Values, symbol: string, da: DataAttribute): seq<Initializer>
  {
    var v := vals(da);
    if v.None? then [] else [Initializer(symbol, da.attrType, v.value)]
  }

  /** Initial values are set bottom-up: those of the sub attributes (once per array element), then
      the attribute's own. */
  function DaInits(vals: Values, px: string, parent: string, das: seq<DataAttribute>): seq<Initializer>
    decreases das, 0
  {
    if das == [] then []
    else DaInitChunk(vals, px, parent, das[0]) + DaInits(vals, px, parent, das[1..])
  }

  function DaInitChunk(vals: Values, px: string, parent: string, da: DataAttribute): seq<Initializer>
    decreases da, 2
  {
    var symbol := DaSymbol(px, parent, da);
    BelowInits(vals, px, symbol, da) + OwnInit(vals, symbol, da)
  }

  function BelowInits(vals: Values, px: string, symbol: string, da: DataAttribute): seq<Initializer>
    decreases da, 1
  {
    if da.count > 0 then ElementInits(vals, px, symbol, da, 0)
    else DaInits(vals, px, symbol, da.subs)
  }

  function ElementInits(vals: Values, px: string, symbol: string, da: DataAttribute, index: nat): seq<Initializer>
    requires index <= da.count
    decreases da, 0, da.count - index
  {
    if index == da.count then []
    else
      DaInits(vals, px, symbol + "_" + Itoa(index), da.subs)
      + ElementInits(vals, px, symbol, da, index + 1)
  }

  function DoInits(vals: Values, px: string, parent: string, dos: seq<DataObject>): seq<Initializer>
    decreases dos, 1
  {
    if dos == [] then []
    else DoInitChunk(vals, px, parent, dos[0]) + DoInits(vals, px, parent, dos[1..])
  }

  function DoInitChunk(vals: Values, px: string, parent: string, d: DataObject): seq<Initializer>
    decreases d, 0
  {
    var symbol := parent + "_" + d.name;
    DoInits(vals, px, symbol, d.sdos) + DaInits(vals, px, symbol, d.das)
  }

  function LnInits(vals: Values, px: string, parent: string, lns: seq<LogicalNode>): seq<Initializer>
  {
    if lns == [] then []
    else DoInits(vals, px, parent + "_" + lns[0].Name(), lns[0].dos) + LnInits(vals, px, parent, lns[1..])
  }

  function LdInits(vals: Values, px: string, lds: seq<LogicalDevice>): seq<Initializer>
  {
    if lds == [] then []
    else
      LnInits(vals, px, px + "_" + lds[0].inst, lds[0].lns) + LdInits(vals, px, lds[1..])
  }

  class StaticModelGenerator {
    const modelPrefix: string
    const decls: seq<TypeDecl>
    const original: Defaults
    var defaults: Defaults
    var cOut: seq<Rec>
    var variablesList: seq<string>
    var initializers: seq<Initializer>

    constructor (modelPrefix: string, decls: seq<TypeDecl>, defaults: Defaults)
      requires AllResolvable(decls, defaults)
      ensures this.modelPrefix == modelPrefix && this.decls == decls && original == defaults == this.defaults
      ensures cOut == [] && variablesList == [] && initializers == [] && Valid()
    {
      this.modelPrefix, this.decls, this.original, this.defaults := modelPrefix, decls, defaults, defaults;
      cOut, variablesList, initializers := [], [], [];
    }

    /** The list of variables names the printed records in order; of the shared defaults some may
        have been resolved. */
    ghost predicate Valid()
      reads this
    {
      && variablesList == Symbols(cOut)
      && AllResolvable(decls, original)
      && Evolved(decls, original, defaults)
    }

    ghost function Vals(): Values {
      ValuesOf(decls, original)
    }

    ghost predicate BelowCuttable(daName: string, da: DataAttribute) {
      if da.count > 0
      then forall k: nat :: k < da.count ==> DasCuttable(modelPrefix, daName + "_" + Itoa(k), da.subs)
      else DasCuttable(modelPrefix, daName, da.subs)
    }

    ghost predicate LnPrintable(ldName: string, ln: LogicalNode) {
      ln.dos != [] && DosCuttable(modelPrefix, ldName + "_" + ln.Name(), ln.dos)
    }

    /** The name as it lies in the edit copy, for an SE attribute, and as it is for others. */
    method Rewritten(name: string, fc: string) returns (r: string)
      requires Cuttable(modelPrefix, name, fc)
      ensures r == SeFix(modelPrefix, name, fc)
    {
      r := name;
      if fc == "SE" {
        if !HasPrefix(name, modelPrefix + "_SE_") {
          r := name[..9] + "SE_" + name[9..];
        }
      }
    }

    method Print(r: Rec)
      requires Valid()
      modifies this`cOut, this`variablesList
      ensures Valid()
      ensures cOut == old(cOut) + [r]
    {
      variablesList := variablesList + [r.symbol];
      cOut := cOut + [r];
    }

    method PrintValue(symbol: string, da: DataAttribute)
      requires Valid()
      modifies this`initializers, this`defaults
      ensures Valid()
      ensures initializers == old(initializers) + OwnInit(Vals(), symbol, da)
    {
      var value := da.value;
      if value.None? && da.slot in defaults {
        ResolveOnce(decls, original, defaults, da.slot);
        if defaults[da.slot].value == Unset {
          defaults := defaults[da.slot := Resolve(decls, defaults[da.slot])];
        }
        value := Some(defaults[da.slot].value);
      }
      if value.Some? {
        initializers := initializers + [Initializer(symbol, da.attrType, value.value)];
      }
    }

    method PrintDataAttributeDefinitions(doName: string, das: seq<DataAttribute>, isTransient: bool)
      requires Valid() && DasCuttable(modelPrefix, doName, das)
      modifies this`cOut, this`variablesList, this`initializers, this`defaults
      ensures Valid()
      ensures cOut == old(cOut) + DaRecords(modelPrefix, doName, das, isTransient)
      ensures initializers == old(initializers) + DaInits(Vals(), modelPrefix, doName, das)
      decreases das, 0
    {
      ghost var records := old(cOut) + DaRecords(modelPrefix, doName, das, isTransient);
      ghost var inits := old(initializers) + DaInits(Vals(), modelPrefix, doName, das);
      for i := 0 to |das|
        invariant Valid()
        invariant cOut + DaRecords(modelPrefix, doName, das[i..], isTransient) == records
        invariant initializers + DaInits(Vals(), modelPrefix, doName, das[i..]) == inits
      {
        ghost var out, values := cOut, initializers;
        assert das[i..][1..] == das[i + 1..];
        PrintAttribute(doName, das, i, isTransient);
        Advance(out, DaChunk(modelPrefix, doName, das[i..], isTransient),
                DaRecords(modelPrefix, doName, das[i + 1..], isTransient), records);
        Advance(values, DaInitChunk(Vals(), modelPrefix, doName, das[i]),
                DaInits(Vals(), modelPrefix, doName, das[i + 1..]), inits);
      }
    }

    method PrintAttribute(doName: string, das: seq<DataAttribute>, i: nat, isTransient: bool)
      requires Valid() && DasCuttable(modelPrefix, doName, das) && i < |das|
      modifies this`cOut, this`variablesList, this`initializers, this`defaults
      ensures Valid()
      ensures cOut == old(cOut) + DaChunk(modelPrefix, doName, das[i..], isTransient)
      ensures initializers == old(initializers) + DaInitChunk(Vals(), modelPrefix, doName, das[i])
      decreases das[i], 2
    {
      var da := das[i];
      assert DaCuttable(modelPrefix, doName, da);
      var daName := Rewritten(doName + "_" + da.name, da.fc);
      var sibling: Option<string> := None;
      if i < |das| - 1 {
        var siblingDoName := Rewritten(doName, das[i + 1].fc);
        sibling := Some(siblingDoName + "_" + das[i + 1].name);
      }
      var firstChild := if da.count > 0 then Some(daName + "_0")
                        else if |da.subs| > 0 then Some(daName + "_" + da.subs[0].name) else None;
      var head := Rec(daName, DaData(da, isTransient), doName, sibling, firstChild);
      assert head == DaHead(modelPrefix, doName, das[i..], isTransient);
      Print(head);
      PrintBelow(daName, da, isTransient);
      PrintValue(daName, da);
      Assoc(old(cOut), [head], DaBelow(modelPrefix, daName, da, isTransient));
      Assoc(old(initializers), BelowInits(Vals(), modelPrefix, daName, da), OwnInit(Vals(), daName, da));
    }

    method PrintBelow(daName: string, da: DataAttribute, isTransient: bool)
      requires Valid() && BelowCuttable(daName, da)
      modifies this`cOut, this`variablesList, this`initializers, this`defaults
      ensures Valid()
      ensures cOut == old(cOut) + DaBelow(modelPrefix, daName, da, isTransient)
      ensures initializers == old(initializers) + BelowInits(Vals(), modelPrefix, daName, da)
      decreases da, 1
    {
      if da.count > 0 {
        ghost var records := old(cOut) + ElementRecords(modelPrefix, daName, da, isTransient, 0);
        ghost var inits := old(initializers) + ElementInits(Vals(), modelPrefix, daName, da, 0);
        for idx := 0 to da.count
          invariant Valid()
          invariant cOut + ElementRecords(modelPrefix, daName, da, isTransient, idx) == records
          invariant initializers + ElementInits(Vals(), modelPrefix, daName, da, idx) == inits
        {
          ghost var out, values := cOut, initializers;
          PrintElement(daName, da, idx, isTransient);
          Advance(out, ElementChunk(modelPrefix, daName, da, isTransient, idx),
                  ElementRecords(modelPrefix, daName, da, isTransient, idx + 1), records);
          Advance(values, DaInits(Vals(), modelPrefix, daName + "_" + Itoa(idx), da.subs),
                  ElementInits(Vals(), modelPrefix, daName, da, idx + 1), inits);
        }
      } else {
        PrintDataAttributeDefinitions(daName, da.subs, isTransient);
      }
    }

    method PrintElement(daName: string, da: DataAttribute, idx: nat, isTransient: bool)
      requires Valid() && DasCuttable(modelPrefix, daName + "_" + Itoa(idx), da.subs) && idx < da.count
      modifies this`cOut, this`variablesList, this`initializers, this`defaults
      ensures Valid()
      ensures cOut == old(cOut) + ElementChunk(modelPrefix, daName, da, isTransient, idx)
      ensures initializers == old(initializers)
                + DaInits(Vals(), modelPrefix, daName + "_" + Itoa(idx), da.subs)
      decreases da, 0
    {
      var element := daName + "_" + Itoa(idx);
      var sibling := if idx != da.count - 1 then Some(daName + "_" + Itoa(idx + 1)) else None;
      var firstChild := if |da.subs| > 0 then Some(element + "_" + da.subs[0].name) else None;
      Print(Rec(element, ElementData(da, idx, isTransient), daName, sibling, firstChild));
      PrintDataAttributeDefinitions(element, da.subs, isTransient);
    }

    method PrintDataObjectDefinitions(lnName: string, dos: seq<DataObject>, dataAttributeSibling: Option<string>,
                                      isTransient: bool)
      requires Valid() && DosCuttable(modelPrefix, lnName, dos)
      modifies this`cOut, this`variablesList, this`initializers, this`defaults
      ensures Valid()
      ensures cOut == old(cOut) + DoRecords(modelPrefix, lnName, dos, dataAttributeSibling, isTransient)
      ensures initializers == old(initializers) + DoInits(Vals(), modelPrefix, lnName, dos)
      decreases dos, 1
    {
      ghost var records := old(cOut) + DoRecords(modelPrefix, lnName, dos, dataAttributeSibling, isTransient);
      ghost var inits := old(initializers) + DoInits(Vals(), modelPrefix, lnName, dos);
      for i := 0 to |dos|
        invariant Valid()
        invariant cOut + DoRecords(modelPrefix, lnName, dos[i..], dataAttributeSibling, isTransient) == records
        invariant initializers + DoInits(Vals(), modelPrefix, lnName, dos[i..]) == inits
      {
        ghost var out, values := cOut, initializers;
        assert dos[i..][1..] == dos[i + 1..];
        PrintDataObject(lnName, dos, i, dataAttributeSibling, isTransient);
        Advance(out, DoChunk(modelPrefix, lnName, dos[i..], dataAttributeSibling, isTransient),
                DoRecords(modelPrefix, lnName, dos[i + 1..], dataAttributeSibling, isTransient), records);
        Advance(values, DoInitChunk(Vals(), modelPrefix, lnName, dos[i]),
                DoInits(Vals(), modelPrefix, lnName, dos[i + 1..]), inits);
      }
    }

    method PrintDataObject(lnName: string, dos: seq<DataObject>, i: nat, dataAttributeSibling: Option<string>,
                           isTransient: bool)
      requires Valid() && DosCuttable(modelPrefix, lnName, dos) && i < |dos|
      modifies this`cOut, this`variablesList, this`initializers, this`defaults
      ensures Valid()
      ensures cOut == old(cOut) + DoChunk(modelPrefix, lnName, dos[i..], dataAttributeSibling, isTransient)
      ensures initializers == old(initializers) + DoInitChunk(Vals(), modelPrefix, lnName, dos[i])
      decreases dos[i], 0
    {
      var d, doName := dos[i], lnName + "_" + dos[i].name;
      var firstDa := PrintDataObjectHead(lnName, dos, i, dataAttributeSibling);
      PrintDataObjectDefinitions(doName, d.sdos, firstDa, isTransient || d.trans);
      PrintDataAttributeDefinitions(doName, d.das, isTransient || d.trans);
      ghost var head := DoHead(modelPrefix, lnName, dos[i..], dataAttributeSibling);
      Assoc4(old(cOut), [head], DoRecords(modelPrefix, doName, d.sdos, firstDa, isTransient || d.trans),
             DaRecords(modelPrefix, doName, d.das, isTransient || d.trans));
      Assoc(old(initializers), DoInits(Vals(), modelPrefix, doName, d.sdos),
            DaInits(Vals(), modelPrefix, doName, d.das));
    }

    /** The object's own record; its first attribute is also the last sub data object's sibling. */
    method PrintDataObjectHead(lnName: string, dos: seq<DataObject>, i: nat, dataAttributeSibling: Option<string>)
      returns (firstDa: Option<string>)
      requires Valid() && DosCuttable(modelPrefix, lnName, dos) && i < |dos|
      modifies this`cOut, this`variablesList
      ensures Valid()
      ensures cOut == old(cOut) + [DoHead(modelPrefix, lnName, dos[i..], dataAttributeSibling)]
      ensures firstDa == FirstDa(modelPrefix, lnName + "_" + dos[i].name, dos[i].das)
    {
      var d := dos[i];
      var doName := lnName + "_" + d.name;
      var sibling := if i < |dos| - 1 then Some(lnName + "_" + dos[i + 1].name) else dataAttributeSibling;
      firstDa := None;
      if |d.das| > 0 {
        var fDoName := Rewritten(doName, d.das[0].fc);
        firstDa := Some(fDoName + "_" + d.das[0].name);
      }
      var firstChild := if |d.sdos| > 0 then Some(doName + "_" + d.sdos[0].name) else firstDa;
      Print(Rec(doName, DoLabel(d.name, d.count), lnName, sibling, firstChild));
    }

    method PrintLogicalNodeDefinitions(ldName: string, lns: seq<LogicalNode>)
      requires Valid() && forall ln :: ln in lns ==> ln.dos != [] && LnPrintable(ldName, ln)
      modifies this`cOut, this`variablesList, this`initializers, this`defaults
      ensures Valid()
      ensures cOut == old(cOut) + LnRecords(modelPrefix, ldName, lns)
      ensures initializers == old(initializers) + LnInits(Vals(), modelPrefix, ldName, lns)
    {
      ghost var records := old(cOut) + LnRecords(modelPrefix, ldName, lns);
      ghost var inits := old(initializers) + LnInits(Vals(), modelPrefix, ldName, lns);
      for i := 0 to |lns|
        invariant Valid()
        invariant cOut + LnRecords(modelPrefix, ldName, lns[i..]) == records
        invariant initializers + LnInits(Vals(), modelPrefix, ldName, lns[i..]) == inits
      {
        ghost var out, values := cOut, initializers;
        assert lns[i..][1..] == lns[i + 1..];
        PrintLogicalNode(ldName, lns, i);
        Advance(out, LnChunk(modelPrefix, ldName, lns[i..]), LnRecords(modelPrefix, ldName, lns[i + 1..]), records);
        Advance(values, DoInits(Vals(), modelPrefix, ldName + "_" + lns[i].Name(), lns[i].dos),
                LnInits(Vals(), modelPrefix, ldName, lns[i + 1..]), inits);
      }
    }

    method PrintLogicalNode(ldName: string, lns: seq<LogicalNode>, i: nat)
      requires Valid() && i < |lns| && LnPrintable(ldName, lns[i])
      modifies this`cOut, this`variablesList, this`initializers, this`defaults
      ensures Valid()
      ensures cOut == old(cOut) + LnChunk(modelPrefix, ldName, lns[i..])
      ensures initializers == old(initializers)
                + DoInits(Vals(), modelPrefix, ldName + "_" + lns[i].Name(), lns[i].dos)
    {
      assert lns[i..][0] == lns[i] && (i < |lns| - 1 ==> lns[i..][1..][0] == lns[i + 1]);
      var lnName := ldName + "_" + lns[i].Name();
      var sibling := if i < |lns| - 1 then Some(ldName + "_" + lns[i + 1].Name()) else None;
      var head := Rec(lnName, LnLabel(lns[i].Name()), ldName, sibling, Some(lnName + "_" + lns[i].dos[0].name));
      assert head == LnHead(ldName, lns[i..]);
      Print(head);
      PrintDataObjectDefinitions(lnName, lns[i].dos, None, false);
      Assoc(old(cOut), [head], DoRecords(modelPrefix, lnName, lns[i].dos, None, false));
    }

    method PrintDeviceModelDefinitions(lds: seq<LogicalDevice>)
      requires Valid() && Printable(modelPrefix, lds)
      modifies this`cOut, this`variablesList, this`initializers, this`defaults
      ensures Valid()
      ensures cOut == old(cOut) + LdRecords(modelPrefix, lds)
      ensures initializers == old(initializers) + LdInits(Vals(), modelPrefix, lds)
    {
      ghost var records := old(cOut) + LdRecords(modelPrefix, lds);
      ghost var inits := old(initializers) + LdInits(Vals(), modelPrefix, lds);
      for i := 0 to |lds|
        invariant Valid()
        invariant cOut + LdRecords(modelPrefix, lds[i..]) == records
        invariant initializers + LdInits(Vals(), modelPrefix, lds[i..]) == inits
      {
        ghost var out, values := cOut, initializers;
        assert lds[i..][1..] == lds[i + 1..] && lds[i] in lds;
        PrintLogicalDevice(lds, i);
        Advance(out, LdChunk(modelPrefix, lds[i..]), LdRecords(modelPrefix, lds[i + 1..]), records);
        Advance(values, LnInits(Vals(), modelPrefix, modelPrefix + "_" + lds[i].inst, lds[i].lns),
                LdInits(Vals(), modelPrefix, lds[i + 1..]), inits);
      }
    }

    method PrintLogicalDevice(lds: seq<LogicalDevice>, i: nat)
      requires Valid() && Printable(modelPrefix, lds) && i < |lds|
      modifies this`cOut, this`variablesList, this`initializers, this`defaults
      ensures Valid()
      ensures cOut == old(cOut) + LdChunk(modelPrefix, lds[i..])
      ensures initializers == old(initializers)
                + LnInits(Vals(), modelPrefix, modelPrefix + "_" + lds[i].inst, lds[i].lns)
    {
      var ldName := modelPrefix + "_" + lds[i].inst;
      var sibling := if i < |lds| - 1 then Some(modelPrefix + "_" + lds[i + 1].inst) else None;
      assert lds[i] in lds;
      var head := Rec(ldName, LdLabel(lds[i].inst), modelPrefix, sibling, Some(ldName + "_" + lds[i].lns[0].Name()));
      assert head == LdHead(modelPrefix, lds[i..]);
      Print(head);
      PrintLogicalNodeDefinitions(ldName, lds[i].lns);
      Assoc(old(cOut), [head], LnRecords(modelPrefix, ldName, lds[i].lns));
    }
  }

  lemma {:induction false} Advance<T>(done: seq<T>, chunk: seq<T>, rest: seq<T>, target: seq<T>)
    requires done + (chunk + rest) == target
    ensures done + chunk + rest == target
  {
  }
}
