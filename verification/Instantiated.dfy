/** What an instantiated attribute, data object or logical node is, told from the definitions alone: a
    relation without recursion depth, order of work or failures. */
module Instantiated {
  import opened Text
  import opened Instances
  import opened Templates
  import opened Unfolding
  import opened Expansion

  // ----- attributes

  /** The attribute is an instance of the definition, where a functional constraint and trigger options
      may have been handed down from above. */
  ghost predicate Instance(decls: seq<TypeDecl>, def: DaDef, fc: string, inherited: Option<Trigger>, da: DataAttribute)
    decreases da
  {
    && da.name == def.name && da.attrType == def.attrType && da.count == def.count && da.slot == def.slot
    && da.fc == (if fc != "" then fc else def.fc)
    && da.trigger == (if inherited.Some? then inherited.value else def.trigger)
    && da.value.None? && da.shortAddress == ""
    && (def.attrType.Basic? ==> da.subs == [])
    && (def.attrType.Enumerated? ==>
          da.subs == [] && exists t: nat :: FirstDeclared(decls, def.typ, t) && decls[t].EnumType?)
    && (def.attrType.Constructed? ==>
          exists t: nat :: FirstDeclared(decls, def.typ, t) && decls[t].DaType?
                           && |da.subs| == |decls[t].bdas|
                           && forall i :: 0 <= i < |da.subs| ==>
                                Instance(decls, decls[t].bdas[i], da.fc, Some(da.trigger), da.subs[i]))
  }

  lemma {:induction false} LookupFirst(decls: seq<TypeDecl>, id: string, t: nat)
    ensures LookupType(decls, id) == Some(t) <==> FirstDeclared(decls, id, t)
  {
  }

  lemma {:induction false} SubsAt(decls: seq<TypeDecl>, fuel: nat, defs: seq<DaDef>, fc: string, trigger: Trigger,
                                  i: nat)
    requires UnfoldSubs(decls, fuel, defs, fc, trigger).Ok? && i < |defs|
    ensures var subs := UnfoldSubs(decls, fuel, defs, fc, trigger).value;
            |subs| == |defs| && UnfoldDa(decls, fuel, defs[i], fc, Some(trigger)) == Ok(subs[i])
    decreases |defs|
  {
    if i > 0 {
      SubsAt(decls, fuel, defs[1..], fc, trigger, i - 1);
    } else if |defs| > 1 {
      SubsAt(decls, fuel, defs[1..], fc, trigger, 0);
    }
  }

  lemma {:induction false} UnfoldedIsInstance(decls: seq<TypeDecl>, fuel: nat, def: DaDef, fc: string,
                                              inherited: Option<Trigger>)
    requires UnfoldDa(decls, fuel, def, fc, inherited).Ok?
    ensures Instance(decls, def, fc, inherited, UnfoldDa(decls, fuel, def, fc, inherited).value)
    decreases fuel
  {
    var da := UnfoldDa(decls, fuel, def, fc, inherited).value;
    if !def.attrType.Basic? {
      var t := LookupType(decls, def.typ).value;
      LookupFirst(decls, def.typ, t);
      if def.attrType.Constructed? {
        var bdas := decls[t].bdas;
        assert UnfoldSubs(decls, fuel - 1, bdas, da.fc, da.trigger) == Ok(da.subs);
        if bdas != [] {
          SubsAt(decls, fuel - 1, bdas, da.fc, da.trigger, 0);
        }
        forall i | 0 <= i < |da.subs| ensures Instance(decls, bdas[i], da.fc, Some(da.trigger), da.subs[i]) {
          SubsAt(decls, fuel - 1, bdas, da.fc, da.trigger, i);
          UnfoldedIsInstance(decls, fuel - 1, bdas[i], da.fc, Some(da.trigger));
        }
      }
    }
  }

  lemma {:induction false} InstanceUnfolds(decls: seq<TypeDecl>, def: DaDef, fc: string, inherited: Option<Trigger>,
                                           da: DataAttribute)
    returns (fuel: nat)
    requires Instance(decls, def, fc, inherited, da)
    ensures UnfoldDa(decls, fuel, def, fc, inherited) == Ok(da)
    decreases da, 1
  {
    fuel := 0;
    if !def.attrType.Basic? {
      var t: nat :| FirstDeclared(decls, def.typ, t)
                    && (def.attrType.Enumerated? ==> decls[t].EnumType?)
                    && (def.attrType.Constructed? ==>
                          decls[t].DaType? && |da.subs| == |decls[t].bdas|
                          && forall i :: 0 <= i < |da.subs| ==>
                               Instance(decls, decls[t].bdas[i], da.fc, Some(da.trigger), da.subs[i]));
      LookupFirst(decls, def.typ, t);
      if def.attrType.Constructed? {
        fuel := SubsUnfold(decls, decls[t].bdas, da.fc, da.trigger, da, 0);
        assert decls[t].bdas[0..] == decls[t].bdas && da.subs[0..] == da.subs;
        fuel := fuel + 1;
      }
    }
  }

  lemma {:induction false} SubsUnfold(decls: seq<TypeDecl>, defs: seq<DaDef>, fc: string, trigger: Trigger,
                                      da: DataAttribute, from: nat)
    returns (fuel: nat)
    requires |da.subs| == |defs| && from <= |defs|
    requires forall i :: 0 <= i < |defs| ==> Instance(decls, defs[i], fc, Some(trigger), da.subs[i])
    ensures UnfoldSubs(decls, fuel, defs[from..], fc, trigger) == Ok(da.subs[from..])
    decreases da, 0, |defs| - from
  {
    if from == |defs| {
      fuel := 0;
    } else {
      var here := InstanceUnfolds(decls, defs[from], fc, Some(trigger), da.subs[from]);
      var later := SubsUnfold(decls, defs, fc, trigger, da, from + 1);
      fuel := if here < later then later else here;
      DaFuel(decls, here, fuel, defs[from], fc, Some(trigger));
      SubsFuel(decls, later, fuel, defs[from + 1..], fc, trigger);
      assert defs[from..][1..] == defs[from + 1..];
      assert da.subs[from..] == [da.subs[from]] + da.subs[from + 1..];
    }
  }

  /** Unfolding an attribute definition yields exactly its instances, of which there is at most one. */
  lemma {:induction false} DaExact(decls: seq<TypeDecl>, def: DaDef, fc: string, inherited: Option<Trigger>,
                                   da: DataAttribute)
    ensures (exists fuel :: UnfoldDa(decls, fuel, def, fc, inherited) == Ok(da))
       <==> Instance(decls, def, fc, inherited, da)
  {
    if fuel :| UnfoldDa(decls, fuel, def, fc, inherited) == Ok(da) {
      UnfoldedIsInstance(decls, fuel, def, fc, inherited);
    }
    if Instance(decls, def, fc, inherited, da) {
      var fuel := InstanceUnfolds(decls, def, fc, inherited, da);
    }
  }

  // ----- the attributes of a data object

  predicate IsSp(da: DataAttribute, name: string) {
    da.fc == "SP" && da.name == name
  }

  /** An SE attribute takes the place of the first SP attribute of its name, if there is one; any other
      attribute comes last. */
  ghost predicate PlacedIn(before: seq<DataAttribute>, da: DataAttribute, after: seq<DataAttribute>) {
    if da.fc == "SE" && exists x :: x in before && IsSp(x, da.name)
    then exists i: nat ::
        && i < |before| && IsSp(before[i], da.name)
        && (forall k :: 0 <= k < i ==> !IsSp(before[k], da.name))
        && after == before[i := da]
    else after == before + [da]
  }

  /** One more definition: its instance is placed, behind an SG copy if it is an SE definition. */
  ghost predicate OneMore(decls: seq<TypeDecl>, def: DaDef, before: seq<DataAttribute>, after: seq<DataAttribute>) {
    exists da :: Instance(decls, def, "", None, da) &&
      if def.fc == "SE" then
        exists copy :: Instance(decls, def, "SG", None, copy) && PlacedIn(before + [copy], da, after)
      else PlacedIn(before, da, after)
  }

  /** All definitions, one after the other. */
  ghost predicate AllMore(decls: seq<TypeDecl>, defs: seq<DaDef>, before: seq<DataAttribute>,
                          after: seq<DataAttribute>) {
    if defs == [] then after == before
    else exists next :: OneMore(decls, defs[0], before, next) && AllMore(decls, defs[1..], next, after)
  }

  lemma {:induction false} PlacedExact(before: seq<DataAttribute>, da: DataAttribute, after: seq<DataAttribute>)
    ensures PlacedIn(before, da, after) <==> after == AddAttribute(before, da)
  {
    var sp := FindSp(before, da.name);
    if sp.Some? {
      assert before[sp.value] in before && IsSp(before[sp.value], da.name);
    } else {
      forall x | x in before ensures !IsSp(x, da.name) {
        var k :| 0 <= k < |before| && before[k] == x;
      }
    }
  }

  lemma {:induction false} AddedIsMore(decls: seq<TypeDecl>, fuel: nat, def: DaDef, before: seq<DataAttribute>)
    requires Added(decls, fuel, def, before).Ok?
    ensures OneMore(decls, def, before, Added(decls, fuel, def, before).value)
  {
    var da, after := Top(decls, fuel, def, "").value, Added(decls, fuel, def, before).value;
    UnfoldedIsInstance(decls, fuel, def, "", None);
    if def.fc == "SE" {
      UnfoldedIsInstance(decls, fuel, def, "SG", None);
      PlacedExact(before + [Top(decls, fuel, def, "SG").value], da, after);
    } else {
      assert before + [] == before;
      PlacedExact(before, da, after);
    }
  }

  lemma {:induction false} MoreIsAdded(decls: seq<TypeDecl>, def: DaDef, before: seq<DataAttribute>,
                                       after: seq<DataAttribute>)
    returns (fuel: nat)
    requires OneMore(decls, def, before, after)
    ensures Added(decls, fuel, def, before) == Ok(after)
  {
    var da :| Instance(decls, def, "", None, da) &&
      if def.fc == "SE" then
        exists copy :: Instance(decls, def, "SG", None, copy) && PlacedIn(before + [copy], da, after)
      else PlacedIn(before, da, after);
    fuel := InstanceUnfolds(decls, def, "", None, da);
    if def.fc == "SE" {
      var copy :| Instance(decls, def, "SG", None, copy) && PlacedIn(before + [copy], da, after);
      var other := InstanceUnfolds(decls, def, "SG", None, copy);
      PlacedExact(before + [copy], da, after);
      var more := if fuel < other then other else fuel;
      DaFuel(decls, fuel, more, def, "", None);
      DaFuel(decls, other, more, def, "SG", None);
      fuel := more;
    } else {
      assert before + [] == before;
      PlacedExact(before, da, after);
    }
  }

  lemma {:induction false} ExpandedIsMore(decls: seq<TypeDecl>, fuel: nat, defs: seq<DaDef>, before: seq<DataAttribute>)
    requires ExpandDas(decls, fuel, defs, before).Ok?
    ensures AllMore(decls, defs, before, ExpandDas(decls, fuel, defs, before).value)
    decreases |defs|
  {
    if defs != [] {
      AddedIsMore(decls, fuel, defs[0], before);
      ExpandedIsMore(decls, fuel, defs[1..], Added(decls, fuel, defs[0], before).value);
    }
  }

  lemma {:induction false} MoreIsExpanded(decls: seq<TypeDecl>, defs: seq<DaDef>, before: seq<DataAttribute>,
                                          after: seq<DataAttribute>)
    returns (fuel: nat)
    requires AllMore(decls, defs, before, after)
    ensures ExpandDas(decls, fuel, defs, before) == Ok(after)
  {
    if defs == [] {
      fuel := 0;
    } else {
      var next :| OneMore(decls, defs[0], before, next) && AllMore(decls, defs[1..], next, after);
      var here := MoreIsAdded(decls, defs[0], before, next);
      var later := MoreIsExpanded(decls, defs[1..], next, after);
      fuel := if here < later then later else here;
      AddedFuel(decls, here, fuel, defs[0], before);
      ExpandFuel(decls, later, fuel, defs[1..], next);
    }
  }

  // ----- data objects

  ghost predicate DoInstance(decls: seq<TypeDecl>, def: DoDef, d: DataObject)
    decreases d, 1
  {
    && d.name == def.name && d.count == def.count && d.trans == def.transient
    && exists t: nat :: FirstDeclared(decls, def.typ, t) && Members(decls, decls[t], d)
  }

  /** Attributes and sub data objects are those of the type. */
  ghost predicate Members(decls: seq<TypeDecl>, ty: TypeDecl, d: DataObject)
    decreases d, 0
  {
    && ty.DoType? && AllMore(decls, ty.das, [], d.das)
    && |d.sdos| == |ty.sdos| && forall i :: 0 <= i < |d.sdos| ==> DoInstance(decls, ty.sdos[i], d.sdos[i])
  }

  lemma {:induction false} DosAt(decls: seq<TypeDecl>, fuel: nat, defs: seq<DoDef>, i: nat)
    requires UnfoldDos(decls, fuel, defs).Ok? && i < |defs|
    ensures var dos := UnfoldDos(decls, fuel, defs).value;
            |dos| == |defs| && UnfoldDo(decls, fuel, defs[i]) == Ok(dos[i])
    decreases |defs|
  {
    if i > 0 {
      DosAt(decls, fuel, defs[1..], i - 1);
    } else if |defs| > 1 {
      DosAt(decls, fuel, defs[1..], 0);
    }
  }

  lemma {:induction false} DosCount(decls: seq<TypeDecl>, fuel: nat, defs: seq<DoDef>)
    requires UnfoldDos(decls, fuel, defs).Ok?
    ensures |UnfoldDos(decls, fuel, defs).value| == |defs|
  {
    if defs != [] {
      DosAt(decls, fuel, defs, 0);
    }
  }

  lemma {:induction false} FilledParts(decls: seq<TypeDecl>, fuel: nat, def: DoDef, ty: TypeDecl, d: DataObject)
    ensures FillDo(decls, fuel, def, ty) == Ok(d)
       <==> && ty.DoType? && d.name == def.name && d.count == def.count && d.trans == def.transient
            && ExpandDas(decls, fuel, ty.das, []) == Ok(d.das) && UnfoldDos(decls, fuel, ty.sdos) == Ok(d.sdos)
  {
  }

  lemma {:induction false} DoIsInstance(decls: seq<TypeDecl>, fuel: nat, def: DoDef)
    requires UnfoldDo(decls, fuel, def).Ok?
    ensures DoInstance(decls, def, UnfoldDo(decls, fuel, def).value)
    decreases fuel, 1
  {
    var t, d := LookupType(decls, def.typ).value, UnfoldDo(decls, fuel, def).value;
    LookupFirst(decls, def.typ, t);
    FilledParts(decls, fuel - 1, def, decls[t], d);
    MembersUnfolded(decls, fuel - 1, decls[t], d);
  }

  lemma {:induction false} MembersUnfolded(decls: seq<TypeDecl>, fuel: nat, ty: TypeDecl, d: DataObject)
    requires ty.DoType?
    requires ExpandDas(decls, fuel, ty.das, []) == Ok(d.das) && UnfoldDos(decls, fuel, ty.sdos) == Ok(d.sdos)
    ensures Members(decls, ty, d)
    decreases fuel, 2
  {
    ExpandedIsMore(decls, fuel, ty.das, []);
    DosCount(decls, fuel, ty.sdos);
    forall i | 0 <= i < |d.sdos| ensures DoInstance(decls, ty.sdos[i], d.sdos[i]) {
      DosAt(decls, fuel, ty.sdos, i);
      DoIsInstance(decls, fuel, ty.sdos[i]);
    }
  }

  lemma {:induction false} InstanceIsDo(decls: seq<TypeDecl>, def: DoDef, d: DataObject) returns (fuel: nat)
    requires DoInstance(decls, def, d)
    ensures UnfoldDo(decls, fuel, def) == Ok(d)
    decreases d, 2
  {
    var t: nat :| FirstDeclared(decls, def.typ, t) && Members(decls, decls[t], d);
    LookupFirst(decls, def.typ, t);
    fuel := MembersUnfold(decls, decls[t], d);
    FilledParts(decls, fuel, def, decls[t], d);
    fuel := fuel + 1;
  }

  lemma {:induction false} MembersUnfold(decls: seq<TypeDecl>, ty: TypeDecl, d: DataObject) returns (fuel: nat)
    requires Members(decls, ty, d)
    ensures ExpandDas(decls, fuel, ty.das, []) == Ok(d.das) && UnfoldDos(decls, fuel, ty.sdos) == Ok(d.sdos)
    decreases d, 1
  {
    var das := MoreIsExpanded(decls, ty.das, [], d.das);
    var sdos := InstancesAreDos(decls, ty.sdos, d, 0);
    assert ty.sdos[0..] == ty.sdos && d.sdos[0..] == d.sdos;
    fuel := if das < sdos then sdos else das;
    ExpandFuel(decls, das, fuel, ty.das, []);
    DosFuel(decls, sdos, fuel, ty.sdos);
  }

  lemma {:induction false} InstancesAreDos(decls: seq<TypeDecl>, defs: seq<DoDef>, d: DataObject, from: nat)
    returns (fuel: nat)
    requires |d.sdos| == |defs| && from <= |defs|
    requires forall i :: 0 <= i < |defs| ==> DoInstance(decls, defs[i], d.sdos[i])
    ensures UnfoldDos(decls, fuel, defs[from..]) == Ok(d.sdos[from..])
    decreases d, 0, |defs| - from
  {
    if from == |defs| {
      fuel := 0;
    } else {
      var here := InstanceIsDo(decls, defs[from], d.sdos[from]);
      var later := InstancesAreDos(decls, defs, d, from + 1);
      fuel := if here < later then later else here;
      DoFuel(decls, here, fuel, defs[from]);
      DosFuel(decls, later, fuel, defs[from + 1..]);
      assert defs[from..][1..] == defs[from + 1..];
      assert d.sdos[from..] == [d.sdos[from]] + d.sdos[from + 1..];
    }
  }

  /** Unfolding a data object definition yields exactly its instances. */
  lemma {:induction false} DoExact(decls: seq<TypeDecl>, def: DoDef, d: DataObject)
    ensures (exists fuel :: UnfoldDo(decls, fuel, def) == Ok(d)) <==> DoInstance(decls, def, d)
  {
    if fuel :| UnfoldDo(decls, fuel, def) == Ok(d) {
      DoIsInstance(decls, fuel, def);
    }
    if DoInstance(decls, def, d) {
      var fuel := InstanceIsDo(decls, def, d);
    }
  }

  // ----- logical nodes and devices

  ghost predicate LnInstance(decls: seq<TypeDecl>, lnType: string, dos: seq<DataObject>) {
    exists t: nat :: FirstDeclared(decls, lnType, t) && decls[t].LNodeType? && |dos| == |decls[t].dos|
                     && forall i :: 0 <= i < |dos| ==> DoInstance(decls, decls[t].dos[i], dos[i])
  }

  lemma {:induction false} LnIsInstance(decls: seq<TypeDecl>, fuel: nat, lnType: string)
    requires UnfoldLn(decls, fuel, lnType).Ok?
    ensures LnInstance(decls, lnType, UnfoldLn(decls, fuel, lnType).value)
  {
    var t, dos := LookupType(decls, lnType).value, UnfoldLn(decls, fuel, lnType).value;
    LookupFirst(decls, lnType, t);
    DosCount(decls, fuel - 1, decls[t].dos);
    forall i | 0 <= i < |dos| ensures DoInstance(decls, decls[t].dos[i], dos[i]) {
      DosAt(decls, fuel - 1, decls[t].dos, i);
      DoIsInstance(decls, fuel - 1, decls[t].dos[i]);
    }
  }

  lemma {:induction false} InstanceIsLn(decls: seq<TypeDecl>, lnType: string, dos: seq<DataObject>) returns (fuel: nat)
    requires LnInstance(decls, lnType, dos)
    ensures UnfoldLn(decls, fuel, lnType) == Ok(dos)
  {
    var t: nat :| FirstDeclared(decls, lnType, t) && decls[t].LNodeType? && |dos| == |decls[t].dos|
                  && forall i :: 0 <= i < |dos| ==> DoInstance(decls, decls[t].dos[i], dos[i]);
    LookupFirst(decls, lnType, t);
    fuel := InstancesAreDos(decls, decls[t].dos, DataObject("", 0, false, dos, []), 0);
    assert decls[t].dos[0..] == decls[t].dos && dos[0..] == dos;
    fuel := fuel + 1;
  }

  /** Every node of every device, in order, is an instance of its type. */
  ghost predicate DevicesInstance(decls: seq<TypeDecl>, devices: seq<seq<string>>, nodes: seq<seq<seq<DataObject>>>) {
    |nodes| == |devices| && forall i :: 0 <= i < |devices| ==> NodesInstance(decls, devices[i], nodes[i])
  }

  ghost predicate NodesInstance(decls: seq<TypeDecl>, lnTypes: seq<string>, nodes: seq<seq<DataObject>>) {
    |nodes| == |lnTypes| && forall i :: 0 <= i < |lnTypes| ==> LnInstance(decls, lnTypes[i], nodes[i])
  }

  lemma {:induction false} NodesAreInstances(decls: seq<TypeDecl>, fuel: nat, lnTypes: seq<string>)
    requires UnfoldLns(decls, fuel, lnTypes).Ok?
    ensures NodesInstance(decls, lnTypes, UnfoldLns(decls, fuel, lnTypes).value)
  {
    if lnTypes != [] {
      LnIsInstance(decls, fuel, lnTypes[0]);
      NodesAreInstances(decls, fuel, lnTypes[1..]);
    }
  }

  lemma {:induction false} DevicesAreInstances(decls: seq<TypeDecl>, fuel: nat, devices: seq<seq<string>>)
    requires UnfoldDevices(decls, fuel, devices).Ok?
    ensures DevicesInstance(decls, devices, UnfoldDevices(decls, fuel, devices).value)
  {
    if devices != [] {
      NodesAreInstances(decls, fuel, devices[0]);
      DevicesAreInstances(decls, fuel, devices[1..]);
    }
  }

  lemma {:induction false} InstancesAreNodes(decls: seq<TypeDecl>, lnTypes: seq<string>, nodes: seq<seq<DataObject>>)
    returns (fuel: nat)
    requires NodesInstance(decls, lnTypes, nodes)
    ensures UnfoldLns(decls, fuel, lnTypes) == Ok(nodes) && Declared(decls, lnTypes)
  {
    fuel := 0;
    if lnTypes != [] {
      var here := InstanceIsLn(decls, lnTypes[0], nodes[0]);
      var later := InstancesAreNodes(decls, lnTypes[1..], nodes[1..]);
      fuel := if here < later then later else here;
      LnFuel(decls, here, fuel, lnTypes[0]);
      LnsFuel(decls, later, fuel, lnTypes[1..]);
      assert nodes == [nodes[0]] + nodes[1..];
      assert forall lnType :: lnType in lnTypes <==> lnType == lnTypes[0] || lnType in lnTypes[1..];
    }
  }

  lemma {:induction false} InstancesAreDevices(decls: seq<TypeDecl>, devices: seq<seq<string>>,
                                               nodes: seq<seq<seq<DataObject>>>)
    returns (fuel: nat)
    requires DevicesInstance(decls, devices, nodes)
    ensures UnfoldDevices(decls, fuel, devices) == Ok(nodes)
  {
    fuel := 0;
    if devices != [] {
      var here := InstancesAreNodes(decls, devices[0], nodes[0]);
      var later := InstancesAreDevices(decls, devices[1..], nodes[1..]);
      fuel := if here < later then later else here;
      LnsFuel(decls, here, fuel, devices[0]);
      DevicesFuel(decls, later, fuel, devices[1..]);
      assert nodes == [nodes[0]] + nodes[1..];
    }
  }

  /** The whole instantiation yields exactly what is an instance of the node types, node by node. */
  lemma {:induction false} DevicesExact(decls: seq<TypeDecl>, devices: seq<seq<string>>,
                                        nodes: seq<seq<seq<DataObject>>>)
    ensures (exists fuel :: UnfoldDevices(decls, fuel, devices) == Ok(nodes))
       <==> DevicesInstance(decls, devices, nodes)
  {
    if fuel :| UnfoldDevices(decls, fuel, devices) == Ok(nodes) {
      DevicesAreInstances(decls, fuel, devices);
    }
    if DevicesInstance(decls, devices, nodes) {
      var fuel := InstancesAreDevices(decls, devices, nodes);
    }
  }
}
