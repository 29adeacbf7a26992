/** Instantiation as the parser runs it: constructors that build attribute and object lists step by
    step and mark the type declarations they use. */
module ModelWrapper {
  import opened Text
  import opened Instances
  import opened Templates
  import opened Graphs
  import opened References
  import opened Unfolding

  /** A list of which `done` has been built, with the outcome of the rest still to come. */
  function Prepend<T>(done: seq<T>, rest: Outcome<seq<T>>): Outcome<seq<T>> {
    if rest.Ok? then Ok(done + rest.value) else rest
  }

  lemma {:induction false} PrependMore<T>(done: seq<T>, x: T, rest: Outcome<seq<T>>)
    ensures Prepend(done, Prepend([x], rest)) == Prepend(done + [x], rest)
  {
    if rest.Ok? {
      assert done + ([x] + rest.value) == done + [x] + rest.value;
    }
  }

  lemma {:induction false} PrependNothing<T>(done: seq<T>, rest: Outcome<seq<T>>)
    ensures Prepend([], rest) == rest
    ensures Prepend(done, Ok([])) == Ok(done)
  {
    assert rest.Ok? ==> [] + rest.value == rest.value;
    assert done + [] == done;
  }

  /** The marks grow within `reach`, and on success by all of it. */
  ghost predicate Grows(before: set<nat>, after: set<nat>, reach: set<nat>, ok: bool) {
    before <= after <= before + reach && (ok ==> after == before + reach)
  }

  /** In the middle of a list of references: `rest` is what the references still to come will mark. */
  ghost predicate Growing(before: set<nat>, now: set<nat>, rest: set<nat>, target: set<nat>) {
    before <= now <= before + target && now + rest == before + target
  }

  lemma {:induction false} GrowingStep(before: set<nat>, now: set<nat>, next: set<nat>, here: set<nat>, rest: set<nat>,
                                       target: set<nat>, ok: bool)
    requires Growing(before, now, here + rest, target) && Grows(now, next, here, ok)
    ensures before <= next <= before + target && (ok ==> Growing(before, next, rest, target))
  {
  }

  class DataTypeTemplates {
    const typeDeclarations: seq<TypeDecl>
    var used: set<nat>

    constructor (typeDeclarations: seq<TypeDecl>)
      ensures this.typeDeclarations == typeDeclarations && used == {}
    {
      this.typeDeclarations, used := typeDeclarations, {};
    }

    method SetUsed(t: nat)
      modifies this
      ensures used == old(used) + {t}
    {
      used := used + {t};
    }
  }

  // ----- attributes

  method NewDataAttribute(def: DaDef, templates: DataTypeTemplates, fc: string, inherited: Option<Trigger>,
                          ghost fuel: nat)
    returns (r: Outcome<DataAttribute>)
    requires UnfoldDa(templates.typeDeclarations, fuel, def, fc, inherited).Answered()
    modifies templates
    ensures r == UnfoldDa(templates.typeDeclarations, fuel, def, fc, inherited)
    ensures Grows(old(templates.used), templates.used, ReachOf(templates.typeDeclarations, DaRef(def)), r.Ok?)
    decreases fuel, 1
  {
    var da := Bare(def, fc, inherited);
    if def.attrType.Constructed? {
      r := CreateConstructedAttribute(da, def, templates, fc, inherited, fuel);
    } else if def.attrType.Enumerated? {
      r := CreateEnumeratedAttribute(da, def, templates, fc, inherited, fuel);
    } else {
      r := Ok(da);
    }
  }

  /** An attribute before its type is looked up. */
  function Bare(def: DaDef, fc: string, inherited: Option<Trigger>): DataAttribute {
    DataAttribute(def.name, EffectiveFc(def, fc), def.attrType, def.count, inherited.GetOr(def.trigger), None, "",
                  def.slot, [])
  }

  method CreateEnumeratedAttribute(da: DataAttribute, def: DaDef, templates: DataTypeTemplates,
                                   ghost fc: string, ghost inherited: Option<Trigger>, ghost fuel: nat)
    returns (r: Outcome<DataAttribute>)
    requires def.attrType.Enumerated? && da == Bare(def, fc, inherited)
    modifies templates
    ensures r == UnfoldDa(templates.typeDeclarations, fuel, def, fc, inherited)
    ensures Grows(old(templates.used), templates.used, ReachOf(templates.typeDeclarations, DaRef(def)), r.Ok?)
  {
    var t := LookupType(templates.typeDeclarations, def.typ);
    if t.None? {
      return Failed(MissingType);
    }
    if !templates.typeDeclarations[t.value].EnumType? {
      return Failed(WrongType);
    }
    ReachStep(templates.typeDeclarations, DaRef(def));
    templates.SetUsed(t.value);
    return Ok(da);
  }

  method CreateConstructedAttribute(da: DataAttribute, def: DaDef, templates: DataTypeTemplates,
                                    ghost fc: string, ghost inherited: Option<Trigger>, ghost fuel: nat)
    returns (r: Outcome<DataAttribute>)
    requires UnfoldDa(templates.typeDeclarations, fuel, def, fc, inherited).Answered()
    requires def.attrType.Constructed? && da == Bare(def, fc, inherited)
    modifies templates
    ensures r == UnfoldDa(templates.typeDeclarations, fuel, def, fc, inherited)
    ensures Grows(old(templates.used), templates.used, ReachOf(templates.typeDeclarations, DaRef(def)), r.Ok?)
    decreases fuel, 0
  {
    ghost var decls, before := templates.typeDeclarations, templates.used;
    var t := LookupType(templates.typeDeclarations, def.typ);
    if t.None? {
      return Failed(MissingType);
    }
    var d := templates.typeDeclarations[t.value];
    if !d.DaType? {
      return Failed(WrongType);
    }
    DaEntered(decls, fuel, def, fc, inherited, t.value);
    templates.SetUsed(t.value);
    ghost var marked := templates.used;
    var subs := CreateSubAttributes(d.bdas, templates, da.fc, da.trigger, fuel - 1);
    ReachStep(decls, DaRef(def));
    MarkedGrows(before, marked, templates.used, t.value, ReachAll(decls, DaItems(d.bdas)), ReachOf(decls, DaRef(def)),
                subs.Ok?);
    if subs.Failed? {
      return Failed(subs.failure);
    }
    return Ok(da.(subs := subs.value));
  }

  /** The loop over the members of the type. */
  method CreateSubAttributes(bdas: seq<DaDef>, templates: DataTypeTemplates, fc: string, trigger: Trigger,
                             ghost fuel: nat)
    returns (r: Outcome<seq<DataAttribute>>)
    requires UnfoldSubs(templates.typeDeclarations, fuel, bdas, fc, trigger).Answered()
    modifies templates
    ensures r == UnfoldSubs(templates.typeDeclarations, fuel, bdas, fc, trigger)
    ensures Grows(old(templates.used), templates.used, ReachAll(templates.typeDeclarations, DaItems(bdas)), r.Ok?)
    decreases fuel, 2
  {
    ghost var decls, before := templates.typeDeclarations, templates.used;
    ghost var target, whole := ReachAll(decls, DaItems(bdas)), UnfoldSubs(decls, fuel, bdas, fc, trigger);
    var subs: seq<DataAttribute> := [];
    PrependNothing(subs, whole);
    assert bdas[0..] == bdas;
    for i := 0 to |bdas|
      invariant Prepend(subs, UnfoldSubs(decls, fuel, bdas[i..], fc, trigger)) == whole
      invariant Growing(before, templates.used, ReachAll(decls, DaItems(bdas[i..])), target)
    {
      ghost var now := templates.used;
      assert bdas[i..][1..] == bdas[i + 1..];
      DaItemsReach(decls, bdas[i..]);
      var sub := NewDataAttribute(bdas[i], templates, fc, Some(trigger), fuel);
      GrowingStep(before, now, templates.used, ReachOf(decls, DaRef(bdas[i])),
                  ReachAll(decls, DaItems(bdas[i + 1..])), target, sub.Ok?);
      if sub.Failed? {
        return Failed(sub.failure);
      }
      PrependMore(subs, sub.value, UnfoldSubs(decls, fuel, bdas[i + 1..], fc, trigger));
      subs := subs + [sub.value];
    }
    assert bdas[|bdas|..] == [];
    PrependNothing(subs, whole);
    return Ok(subs);
  }

  lemma {:induction false} DaEntered(decls: seq<TypeDecl>, fuel: nat, def: DaDef, fc: string,
                                     inherited: Option<Trigger>, t: nat)
    requires UnfoldDa(decls, fuel, def, fc, inherited).Answered()
    requires def.attrType.Constructed? && LookupType(decls, def.typ) == Some(t) && decls[t].DaType?
    ensures fuel > 0
    ensures var da := Bare(def, fc, inherited);
            var subs := UnfoldSubs(decls, fuel - 1, decls[t].bdas, da.fc, da.trigger);
            && subs.Answered()
            && UnfoldDa(decls, fuel, def, fc, inherited)
               == if subs.Ok? then Ok(da.(subs := subs.value)) else Failed(subs.failure)
  {
  }

  // ----- data objects

  /** A data object while its constructor fills it in. */
  class DataObjectNode {
    const name: string
    const count: int
    const trans: bool
    const sclType: TypeDecl
    var dataAttributes: seq<DataAttribute>
    var subDataObjects: seq<DataObject>

    constructor (def: DoDef, sclType: TypeDecl)
      ensures name == def.name && count == def.count && trans == def.transient && this.sclType == sclType
      ensures dataAttributes == [] && subDataObjects == []
    {
      name, count, trans, this.sclType := def.name, def.count, def.transient, sclType;
      dataAttributes, subDataObjects := [], [];
    }

    /** Appends an attribute, or lets an edit attribute overwrite the first SP attribute of its name. */
    method Place(attribute: DataAttribute)
      modifies this`dataAttributes
      ensures dataAttributes == AddAttribute(old(dataAttributes), attribute)
    {
      var i := 0;
      while i < |dataAttributes|
        invariant i <= |dataAttributes| && dataAttributes == old(dataAttributes)
        invariant attribute.fc == "SE" ==>
          forall k :: 0 <= k < i ==> !(dataAttributes[k].fc == "SP" && dataAttributes[k].name == attribute.name)
      {
        var da := dataAttributes[i];
        if da.fc != "SG" && da.name == attribute.name {
          if da.fc == "SP" && attribute.fc == "SE" {
            dataAttributes := dataAttributes[i := attribute];
            return;
          }
        }
        i := i + 1;
      }
      dataAttributes := dataAttributes + [attribute];
    }

    /** One definition of the loop: the SG copy of an SE definition, then the attribute itself. */
    method AddDefinition(def: DaDef, templates: DataTypeTemplates, ghost fuel: nat) returns (failure: Option<Failure>)
      requires Added(templates.typeDeclarations, fuel, def, dataAttributes).Answered()
      modifies this`dataAttributes, templates
      ensures Added(templates.typeDeclarations, fuel, def, old(dataAttributes))
           == if failure.Some? then Failed(failure.value) else Ok(dataAttributes)
      ensures Grows(old(templates.used), templates.used, ReachOf(templates.typeDeclarations, DaRef(def)), failure.None?)
    {
      if def.fc == "SE" {
        var copy := NewDataAttribute(def, templates, "SG", None, fuel);
        if copy.Failed? {
          return Some(copy.failure);
        }
        dataAttributes := dataAttributes + [copy.value];
      }
      assert SgCopy(templates.typeDeclarations, fuel, def).Ok?
          && dataAttributes == old(dataAttributes) + SgCopy(templates.typeDeclarations, fuel, def).value;
      var attribute := NewDataAttribute(def, templates, "", None, fuel);
      if attribute.Failed? {
        return Some(attribute.failure);
      }
      Place(attribute.value);
      return None;
    }

    method CreateDataAttributes(templates: DataTypeTemplates, ghost fuel: nat) returns (failure: Option<Failure>)
      requires ExpandDas(templates.typeDeclarations, fuel, DefsOf(sclType), []).Answered()
      requires dataAttributes == []
      modifies this`dataAttributes, templates
      ensures ExpandDas(templates.typeDeclarations, fuel, DefsOf(sclType), [])
           == if failure.Some? then Failed(failure.value) else Ok(dataAttributes)
      ensures Grows(old(templates.used), templates.used,
                    ReachAll(templates.typeDeclarations, DaItems(DefsOf(sclType))), failure.None?)
    {
      ghost var decls, before := templates.typeDeclarations, templates.used;
      var defs := DefsOf(sclType);
      ghost var target, whole := ReachAll(decls, DaItems(defs)), ExpandDas(decls, fuel, defs, []);
      assert defs[0..] == defs;
      for i := 0 to |defs|
        invariant whole == ExpandDas(decls, fuel, defs[i..], dataAttributes)
        invariant Growing(before, templates.used, ReachAll(decls, DaItems(defs[i..])), target)
      {
        assert defs[i..][1..] == defs[i + 1..];
        DaItemsReach(decls, defs[i..]);
        ghost var now := templates.used;
        failure := AddDefinition(defs[i], templates, fuel);
        GrowingStep(before, now, templates.used, ReachOf(decls, DaRef(defs[i])),
                    ReachAll(decls, DaItems(defs[i + 1..])), target, failure.None?);
        if failure.Some? {
          return;
        }
      }
      assert defs[|defs|..] == [];
      return None;
    }

    method CreateSubDataObjects(templates: DataTypeTemplates, ghost fuel: nat) returns (failure: Option<Failure>)
      requires sclType.DoType? ==> UnfoldDos(templates.typeDeclarations, fuel, sclType.sdos).Answered()
      requires subDataObjects == []
      modifies this`subDataObjects, templates
      ensures failure.None? ==> sclType.DoType?
      ensures sclType.DoType? ==>
                && UnfoldDos(templates.typeDeclarations, fuel, sclType.sdos)
                   == (if failure.Some? then Failed(failure.value) else Ok(subDataObjects))
                && Grows(old(templates.used), templates.used,
                         ReachAll(templates.typeDeclarations, DoItems(sclType.sdos)), failure.None?)
      ensures !sclType.DoType? ==> failure == Some(AssertionPanic) && templates.used == old(templates.used)
      decreases fuel, if sclType.DoType? then 3 else 0
    {
      if !sclType.DoType? {
        return Some(AssertionPanic);
      }
      ghost var decls, before := templates.typeDeclarations, templates.used;
      var defs := sclType.sdos;
      ghost var target, whole := ReachAll(decls, DoItems(defs)), UnfoldDos(decls, fuel, defs);
      PrependNothing(subDataObjects, whole);
      assert defs[0..] == defs;
      for i := 0 to |defs|
        invariant Prepend(subDataObjects, UnfoldDos(decls, fuel, defs[i..])) == whole
        invariant Growing(before, templates.used, ReachAll(decls, DoItems(defs[i..])), target)
      {
        assert defs[i..][1..] == defs[i + 1..];
        DoItemsReach(decls, defs[i..]);
        ghost var now := templates.used;
        var dataObject := NewDataObject(defs[i], templates, fuel);
        GrowingStep(before, now, templates.used, ReachOf(decls, DoRef(defs[i])),
                    ReachAll(decls, DoItems(defs[i + 1..])), target, dataObject.Ok?);
        if dataObject.Failed? {
          return Some(dataObject.failure);
        }
        PrependMore(subDataObjects, dataObject.value, UnfoldDos(decls, fuel, defs[i + 1..]));
        subDataObjects := subDataObjects + [dataObject.value];
      }
      assert defs[|defs|..] == [];
      PrependNothing(subDataObjects, whole);
      return None;
    }
  }

  method NewDataObject(def: DoDef, templates: DataTypeTemplates, ghost fuel: nat) returns (r: Outcome<DataObject>)
    requires UnfoldDo(templates.typeDeclarations, fuel, def).Answered()
    modifies templates
    ensures r == UnfoldDo(templates.typeDeclarations, fuel, def)
    ensures Grows(old(templates.used), templates.used, ReachOf(templates.typeDeclarations, DoRef(def)), r.Ok?)
    decreases fuel, 2
  {
    ghost var decls, before := templates.typeDeclarations, templates.used;
    var t := LookupType(templates.typeDeclarations, def.typ);
    if t.None? {
      return Failed(MissingType);
    }
    var d := templates.typeDeclarations[t.value];
    DoEntered(decls, fuel, def, t.value);
    templates.SetUsed(t.value);
    ghost var marked := templates.used;
    r := FillDataObject(def, d, templates, Inside(fuel));
    MembersReach(decls, def, t.value);
    MarkedGrows(before, marked, templates.used, t.value, MembersOf(decls, d), ReachOf(decls, DoRef(def)), r.Ok?);
  }

  /** The object's attributes, then its sub data objects. */
  method FillDataObject(def: DoDef, d: TypeDecl, templates: DataTypeTemplates, ghost fuel: nat)
    returns (r: Outcome<DataObject>)
    requires FillDo(templates.typeDeclarations, fuel, def, d).Answered()
    modifies templates
    ensures r == FillDo(templates.typeDeclarations, fuel, def, d)
    ensures Grows(old(templates.used), templates.used, MembersOf(templates.typeDeclarations, d), r.Ok?)
    decreases fuel, if d.DoType? then 4 else 1
  {
    ghost var decls, before := templates.typeDeclarations, templates.used;
    var node := new DataObjectNode(def, d);
    var failure := node.CreateDataAttributes(templates, fuel);
    if failure.Some? {
      return Failed(failure.value);
    }
    ghost var mid := templates.used;
    failure := node.CreateSubDataObjects(templates, fuel);
    if failure.Some? {
      return Failed(failure.value);
    }
    GrowsThen(before, mid, templates.used, ReachAll(decls, DaItems(d.das)), ReachAll(decls, DoItems(d.sdos)));
    return Ok(DataObject(node.name, node.count, node.trans, node.subDataObjects, node.dataAttributes));
  }

  /** What the members of a declaration lead to when it is taken for a data object's type. */
  ghost function MembersOf(decls: seq<TypeDecl>, d: TypeDecl): set<nat> {
    ReachAll(decls, DaItems(DefsOf(d))) + if d.DoType? then ReachAll(decls, DoItems(d.sdos)) else {}
  }

  lemma {:induction false} GrowsThen(a: set<nat>, b: set<nat>, c: set<nat>, first: set<nat>, second: set<nat>)
    requires Grows(a, b, first, true) && Grows(b, c, second, true)
    ensures Grows(a, c, first + second, true)
  {
  }

  lemma {:induction false} MarkedGrows(a: set<nat>, b: set<nat>, c: set<nat>, t: nat, inside: set<nat>, reach: set<nat>,
                                       ok: bool)
    requires b == a + {t} && Grows(b, c, inside, ok) && {t} + inside <= reach && (ok ==> reach == {t} + inside)
    ensures Grows(a, c, reach, ok)
  {
  }

  /** The fuel left for the members of a declaration. */
  function Inside(fuel: nat): nat {
    if fuel == 0 then 0 else fuel - 1
  }

  lemma {:induction false} DoEntered(decls: seq<TypeDecl>, fuel: nat, def: DoDef, t: nat)
    requires LookupType(decls, def.typ) == Some(t) && UnfoldDo(decls, fuel, def).Answered()
    ensures UnfoldDo(decls, fuel, def) == FillDo(decls, Inside(fuel), def, decls[t])
    ensures decls[t].DoType? ==> fuel > 0
    ensures UnfoldDo(decls, fuel, def).Ok? ==> decls[t].DoType?
  {
    var d := decls[t];
    if !d.DoType? && !d.DaType? {
      assert DefsOf(d) == [];
    }
  }

  /** What a data object leads to: its declaration, its attributes and its sub data objects. */
  lemma {:induction false} MembersReach(decls: seq<TypeDecl>, def: DoDef, t: nat)
    requires LookupType(decls, def.typ) == Some(t)
    ensures {t} + MembersOf(decls, decls[t]) <= ReachOf(decls, DoRef(def))
    ensures decls[t].DoType? ==> ReachOf(decls, DoRef(def)) == {t} + MembersOf(decls, decls[t])
  {
    ReachStep(decls, DoRef(def));
    ItemsReach(decls, decls[t]);
  }

  // ----- logical nodes

  /** The parser's instantiation of one logical node. */
  method InstantiateLogicalNode(lnType: string, templates: DataTypeTemplates, ghost fuel: nat)
    returns (r: Outcome<seq<DataObject>>)
    requires UnfoldLn(templates.typeDeclarations, fuel, lnType).Answered()
    modifies templates
    ensures r == UnfoldLn(templates.typeDeclarations, fuel, lnType)
    ensures Grows(old(templates.used), templates.used, ReachOf(templates.typeDeclarations, LnRef(lnType)), r.Ok?)
  {
    ghost var decls := templates.typeDeclarations;
    var t := LookupType(templates.typeDeclarations, lnType);
    if t.None? {
      return Failed(MissingType);
    }
    var d := templates.typeDeclarations[t.value];
    if !d.LNodeType? {
      return Failed(WrongType);
    }
    ReachStep(decls, LnRef(lnType));
    assert fuel > 0;
    templates.SetUsed(t.value);
    r := CreateDataObjects(d.dos, templates, fuel - 1);
  }

  /** The loop over the data object definitions of the node type. */
  method CreateDataObjects(defs: seq<DoDef>, templates: DataTypeTemplates, ghost fuel: nat)
    returns (r: Outcome<seq<DataObject>>)
    requires UnfoldDos(templates.typeDeclarations, fuel, defs).Answered()
    modifies templates
    ensures r == UnfoldDos(templates.typeDeclarations, fuel, defs)
    ensures Grows(old(templates.used), templates.used, ReachAll(templates.typeDeclarations, DoItems(defs)), r.Ok?)
  {
    ghost var decls, before := templates.typeDeclarations, templates.used;
    ghost var target, whole := ReachAll(decls, DoItems(defs)), UnfoldDos(decls, fuel, defs);
    var dos: seq<DataObject> := [];
    PrependNothing(dos, whole);
    assert defs[0..] == defs;
    for i := 0 to |defs|
      invariant Prepend(dos, UnfoldDos(decls, fuel, defs[i..])) == whole
      invariant Growing(before, templates.used, ReachAll(decls, DoItems(defs[i..])), target)
    {
      assert defs[i..][1..] == defs[i + 1..];
      DoItemsReach(decls, defs[i..]);
      ghost var now := templates.used;
      var dataObject := NewDataObject(defs[i], templates, fuel);
      GrowingStep(before, now, templates.used, ReachOf(decls, DoRef(defs[i])),
                  ReachAll(decls, DoItems(defs[i + 1..])), target, dataObject.Ok?);
      if dataObject.Failed? {
        return Failed(dataObject.failure);
      }
      PrependMore(dos, dataObject.value, UnfoldDos(decls, fuel, defs[i + 1..]));
      dos := dos + [dataObject.value];
    }
    assert defs[|defs|..] == [];
    PrependNothing(dos, whole);
    return Ok(dos);
  }

  /** The parser's instantiation of one device: look up all node types, then instantiate the nodes. */
  method InstantiateDevice(lnTypes: seq<string>, templates: DataTypeTemplates, ghost fuel: nat)
    returns (r: Outcome<seq<seq<DataObject>>>)
    requires UnfoldDevice(templates.typeDeclarations, fuel, lnTypes).Answered()
    modifies templates
    ensures r == UnfoldDevice(templates.typeDeclarations, fuel, lnTypes)
    ensures Grows(old(templates.used), templates.used, ReachAll(templates.typeDeclarations, LnItems(lnTypes)), r.Ok?)
  {
    for i := 0 to |lnTypes|
      invariant templates.used == old(templates.used)
      invariant forall k :: 0 <= k < i ==> LookupType(templates.typeDeclarations, lnTypes[k]).Some?
    {
      if LookupType(templates.typeDeclarations, lnTypes[i]).None? {
        assert lnTypes[i] in lnTypes;
        return Failed(MissingType);
      }
    }
    ghost var decls, before := templates.typeDeclarations, templates.used;
    ghost var target, whole := ReachAll(decls, LnItems(lnTypes)), UnfoldLns(decls, fuel, lnTypes);
    var all: seq<seq<DataObject>> := [];
    PrependNothing(all, whole);
    assert lnTypes[0..] == lnTypes;
    for i := 0 to |lnTypes|
      invariant Prepend(all, UnfoldLns(decls, fuel, lnTypes[i..])) == whole
      invariant Growing(before, templates.used, ReachAll(decls, LnItems(lnTypes[i..])), target)
    {
      assert lnTypes[i..][1..] == lnTypes[i + 1..];
      LnItemsReach(decls, lnTypes[i..]);
      ghost var now := templates.used;
      var dos := InstantiateLogicalNode(lnTypes[i], templates, fuel);
      GrowingStep(before, now, templates.used, ReachOf(decls, LnRef(lnTypes[i])),
                  ReachAll(decls, LnItems(lnTypes[i + 1..])), target, dos.Ok?);
      if dos.Failed? {
        return Failed(dos.failure);
      }
      PrependMore(all, dos.value, UnfoldLns(decls, fuel, lnTypes[i + 1..]));
      all := all + [dos.value];
    }
    assert lnTypes[|lnTypes|..] == [];
    PrependNothing(all, whole);
    return Ok(all);
  }

  /** The node types of all devices. */
  function NodeTypes(devices: seq<seq<string>>): seq<string> {
    if devices == [] then [] else devices[0] + NodeTypes(devices[1..])
  }

  ghost function DevicesReach(decls: seq<TypeDecl>, devices: seq<seq<string>>): set<nat> {
    if devices == [] then {} else ReachAll(decls, LnItems(devices[0])) + DevicesReach(decls, devices[1..])
  }

  /** The parser's instantiation of all devices, given by their nodes' types. */
  method InstantiateAll(devices: seq<seq<string>>, templates: DataTypeTemplates, ghost fuel: nat)
    returns (r: Outcome<seq<seq<seq<DataObject>>>>)
    requires UnfoldDevices(templates.typeDeclarations, fuel, devices).Answered()
    modifies templates
    ensures r == UnfoldDevices(templates.typeDeclarations, fuel, devices)
    ensures Grows(old(templates.used), templates.used, DevicesReach(templates.typeDeclarations, devices), r.Ok?)
  {
    ghost var decls, before := templates.typeDeclarations, templates.used;
    ghost var target, whole := DevicesReach(decls, devices), UnfoldDevices(decls, fuel, devices);
    var all: seq<seq<seq<DataObject>>> := [];
    PrependNothing(all, whole);
    assert devices[0..] == devices;
    for i := 0 to |devices|
      invariant Prepend(all, UnfoldDevices(decls, fuel, devices[i..])) == whole
      invariant Growing(before, templates.used, DevicesReach(decls, devices[i..]), target)
    {
      assert devices[i..][1..] == devices[i + 1..];
      ghost var now := templates.used;
      var nodes := InstantiateDevice(devices[i], templates, fuel);
      GrowingStep(before, now, templates.used, ReachAll(decls, LnItems(devices[i])),
                  DevicesReach(decls, devices[i + 1..]), target, nodes.Ok?);
      if nodes.Failed? {
        return Failed(nodes.failure);
      }
      PrependMore(all, nodes.value, UnfoldDevices(decls, fuel, devices[i + 1..]));
      all := all + [nodes.value];
    }
    assert devices[|devices|..] == [];
    PrependNothing(all, whole);
    return Ok(all);
  }

  lemma {:induction false} DevicesReachIs(decls: seq<TypeDecl>, devices: seq<seq<string>>, j: nat)
    ensures j in DevicesReach(decls, devices)
       <==> exists lnType :: lnType in NodeTypes(devices) && j in ReachOf(decls, LnRef(lnType))
  {
    if devices != [] {
      DevicesReachIs(decls, devices[1..], j);
      ReachAllIs(decls, LnItems(devices[0]), j);
      forall ref | ref in LnItems(devices[0]) ensures ref.LnRef? && ref.lnType in devices[0] {
        LnItemsMember(devices[0], ref);
      }
      forall lnType | lnType in devices[0] ensures LnRef(lnType) in LnItems(devices[0]) {
        LnItemsMember(devices[0], LnRef(lnType));
      }
    }
  }

  /** The marks left by a successful instantiation of everything, as a statement about paths: a
      declaration is marked exactly if some logical node's type reaches it. */
  lemma {:induction false} UsedIsReachable(decls: seq<TypeDecl>, devices: seq<seq<string>>, used: set<nat>, j: nat)
    requires Grows({}, used, DevicesReach(decls, devices), true) && j < |decls|
    ensures j in used <==> exists lnType :: lnType in NodeTypes(devices) && LookupType(decls, lnType).Some?
                                            && Reaches(Refers(decls), LookupType(decls, lnType).value, j)
  {
    DevicesReachIs(decls, devices, j);
  }
}
