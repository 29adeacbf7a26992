/** Instantiation of the data type templates as a function: what a logical node type stands for. */
module Unfolding {
  import opened Text
  import opened Instances
  import opened Templates

  /** MissingType and WrongType are errors the source returns; AssertionPanic is its unchecked type
      assertion, hit by a data object whose type is declared but is no DOType.  OutOfFuel is none of
      the source's outcomes: it says that the recursion is deeper than the bound it was given. */
  datatype Failure = MissingType | WrongType | AssertionPanic | OutOfFuel

  datatype Outcome<+T> = Ok(value: T) | Failed(failure: Failure) {
    predicate IsFailure() { Failed? }
    function PropagateFailure<U>(): Outcome<U>
      requires Failed?
    {
      Failed(failure)
    }
    function Extract(): T
      requires Ok?
    {
      value
    }

    /** The source comes to an end, with a value or an error. */
    predicate Answered() {
      this != Failed(OutOfFuel)
    }
  }

  // ----- unfolding

  /** The functional constraint an attribute ends up with: the one handed down, if any. */
  function EffectiveFc(def: DaDef, fc: string): string {
    if fc != "" then fc else def.fc
  }

  /** `inherited` is the trigger setting of the attribute above, absent directly below a data object.
      Entering the members of a declaration takes one unit of fuel, here and for data objects. */
  function UnfoldDa(decls: seq<TypeDecl>, fuel: nat, def: DaDef, fc: string, inherited: Option<Trigger>)
    : Outcome<DataAttribute>
    decreases fuel, 0, 0
  {
    var trigger := inherited.GetOr(def.trigger);
    var da := DataAttribute(def.name, EffectiveFc(def, fc), def.attrType, def.count, trigger, None, "", def.slot, []);
    match def.attrType
    case Basic(_) => Ok(da)
    case Enumerated =>
      var t := LookupType(decls, def.typ);
      if t.None? then Failed(MissingType)
      else if !decls[t.value].EnumType? then Failed(WrongType)
      else Ok(da)
    case Constructed =>
      var t := LookupType(decls, def.typ);
      if t.None? then Failed(MissingType)
      else if !decls[t.value].DaType? then Failed(WrongType)
      else if fuel == 0 then Failed(OutOfFuel)
      else
        var subs :- UnfoldSubs(decls, fuel - 1, decls[t.value].bdas, da.fc, trigger);
        Ok(da.(subs := subs))
  }

  function UnfoldSubs(decls: seq<TypeDecl>, fuel: nat, defs: seq<DaDef>, fc: string, trigger: Trigger)
    : Outcome<seq<DataAttribute>>
    decreases fuel, 1, |defs|
  {
    if defs == [] then Ok([])
    else
      var first :- UnfoldDa(decls, fuel, defs[0], fc, Some(trigger));
      var rest :- UnfoldSubs(decls, fuel, defs[1..], fc, trigger);
      Ok([first] + rest)
  }

  /** Index of the first attribute with this name and functional constraint SP. */
  function FindSp(das: seq<DataAttribute>, name: string): (r: Option<nat>)
    ensures r.Some? ==> r.value < |das| && das[r.value].fc == "SP" && das[r.value].name == name
                        && forall k :: 0 <= k < r.value ==> !(das[k].fc == "SP" && das[k].name == name)
    ensures r.None? ==> forall k :: 0 <= k < |das| ==> !(das[k].fc == "SP" && das[k].name == name)
  {
    if das == [] then None
    else if das[0].fc == "SP" && das[0].name == name then Some(0)
    else
      var r := FindSp(das[1..], name);
      if r.None? then None else Some(r.value + 1)
  }

  /** An edit attribute takes the place of an earlier SP attribute of its name; all others are appended. */
  function AddAttribute(das: seq<DataAttribute>, da: DataAttribute): seq<DataAttribute> {
    var sp := FindSp(das, da.name);
    if da.fc == "SE" && sp.Some? then das[sp.value := da] else das + [da]
  }

  /** What an SE definition yields before its own attribute: the same attribute under SG. */
  function SgCopy(decls: seq<TypeDecl>, fuel: nat, def: DaDef): Outcome<seq<DataAttribute>> {
    if def.fc != "SE" then Ok([])
    else
      var da :- UnfoldDa(decls, fuel, def, "SG", None);
      Ok([da])
  }

  /** The attributes after one more definition. */
  function Added(decls: seq<TypeDecl>, fuel: nat, def: DaDef, done: seq<DataAttribute>): Outcome<seq<DataAttribute>> {
    var copy :- SgCopy(decls, fuel, def);
    var da :- UnfoldDa(decls, fuel, def, "", None);
    Ok(AddAttribute(done + copy, da))
  }

  /** Attributes of a data object, on top of those already done. */
  function ExpandDas(decls: seq<TypeDecl>, fuel: nat, defs: seq<DaDef>, done: seq<DataAttribute>)
    : Outcome<seq<DataAttribute>>
    decreases |defs|
  {
    if defs == [] then Ok(done)
    else
      var next :- Added(decls, fuel, defs[0], done);
      ExpandDas(decls, fuel, defs[1..], next)
  }

  /** The attribute definitions a data object takes from its type; other declarations have none. */
  function DefsOf(d: TypeDecl): seq<DaDef> {
    match d
    case DoType(_, das, _) => das
    case DaType(_, bdas) => bdas
    case _ => []
  }

  function UnfoldDo(decls: seq<TypeDecl>, fuel: nat, def: DoDef): Outcome<DataObject>
    decreases fuel, 0, 0
  {
    var t := LookupType(decls, def.typ);
    if t.None? then Failed(MissingType)
    else if !decls[t.value].DoType? && !decls[t.value].DaType? then Failed(AssertionPanic)
    else if fuel == 0 then Failed(OutOfFuel)
    else FillDo(decls, fuel - 1, def, decls[t.value])
  }

  /** A data object filled in from the declaration of its type. */
  function FillDo(decls: seq<TypeDecl>, fuel: nat, def: DoDef, d: TypeDecl): Outcome<DataObject>
    decreases fuel, 2, 0
  {
    var das :- ExpandDas(decls, fuel, DefsOf(d), []);
    if !d.DoType? then Failed(AssertionPanic)
    else
      var sdos :- UnfoldDos(decls, fuel, d.sdos);
      Ok(DataObject(def.name, def.count, def.transient, sdos, das))
  }

  function UnfoldDos(decls: seq<TypeDecl>, fuel: nat, defs: seq<DoDef>): Outcome<seq<DataObject>>
    decreases fuel, 1, |defs|
  {
    if defs == [] then Ok([])
    else
      var first :- UnfoldDo(decls, fuel, defs[0]);
      var rest :- UnfoldDos(decls, fuel, defs[1..]);
      Ok([first] + rest)
  }

  function UnfoldLn(decls: seq<TypeDecl>, fuel: nat, lnType: string): Outcome<seq<DataObject>> {
    var t := LookupType(decls, lnType);
    if t.None? then Failed(MissingType)
    else if !decls[t.value].LNodeType? then Failed(WrongType)
    else if fuel == 0 then Failed(OutOfFuel)
    else UnfoldDos(decls, fuel - 1, decls[t.value].dos)
  }

  /** Logical nodes, given by their types, up to the first failure. */
  function UnfoldLns(decls: seq<TypeDecl>, fuel: nat, lnTypes: seq<string>): Outcome<seq<seq<DataObject>>> {
    if lnTypes == [] then Ok([])
    else
      var first :- UnfoldLn(decls, fuel, lnTypes[0]);
      var rest :- UnfoldLns(decls, fuel, lnTypes[1..]);
      Ok([first] + rest)
  }

  predicate Declared(decls: seq<TypeDecl>, lnTypes: seq<string>) {
    forall lnType :: lnType in lnTypes ==> LookupType(decls, lnType).Some?
  }

  /** The nodes of one device: all their types are looked up before the first node is instantiated. */
  function UnfoldDevice(decls: seq<TypeDecl>, fuel: nat, lnTypes: seq<string>): Outcome<seq<seq<DataObject>>> {
    if Declared(decls, lnTypes) then UnfoldLns(decls, fuel, lnTypes) else Failed(MissingType)
  }

  /** All devices, up to the first failure. */
  function UnfoldDevices(decls: seq<TypeDecl>, fuel: nat, devices: seq<seq<string>>)
    : Outcome<seq<seq<seq<DataObject>>>>
  {
    if devices == [] then Ok([])
    else
      var first :- UnfoldDevice(decls, fuel, devices[0]);
      var rest :- UnfoldDevices(decls, fuel, devices[1..]);
      Ok([first] + rest)
  }

  // ----- an answer does not depend on the fuel

  lemma {:induction false} DaFuel(decls: seq<TypeDecl>, fuel: nat, more: nat, def: DaDef, fc: string,
                                  inherited: Option<Trigger>)
    requires fuel <= more && UnfoldDa(decls, fuel, def, fc, inherited).Answered()
    ensures UnfoldDa(decls, more, def, fc, inherited) == UnfoldDa(decls, fuel, def, fc, inherited)
    decreases fuel, 0, 0
  {
    if def.attrType.Constructed? && fuel > 0 {
      var t := LookupType(decls, def.typ);
      if t.Some? && decls[t.value].DaType? {
        SubsFuel(decls, fuel - 1, more - 1, decls[t.value].bdas, EffectiveFc(def, fc), inherited.GetOr(def.trigger));
      }
    }
  }

  lemma {:induction false} SubsFuel(decls: seq<TypeDecl>, fuel: nat, more: nat, defs: seq<DaDef>, fc: string,
                                    trigger: Trigger)
    requires fuel <= more && UnfoldSubs(decls, fuel, defs, fc, trigger).Answered()
    ensures UnfoldSubs(decls, more, defs, fc, trigger) == UnfoldSubs(decls, fuel, defs, fc, trigger)
    decreases fuel, 1, |defs|
  {
    if defs != [] {
      DaFuel(decls, fuel, more, defs[0], fc, Some(trigger));
      if UnfoldDa(decls, fuel, defs[0], fc, Some(trigger)).Ok? {
        SubsFuel(decls, fuel, more, defs[1..], fc, trigger);
      }
    }
  }

  lemma {:induction false} AddedFuel(decls: seq<TypeDecl>, fuel: nat, more: nat, def: DaDef, done: seq<DataAttribute>)
    requires fuel <= more && Added(decls, fuel, def, done).Answered()
    ensures Added(decls, more, def, done) == Added(decls, fuel, def, done)
  {
    if def.fc == "SE" {
      DaFuel(decls, fuel, more, def, "SG", None);
    }
    if SgCopy(decls, fuel, def).Ok? {
      DaFuel(decls, fuel, more, def, "", None);
    }
  }

  lemma {:induction false} ExpandFuel(decls: seq<TypeDecl>, fuel: nat, more: nat, defs: seq<DaDef>,
                                      done: seq<DataAttribute>)
    requires fuel <= more && ExpandDas(decls, fuel, defs, done).Answered()
    ensures ExpandDas(decls, more, defs, done) == ExpandDas(decls, fuel, defs, done)
    decreases |defs|
  {
    if defs != [] {
      AddedFuel(decls, fuel, more, defs[0], done);
      var next := Added(decls, fuel, defs[0], done);
      if next.Ok? {
        ExpandFuel(decls, fuel, more, defs[1..], next.value);
      }
    }
  }

  lemma {:induction false} DoFuel(decls: seq<TypeDecl>, fuel: nat, more: nat, def: DoDef)
    requires fuel <= more && UnfoldDo(decls, fuel, def).Answered()
    ensures UnfoldDo(decls, more, def) == UnfoldDo(decls, fuel, def)
    decreases fuel, 0, 0
  {
    var t := LookupType(decls, def.typ);
    if fuel > 0 && t.Some? && (decls[t.value].DoType? || decls[t.value].DaType?) {
      FillFuel(decls, fuel - 1, more - 1, def, decls[t.value]);
    }
  }

  lemma {:induction false} FillFuel(decls: seq<TypeDecl>, fuel: nat, more: nat, def: DoDef, d: TypeDecl)
    requires fuel <= more && FillDo(decls, fuel, def, d).Answered()
    ensures FillDo(decls, more, def, d) == FillDo(decls, fuel, def, d)
    decreases fuel, 2, 0
  {
    ExpandFuel(decls, fuel, more, DefsOf(d), []);
    if d.DoType? && ExpandDas(decls, fuel, DefsOf(d), []).Ok? {
      DosFuel(decls, fuel, more, d.sdos);
    }
  }

  lemma {:induction false} DosFuel(decls: seq<TypeDecl>, fuel: nat, more: nat, defs: seq<DoDef>)
    requires fuel <= more && UnfoldDos(decls, fuel, defs).Answered()
    ensures UnfoldDos(decls, more, defs) == UnfoldDos(decls, fuel, defs)
    decreases fuel, 1, |defs|
  {
    if defs != [] {
      DoFuel(decls, fuel, more, defs[0]);
      if UnfoldDo(decls, fuel, defs[0]).Ok? {
        DosFuel(decls, fuel, more, defs[1..]);
      }
    }
  }

  lemma {:induction false} LnFuel(decls: seq<TypeDecl>, fuel: nat, more: nat, lnType: string)
    requires fuel <= more && UnfoldLn(decls, fuel, lnType).Answered()
    ensures UnfoldLn(decls, more, lnType) == UnfoldLn(decls, fuel, lnType)
  {
    var t := LookupType(decls, lnType);
    if t.Some? && decls[t.value].LNodeType? {
      DosFuel(decls, fuel - 1, more - 1, decls[t.value].dos);
    }
  }

  lemma {:induction false} LnsFuel(decls: seq<TypeDecl>, fuel: nat, more: nat, lnTypes: seq<string>)
    requires fuel <= more && UnfoldLns(decls, fuel, lnTypes).Answered()
    ensures UnfoldLns(decls, more, lnTypes) == UnfoldLns(decls, fuel, lnTypes)
  {
    if lnTypes != [] {
      LnFuel(decls, fuel, more, lnTypes[0]);
      if UnfoldLn(decls, fuel, lnTypes[0]).Ok? {
        LnsFuel(decls, fuel, more, lnTypes[1..]);
      }
    }
  }

  lemma {:induction false} DeviceAgrees(decls: seq<TypeDecl>, fuel: nat, other: nat, lnTypes: seq<string>)
    requires UnfoldDevice(decls, fuel, lnTypes).Answered() && UnfoldDevice(decls, other, lnTypes).Answered()
    ensures UnfoldDevice(decls, fuel, lnTypes) == UnfoldDevice(decls, other, lnTypes)
  {
    if Declared(decls, lnTypes) {
      if fuel <= other {
        LnsFuel(decls, fuel, other, lnTypes);
      } else {
        LnsFuel(decls, other, fuel, lnTypes);
      }
    }
  }

  lemma {:induction false} DevicesFuel(decls: seq<TypeDecl>, fuel: nat, more: nat, devices: seq<seq<string>>)
    requires fuel <= more && UnfoldDevices(decls, fuel, devices).Answered()
    ensures UnfoldDevices(decls, more, devices) == UnfoldDevices(decls, fuel, devices)
  {
    if devices != [] {
      if Declared(decls, devices[0]) {
        LnsFuel(decls, fuel, more, devices[0]);
      }
      if UnfoldDevice(decls, fuel, devices[0]).Ok? {
        DevicesFuel(decls, fuel, more, devices[1..]);
      }
    }
  }

  /** Whatever bounds two instantiations were given, if both answer they give the same answer. */
  lemma {:induction false} OneAnswer(decls: seq<TypeDecl>, fuel: nat, other: nat, devices: seq<seq<string>>)
    requires UnfoldDevices(decls, fuel, devices).Answered() && UnfoldDevices(decls, other, devices).Answered()
    ensures UnfoldDevices(decls, fuel, devices) == UnfoldDevices(decls, other, devices)
  {
    if devices != [] {
      DeviceAgrees(decls, fuel, other, devices[0]);
      if UnfoldDevice(decls, fuel, devices[0]).Ok? {
        OneAnswer(decls, fuel, other, devices[1..]);
      }
    }
  }
}
