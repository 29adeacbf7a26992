/** Which of the attributes that share a name an instance value reaches: a setting comes as an SG and
    an SE attribute, and only one of the two can be given a value. */
module SettingValues {
  import opened Text
  import opened Instances
  import opened Templates
  import opened Unfolding
  import opened Expansion
  import opened InstanceValues

  /** First definition with the name. */
  function FirstDef(defs: seq<DaDef>, name: string): (r: Option<nat>)
    ensures r.Some? ==> r.value < |defs| && defs[r.value].name == name
                        && forall k :: 0 <= k < r.value ==> defs[k].name != name
    ensures r.None? ==> forall k :: 0 <= k < |defs| ==> defs[k].name != name
  {
    if defs == [] then None
    else if defs[0].name == name then Some(0)
    else
      var r := FirstDef(defs[1..], name);
      if r.None? then None else Some(r.value + 1)
  }

  predicate HasSe(defs: seq<DaDef>, name: string) {
    exists def :: def in defs && def.name == name && def.fc == "SE"
  }

  /** Functional constraint of the attribute a value for the name goes to, told from the definitions. */
  function ReceiverFc(defs: seq<DaDef>, name: string): string
    requires FirstDef(defs, name).Some?
  {
    var fc := defs[FirstDef(defs, name).value].fc;
    if fc == "SE" then "SG" else if fc == "SP" && HasSe(defs, name) then "SE" else fc
  }

  lemma {:induction false} FindDaIs(das: seq<DataAttribute>, name: string, i: nat)
    requires i < |das| && das[i].name == name && forall k :: 0 <= k < i ==> das[k].name != name
    ensures FindDa(das, name) == Some(i)
  {
  }

  lemma {:induction false} FindSpIs(das: seq<DataAttribute>, name: string, i: nat)
    requires FindDa(das, name) == Some(i) && das[i].fc == "SP"
    ensures FindSp(das, name) == Some(i)
  {
  }

  /** One more attribute never moves the first of a name, and changes it only in an SP slot. */
  lemma {:induction false} AddFirst(done: seq<DataAttribute>, da: DataAttribute, name: string)
    ensures var r, f := AddAttribute(done, da), FindDa(done, name);
            if f.Some? then
              && FindDa(r, name) == f && f.value < |r|
              && r[f.value].fc == if da.name == name && da.fc == "SE" && done[f.value].fc == "SP" then "SE"
                                  else done[f.value].fc
            else if da.name == name then FindDa(r, name) == Some(|done|) && |done| < |r| && r[|done|] == da
            else FindDa(r, name).None?
  {
    var r, f := AddAttribute(done, da), FindDa(done, name);
    if f.Some? {
      if done[f.value].fc == "SP" {
        FindSpIs(done, name, f.value);
      }
      FindDaIs(r, name, f.value);
    } else if da.name == name {
      assert r == done + [da];
      FindDaIs(r, name, |done|);
    }
  }

  lemma {:induction false} AppendFirst(done: seq<DataAttribute>, copy: DataAttribute, name: string)
    ensures var f := FindDa(done, name);
            FindDa(done + [copy], name) == if f.Some? then f else if copy.name == name then Some(|done|) else None
  {
    var f := FindDa(done, name);
    if f.Some? {
      FindDaIs(done + [copy], name, f.value);
    } else if copy.name == name {
      FindDaIs(done + [copy], name, |done|);
    }
  }

  /** The same for one definition, which may bring two attributes. */
  lemma {:induction false} AddedFirst(decls: seq<TypeDecl>, fuel: nat, def: DaDef, done: seq<DataAttribute>,
                                      name: string)
    requires Added(decls, fuel, def, done).Ok?
    ensures var r, f := Added(decls, fuel, def, done).value, FindDa(done, name);
            if f.Some? then
              && FindDa(r, name) == f && f.value < |r|
              && r[f.value].fc == if def.name == name && def.fc == "SE" && done[f.value].fc == "SP" then "SE"
                                  else done[f.value].fc
            else if def.name == name then
              && FindDa(r, name) == Some(|done|) && |done| < |r|
              && r[|done|].fc == if def.fc == "SE" then "SG" else def.fc
            else FindDa(r, name).None?
  {
    var da := Top(decls, fuel, def, "").value;
    TopShape(decls, fuel, def, "");
    if def.fc == "SE" {
      var copy := Top(decls, fuel, def, "SG").value;
      TopShape(decls, fuel, def, "SG");
      AppendFirst(done, copy, name);
      AddFirst(done + [copy], da, name);
    } else {
      assert done + [] == done;
      AddFirst(done, da, name);
    }
  }

  lemma {:induction false} FirstDefStep(defs: seq<DaDef>, name: string)
    requires defs != []
    ensures HasSe(defs, name) <==> (defs[0].name == name && defs[0].fc == "SE") || HasSe(defs[1..], name)
    ensures defs[0].name != name && FirstDef(defs[1..], name).Some? ==>
              FirstDef(defs, name).Some? && ReceiverFc(defs, name) == ReceiverFc(defs[1..], name)
    ensures FirstDef(defs, name).None? ==> defs[0].name != name && FirstDef(defs[1..], name).None?
  {
    assert forall def :: def in defs <==> def == defs[0] || def in defs[1..];
  }

  /** The first attribute of a name among all that definitions expand to. */
  lemma {:induction false} ExpandFirst(decls: seq<TypeDecl>, fuel: nat, defs: seq<DaDef>, done: seq<DataAttribute>,
                                       name: string)
    requires ExpandDas(decls, fuel, defs, done).Ok?
    ensures var r, f := ExpandDas(decls, fuel, defs, done).value, FindDa(done, name);
            if f.Some? then
              && FindDa(r, name) == f && f.value < |r|
              && r[f.value].fc == if done[f.value].fc == "SP" && HasSe(defs, name) then "SE" else done[f.value].fc
            else if FirstDef(defs, name).Some? then
              FindDa(r, name).Some? && r[FindDa(r, name).value].fc == ReceiverFc(defs, name)
            else FindDa(r, name).None?
    decreases |defs|
  {
    if defs != [] {
      AddedFirst(decls, fuel, defs[0], done, name);
      ExpandFirst(decls, fuel, defs[1..], Added(decls, fuel, defs[0], done).value, name);
      FirstDefStep(defs, name);
    }
  }

  /** Of all attributes of a name exactly one takes the value of the last DAI for the name, and its
      functional constraint is told by the definitions. */
  lemma {:induction false} ReceiverExact(decls: seq<TypeDecl>, fuel: nat, conv: Conversion, d: DataObject,
                                         defs: seq<DaDef>, dais: seq<Dai>, name: string)
    returns (i: nat)
    requires ExpandDas(decls, fuel, defs, []) == Ok(d.das)
    requires ApplyDais(conv, d, dais).Done? && LastDai(dais, name).Some? && FirstDef(defs, name).Some?
    ensures var e, k := ApplyDais(conv, d, dais).value, LastDai(dais, name).value;
            && i < |d.das| == |e.das| && d.das[i].name == name && d.das[i].fc == ReceiverFc(defs, name)
            && e.das[i].value.Some? && e.das[i].value == conv(d.das[i].attrType, d.das[i].slot, dais[k].val.value)
            && forall j :: 0 <= j < |d.das| && j != i && d.das[j].name == name ==> e.das[j] == d.das[j]
  {
    ExpandFirst(decls, fuel, defs, [], name);
    i := FindDa(d.das, name).value;
    DaisEffect(conv, d, dais);
    var e := ApplyDais(conv, d, dais).value;
    assert Became(conv, d.das, dais, i, e.das[i]);
    forall j | 0 <= j < |d.das| && j != i && d.das[j].name == name ensures e.das[j] == d.das[j] {
      assert Became(conv, d.das, dais, j, e.das[j]);
    }
  }

  lemma {:induction false} OnlySp(defs: seq<DaDef>, name: string, i: nat, k: nat)
    requires Pairable(defs) && FirstDef(defs, name) == Some(i)
    requires k < |defs| && defs[k].name == name && defs[k].fc == "SP"
    ensures k == i
  {
  }

  /** For a setting, the SE attribute receives the value exactly if it took the slot of an SP
      definition standing before it; otherwise the SG copy receives it. */
  lemma {:induction false} SettingReceiver(defs: seq<DaDef>, name: string)
    requires HasSe(defs, name)
    ensures FirstDef(defs, name).Some?
    ensures ReceiverFc(defs, name) == "SE" <==> defs[FirstDef(defs, name).value].fc == "SP"
    ensures Pairable(defs) ==>
              && (ReceiverFc(defs, name) == "SE" <==> exists def :: def in defs && def.name == name && def.fc == "SP")
              && (ReceiverFc(defs, name) == "SE" || ReceiverFc(defs, name) == "SG")
  {
    var se :| se in defs && se.name == name && se.fc == "SE";
    var j :| 0 <= j < |defs| && defs[j] == se;
    var i := FirstDef(defs, name).value;
    if Pairable(defs) {
      assert i < j ==> defs[i].fc == "SP";
      forall def | def in defs && def.name == name && def.fc == "SP" ensures def == defs[i] {
        var k :| 0 <= k < |defs| && defs[k] == def;
        OnlySp(defs, name, i, k);
      }
      assert defs[i] in defs;
    }
  }

  // ----- the two cases at concrete inputs

  function Def(name: string, fc: string, slot: nat): DaDef {
    DaDef(name, fc, "", Basic(0), 0, Trigger(false, false, false), slot)
  }

  function Attribute(name: string, fc: string, slot: nat): DataAttribute {
    DataAttribute(name, fc, Basic(0), 0, Trigger(false, false, false), None, "", slot, [])
  }

  const TEXTUAL: Conversion := (t, slot, text) => Some(Literal(text))

  /** An SE definition alone: the SG copy receives the value. */
  lemma {:induction false} SgCopyReceives()
    ensures var das := [Attribute("x", "SG", 0), Attribute("x", "SE", 0)];
            var d := DataObject("D", 0, false, [], das);
            && ExpandDas([], 0, [Def("x", "SE", 0)], []) == Ok(das)
            && ApplyDais(TEXTUAL, d, [Dai("x", Some("1"), "")])
               == Done(d.(das := [das[0].(value := Some(Literal("1"))), das[1]]))
  {
    var das := [Attribute("x", "SG", 0), Attribute("x", "SE", 0)];
    var defs := [Def("x", "SE", 0)];
    assert defs[1..] == [] && [] + [das[0]] + [das[1]] == das;
    assert Added([], 0, defs[0], []) == Ok(das);
    OneDai(DataObject("D", 0, false, [], das));
  }

  /** An SP definition before it: the SE attribute takes its slot and receives the value. */
  lemma {:induction false} SpSlotReceives()
    ensures var das := [Attribute("x", "SE", 1), Attribute("x", "SG", 1)];
            var d := DataObject("D", 0, false, [], das);
            && ExpandDas([], 0, [Def("x", "SP", 0), Def("x", "SE", 1)], []) == Ok(das)
            && ApplyDais(TEXTUAL, d, [Dai("x", Some("1"), "")])
               == Done(d.(das := [das[0].(value := Some(Literal("1"))), das[1]]))
  {
    var das := [Attribute("x", "SE", 1), Attribute("x", "SG", 1)];
    var defs := [Def("x", "SP", 0), Def("x", "SE", 1)];
    var sp := [Attribute("x", "SP", 0)];
    assert defs[1..] == [defs[1]] && defs[1..][1..] == [];
    assert [] + [] + sp == sp;
    assert Added([], 0, defs[0], []) == Ok(sp);
    FindDaIs(sp + [das[1]], "x", 0);
    FindSpIs(sp + [das[1]], "x", 0);
    assert (sp + [das[1]])[0 := das[0]] == das;
    assert Added([], 0, defs[1], sp) == Ok(das);
    OneDai(DataObject("D", 0, false, [], das));
  }

  lemma {:induction false} OneDai(d: DataObject)
    requires |d.das| == 2 && d.das[0].name == "x"
    ensures ApplyDais(TEXTUAL, d, [Dai("x", Some("1"), "")])
         == Done(d.(das := [d.das[0].(value := Some(Literal("1"))), d.das[1]]))
  {
    var dai := Dai("x", Some("1"), "");
    FindDaIs(d.das, "x", 0);
    assert [dai][1..] == [];
    assert d.das[0 := SetValue(d.das[0], dai, Literal("1"))] == [d.das[0].(value := Some(Literal("1"))), d.das[1]];
    assert ApplyDai(TEXTUAL, d, dai) == Done(d.(das := [d.das[0].(value := Some(Literal("1"))), d.das[1]]));
  }
}
