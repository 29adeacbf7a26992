/** What unfolding guarantees about its result: functional constraints and triggers are inherited
    uniformly, SE definitions come out as an SG copy and an SE attribute, and clean templates yield
    clean instances. */
module Expansion {
  import opened Text
  import opened Instances
  import opened Templates
  import opened Linking
  import opened ModelTable
  import opened References
  import opened Unfolding

  // ----- inheritance

  predicate Inherits(da: DataAttribute, fc: string, trigger: Trigger) {
    da.fc == fc && da.trigger == trigger && forall sub :: sub in da.subs ==> Inherits(sub, fc, trigger)
  }

  /** Below an attribute with a functional constraint, everything has that constraint and its trigger. */
  lemma {:induction false} UniformInheritance(decls: seq<TypeDecl>, fuel: nat, def: DaDef, fc: string,
                                              inherited: Option<Trigger>)
    requires EffectiveFc(def, fc) != ""
    requires UnfoldDa(decls, fuel, def, fc, inherited).Ok?
    ensures Inherits(UnfoldDa(decls, fuel, def, fc, inherited).value, EffectiveFc(def, fc),
                     inherited.GetOr(def.trigger))
    decreases fuel, 0, 0
  {
    if def.attrType.Constructed? {
      var t := LookupType(decls, def.typ);
      var bdas := decls[t.value].bdas;
      SubsInherit(decls, fuel - 1, bdas, EffectiveFc(def, fc), inherited.GetOr(def.trigger));
    }
  }

  lemma {:induction false} SubsInherit(decls: seq<TypeDecl>, fuel: nat, defs: seq<DaDef>, fc: string, trigger: Trigger)
    requires fc != "" && UnfoldSubs(decls, fuel, defs, fc, trigger).Ok?
    ensures forall da :: da in UnfoldSubs(decls, fuel, defs, fc, trigger).value ==> Inherits(da, fc, trigger)
    decreases fuel, 1, |defs|
  {
    if defs != [] {
      UniformInheritance(decls, fuel, defs[0], fc, Some(trigger));
      SubsInherit(decls, fuel, defs[1..], fc, trigger);
    }
  }

  lemma {:induction false} InheritsUniform(da: DataAttribute, fc: string, trigger: Trigger)
    requires Inherits(da, fc, trigger)
    ensures Uniform(da)
    decreases da
  {
    forall sub | sub in da.subs ensures Uniform(sub) {
      InheritsUniform(sub, fc, trigger);
    }
  }

  // ----- SG and SE

  /** The outcome of unfolding a definition directly below a data object. */
  function Top(decls: seq<TypeDecl>, fuel: nat, def: DaDef, fc: string): Outcome<DataAttribute>
  {
    UnfoldDa(decls, fuel, def, fc, None)
  }

  lemma {:induction false} TopShape(decls: seq<TypeDecl>, fuel: nat, def: DaDef, fc: string)
    requires Top(decls, fuel, def, fc).Ok?
    ensures var da := Top(decls, fuel, def, fc).value; da.name == def.name && da.fc == EffectiveFc(def, fc)
  {
  }

  predicate DistinctDefs(defs: seq<DaDef>) {
    forall i, j :: 0 <= i < j < |defs| ==> defs[i].name != defs[j].name
  }

  predicate AllUnfold(decls: seq<TypeDecl>, fuel: nat, defs: seq<DaDef>) {
    forall def :: def in defs ==> SgCopy(decls, fuel, def).Ok? && Top(decls, fuel, def, "").Ok?
  }

  /** A definition as it comes out: an SE definition as its SG copy followed by itself. */
  function Expanded(decls: seq<TypeDecl>, fuel: nat, def: DaDef): (r: seq<DataAttribute>)
    requires SgCopy(decls, fuel, def).Ok? && Top(decls, fuel, def, "").Ok?
    ensures forall da :: da in r ==> da.name == def.name
  {
    SgCopy(decls, fuel, def).value + [Top(decls, fuel, def, "").value]
  }

  /** All definitions in order. */
  function InOrder(decls: seq<TypeDecl>, fuel: nat, defs: seq<DaDef>): seq<DataAttribute>
    requires AllUnfold(decls, fuel, defs)
  {
    if defs == [] then [] else Expanded(decls, fuel, defs[0]) + InOrder(decls, fuel, defs[1..])
  }

  lemma {:induction false} UniqueStep(decls: seq<TypeDecl>, fuel: nat, def: DaDef, done: seq<DataAttribute>)
    requires Added(decls, fuel, def, done).Ok? && forall da :: da in done ==> da.name != def.name
    ensures SgCopy(decls, fuel, def).Ok? && Top(decls, fuel, def, "").Ok?
    ensures Added(decls, fuel, def, done) == Ok(done + Expanded(decls, fuel, def))
  {
    var copy, da := SgCopy(decls, fuel, def).value, Top(decls, fuel, def, "").value;
    var sp := FindSp(done + copy, da.name);
    if sp.Some? && sp.value < |done| {
      assert done[sp.value] in done;
    }
    Assoc(done, copy, [da]);
  }

  predicate NamesApart(das: seq<DataAttribute>, defs: seq<DaDef>) {
    forall da, def :: da in das && def in defs ==> da.name != def.name
  }

  lemma {:induction false} NamesApartStep(das: seq<DataAttribute>, here: seq<DataAttribute>, defs: seq<DaDef>)
    requires defs != [] && NamesApart(das, defs) && DistinctDefs(defs)
    requires forall da :: da in here ==> da.name == defs[0].name
    ensures NamesApart(das + here, defs[1..]) && DistinctDefs(defs[1..])
  {
    forall x, d | x in das + here && d in defs[1..] ensures x.name != d.name {
      var j :| 0 <= j < |defs[1..]| && defs[1..][j] == d;
      assert defs[j + 1] == d && defs[0].name != defs[j + 1].name;
      assert d in defs;
    }
  }

  /** For unique definition names the attributes are the definitions in order, each SE definition
      as an SG copy followed by the SE attribute. */
  lemma {:induction false} UniqueExpansion(decls: seq<TypeDecl>, fuel: nat, defs: seq<DaDef>, done: seq<DataAttribute>)
    requires ExpandDas(decls, fuel, defs, done).Ok? && DistinctDefs(defs) && NamesApart(done, defs)
    ensures AllUnfold(decls, fuel, defs)
    ensures ExpandDas(decls, fuel, defs, done) == Ok(done + InOrder(decls, fuel, defs))
    decreases |defs|
  {
    if defs == [] {
      assert done + InOrder(decls, fuel, defs) == done;
    } else {
      UniqueFirst(decls, fuel, defs, done);
      var here := Expanded(decls, fuel, defs[0]);
      UniqueExpansion(decls, fuel, defs[1..], done + here);
      Assoc(done, here, InOrder(decls, fuel, defs[1..]));
    }
  }

  lemma {:induction false} UniqueFirst(decls: seq<TypeDecl>, fuel: nat, defs: seq<DaDef>, done: seq<DataAttribute>)
    requires ExpandDas(decls, fuel, defs, done).Ok? && DistinctDefs(defs) && NamesApart(done, defs) && defs != []
    ensures SgCopy(decls, fuel, defs[0]).Ok? && Top(decls, fuel, defs[0], "").Ok? && DistinctDefs(defs[1..])
    ensures NamesApart(done + Expanded(decls, fuel, defs[0]), defs[1..])
    ensures ExpandDas(decls, fuel, defs, done)
         == ExpandDas(decls, fuel, defs[1..], done + Expanded(decls, fuel, defs[0]))
  {
    assert defs[0] in defs;
    UniqueStep(decls, fuel, defs[0], done);
    NamesApartStep(done, Expanded(decls, fuel, defs[0]), defs);
  }

  /** No SP attribute stands before an SE attribute of its name. */
  predicate SpReplaced(das: seq<DataAttribute>) {
    forall i, j :: 0 <= i < j < |das| && das[i].fc == "SP" && das[j].fc == "SE" ==> das[i].name != das[j].name
  }

  lemma {:induction false} AddKeepsSpReplaced(das: seq<DataAttribute>, da: DataAttribute)
    requires SpReplaced(das)
    ensures SpReplaced(AddAttribute(das, da))
  {
    var r := AddAttribute(das, da);
    forall i, j | 0 <= i < j < |r| && r[i].fc == "SP" && r[j].fc == "SE" ensures r[i].name != r[j].name {
      if r[j] == da {
        assert r[i] == das[i];
      } else {
        assert r[i] == das[i] && r[j] == das[j];
      }
    }
  }

  function CountFc(das: seq<DataAttribute>, fc: string): nat {
    if das == [] then 0 else (if das[0].fc == fc then 1 else 0) + CountFc(das[1..], fc)
  }

  function CountDefs(defs: seq<DaDef>, fc: string): nat {
    if defs == [] then 0 else (if defs[0].fc == fc then 1 else 0) + CountDefs(defs[1..], fc)
  }

  lemma {:induction false} CountJoin(a: seq<DataAttribute>, b: seq<DataAttribute>, fc: string)
    ensures CountFc(a + b, fc) == CountFc(a, fc) + CountFc(b, fc)
  {
    if a == [] {
      assert a + b == b;
    } else {
      assert (a + b)[1..] == a[1..] + b;
      CountJoin(a[1..], b, fc);
    }
  }

  lemma {:induction false} CountReplace(das: seq<DataAttribute>, i: nat, da: DataAttribute, fc: string)
    requires i < |das|
    ensures CountFc(das[i := da], fc) + (if das[i].fc == fc then 1 else 0)
         == CountFc(das, fc) + (if da.fc == fc then 1 else 0)
  {
    assert das == das[..i] + ([das[i]] + das[i + 1..]);
    assert das[i := da] == das[..i] + ([da] + das[i + 1..]);
    CountJoin(das[..i], [das[i]] + das[i + 1..], fc);
    CountJoin(das[..i], [da] + das[i + 1..], fc);
    assert ([das[i]] + das[i + 1..])[1..] == das[i + 1..] == ([da] + das[i + 1..])[1..];
  }

  /** How one addition changes the number of attributes per constraint, and their total. */
  lemma {:induction false} AddCounts(das: seq<DataAttribute>, da: DataAttribute, fc: string)
    ensures fc != "SP" ==> CountFc(AddAttribute(das, da), fc) == CountFc(das, fc) + (if da.fc == fc then 1 else 0)
    ensures |AddAttribute(das, da)| + CountFc(das, "SP") + (if da.fc == "SP" then 1 else 0)
         == |das| + 1 + CountFc(AddAttribute(das, da), "SP")
  {
    CountJoin(das, [da], fc);
    CountJoin(das, [da], "SP");
    var sp := FindSp(das, da.name);
    if sp.Some? {
      CountReplace(das, sp.value, da, fc);
      CountReplace(das, sp.value, da, "SP");
    }
  }

  lemma {:induction false} CountOf(das: seq<DataAttribute>, fc: string)
    requires |das| <= 1
    ensures CountFc(das, fc) == if das != [] && das[0].fc == fc then 1 else 0
  {
  }

  /** For any definitions, duplicates included: no SP before an SE of its name; every SE definition
      yields one SG and one SE attribute and every other constraint keeps its number, except that SP
      attributes may have been replaced; and the total is short by exactly the replaced ones. */
  lemma {:induction false} ExpansionCounts(decls: seq<TypeDecl>, fuel: nat, defs: seq<DaDef>, done: seq<DataAttribute>,
                                           fc: string)
    requires ExpandDas(decls, fuel, defs, done).Ok? && SpReplaced(done)
    ensures var r := ExpandDas(decls, fuel, defs, done).value;
            && SpReplaced(r)
            && (fc != "SP" ==> CountFc(r, fc) == CountFc(done, fc) + CountDefs(defs, fc)
                                                 + (if fc == "SG" then CountDefs(defs, "SE") else 0))
            && |r| + (CountFc(done, "SP") + CountDefs(defs, "SP") - CountFc(r, "SP"))
               == |done| + |defs| + CountDefs(defs, "SE")
    decreases |defs|
  {
    if defs != [] {
      var def := defs[0];
      var copy := SgCopy(decls, fuel, def).value;
      var da := UnfoldDa(decls, fuel, def, "", None).value;
      TopShape(decls, fuel, def, "");
      if def.fc == "SE" {
        TopShape(decls, fuel, def, "SG");
      }
      CountOf(copy, "SP");
      CountOf(copy, fc);
      CountJoin(done, copy, fc);
      CountJoin(done, copy, "SP");
      AddCounts(done + copy, da, fc);
      AddKeepsSpReplaced(done + copy, da);
      ExpansionCounts(decls, fuel, defs[1..], AddAttribute(done + copy, da), fc);
    }
  }

  // ----- which definitions expand to attributes that stay apart

  /** Definitions share a name only as an SP definition followed by an SE definition, and then no
      third one does. */
  predicate Pairable(defs: seq<DaDef>) {
    forall i, j :: 0 <= i < j < |defs| && defs[i].name == defs[j].name ==> defs[i].fc == "SP" && defs[j].fc == "SE"
  }

  predicate Joins(das: seq<DataAttribute>, defs: seq<DaDef>) {
    forall da, def :: da in das && def in defs && da.name == def.name ==> da.fc == "SP" && def.fc == "SE"
  }

  /** No SE attribute without another of its name. */
  ghost predicate Accompanied(das: seq<DataAttribute>) {
    forall da :: da in das && da.fc == "SE" ==> exists w :: w in das && w.name == da.name && w.fc != "SE"
  }

  /** Where an attribute comes from. */
  lemma {:induction false} ExpandOrigin(decls: seq<TypeDecl>, fuel: nat, defs: seq<DaDef>, done: seq<DataAttribute>,
                                        da: DataAttribute)
    returns (i: nat)
    requires ExpandDas(decls, fuel, defs, done).Ok?
    requires da in ExpandDas(decls, fuel, defs, done).value && da !in done
    ensures i < |defs| && da.name == defs[i].name
    ensures Top(decls, fuel, defs[i], "") == Ok(da) || Top(decls, fuel, defs[i], "SG") == Ok(da)
    decreases |defs|
  {
    var next := Added(decls, fuel, defs[0], done).value;
    if da in next {
      i := 0;
      AddedOrigin(decls, fuel, defs[0], done, da);
    } else {
      i := ExpandOrigin(decls, fuel, defs[1..], next, da);
      i := i + 1;
    }
  }

  lemma {:induction false} AddedOrigin(decls: seq<TypeDecl>, fuel: nat, def: DaDef, done: seq<DataAttribute>,
                                       da: DataAttribute)
    requires Added(decls, fuel, def, done).Ok?
    requires da in Added(decls, fuel, def, done).value && da !in done
    ensures da.name == def.name && (Top(decls, fuel, def, "") == Ok(da) || Top(decls, fuel, def, "SG") == Ok(da))
  {
    var copy, own := SgCopy(decls, fuel, def).value, Top(decls, fuel, def, "").value;
    AddedMembers(done + copy, own, da);
    TopShape(decls, fuel, def, "");
    if da != own {
      assert da in copy;
      TopShape(decls, fuel, def, "SG");
    }
  }

  lemma {:induction false} AddedMembers(das: seq<DataAttribute>, da: DataAttribute, x: DataAttribute)
    requires x in AddAttribute(das, da)
    ensures x in das || x == da
  {
  }

  lemma {:induction false} ApartJoin(das: seq<DataAttribute>, da: DataAttribute)
    ensures AllDasApart(das + [da]) <==> AllDasApart(das) && forall z :: z in das ==> DasApart(z, da)
  {
    var r := das + [da];
    if AllDasApart(r) {
      forall i, j | 0 <= i < j < |das| ensures DasApart(das[i], das[j]) {
        assert r[i] == das[i] && r[j] == das[j];
      }
      forall z | z in das ensures DasApart(z, da) {
        var i :| 0 <= i < |das| && das[i] == z;
        assert r[i] == z && r[|das|] == da;
      }
    }
  }

  lemma {:induction false} NameTaken(done: seq<DataAttribute>, da: DataAttribute, z: DataAttribute)
    requires da.fc != "SE" && Accompanied(done) && z in done && z.name == da.name
    ensures exists y :: y in done && !DasApart(y, da)
  {
    if z.fc == "SE" {
      var w :| w in done && w.name == z.name && w.fc != "SE";
      assert !DasApart(w, da);
    } else {
      assert !DasApart(z, da);
    }
  }

  /** Appending an attribute that is no edit copy. */
  lemma {:induction false} PlainStep(done: seq<DataAttribute>, da: DataAttribute)
    requires da.fc != "SE" && Accompanied(done)
    ensures AllDasApart(done + [da]) <==> AllDasApart(done) && forall z :: z in done ==> z.name != da.name
    ensures Accompanied(done + [da])
  {
    ApartJoin(done, da);
    forall z | z in done && z.name == da.name ensures exists y :: y in done && !DasApart(y, da) {
      NameTaken(done, da, z);
    }
  }

  /** What stands where after a pair has been added. */
  lemma {:induction false} PairNext(done: seq<DataAttribute>, copy: DataAttribute, da: DataAttribute)
    requires copy.fc == "SG" && da.fc == "SE" && copy.name == da.name
    ensures var r, sp := AddAttribute(done + [copy], da), FindSp(done + [copy], da.name);
            && copy in r && da in r
            && (forall z :: z in r ==> z in done || z == copy || z == da)
            && (forall z :: z in done && z.name != da.name ==> z in r)
            && (sp.Some? ==> sp.value < |done| && r == (done + [copy])[sp.value := da])
            && (sp.None? ==> r == done + [copy] + [da] && forall z :: z in done && z.name == da.name ==> z.fc != "SP")
  {
    var r, sp := AddAttribute(done + [copy], da), FindSp(done + [copy], da.name);
    assert (done + [copy])[|done|] == copy;
    assert r[|done|] == copy;
    assert r[if sp.Some? then sp.value else |done| + 1] == da;
    forall z | z in done && z.name != da.name ensures z in r {
      var k :| 0 <= k < |done| && done[k] == z;
      assert r[k] == z;
    }
    forall z | sp.None? && z in done && z.name == da.name ensures z.fc != "SP" {
      var k :| 0 <= k < |done| && done[k] == z;
      assert (done + [copy])[k] == z;
    }
  }

  /** An SG copy and its SE attribute, which takes the first SP slot of the name or is appended. */
  lemma {:induction false} PairStep(done: seq<DataAttribute>, copy: DataAttribute, da: DataAttribute)
    requires copy.fc == "SG" && da.fc == "SE" && copy.name == da.name
    ensures AllDasApart(AddAttribute(done + [copy], da))
       <==> AllDasApart(done) && forall z :: z in done && z.name == da.name ==> z.fc == "SP"
  {
    PairNext(done, copy, da);
    var sp := FindSp(done + [copy], da.name);
    if sp.Some? {
      SlotApart(done, copy, da, sp.value);
    } else {
      ApartJoin(done, copy);
      ApartJoin(done + [copy], da);
      if AllDasApart(done + [copy] + [da]) {
        forall z | z in done ensures z.name != da.name {
          assert z in done + [copy];
          assert DasApart(z, copy) && DasApart(z, da);
        }
      }
    }
  }

  lemma {:induction false} PairAccompanied(done: seq<DataAttribute>, copy: DataAttribute, da: DataAttribute)
    requires copy.fc == "SG" && da.fc == "SE" && copy.name == da.name && Accompanied(done)
    ensures Accompanied(AddAttribute(done + [copy], da))
  {
    var r := AddAttribute(done + [copy], da);
    PairNext(done, copy, da);
    forall x | x in r && x.fc == "SE" ensures exists w :: w in r && w.name == x.name && w.fc != "SE" {
      if x.name == da.name {
        assert copy in r;
      } else {
        var w :| w in done && w.name == x.name && w.fc != "SE";
        assert w in r;
      }
    }
  }

  lemma {:induction false} SlotApart(done: seq<DataAttribute>, copy: DataAttribute, da: DataAttribute, sp: nat)
    requires copy.fc == "SG" && da.fc == "SE" && copy.name == da.name
    requires FindSp(done + [copy], da.name) == Some(sp) && sp < |done|
    ensures AllDasApart((done + [copy])[sp := da])
       <==> AllDasApart(done) && forall z :: z in done && z.name == da.name ==> z.fc == "SP"
  {
    var r := (done + [copy])[sp := da];
    assert (done + [copy])[sp] == done[sp];
    if AllDasApart(r) {
      forall i | 0 <= i < |done| && i != sp ensures done[i].name != da.name {
        assert r[i] == done[i] && r[sp] == da && r[|done|] == copy;
        assert DasApart(r[i], copy);
        assert i < sp ==> DasApart(r[i], r[sp]);
        assert sp < i ==> DasApart(r[sp], r[i]);
      }
      forall i, j | 0 <= i < j < |done| ensures DasApart(done[i], done[j]) {
        if i != sp && j != sp {
          assert r[i] == done[i] && r[j] == done[j];
        }
      }
    }
    if AllDasApart(done) && forall z :: z in done && z.name == da.name ==> z.fc == "SP" {
      forall i | 0 <= i < |done| && i != sp ensures done[i].name != da.name {
        assert done[i] in done && done[sp] in done;
        assert i < sp ==> DasApart(done[i], done[sp]);
        assert sp < i ==> DasApart(done[sp], done[i]);
      }
      forall i, j | 0 <= i < j < |r| ensures DasApart(r[i], r[j]) {
        if i != sp && j != sp && j < |done| {
          assert DasApart(done[i], done[j]);
        }
      }
    }
  }

  lemma {:induction false} PairableStep(defs: seq<DaDef>)
    requires defs != []
    ensures Pairable(defs)
       <==> && Pairable(defs[1..])
            && forall def :: def in defs[1..] && def.name == defs[0].name ==> defs[0].fc == "SP" && def.fc == "SE"
  {
    var rest := defs[1..];
    if Pairable(defs) {
      forall def | def in rest && def.name == defs[0].name ensures defs[0].fc == "SP" && def.fc == "SE" {
        var j :| 0 <= j < |rest| && rest[j] == def;
        assert defs[j + 1] == def;
      }
      forall i, j | 0 <= i < j < |rest| && rest[i].name == rest[j].name
        ensures rest[i].fc == "SP" && rest[j].fc == "SE"
      {
        assert defs[i + 1] == rest[i] && defs[j + 1] == rest[j];
      }
    }
    if
      && Pairable(rest)
      && forall def :: def in rest && def.name == defs[0].name ==> defs[0].fc == "SP" && def.fc == "SE"
    {
      forall i, j | 0 <= i < j < |defs| && defs[i].name == defs[j].name
        ensures defs[i].fc == "SP" && defs[j].fc == "SE"
      {
        assert defs[j] == rest[j - 1];
        assert i > 0 ==> defs[i] == rest[i - 1];
      }
    }
  }

  lemma {:induction false} JoinsStep(das: seq<DataAttribute>, defs: seq<DaDef>)
    requires defs != []
    ensures Joins(das, defs)
       <==> && Joins(das, defs[1..])
            && forall da :: da in das && da.name == defs[0].name ==> da.fc == "SP" && defs[0].fc == "SE"
  {
    assert forall x :: x in defs <==> x == defs[0] || x in defs[1..];
  }

  /** After a pair has been added no further definition may have its name. */
  lemma {:induction false} PairJoins(done: seq<DataAttribute>, copy: DataAttribute, da: DataAttribute, rest: seq<DaDef>)
    requires copy.fc == "SG" && da.fc == "SE" && copy.name == da.name
    ensures Joins(AddAttribute(done + [copy], da), rest)
       <==> Joins(done, rest) && forall def :: def in rest ==> def.name != da.name
  {
    PairNext(done, copy, da);
    MembersJoin(done, AddAttribute(done + [copy], da), copy, da, rest);
  }

  lemma {:induction false} MembersJoin(done: seq<DataAttribute>, next: seq<DataAttribute>, copy: DataAttribute,
                                       da: DataAttribute, rest: seq<DaDef>)
    requires copy.fc == "SG" && copy.name == da.name && copy in next
    requires forall z :: z in next ==> z in done || z == copy || z == da
    requires forall z :: z in done && z.name != da.name ==> z in next
    ensures Joins(next, rest) <==> Joins(done, rest) && forall def :: def in rest ==> def.name != da.name
  {
    if Joins(next, rest) {
      forall def | def in rest ensures def.name != da.name {
        assert copy in next;
      }
    }
  }

  lemma {:induction false} PlainJoins(done: seq<DataAttribute>, da: DataAttribute, rest: seq<DaDef>)
    ensures Joins(done + [da], rest)
       <==> Joins(done, rest) && forall def :: def in rest && def.name == da.name ==> da.fc == "SP" && def.fc == "SE"
  {
    assert forall z :: z in done + [da] <==> z in done || z == da;
  }

  /** One definition added to attributes that are already there. */
  lemma {:induction false} AddedApart(decls: seq<TypeDecl>, fuel: nat, defs: seq<DaDef>, done: seq<DataAttribute>)
    requires defs != [] && Accompanied(done)
    requires Added(decls, fuel, defs[0], done).Ok?
    ensures var next := Added(decls, fuel, defs[0], done).value;
            && Accompanied(next)
            && (AllDasApart(next) && Joins(next, defs[1..]) && Pairable(defs[1..])
                <==> AllDasApart(done) && Joins(done, defs) && Pairable(defs))
  {
    var def := defs[0];
    TopShape(decls, fuel, def, "");
    if def.fc == "SE" {
      TopShape(decls, fuel, def, "SG");
      PairApart(defs, done, Top(decls, fuel, def, "SG").value, Top(decls, fuel, def, "").value);
    } else {
      assert done + [] == done;
      PlainApart(defs, done, Top(decls, fuel, def, "").value);
    }
  }

  lemma {:induction false} PairApart(defs: seq<DaDef>, done: seq<DataAttribute>, copy: DataAttribute, da: DataAttribute)
    requires defs != [] && defs[0].fc == "SE" && Accompanied(done)
    requires copy.fc == "SG" && da.fc == "SE" && copy.name == da.name == defs[0].name
    ensures var next := AddAttribute(done + [copy], da);
            && Accompanied(next)
            && (AllDasApart(next) && Joins(next, defs[1..]) && Pairable(defs[1..])
                <==> AllDasApart(done) && Joins(done, defs) && Pairable(defs))
  {
    PairableStep(defs);
    JoinsStep(done, defs);
    PairStep(done, copy, da);
    PairAccompanied(done, copy, da);
    PairJoins(done, copy, da, defs[1..]);
  }

  lemma {:induction false} PlainApart(defs: seq<DaDef>, done: seq<DataAttribute>, da: DataAttribute)
    requires defs != [] && defs[0].fc != "SE" && Accompanied(done) && da.fc == defs[0].fc && da.name == defs[0].name
    ensures var next := AddAttribute(done, da);
            && Accompanied(next)
            && (AllDasApart(next) && Joins(next, defs[1..]) && Pairable(defs[1..])
                <==> AllDasApart(done) && Joins(done, defs) && Pairable(defs))
  {
    PairableStep(defs);
    JoinsStep(done, defs);
    PlainStep(done, da);
    PlainJoins(done, da, defs[1..]);
    assert AddAttribute(done, da) == done + [da];
  }

  lemma {:induction false} ExpandApart(decls: seq<TypeDecl>, fuel: nat, defs: seq<DaDef>, done: seq<DataAttribute>)
    requires Accompanied(done)
    requires ExpandDas(decls, fuel, defs, done).Ok?
    ensures AllDasApart(ExpandDas(decls, fuel, defs, done).value)
       <==> AllDasApart(done) && Joins(done, defs) && Pairable(defs)
    decreases |defs|
  {
    if defs != [] {
      AddedApart(decls, fuel, defs, done);
      ExpandApart(decls, fuel, defs[1..], Added(decls, fuel, defs[0], done).value);
    }
  }

  /** Attributes that stay apart are exactly what definitions expand to that share a name only as an
      SP definition followed by an SE definition. */
  lemma {:induction false} ApartIff(decls: seq<TypeDecl>, fuel: nat, defs: seq<DaDef>)
    requires ExpandDas(decls, fuel, defs, []).Ok?
    ensures AllDasApart(ExpandDas(decls, fuel, defs, []).value) <==> Pairable(defs)
  {
    ExpandApart(decls, fuel, defs, []);
  }

  // ----- clean templates yield clean instances

  predicate PlainDefs(defs: seq<DaDef>) {
    forall def :: def in defs ==> Free(def.name, {'_'})
  }

  predicate CleanDoDefs(defs: seq<DoDef>) {
    && (forall def :: def in defs ==> Free(def.name, {'_'}))
    && (forall i, j :: 0 <= i < j < |defs| ==> defs[i].name != defs[j].name)
  }

  /** Names without '_' and unique among siblings, but that an SP attribute of a data object may be
      followed by an SE attribute of its name; attributes of data objects have a constraint. */
  predicate CleanDecl(d: TypeDecl) {
    match d
    case LNodeType(_, dos) => CleanDoDefs(dos)
    case DoType(_, das, sdos) =>
      && PlainDefs(das) && Pairable(das) && CleanDoDefs(sdos)
      && (forall def :: def in das ==> def.fc != "")
      && (forall def, s :: def in das && s in sdos ==> def.name != s.name)
    case DaType(_, bdas) => PlainDefs(bdas) && DistinctDefs(bdas)
    case EnumType(_, _) => true
  }

  ghost predicate Covered(decls: seq<TypeDecl>, among: set<nat>, ref: Ref) {
    var t := Named(decls, ref);
    t.Some? ==> t.value in among
  }

  ghost predicate DasCovered(decls: seq<TypeDecl>, among: set<nat>, defs: seq<DaDef>) {
    forall def :: def in defs ==> Covered(decls, among, DaRef(def))
  }

  ghost predicate DosCovered(decls: seq<TypeDecl>, among: set<nat>, defs: seq<DoDef>) {
    forall def :: def in defs ==> Covered(decls, among, DoRef(def))
  }

  /** Clean declarations, and with each one those that it refers to. */
  ghost predicate CleanTemplates(decls: seq<TypeDecl>, among: set<nat>) {
    forall i :: i in among && i < |decls| ==> CleanDecl(decls[i]) && AllCovered(decls, among, Items(decls[i]))
  }

  ghost predicate AllCovered(decls: seq<TypeDecl>, among: set<nat>, refs: seq<Ref>) {
    forall ref :: ref in refs ==> Covered(decls, among, ref)
  }

  lemma {:induction false} MembersCovered(decls: seq<TypeDecl>, among: set<nat>, t: nat)
    requires CleanTemplates(decls, among) && t in among && t < |decls|
    ensures CleanDecl(decls[t]) && DasCovered(decls, among, DefsOf(decls[t]))
    ensures decls[t].DoType? ==> DosCovered(decls, among, decls[t].sdos)
    ensures decls[t].LNodeType? ==> DosCovered(decls, among, decls[t].dos)
  {
    var d := decls[t];
    forall def | def in DefsOf(d) ensures DaRef(def) in Items(d) {
      DaItemsMember(DefsOf(d), DaRef(def));
    }
    forall def | d.DoType? && def in d.sdos ensures DoRef(def) in Items(d) {
      DoItemsMember(d.sdos, DoRef(def));
    }
    forall def | d.LNodeType? && def in d.dos ensures DoRef(def) in Items(d) {
      DoItemsMember(d.dos, DoRef(def));
    }
  }

  lemma {:induction false} SubsNames(decls: seq<TypeDecl>, fuel: nat, defs: seq<DaDef>, fc: string, trigger: Trigger)
    requires UnfoldSubs(decls, fuel, defs, fc, trigger).Ok?
    ensures var subs := UnfoldSubs(decls, fuel, defs, fc, trigger).value;
            |subs| == |defs| && forall i :: 0 <= i < |subs| ==> subs[i].name == defs[i].name
    decreases |defs|
  {
    if defs != [] {
      SubsNames(decls, fuel, defs[1..], fc, trigger);
    }
  }

  lemma {:induction false} UnfoldedDaClean(decls: seq<TypeDecl>, among: set<nat>, fuel: nat, def: DaDef, fc: string,
                                           inherited: Option<Trigger>)
    requires CleanTemplates(decls, among) && Covered(decls, among, DaRef(def)) && Free(def.name, {'_'})
    requires UnfoldDa(decls, fuel, def, fc, inherited).Ok?
    ensures CleanDa(UnfoldDa(decls, fuel, def, fc, inherited).value, PLAIN)
    decreases fuel, 0, 0
  {
    if def.attrType.Constructed? {
      var t := LookupType(decls, def.typ).value;
      var bdas := decls[t].bdas;
      MembersCovered(decls, among, t);
      SubsNames(decls, fuel - 1, bdas, EffectiveFc(def, fc), inherited.GetOr(def.trigger));
      UnfoldedSubsClean(decls, among, fuel - 1, bdas, EffectiveFc(def, fc), inherited.GetOr(def.trigger));
    }
  }

  lemma {:induction false} UnfoldedSubsClean(decls: seq<TypeDecl>, among: set<nat>, fuel: nat, defs: seq<DaDef>,
                                             fc: string, trigger: Trigger)
    requires CleanTemplates(decls, among) && DasCovered(decls, among, defs) && PlainDefs(defs)
    requires UnfoldSubs(decls, fuel, defs, fc, trigger).Ok?
    ensures forall da :: da in UnfoldSubs(decls, fuel, defs, fc, trigger).value ==> CleanDa(da, PLAIN)
    decreases fuel, 1, |defs|
  {
    if defs != [] {
      UnfoldedDaClean(decls, among, fuel, defs[0], fc, Some(trigger));
      UnfoldedSubsClean(decls, among, fuel, defs[1..], fc, trigger);
    }
  }

  lemma {:induction false} TopClean(decls: seq<TypeDecl>, among: set<nat>, fuel: nat, def: DaDef, fc: string)
    requires CleanTemplates(decls, among) && Covered(decls, among, DaRef(def))
    requires Top(decls, fuel, def, fc).Ok? && Free(def.name, {'_'}) && def.fc != ""
    ensures var da := Top(decls, fuel, def, fc).value; CleanDa(da, PLAIN) && Uniform(da)
  {
    UnfoldedDaClean(decls, among, fuel, def, fc, None);
    UniformInheritance(decls, fuel, def, fc, None);
    InheritsUniform(Top(decls, fuel, def, fc).value, EffectiveFc(def, fc), def.trigger);
  }

  /** Pairwise apart attributes from clean definitions are clean. */
  lemma {:induction false} ExpandedClean(decls: seq<TypeDecl>, among: set<nat>, fuel: nat, defs: seq<DaDef>)
    requires CleanTemplates(decls, among) && DasCovered(decls, among, defs)
    requires PlainDefs(defs) && Pairable(defs) && forall def :: def in defs ==> def.fc != ""
    requires ExpandDas(decls, fuel, defs, []).Ok?
    ensures CleanDas(ExpandDas(decls, fuel, defs, []).value, PLAIN)
  {
    var r := ExpandDas(decls, fuel, defs, []).value;
    ApartIff(decls, fuel, defs);
    forall da | da in r ensures CleanDa(da, PLAIN) && Uniform(da) {
      var i := ExpandOrigin(decls, fuel, defs, [], da);
      assert defs[i] in defs;
      if Top(decls, fuel, defs[i], "") == Ok(da) {
        TopClean(decls, among, fuel, defs[i], "");
      } else {
        TopClean(decls, among, fuel, defs[i], "SG");
      }
    }
  }

  lemma {:induction false} DoName(decls: seq<TypeDecl>, fuel: nat, def: DoDef)
    requires UnfoldDo(decls, fuel, def).Ok?
    ensures UnfoldDo(decls, fuel, def).value.name == def.name
  {
    assert UnfoldDo(decls, fuel, def) == FillDo(decls, fuel - 1, def, decls[LookupType(decls, def.typ).value]);
  }

  lemma {:induction false} DosNames(decls: seq<TypeDecl>, fuel: nat, defs: seq<DoDef>)
    requires UnfoldDos(decls, fuel, defs).Ok?
    ensures var dos := UnfoldDos(decls, fuel, defs).value;
            |dos| == |defs| && forall i :: 0 <= i < |dos| ==> dos[i].name == defs[i].name
    decreases |defs|
  {
    if defs != [] {
      DoName(decls, fuel, defs[0]);
      DosNames(decls, fuel, defs[1..]);
    }
  }

  ghost predicate CleanDo(d: DataObject) {
    Free(d.name, {'_'}) && CleanDos(d.sdos, PLAIN) && CleanDas(d.das, PLAIN) && KidsApart(d)
  }

  lemma {:induction false} UnfoldedDoClean(decls: seq<TypeDecl>, among: set<nat>, fuel: nat, def: DoDef)
    requires CleanTemplates(decls, among) && Covered(decls, among, DoRef(def))
    requires Free(def.name, {'_'}) && UnfoldDo(decls, fuel, def).Ok?
    ensures CleanDo(UnfoldDo(decls, fuel, def).value)
    decreases fuel, 0, 0
  {
    var t := LookupType(decls, def.typ).value;
    MembersCovered(decls, among, t);
    FilledClean(decls, among, fuel - 1, def, decls[t]);
  }

  lemma {:induction false} FilledClean(decls: seq<TypeDecl>, among: set<nat>, fuel: nat, def: DoDef, d: TypeDecl)
    requires CleanTemplates(decls, among) && CleanDecl(d) && DasCovered(decls, among, DefsOf(d))
    requires FillDo(decls, fuel, def, d).Ok? && DosCovered(decls, among, d.sdos) && Free(def.name, {'_'})
    ensures CleanDo(FillDo(decls, fuel, def, d).value)
    decreases fuel, 2, 0
  {
    ExpandedClean(decls, among, fuel, d.das);
    DosNames(decls, fuel, d.sdos);
    UnfoldedDosClean(decls, among, fuel, d.sdos);
    var o := FillDo(decls, fuel, def, d).value;
    forall s, da | s in o.sdos && da in o.das ensures s.name != da.name {
      var i :| 0 <= i < |o.sdos| && o.sdos[i] == s;
      var j := ExpandOrigin(decls, fuel, d.das, [], da);
      assert d.sdos[i] in d.sdos && d.das[j] in d.das;
    }
  }

  lemma {:induction false} CleanDoDefsTail(defs: seq<DoDef>)
    requires defs != [] && CleanDoDefs(defs)
    ensures CleanDoDefs(defs[1..]) && forall i :: 0 <= i < |defs[1..]| ==> defs[0].name != defs[1..][i].name
  {
    assert forall def :: def in defs[1..] ==> def in defs;
  }

  /** The first of a list of data objects and the others. */
  lemma {:induction false} DosFirst(decls: seq<TypeDecl>, fuel: nat, defs: seq<DoDef>)
    requires UnfoldDos(decls, fuel, defs).Ok? && defs != [] && CleanDoDefs(defs)
    ensures UnfoldDo(decls, fuel, defs[0]).Ok? && UnfoldDos(decls, fuel, defs[1..]).Ok? && CleanDoDefs(defs[1..])
    ensures var first, rest := UnfoldDo(decls, fuel, defs[0]).value, UnfoldDos(decls, fuel, defs[1..]).value;
            && UnfoldDos(decls, fuel, defs).value == [first] + rest
            && forall i :: 0 <= i < |rest| ==> first.name != rest[i].name
  {
    CleanDoDefsTail(defs);
    DosNames(decls, fuel, defs[1..]);
    DoName(decls, fuel, defs[0]);
  }

  lemma {:induction false} UnfoldedDosClean(decls: seq<TypeDecl>, among: set<nat>, fuel: nat, defs: seq<DoDef>)
    requires CleanTemplates(decls, among) && DosCovered(decls, among, defs)
    requires CleanDoDefs(defs) && UnfoldDos(decls, fuel, defs).Ok?
    ensures CleanDos(UnfoldDos(decls, fuel, defs).value, PLAIN)
    decreases fuel, 1, |defs|
  {
    if defs != [] {
      DosFirst(decls, fuel, defs);
      assert defs[0] in defs;
      UnfoldedDoClean(decls, among, fuel, defs[0]);
      UnfoldedDosClean(decls, among, fuel, defs[1..]);
      CleanDosCons(UnfoldDo(decls, fuel, defs[0]).value, UnfoldDos(decls, fuel, defs[1..]).value);
    }
  }

  lemma {:induction false} CleanDosCons(first: DataObject, rest: seq<DataObject>)
    requires CleanDo(first) && CleanDos(rest, PLAIN) && forall i :: 0 <= i < |rest| ==> first.name != rest[i].name
    ensures CleanDos([first] + rest, PLAIN)
  {
    assert forall d :: d in [first] + rest <==> d == first || d in rest;
  }

  lemma {:induction false} UnfoldedLnClean(decls: seq<TypeDecl>, among: set<nat>, fuel: nat, lnType: string)
    requires CleanTemplates(decls, among) && Covered(decls, among, LnRef(lnType))
    requires UnfoldLn(decls, fuel, lnType).Ok?
    ensures CleanDos(UnfoldLn(decls, fuel, lnType).value, PLAIN)
  {
    var t := LookupType(decls, lnType).value;
    MembersCovered(decls, among, t);
    UnfoldedDosClean(decls, among, fuel - 1, decls[t].dos);
  }
}
