/** The initial-value assignments the generator emits: exactly one for every attribute of the model
    that has a value, under the symbol of that attribute's record, and no other. */
module InitialValues {
  import opened Text
  import opened Instances
  import opened Templates
  import opened PointerGraph
  import opened ModelRecords
  import opened Linking
  import opened ModelTable
  import opened RecordContents
  import opened Generator
  import opened InstanceValues

  // ----- initializers and places of one part of the model

  datatype Part = Part(inits: seq<Initializer>, places: seq<Place>)

  function Join(a: Part, b: Part): Part {
    Part(a.inits + b.inits, a.places + b.places)
  }

  const NOTHING := Part([], [])

  function InitSymbols(inits: seq<Initializer>): (s: seq<string>)
    ensures |s| == |inits| && forall i :: 0 <= i < |s| ==> s[i] == inits[i].symbol
  {
    seq(|inits|, i requires 0 <= i < |inits| => inits[i].symbol)
  }

  function PlaceSymbols(px: string, places: seq<Place>): (s: seq<string>)
    ensures |s| == |places| && forall i :: 0 <= i < |s| ==> s[i] == Symbol(px, places[i].key)
  {
    seq(|places|, i requires 0 <= i < |places| => Symbol(px, places[i].key))
  }

  /** The initializer assigns the value of the attribute at the place. */
  predicate Assigns(vals: Values, px: string, init: Initializer, p: Place) {
    && p.AttributePlace? && vals(p.da) == Some(init.value)
    && init.symbol == Symbol(px, p.key) && init.attrType == p.da.attrType
  }

  ghost predicate Assigned(vals: Values, px: string, init: Initializer, places: seq<Place>) {
    exists p :: p in places && Assigns(vals, px, init, p)
  }

  /** The initializers assign the places that have a value, and nothing else. */
  ghost predicate InitsMatch(vals: Values, px: string, part: Part) {
    forall init :: init in part.inits <==> Assigned(vals, px, init, part.places)
  }

  ghost predicate StaysDistinct(px: string, part: Part) {
    Distinct(PlaceSymbols(px, part.places)) ==> Distinct(InitSymbols(part.inits))
  }

  ghost predicate Matches(vals: Values, px: string, part: Part) {
    InitsMatch(vals, px, part) && StaysDistinct(px, part)
  }

  lemma {:induction false} MatchesNothing(vals: Values, px: string)
    ensures Matches(vals, px, NOTHING)
  {
  }

  /** Symbols of initializers are symbols of places. */
  lemma {:induction false} InitsWithin(vals: Values, px: string, part: Part)
    requires InitsMatch(vals, px, part)
    ensures forall s :: s in InitSymbols(part.inits) ==> s in PlaceSymbols(px, part.places)
  {
    forall s | s in InitSymbols(part.inits) ensures s in PlaceSymbols(px, part.places) {
      var i :| 0 <= i < |part.inits| && part.inits[i].symbol == s;
      assert Assigned(vals, px, part.inits[i], part.places);
      var p :| p in part.places && Assigns(vals, px, part.inits[i], p);
      var n :| 0 <= n < |part.places| && part.places[n] == p;
      assert PlaceSymbols(px, part.places)[n] == s;
    }
  }

  /** Lists whose members lie within distinct lists are distinct together if they are apart. */
  lemma {:induction false} WithinDistinct(a: seq<string>, b: seq<string>, x: seq<string>, y: seq<string>)
    requires Distinct(x + y) && Distinct(a) && Distinct(b)
    requires (forall s :: s in a ==> s in x) && forall s :: s in b ==> s in y
    ensures Distinct(a + b)
  {
    DistinctJoin(x, y);
    DistinctJoin(a, b);
  }

  lemma {:induction false} DistinctBoth(vals: Values, px: string, a: Part, b: Part)
    requires Matches(vals, px, a) && Matches(vals, px, b)
    ensures StaysDistinct(px, Join(a, b))
  {
    var x, y := PlaceSymbols(px, a.places), PlaceSymbols(px, b.places);
    assert PlaceSymbols(px, a.places + b.places) == x + y;
    assert InitSymbols(a.inits + b.inits) == InitSymbols(a.inits) + InitSymbols(b.inits);
    if Distinct(x + y) {
      DistinctJoin(x, y);
      InitsWithin(vals, px, a);
      InitsWithin(vals, px, b);
      WithinDistinct(InitSymbols(a.inits), InitSymbols(b.inits), x, y);
    }
  }

  lemma {:induction false} InitsJoin(vals: Values, px: string, a: Part, b: Part)
    requires InitsMatch(vals, px, a) && InitsMatch(vals, px, b)
    ensures InitsMatch(vals, px, Join(a, b))
  {
    var j := Join(a, b);
    forall init ensures init in j.inits <==> Assigned(vals, px, init, j.places) {
      assert init in a.inits <==> Assigned(vals, px, init, a.places);
      assert init in b.inits <==> Assigned(vals, px, init, b.places);
    }
  }

  lemma {:induction false} MatchesJoin(vals: Values, px: string, a: Part, b: Part)
    requires Matches(vals, px, a) && Matches(vals, px, b)
    ensures Matches(vals, px, Join(a, b))
  {
    InitsJoin(vals, px, a, b);
    DistinctBoth(vals, px, a, b);
  }

  /** A place without initializer, before a part. */
  lemma {:induction false} MatchesAfter(vals: Values, px: string, p: Place, part: Part)
    requires Matches(vals, px, part) && !p.AttributePlace?
    ensures Matches(vals, px, Part(part.inits, [p] + part.places))
  {
    var one := Part([], [p]);
    MatchesJoin(vals, px, one, part);
    assert [] + part.inits == part.inits;
  }

  /** An attribute whose own value is assigned after those below it. */
  lemma {:induction false} MatchesAttribute(vals: Values, px: string, symbol: string, p: Place, below: Part)
    requires Matches(vals, px, below) && p.AttributePlace? && symbol == Symbol(px, p.key)
    ensures Matches(vals, px, Part(below.inits + OwnInit(vals, symbol, p.da), [p] + below.places))
  {
    var own := Part(OwnInit(vals, symbol, p.da), [p]);
    OwnMatches(vals, px, symbol, p);
    MatchesJoin(vals, px, own, below);
    Turn(vals, px, Join(own, below), Part(below.inits + own.inits, [p] + below.places), own.inits, below.inits);
  }

  lemma {:induction false} OwnMatches(vals: Values, px: string, symbol: string, p: Place)
    requires p.AttributePlace? && symbol == Symbol(px, p.key)
    ensures Matches(vals, px, Part(OwnInit(vals, symbol, p.da), [p]))
  {
    var own := Part(OwnInit(vals, symbol, p.da), [p]);
    forall init ensures init in own.inits <==> Assigned(vals, px, init, own.places) {
      assert p in own.places;
    }
  }

  /** The order of initializers does not matter. */
  lemma {:induction false} Turn(vals: Values, px: string, part: Part, turned: Part,
                                a: seq<Initializer>, b: seq<Initializer>)
    requires Matches(vals, px, part)
    requires part.inits == a + b && turned == part.(inits := b + a)
    ensures Matches(vals, px, turned)
  {
    assert InitSymbols(a + b) == InitSymbols(a) + InitSymbols(b);
    assert InitSymbols(b + a) == InitSymbols(b) + InitSymbols(a);
    DistinctJoin(InitSymbols(a), InitSymbols(b));
    DistinctJoin(InitSymbols(b), InitSymbols(a));
    forall init ensures init in turned.inits <==> Assigned(vals, px, init, turned.places) {
      assert init in part.inits <==> Assigned(vals, px, init, part.places);
    }
  }

  // ----- the parts the generator prints

  function DaPart(vals: Values, px: string, parent: string, path: seq<string>, above: seq<DataObject>,
                  das: seq<DataAttribute>)
    : Part
  {
    Part(DaInits(vals, px, parent, das), DaPlaces(path, above, das))
  }

  function BelowPart(vals: Values, px: string, symbol: string, path: seq<string>, above: seq<DataObject>,
                     da: DataAttribute)
    : Part
  {
    Part(BelowInits(vals, px, symbol, da), BelowPlaces(path, above, da))
  }

  function ElementPart(vals: Values, px: string, symbol: string, path: seq<string>, above: seq<DataObject>,
                       da: DataAttribute, index: nat)
    : Part
    requires index <= da.count
  {
    Part(ElementInits(vals, px, symbol, da, index), ElementPlaces(path, above, da, index))
  }

  lemma {:induction false} DaMatches(vals: Values, px: string, se: bool, path: seq<string>, above: seq<DataObject>,
                                     das: seq<DataAttribute>)
    requires FitsCut(px) && InModel(path) && Fits(se, das)
    ensures Matches(vals, px, DaPart(vals, px, Symbol(px, Key(se, path)), path, above, das))
    decreases das, 0
  {
    if das == [] {
      MatchesNothing(vals, px);
    } else {
      var parent, da := Symbol(px, Key(se, path)), das[0];
      var k := DaKey(path, da);
      Spelling(px, Key(se, path), da);
      var below := BelowPart(vals, px, Symbol(px, k), k.path, above, da);
      var rest := DaPart(vals, px, parent, path, above, das[1..]);
      var p := AttributePlace(k, da, above);
      BelowMatches(vals, px, k, above, da);
      MatchesAttribute(vals, px, Symbol(px, k), p, below);
      DaMatches(vals, px, se, path, above, das[1..]);
      var chunk := Part(below.inits + OwnInit(vals, Symbol(px, k), da), [p] + below.places);
      MatchesJoin(vals, px, chunk, rest);
      DaPartStep(vals, px, parent, path, above, das);
    }
  }

  lemma {:induction false} DaPartStep(vals: Values, px: string, parent: string, path: seq<string>,
                                      above: seq<DataObject>, das: seq<DataAttribute>)
    requires das != []
    ensures var da, symbol := das[0], DaSymbol(px, parent, das[0]);
            var below := BelowPart(vals, px, symbol, path + [da.name], above, da);
            var p := AttributePlace(DaKey(path, da), da, above);
            DaPart(vals, px, parent, path, above, das)
            == Join(Part(below.inits + OwnInit(vals, symbol, da), [p] + below.places),
                    DaPart(vals, px, parent, path, above, das[1..]))
  {
    var da := das[0];
    assert DaPlaces(path, above, das)
        == [AttributePlace(DaKey(path, da), da, above)] + BelowPlaces(path + [da.name], above, da)
           + DaPlaces(path, above, das[1..]);
    assert DaInits(vals, px, parent, das)
        == BelowInits(vals, px, DaSymbol(px, parent, da), da) + OwnInit(vals, DaSymbol(px, parent, da), da)
           + DaInits(vals, px, parent, das[1..]);
  }

  lemma {:induction false} BelowMatches(vals: Values, px: string, k: Key, above: seq<DataObject>, da: DataAttribute)
    requires FitsCut(px) && InModel(k.path) && k.se == (da.fc == "SE") && Uniform(da)
    ensures Matches(vals, px, BelowPart(vals, px, Symbol(px, k), k.path, above, da))
    decreases da, 1
  {
    if da.count > 0 {
      ElementsMatch(vals, px, k, above, da, 0);
    } else {
      DaMatches(vals, px, k.se, k.path, above, da.subs);
    }
  }

  lemma {:induction false} ElementsMatch(vals: Values, px: string, k: Key, above: seq<DataObject>, da: DataAttribute,
                                         index: nat)
    requires FitsCut(px) && InModel(k.path) && k.se == (da.fc == "SE") && Uniform(da)
    requires index <= da.count
    ensures Matches(vals, px, ElementPart(vals, px, Symbol(px, k), k.path, above, da, index))
    decreases da, 0, da.count - index
  {
    if index == da.count {
      MatchesNothing(vals, px);
    } else {
      var symbol, element := Symbol(px, k), Key(k.se, k.path + [Itoa(index)]);
      ElementKey(px, k, index);
      var here := DaPart(vals, px, Symbol(px, element), element.path, above, da.subs);
      var rest := ElementPart(vals, px, symbol, k.path, above, da, index + 1);
      var p := ElementPlace(element, da, above, index);
      DaMatches(vals, px, element.se, element.path, above, da.subs);
      MatchesAfter(vals, px, p, here);
      ElementsMatch(vals, px, k, above, da, index + 1);
      var chunk := Part(here.inits, [p] + here.places);
      MatchesJoin(vals, px, chunk, rest);
      assert ElementPart(vals, px, symbol, k.path, above, da, index) == Join(chunk, rest);
    }
  }

  function DoPart(vals: Values, px: string, parent: string, path: seq<string>, above: seq<DataObject>,
                  dos: seq<DataObject>)
    : Part
  {
    Part(DoInits(vals, px, parent, dos), DoPlaces(path, above, dos))
  }

  lemma {:induction false} DoMatches(vals: Values, px: string, path: seq<string>, above: seq<DataObject>,
                                     dos: seq<DataObject>)
    requires FitsCut(px) && InModel(path) && DosFit(dos)
    ensures Matches(vals, px, DoPart(vals, px, Symbol(px, Key(false, path)), path, above, dos))
    decreases dos
  {
    if dos == [] {
      MatchesNothing(vals, px);
    } else {
      var parent, d := Symbol(px, Key(false, path)), dos[0];
      var below, chain, symbol := path + [d.name], above + [d], parent + "_" + d.name;
      ChildSymbol(px, Key(false, path), d.name);
      var sdos := DoPart(vals, px, symbol, below, chain, d.sdos);
      var das := DaPart(vals, px, symbol, below, chain, d.das);
      var rest := DoPart(vals, px, parent, path, above, dos[1..]);
      DoMatches(vals, px, below, chain, d.sdos);
      DaMatches(vals, px, false, below, chain, d.das);
      DoMatches(vals, px, path, above, dos[1..]);
      DoJoins(vals, px, ObjectPlace(Key(false, below), d), sdos, das, rest);
      DoPartStep(vals, px, parent, path, above, dos);
    }
  }

  lemma {:induction false} DoPartStep(vals: Values, px: string, parent: string, path: seq<string>,
                                      above: seq<DataObject>, dos: seq<DataObject>)
    requires dos != []
    ensures var d := dos[0];
            var below, chain, symbol := path + [d.name], above + [d], parent + "_" + d.name;
            var sdos := DoPart(vals, px, symbol, below, chain, d.sdos);
            var das := DaPart(vals, px, symbol, below, chain, d.das);
            var rest := DoPart(vals, px, parent, path, above, dos[1..]);
            DoPart(vals, px, parent, path, above, dos)
            == Part(sdos.inits + das.inits + rest.inits,
                    [ObjectPlace(Key(false, below), d)] + sdos.places + das.places + rest.places)
  {
    var symbol := parent + "_" + dos[0].name;
    assert DoInits(vals, px, parent, dos)
        == DoInits(vals, px, symbol, dos[0].sdos) + DaInits(vals, px, symbol, dos[0].das)
           + DoInits(vals, px, parent, dos[1..]);
  }

  lemma {:induction false} DoJoins(vals: Values, px: string, p: Place, sdos: Part, das: Part, rest: Part)
    requires !p.AttributePlace?
    requires Matches(vals, px, sdos) && Matches(vals, px, das) && Matches(vals, px, rest)
    ensures Matches(vals, px, Part(sdos.inits + das.inits + rest.inits, [p] + sdos.places + das.places + rest.places))
  {
    MatchesAfter(vals, px, p, sdos);
    var first := Part(sdos.inits, [p] + sdos.places);
    MatchesJoin(vals, px, first, das);
    MatchesJoin(vals, px, Join(first, das), rest);
  }

  function LnPart(vals: Values, px: string, parent: string, path: seq<string>, lns: seq<LogicalNode>): Part {
    Part(LnInits(vals, px, parent, lns), LnPlaces(path, lns))
  }

  lemma {:induction false} LnMatches(vals: Values, px: string, inst: string, lns: seq<LogicalNode>)
    requires FitsCut(px) && InModel([inst]) && forall ln :: ln in lns ==> DosFit(ln.dos)
    ensures Matches(vals, px, LnPart(vals, px, px + "_" + inst, [inst], lns))
  {
    if lns == [] {
      MatchesNothing(vals, px);
    } else {
      var parent, ln := px + "_" + inst, lns[0];
      var path := [inst] + [ln.Name()];
      LdSymbol(px, inst);
      ChildSymbol(px, Key(false, [inst]), ln.Name());
      var p := NodePlace(Key(false, path), ln);
      var dos := DoPart(vals, px, parent + "_" + ln.Name(), path, [], ln.dos);
      DoMatches(vals, px, path, [], ln.dos);
      LnMatches(vals, px, inst, lns[1..]);
      MatchesAfter(vals, px, p, dos);
      var chunk, rest := Part(dos.inits, [p] + dos.places), LnPart(vals, px, parent, [inst], lns[1..]);
      MatchesJoin(vals, px, chunk, rest);
      assert LnPart(vals, px, parent, [inst], lns) == Join(chunk, rest);
    }
  }

  function ModelPart(vals: Values, px: string, lds: seq<LogicalDevice>): Part {
    Part(LdInits(vals, px, lds), ModelPlaces(lds))
  }

  lemma {:induction false} ModelMatches(vals: Values, px: string, lds: seq<LogicalDevice>)
    requires FitsCut(px) && Fitting(lds)
    ensures Matches(vals, px, ModelPart(vals, px, lds))
  {
    if lds == [] {
      MatchesNothing(vals, px);
    } else {
      var ld := lds[0];
      assert ld in lds;
      var p := DevicePlace(Key(false, [ld.inst]), ld);
      var lns := LnPart(vals, px, px + "_" + ld.inst, [ld.inst], ld.lns);
      LnMatches(vals, px, ld.inst, ld.lns);
      ModelMatches(vals, px, lds[1..]);
      MatchesAfter(vals, px, p, lns);
      var chunk, rest := Part(lns.inits, [p] + lns.places), ModelPart(vals, px, lds[1..]);
      MatchesJoin(vals, px, chunk, rest);
      assert ModelPart(vals, px, lds) == Join(chunk, rest);
    }
  }

  // ----- the main results

  /** For a well-named model and a fitting prefix: every attribute with a value, below arrays once per
      element, has the initializer with that value under the symbol of its record; symbols never repeat,
      so it is the only one; and there is no initializer besides. */
  lemma {:induction false} InitializersExact(vals: Values, px: string, lds: seq<LogicalDevice>)
    requires FitsCut(px) && Populated(lds) && WellNamed(lds)
    ensures var inits, places := LdInits(vals, px, lds), ModelPlaces(lds);
            && (forall p, v :: p in places && p.AttributePlace? ==>
                  (vals(p.da) == Some(v) <==> Initializer(Symbol(px, p.key), p.da.attrType, v) in inits))
            && (forall init :: init in inits ==> Assigned(vals, px, init, places))
            && Distinct(InitSymbols(inits))
  {
    var part := ModelPart(vals, px, lds);
    ModelFitting(lds);
    ModelMatches(vals, px, lds);
    PlacesDistinct(px, lds);
    forall p, v | p in part.places && p.AttributePlace?
      ensures vals(p.da) == Some(v) <==> Initializer(Symbol(px, p.key), p.da.attrType, v) in part.inits
    {
      InitExists(vals, px, part, p, v);
    }
  }

  lemma {:induction false} PlacesDistinct(px: string, lds: seq<LogicalDevice>)
    requires FitsCut(px) && Populated(lds) && WellNamed(lds)
    ensures Distinct(PlaceSymbols(px, ModelPlaces(lds)))
  {
    TableFaithful(px, lds);
    ContentsExact(px, lds);
    assert PlaceSymbols(px, ModelPlaces(lds)) == Symbols(LdRecords(px, lds));
  }

  lemma {:induction false} InitExists(vals: Values, px: string, part: Part, p: Place, v: Scalar)
    requires InitsMatch(vals, px, part) && Distinct(PlaceSymbols(px, part.places))
    requires p in part.places && p.AttributePlace?
    ensures vals(p.da) == Some(v) <==> Initializer(Symbol(px, p.key), p.da.attrType, v) in part.inits
  {
    var init := Initializer(Symbol(px, p.key), p.da.attrType, v);
    assert init in part.inits <==> Assigned(vals, px, init, part.places);
    if q :| q in part.places && Assigns(vals, px, init, q) {
      SamePlace(px, part.places, p, q);
    }
    assert vals(p.da) == Some(v) <==> Assigns(vals, px, init, p);
  }

  lemma {:induction false} SamePlace(px: string, places: seq<Place>, p: Place, q: Place)
    requires Distinct(PlaceSymbols(px, places)) && p in places && q in places && Symbol(px, p.key) == Symbol(px, q.key)
    ensures p == q
  {
    var i :| 0 <= i < |places| && places[i] == p;
    var j :| 0 <= j < |places| && places[j] == q;
    assert PlaceSymbols(px, places)[i] == PlaceSymbols(px, places)[j];
  }

  /** The attribute starts with its own value, or else with what its definition's default stands for. */
  ghost predicate StartsWith(decls: seq<TypeDecl>, defs: Defaults, da: DataAttribute, v: Scalar) {
    if da.value.Some? then da.value.value == v else da.slot in defs && StandsFor(decls, defs[da.slot], v)
  }

  lemma {:induction false} InitialValueExact(decls: seq<TypeDecl>, defs: Defaults, da: DataAttribute, v: Scalar)
    requires AllResolvable(decls, defs)
    ensures InitialValue(decls, defs, da) == Some(v) <==> StartsWith(decls, defs, da, v)
  {
    if da.slot in defs {
      ResolveExact(decls, defs[da.slot], v);
    }
  }

  /** At every attribute place of the model, and once per element below arrays, exactly the value that
      the attribute starts with is assigned. */
  lemma {:induction false} ValuesExact(decls: seq<TypeDecl>, defs: Defaults, px: string, lds: seq<LogicalDevice>,
                                       p: Place, v: Scalar)
    requires AllResolvable(decls, defs) && FitsCut(px) && Populated(lds) && WellNamed(lds)
    requires p in ModelPlaces(lds) && p.AttributePlace?
    ensures Initializer(Symbol(px, p.key), p.da.attrType, v) in LdInits(ValuesOf(decls, defs), px, lds)
       <==> StartsWith(decls, defs, p.da, v)
  {
    InitializersExact(ValuesOf(decls, defs), px, lds);
    InitialValueExact(decls, defs, p.da, v);
  }

  /** What is assigned to an attribute directly below a data object to which instance values have been
      applied: the instance value if one names it, else what the definition's default stands for, else
      nothing. */
  lemma {:induction false} EmittedValue(conv: Conversion, decls: seq<TypeDecl>, defs: Defaults, px: string,
                                        lds: seq<LogicalDevice>, d: DataObject, dais: seq<Dai>, i: nat, p: Place,
                                        v: Scalar)
    requires AllResolvable(decls, defs) && FitsCut(px) && Populated(lds) && WellNamed(lds)
    requires ApplyDais(conv, d, dais).Done?
    requires i < |d.das| == |ApplyDais(conv, d, dais).value.das| && d.das[i].value.None?
    requires p in ModelPlaces(lds) && p.AttributePlace? && p.da == ApplyDais(conv, d, dais).value.das[i]
    ensures var da, k := d.das[i], LastDai(dais, d.das[i].name);
            Initializer(Symbol(px, p.key), p.da.attrType, v) in LdInits(ValuesOf(decls, defs), px, lds)
            <==> if FindDa(d.das, da.name) == Some(i) && k.Some?
                 then conv(da.attrType, da.slot, dais[k.value].val.value) == Some(v)
                 else da.slot in defs && StandsFor(decls, defs[da.slot], v)
  {
    DaisEffect(conv, d, dais);
    assert Became(conv, d.das, dais, i, p.da);
    ValuesExact(decls, defs, px, lds, p, v);
  }
}
