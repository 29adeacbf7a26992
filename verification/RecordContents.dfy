/** What the printed records say besides their pointers: one record for every device, node, data object,
    attribute and array element of the model, in order, with that very element's particulars. */
module RecordContents {
  import opened Text
  import opened Instances
  import opened PointerGraph
  import opened ModelRecords
  import opened Linking
  import opened ModelTable

  /** Something the model has, with its place; attributes and elements know the data objects above. */
  datatype Place =
    | DevicePlace(key: Key, ld: LogicalDevice)
    | NodePlace(key: Key, ln: LogicalNode)
    | ObjectPlace(key: Key, d: DataObject)
    | AttributePlace(key: Key, da: DataAttribute, above: seq<DataObject>)
    | ElementPlace(key: Key, da: DataAttribute, above: seq<DataObject>, index: nat)

  // ----- the places of a model, in preorder

  function DaPlaces(path: seq<string>, above: seq<DataObject>, das: seq<DataAttribute>): seq<Place>
    decreases das, 0
  {
    if das == [] then []
    else
      [AttributePlace(DaKey(path, das[0]), das[0], above)]
      + BelowPlaces(path + [das[0].name], above, das[0])
      + DaPlaces(path, above, das[1..])
  }

  function BelowPlaces(path: seq<string>, above: seq<DataObject>, da: DataAttribute): seq<Place>
    decreases da, 1
  {
    if da.count > 0 then ElementPlaces(path, above, da, 0) else DaPlaces(path, above, da.subs)
  }

  function ElementPlaces(path: seq<string>, above: seq<DataObject>, da: DataAttribute, index: nat): seq<Place>
    requires index <= da.count
    decreases da, 0, da.count - index
  {
    if index == da.count then []
    else
      var k := Key(da.fc == "SE", path + [Itoa(index)]);
      [ElementPlace(k, da, above, index)] + DaPlaces(k.path, above, da.subs) + ElementPlaces(path, above, da, index + 1)
  }

  function DoPlaces(path: seq<string>, above: seq<DataObject>, dos: seq<DataObject>): seq<Place>
    decreases dos
  {
    if dos == [] then []
    else
      var below, chain := path + [dos[0].name], above + [dos[0]];
      [ObjectPlace(Key(false, below), dos[0])]
      + DoPlaces(below, chain, dos[0].sdos) + DaPlaces(below, chain, dos[0].das)
      + DoPlaces(path, above, dos[1..])
  }

  function LnPlaces(path: seq<string>, lns: seq<LogicalNode>): seq<Place> {
    if lns == [] then []
    else
      var below := path + [lns[0].Name()];
      [NodePlace(Key(false, below), lns[0])] + DoPlaces(below, [], lns[0].dos) + LnPlaces(path, lns[1..])
  }

  function ModelPlaces(lds: seq<LogicalDevice>): seq<Place> {
    if lds == [] then []
    else
      [DevicePlace(Key(false, [lds[0].inst]), lds[0])] + LnPlaces([lds[0].inst], lds[0].lns) + ModelPlaces(lds[1..])
  }

  // ----- a record about a place

  predicate Transient(above: seq<DataObject>) {
    exists d :: d in above && d.trans
  }

  /** The record stands under the place's symbol and says what the model says. */
  predicate Tells(px: string, r: Rec, p: Place) {
    && r.symbol == Symbol(px, p.key)
    && match p
       case DevicePlace(_, ld) => r.data.LdLabel? && r.data.inst == ld.inst
       case NodePlace(_, ln) => r.data.LnLabel? && r.data.ln == ln.Name()
       case ObjectPlace(_, d) => r.data.DoLabel? && r.data.name == d.name && r.data.count == d.count
       case AttributePlace(_, da, above) =>
         && r.data.DaLabel? && r.data.attr == Some(da.name)
         && r.data.fc == da.fc && r.data.attrType == da.attrType && r.data.trigger == da.trigger
         && r.data.elements == da.count && r.data.index == -1
         && (r.data.transient <==> Transient(above)) && r.data.shortAddress == da.shortAddress
       case ElementPlace(_, da, above, index) =>
         && r.data.DaLabel? && r.data.attr.None?
         && r.data.fc == da.fc && r.data.attrType == da.attrType && r.data.trigger == da.trigger
         && r.data.elements == 0 && r.data.index == index
         && (r.data.transient <==> Transient(above)) && r.data.shortAddress == "0"
  }

  ghost predicate TellsAll(px: string, recs: seq<Rec>, places: seq<Place>) {
    |recs| == |places| && forall i :: 0 <= i < |recs| ==> Tells(px, recs[i], places[i])
  }

  lemma {:induction false} TellsJoin(px: string, a: seq<Rec>, p: seq<Place>, b: seq<Rec>, q: seq<Place>)
    requires TellsAll(px, a, p) && TellsAll(px, b, q)
    ensures TellsAll(px, a + b, p + q)
  {
  }

  lemma {:induction false} TellsFirst(px: string, r: Rec, p: Place, b: seq<Rec>, q: seq<Place>)
    requires Tells(px, r, p) && TellsAll(px, b, q)
    ensures TellsAll(px, [r] + b, [p] + q)
  {
    assert TellsAll(px, [r], [p]);
    TellsJoin(px, [r], [p], b, q);
  }

  lemma {:induction false} MoreTransient(above: seq<DataObject>, d: DataObject)
    ensures Transient(above + [d]) <==> Transient(above) || d.trans
  {
    assert d in above + [d];
    assert forall x :: x in above ==> x in above + [d];
  }

  // ----- the records of a model are about its places

  lemma {:induction false} DasTell(px: string, se: bool, path: seq<string>, above: seq<DataObject>,
                                   das: seq<DataAttribute>, transient: bool)
    requires FitsCut(px) && InModel(path) && Fits(se, das) && (transient <==> Transient(above))
    ensures TellsAll(px, DaRecords(px, Symbol(px, Key(se, path)), das, transient), DaPlaces(path, above, das))
    decreases das, 0
  {
    if das != [] {
      var parent, k := Symbol(px, Key(se, path)), DaKey(path, das[0]);
      Spelling(px, Key(se, path), das[0]);
      var head, place := DaHead(px, parent, das, transient), AttributePlace(k, das[0], above);
      var below, belowPlaces := DaBelow(px, Symbol(px, k), das[0], transient), BelowPlaces(k.path, above, das[0]);
      BelowTell(px, k, above, das[0], transient);
      assert Tells(px, head, place);
      TellsFirst(px, head, place, below, belowPlaces);
      DasTell(px, se, path, above, das[1..], transient);
      TellsJoin(px, [head] + below, [place] + belowPlaces,
                DaRecords(px, parent, das[1..], transient), DaPlaces(path, above, das[1..]));
    }
  }

  lemma {:induction false} BelowTell(px: string, k: Key, above: seq<DataObject>, da: DataAttribute, transient: bool)
    requires FitsCut(px) && InModel(k.path) && k.se == (da.fc == "SE") && Uniform(da)
    requires transient <==> Transient(above)
    ensures TellsAll(px, DaBelow(px, Symbol(px, k), da, transient), BelowPlaces(k.path, above, da))
    decreases da, 1
  {
    if da.count > 0 {
      ElementsTell(px, k, above, da, transient, 0);
    } else {
      DasTell(px, k.se, k.path, above, da.subs, transient);
    }
  }

  lemma {:induction false} ElementsTell(px: string, k: Key, above: seq<DataObject>, da: DataAttribute,
                                        transient: bool, index: nat)
    requires FitsCut(px) && InModel(k.path) && k.se == (da.fc == "SE") && Uniform(da)
    requires index <= da.count && (transient <==> Transient(above))
    ensures TellsAll(px, ElementRecords(px, Symbol(px, k), da, transient, index),
                     ElementPlaces(k.path, above, da, index))
    decreases da, 0, da.count - index
  {
    if index < da.count {
      var e := Key(k.se, k.path + [Itoa(index)]);
      ElementKey(px, k, index);
      var head, place := ElementHead(Symbol(px, k), da, transient, index), ElementPlace(e, da, above, index);
      var below, belowPlaces := DaRecords(px, Symbol(px, e), da.subs, transient), DaPlaces(e.path, above, da.subs);
      DasTell(px, e.se, e.path, above, da.subs, transient);
      assert Tells(px, head, place);
      TellsFirst(px, head, place, below, belowPlaces);
      ElementsTell(px, k, above, da, transient, index + 1);
      TellsJoin(px, [head] + below, [place] + belowPlaces,
                ElementRecords(px, Symbol(px, k), da, transient, index + 1),
                  ElementPlaces(k.path, above, da, index + 1));
    }
  }

  lemma {:induction false} DosTell(px: string, path: seq<string>, above: seq<DataObject>, dos: seq<DataObject>,
                                   tail: Option<string>, transient: bool)
    requires FitsCut(px) && InModel(path) && DosFit(dos) && (transient <==> Transient(above))
    ensures TellsAll(px, DoRecords(px, Symbol(px, Key(false, path)), dos, tail, transient), DoPlaces(path, above, dos))
    decreases dos
  {
    if dos != [] {
      var parent, d := Symbol(px, Key(false, path)), dos[0];
      var below, chain, t := path + [d.name], above + [d], transient || d.trans;
      var symbol := parent + "_" + d.name;
      ChildSymbol(px, Key(false, path), d.name);
      MoreTransient(above, d);
      var first := FirstDa(px, symbol, d.das);
      DosTell(px, below, chain, d.sdos, first, t);
      DasTell(px, false, below, chain, d.das, t);
      DosTell(px, path, above, dos[1..], tail, transient);
      var head, place := DoHead(px, parent, dos, tail), ObjectPlace(Key(false, below), d);
      assert Tells(px, head, place);
      FourTell(px, head, place, DoRecords(px, symbol, d.sdos, first, t), DoPlaces(below, chain, d.sdos),
               DaRecords(px, symbol, d.das, t), DaPlaces(below, chain, d.das),
               DoRecords(px, parent, dos[1..], tail, transient), DoPlaces(path, above, dos[1..]));
    }
  }

  lemma {:induction false} FourTell(px: string, head: Rec, place: Place, a: seq<Rec>, p: seq<Place>,
                                    b: seq<Rec>, q: seq<Place>, c: seq<Rec>, r: seq<Place>)
    requires Tells(px, head, place) && TellsAll(px, a, p) && TellsAll(px, b, q) && TellsAll(px, c, r)
    ensures TellsAll(px, [head] + a + b + c, [place] + p + q + r)
  {
    TellsFirst(px, head, place, a, p);
    TellsJoin(px, [head] + a, [place] + p, b, q);
    TellsJoin(px, [head] + a + b, [place] + p + q, c, r);
  }

  lemma {:induction false} LnsTell(px: string, inst: string, lns: seq<LogicalNode>)
    requires FitsCut(px) && InModel([inst])
    requires forall ln :: ln in lns ==> ln.dos != [] && DosFit(ln.dos)
    ensures TellsAll(px, LnRecords(px, px + "_" + inst, lns), LnPlaces([inst], lns))
  {
    if lns != [] {
      var parent, ln := px + "_" + inst, lns[0];
      var path := [inst] + [ln.Name()];
      LdSymbol(px, inst);
      ChildSymbol(px, Key(false, [inst]), ln.Name());
      var head, place := LnHead(parent, lns), NodePlace(Key(false, path), ln);
      var dos := DoRecords(px, parent + "_" + ln.Name(), ln.dos, None, false);
      DosTell(px, path, [], ln.dos, None, false);
      LnsTell(px, inst, lns[1..]);
      assert Tells(px, head, place);
      TellsFirst(px, head, place, dos, DoPlaces(path, [], ln.dos));
      TellsJoin(px, [head] + dos, [place] + DoPlaces(path, [], ln.dos),
                LnRecords(px, parent, lns[1..]), LnPlaces([inst], lns[1..]));
    }
  }

  lemma {:induction false} LdsTell(px: string, lds: seq<LogicalDevice>)
    requires FitsCut(px) && Populated(lds) && Fitting(lds)
    ensures TellsAll(px, LdRecords(px, lds), ModelPlaces(lds))
  {
    if lds != [] {
      var ld := lds[0];
      assert ld in lds;
      LdSymbol(px, ld.inst);
      var head, place := LdHead(px, lds), DevicePlace(Key(false, [ld.inst]), ld);
      var lns := LnRecords(px, px + "_" + ld.inst, ld.lns);
      LnsTell(px, ld.inst, ld.lns);
      LdsTell(px, lds[1..]);
      assert Tells(px, head, place);
      TellsFirst(px, head, place, lns, LnPlaces([ld.inst], ld.lns));
      TellsJoin(px, [head] + lns, [place] + LnPlaces([ld.inst], ld.lns), LdRecords(px, lds[1..]),
                ModelPlaces(lds[1..]));
    }
  }

  /** For a well-named model and a fitting prefix: record number i is about the i-th place of the model,
      there are no others, and the record found under a place's symbol is the one about that place. */
  lemma {:induction false} ContentsExact(px: string, lds: seq<LogicalDevice>)
    requires FitsCut(px) && Populated(lds) && WellNamed(lds)
    ensures var recs, places := LdRecords(px, lds), ModelPlaces(lds);
            && |recs| == |places|
            && forall i :: 0 <= i < |places| ==>
                 Tells(px, recs[i], places[i]) && Lookup(recs, Symbol(px, places[i].key)) == Some(recs[i])
  {
    var recs, places := LdRecords(px, lds), ModelPlaces(lds);
    ModelFitting(lds);
    TableFaithful(px, lds);
    LdsTell(px, lds);
    forall i | 0 <= i < |places|
      ensures Tells(px, recs[i], places[i]) && Lookup(recs, Symbol(px, places[i].key)) == Some(recs[i])
    {
      LookupFinds(recs, i);
    }
  }
}
