/** The graph of type declarations and the references in them. */
module References {
  import opened Text
  import opened Templates
  import opened Graphs

  /** What refers to a declaration by name: an attribute definition, a data object definition, or a
      logical node. */
  datatype Ref = DaRef(attribute: DaDef) | DoRef(dataObject: DoDef) | LnRef(lnType: string)

  function DaItems(das: seq<DaDef>): seq<Ref> {
    if das == [] then [] else [DaRef(das[0])] + DaItems(das[1..])
  }

  function DoItems(dos: seq<DoDef>): seq<Ref> {
    if dos == [] then [] else [DoRef(dos[0])] + DoItems(dos[1..])
  }

  function LnItems(lnTypes: seq<string>): seq<Ref> {
    if lnTypes == [] then [] else [LnRef(lnTypes[0])] + LnItems(lnTypes[1..])
  }

  /** A declaration's references in the order in which they are followed. */
  function Items(d: TypeDecl): seq<Ref> {
    match d
    case LNodeType(_, dos) => DoItems(dos)
    case DoType(_, das, sdos) => DaItems(das) + DoItems(sdos)
    case DaType(_, bdas) => DaItems(bdas)
    case EnumType(_, _) => []
  }

  /** The declaration a reference names, if there is one; attributes of a basic type name none. */
  function Named(decls: seq<TypeDecl>, ref: Ref): (r: Option<nat>)
    ensures r.Some? ==> r.value < |decls|
  {
    match ref
    case DaRef(def) => if def.attrType.Basic? then None else LookupType(decls, def.typ)
    case DoRef(def) => LookupType(decls, def.typ)
    case LnRef(lnType) => LookupType(decls, lnType)
  }

  ghost predicate Edge(decls: seq<TypeDecl>, i: nat, j: nat) {
    i < |decls| && exists ref :: ref in Items(decls[i]) && Named(decls, ref) == Some(j)
  }

  ghost function Refers(decls: seq<TypeDecl>): Graph {
    iset i: nat, j: nat | Edge(decls, i, j) :: (i, j)
  }

  /** The declarations a reference leads to, the named one included. */
  ghost function ReachOf(decls: seq<TypeDecl>, ref: Ref): set<nat> {
    var t := Named(decls, ref);
    if t.None? then {} else ReachedFrom(Refers(decls), |decls|, t.value)
  }

  ghost function ReachAll(decls: seq<TypeDecl>, refs: seq<Ref>): set<nat> {
    if refs == [] then {} else ReachOf(decls, refs[0]) + ReachAll(decls, refs[1..])
  }

  lemma {:induction false} ReachAllIs(decls: seq<TypeDecl>, refs: seq<Ref>, j: nat)
    ensures j in ReachAll(decls, refs) <==> exists ref :: ref in refs && j in ReachOf(decls, ref)
  {
    if refs != [] {
      ReachAllIs(decls, refs[1..], j);
      assert forall ref :: ref in refs <==> ref == refs[0] || ref in refs[1..];
    }
  }

  /** A reference leads to what it names and to what the references there lead to. */
  lemma {:induction false} ReachStep(decls: seq<TypeDecl>, ref: Ref)
    requires Named(decls, ref).Some?
    ensures var t := Named(decls, ref).value;
            ReachOf(decls, ref) == {t} + ReachAll(decls, Items(decls[t]))
  {
    var g, t := Refers(decls), Named(decls, ref).value;
    var items := Items(decls[t]);
    ReachesSelf(g, t);
    forall j: nat | j in ReachOf(decls, ref) && j != t ensures j in ReachAll(decls, items) {
      var k := ReachesSplit(g, t, j);
      var item :| item in items && Named(decls, item) == Some(k);
      ReachAllIs(decls, items, j);
      assert j in ReachOf(decls, item);
    }
    forall j: nat | j in ReachAll(decls, items) ensures j in ReachOf(decls, ref) {
      ReachAllIs(decls, items, j);
      var item :| item in items && j in ReachOf(decls, item);
      assert Edge(decls, t, Named(decls, item).value);
      ReachesVia(g, t, Named(decls, item).value, j);
    }
  }

  lemma {:induction false} ReachAllJoin(decls: seq<TypeDecl>, a: seq<Ref>, b: seq<Ref>)
    ensures ReachAll(decls, a + b) == ReachAll(decls, a) + ReachAll(decls, b)
  {
    if a == [] {
      assert a + b == b;
    } else {
      assert (a + b)[1..] == a[1..] + b;
      ReachAllJoin(decls, a[1..], b);
    }
  }

  lemma {:induction false} DaItemsReach(decls: seq<TypeDecl>, defs: seq<DaDef>)
    requires defs != []
    ensures ReachAll(decls, DaItems(defs)) == ReachOf(decls, DaRef(defs[0])) + ReachAll(decls, DaItems(defs[1..]))
  {
    assert DaItems(defs)[1..] == DaItems(defs[1..]);
  }

  lemma {:induction false} DoItemsReach(decls: seq<TypeDecl>, defs: seq<DoDef>)
    requires defs != []
    ensures ReachAll(decls, DoItems(defs)) == ReachOf(decls, DoRef(defs[0])) + ReachAll(decls, DoItems(defs[1..]))
  {
    assert DoItems(defs)[1..] == DoItems(defs[1..]);
  }

  lemma {:induction false} LnItemsReach(decls: seq<TypeDecl>, lnTypes: seq<string>)
    requires lnTypes != []
    ensures ReachAll(decls, LnItems(lnTypes))
         == ReachOf(decls, LnRef(lnTypes[0])) + ReachAll(decls, LnItems(lnTypes[1..]))
  {
    assert LnItems(lnTypes)[1..] == LnItems(lnTypes[1..]);
  }

  lemma {:induction false} DaItemsMember(defs: seq<DaDef>, ref: Ref)
    ensures ref in DaItems(defs) <==> ref.DaRef? && ref.attribute in defs
  {
    if defs != [] {
      DaItemsMember(defs[1..], ref);
    }
  }

  lemma {:induction false} DoItemsMember(defs: seq<DoDef>, ref: Ref)
    ensures ref in DoItems(defs) <==> ref.DoRef? && ref.dataObject in defs
  {
    if defs != [] {
      DoItemsMember(defs[1..], ref);
    }
  }

  lemma {:induction false} LnItemsMember(lnTypes: seq<string>, ref: Ref)
    ensures ref in LnItems(lnTypes) <==> ref.LnRef? && ref.lnType in lnTypes
  {
    if lnTypes != [] {
      LnItemsMember(lnTypes[1..], ref);
    }
  }

  /** What a data object's type leads to: first its attributes, then its sub data objects. */
  lemma {:induction false} ItemsReach(decls: seq<TypeDecl>, d: TypeDecl)
    ensures d.DoType? ==>
              ReachAll(decls, Items(d)) == ReachAll(decls, DaItems(d.das)) + ReachAll(decls, DoItems(d.sdos))
    ensures d.DaType? ==> ReachAll(decls, Items(d)) == ReachAll(decls, DaItems(d.bdas))
  {
    if d.DoType? {
      ReachAllJoin(decls, DaItems(d.das), DoItems(d.sdos));
    }
  }

  lemma {:induction false} EdgesWithin(decls: seq<TypeDecl>)
    ensures Within(Refers(decls), |decls|)
  {
  }
}
