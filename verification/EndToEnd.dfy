/** The whole compiler: from data type templates and instance values to the printed table. */
module EndToEnd {
  import opened Text
  import opened Instances
  import opened Templates
  import opened ModelRecords
  import opened Linking
  import opened ModelTable
  import opened RecordContents
  import opened Graphs
  import opened References
  import opened Unfolding
  import opened Expansion
  import opened Instantiated
  import opened InstanceValues

  /** The logical node's data objects are what its type unfolds to, with instance values laid over. */
  ghost predicate Compiled(decls: seq<TypeDecl>, conv: Conversion, ln: LogicalNode, lnType: string) {
    exists fuel, dois :: CompiledFrom(decls, fuel, conv, ln, lnType, dois)
  }

  ghost predicate CompiledFrom(decls: seq<TypeDecl>, fuel: nat, conv: Conversion, ln: LogicalNode, lnType: string,
                               dois: seq<Doi>)
  {
    var dos := UnfoldLn(decls, fuel, lnType);
    dos.Ok? && ApplyDois(conv, dos.value, dois) == Done(ln.dos)
  }

  /** In terms of the definitions alone: there is an instance of the type, every instance value can be
      applied to it, and each data object is what becomes of the instance's. */
  lemma {:induction false} CompiledExact(decls: seq<TypeDecl>, conv: Conversion, ln: LogicalNode, lnType: string)
    ensures Compiled(decls, conv, ln, lnType)
       <==> exists dos, dois :: LnInstance(decls, lnType, dos) && LaidOver(conv, dos, dois, ln.dos)
  {
    if Compiled(decls, conv, ln, lnType) {
      var fuel, dois :| CompiledFrom(decls, fuel, conv, ln, lnType, dois);
      var dos := UnfoldLn(decls, fuel, lnType).value;
      LnIsInstance(decls, fuel, lnType);
      DoisAccepted(conv, dos, dois);
      DoisEffect(conv, dos, dois);
      assert LaidOver(conv, dos, dois, ln.dos);
    }
    if dos, dois :| LnInstance(decls, lnType, dos) && LaidOver(conv, dos, dois, ln.dos) {
      var fuel := InstanceIsLn(decls, lnType, dos);
      DoisAccepted(conv, dos, dois);
      DoisEffect(conv, dos, dois);
      SameResult(conv, dos, dois, ln.dos);
      assert CompiledFrom(decls, fuel, conv, ln, lnType, dois);
    }
  }

  ghost predicate LaidOver(conv: Conversion, dos: seq<DataObject>, dois: seq<Doi>, after: seq<DataObject>) {
    && AllDoiApplicable(conv, dos, dois) && |after| == |dos|
    && forall i :: 0 <= i < |dos| ==> ObjectBecame(conv, dos, dois, i, after[i])
  }

  lemma {:induction false} SameResult(conv: Conversion, dos: seq<DataObject>, dois: seq<Doi>, after: seq<DataObject>)
    requires LaidOver(conv, dos, dois, after) && ApplyDois(conv, dos, dois).Done?
    ensures ApplyDois(conv, dos, dois) == Done(after)
  {
    var es := ApplyDois(conv, dos, dois).value;
    DoisEffect(conv, dos, dois);
    forall i | 0 <= i < |dos| ensures es[i] == after[i] {
      assert ObjectBecame(conv, dos, dois, i, es[i]) && ObjectBecame(conv, dos, dois, i, after[i]);
    }
    assert es == after;
  }

  /** Everything a logical node type leads to is clean. */
  ghost predicate CleanFrom(decls: seq<TypeDecl>, lnType: string) {
    forall i :: i in ReachOf(decls, LnRef(lnType)) ==> CleanDecl(decls[i])
  }

  lemma {:induction false} CleanReach(decls: seq<TypeDecl>, lnType: string)
    requires CleanFrom(decls, lnType)
    ensures CleanTemplates(decls, ReachOf(decls, LnRef(lnType)))
    ensures Covered(decls, ReachOf(decls, LnRef(lnType)), LnRef(lnType))
  {
    var g, t := Refers(decls), Named(decls, LnRef(lnType));
    if t.Some? {
      ReachesSelf(g, t.value);
      forall i, ref | i in ReachOf(decls, LnRef(lnType)) && i < |decls| && ref in Items(decls[i])
        ensures Covered(decls, ReachOf(decls, LnRef(lnType)), ref)
      {
        if Named(decls, ref).Some? {
          assert Arc(g, i, Named(decls, ref).value);
          ReachesOn(g, t.value, i, Named(decls, ref).value);
        }
      }
    }
  }

  lemma {:induction false} CompiledClean(decls: seq<TypeDecl>, conv: Conversion, ln: LogicalNode, lnType: string)
    requires CleanFrom(decls, lnType) && Compiled(decls, conv, ln, lnType)
    ensures CleanDos(ln.dos, PLAIN)
  {
    var fuel, dois :| CompiledFrom(decls, fuel, conv, ln, lnType, dois);
    var dos := UnfoldLn(decls, fuel, lnType).value;
    CleanReach(decls, lnType);
    UnfoldedLnClean(decls, ReachOf(decls, LnRef(lnType)), fuel, lnType);
    DoisKeepShape(conv, dos, dois);
    ShapeKeepsClean(dos, ln.dos);
  }

  /** Names of logical devices and nodes: no '_', unique among siblings, no device called SE. */
  ghost predicate CleanStructure(lds: seq<LogicalDevice>) {
    && (forall ld :: ld in lds ==> Over(ld.inst, PLAIN) && ld.inst != "SE")
    && (forall i, j :: 0 <= i < j < |lds| ==> lds[i].inst != lds[j].inst)
    && (forall ld, ln :: ld in lds && ln in ld.lns ==> Over(ln.Name(), PLAIN))
    && (forall ld :: ld in lds ==> forall i, j :: 0 <= i < j < |ld.lns| ==> ld.lns[i].Name() != ld.lns[j].Name())
  }

  /** For clean templates and a prefix that fits the cut, whatever is instantiated from them and
      printed reads back as that very model, with unique symbols and no dangling pointer. */
  lemma {:induction false} CompilerCorrect(decls: seq<TypeDecl>, conv: Conversion, px: string, lds: seq<LogicalDevice>)
    requires FitsCut(px) && CleanStructure(lds) && Populated(lds)
    requires forall ld, ln :: ld in lds && ln in ld.lns ==>
               exists lnType :: CleanFrom(decls, lnType) && Compiled(decls, conv, ln, lnType)
    ensures WellNamed(lds)
    ensures TellsAll(px, LdRecords(px, lds), ModelPlaces(lds))
    ensures Faithful(px, LdRecords(px, lds), ModelHead(px, lds), ModelForest(lds))
  {
    forall ld | ld in lds ensures CleanLns(ld.lns, PLAIN) {
      forall ln | ln in ld.lns ensures CleanDos(ln.dos, PLAIN) {
        var lnType :| CleanFrom(decls, lnType) && Compiled(decls, conv, ln, lnType);
        CompiledClean(decls, conv, ln, lnType);
      }
    }
    TableFaithful(px, lds);
    ContentsExact(px, lds);
  }
}
