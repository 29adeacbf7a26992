/** When instantiation comes to an end, and when it succeeds: decided by the references alone. */
module Termination {
  import opened Text
  import opened Instances
  import opened Templates
  import opened Graphs
  import opened References
  import opened Unfolding

  // ----- the references that instantiation follows

  /** What becomes of one reference: it ends at once, with or without a failure, or the members of a
      declaration are entered, after which a failure may still be due. */
  datatype Entry = Stop(failure: Option<Failure>) | Enter(t: nat, after: Option<Failure>)

  function Look(decls: seq<TypeDecl>, ref: Ref): (e: Entry)
    ensures e.Enter? ==> Named(decls, ref) == Some(e.t)
  {
    var t := Named(decls, ref);
    if ref.DaRef? && ref.attribute.attrType.Basic? then Stop(None)
    else if t.None? then Stop(Some(MissingType))
    else
      var d := decls[t.value];
      match ref
      case DaRef(def) =>
        if def.attrType.Enumerated? then Stop(if d.EnumType? then None else Some(WrongType))
        else if d.DaType? then Enter(t.value, None) else Stop(Some(WrongType))
      case DoRef(_) =>
        if d.DoType? then Enter(t.value, None)
        else if d.DaType? then Enter(t.value, Some(AssertionPanic)) else Stop(Some(AssertionPanic))
      case LnRef(_) => if d.LNodeType? then Enter(t.value, None) else Stop(Some(WrongType))
  }

  /** The failure a reference ends in, if any: a walk over declarations that builds nothing. */
  function Check(decls: seq<TypeDecl>, fuel: nat, ref: Ref): Option<Failure>
    decreases fuel, 0, 0
  {
    match Look(decls, ref)
    case Stop(failure) => failure
    case Enter(t, after) =>
      if fuel == 0 then Some(OutOfFuel)
      else
        var failure := CheckAll(decls, fuel - 1, Items(decls[t]));
        if failure.Some? then failure else after
  }

  function CheckAll(decls: seq<TypeDecl>, fuel: nat, refs: seq<Ref>): Option<Failure>
    decreases fuel, 1, |refs|
  {
    if refs == [] then None
    else
      var failure := Check(decls, fuel, refs[0]);
      if failure.Some? then failure else CheckAll(decls, fuel, refs[1..])
  }

  function Status<T>(o: Outcome<T>): Option<Failure> {
    if o.Ok? then None else Some(o.failure)
  }

  lemma {:induction false} CheckJoin(decls: seq<TypeDecl>, fuel: nat, a: seq<Ref>, b: seq<Ref>)
    ensures CheckAll(decls, fuel, a + b)
         == if CheckAll(decls, fuel, a).Some? then CheckAll(decls, fuel, a) else CheckAll(decls, fuel, b)
  {
    if a == [] {
      assert a + b == b;
    } else {
      assert (a + b)[1..] == a[1..] + b;
      CheckJoin(decls, fuel, a[1..], b);
    }
  }

  // ----- instantiation ends as the walk does

  lemma {:induction false} DaStatus(decls: seq<TypeDecl>, fuel: nat, def: DaDef, fc: string, inherited: Option<Trigger>)
    ensures Status(UnfoldDa(decls, fuel, def, fc, inherited)) == Check(decls, fuel, DaRef(def))
    decreases fuel, 0, 0
  {
    if Look(decls, DaRef(def)).Enter? && fuel > 0 {
      SubsStatus(decls, fuel - 1, decls[Look(decls, DaRef(def)).t].bdas, EffectiveFc(def, fc),
                 inherited.GetOr(def.trigger));
    }
  }

  lemma {:induction false} SubsStatus(decls: seq<TypeDecl>, fuel: nat, defs: seq<DaDef>, fc: string, trigger: Trigger)
    ensures Status(UnfoldSubs(decls, fuel, defs, fc, trigger)) == CheckAll(decls, fuel, DaItems(defs))
    decreases fuel, 1, |defs|
  {
    if defs != [] {
      assert DaItems(defs)[1..] == DaItems(defs[1..]);
      DaStatus(decls, fuel, defs[0], fc, Some(trigger));
      SubsStatus(decls, fuel, defs[1..], fc, trigger);
    }
  }

  lemma {:induction false} AddedStatus(decls: seq<TypeDecl>, fuel: nat, def: DaDef, done: seq<DataAttribute>)
    ensures Status(Added(decls, fuel, def, done)) == Check(decls, fuel, DaRef(def))
  {
    DaStatus(decls, fuel, def, "SG", None);
    DaStatus(decls, fuel, def, "", None);
  }

  lemma {:induction false} ExpandStatus(decls: seq<TypeDecl>, fuel: nat, defs: seq<DaDef>, done: seq<DataAttribute>)
    ensures Status(ExpandDas(decls, fuel, defs, done)) == CheckAll(decls, fuel, DaItems(defs))
    decreases |defs|
  {
    if defs != [] {
      assert DaItems(defs)[1..] == DaItems(defs[1..]);
      AddedStatus(decls, fuel, defs[0], done);
      var next := Added(decls, fuel, defs[0], done);
      if next.Ok? {
        ExpandStatus(decls, fuel, defs[1..], next.value);
      }
    }
  }

  lemma {:induction false} DoStatus(decls: seq<TypeDecl>, fuel: nat, def: DoDef)
    ensures Status(UnfoldDo(decls, fuel, def)) == Check(decls, fuel, DoRef(def))
    decreases fuel, 0, 0
  {
    if Look(decls, DoRef(def)).Enter? && fuel > 0 {
      FillStatus(decls, fuel - 1, def, decls[Look(decls, DoRef(def)).t]);
    }
  }

  lemma {:induction false} FillStatus(decls: seq<TypeDecl>, fuel: nat, def: DoDef, d: TypeDecl)
    requires d.DoType? || d.DaType?
    ensures Status(FillDo(decls, fuel, def, d))
         == var failure := CheckAll(decls, fuel, Items(d));
            if failure.Some? then failure else if d.DoType? then None else Some(AssertionPanic)
    decreases fuel, 2, 0
  {
    ExpandStatus(decls, fuel, DefsOf(d), []);
    if d.DoType? {
      DosStatus(decls, fuel, d.sdos);
      CheckJoin(decls, fuel, DaItems(d.das), DoItems(d.sdos));
    }
  }

  lemma {:induction false} DosStatus(decls: seq<TypeDecl>, fuel: nat, defs: seq<DoDef>)
    ensures Status(UnfoldDos(decls, fuel, defs)) == CheckAll(decls, fuel, DoItems(defs))
    decreases fuel, 1, |defs|
  {
    if defs != [] {
      assert DoItems(defs)[1..] == DoItems(defs[1..]);
      DoStatus(decls, fuel, defs[0]);
      DosStatus(decls, fuel, defs[1..]);
    }
  }

  lemma {:induction false} LnStatus(decls: seq<TypeDecl>, fuel: nat, lnType: string)
    ensures Status(UnfoldLn(decls, fuel, lnType)) == Check(decls, fuel, LnRef(lnType))
  {
    if Look(decls, LnRef(lnType)).Enter? && fuel > 0 {
      DosStatus(decls, fuel - 1, decls[Look(decls, LnRef(lnType)).t].dos);
    }
  }

  lemma {:induction false} LnsStatus(decls: seq<TypeDecl>, fuel: nat, lnTypes: seq<string>)
    ensures Status(UnfoldLns(decls, fuel, lnTypes)) == CheckAll(decls, fuel, LnItems(lnTypes))
  {
    if lnTypes != [] {
      assert LnItems(lnTypes)[1..] == LnItems(lnTypes[1..]);
      LnStatus(decls, fuel, lnTypes[0]);
      LnsStatus(decls, fuel, lnTypes[1..]);
    }
  }

  // ----- more fuel changes no answer

  lemma {:induction false} CheckFuel(decls: seq<TypeDecl>, fuel: nat, more: nat, ref: Ref)
    requires fuel <= more && Check(decls, fuel, ref) != Some(OutOfFuel)
    ensures Check(decls, more, ref) == Check(decls, fuel, ref)
    decreases fuel, 0, 0
  {
    if Look(decls, ref).Enter? {
      CheckAllFuel(decls, fuel - 1, more - 1, Items(decls[Look(decls, ref).t]));
    }
  }

  lemma {:induction false} CheckAllFuel(decls: seq<TypeDecl>, fuel: nat, more: nat, refs: seq<Ref>)
    requires fuel <= more && CheckAll(decls, fuel, refs) != Some(OutOfFuel)
    ensures CheckAll(decls, more, refs) == CheckAll(decls, fuel, refs)
    decreases fuel, 1, |refs|
  {
    if refs != [] {
      CheckFuel(decls, fuel, more, refs[0]);
      if Check(decls, fuel, refs[0]).None? {
        CheckAllFuel(decls, fuel, more, refs[1..]);
      }
    }
  }

  lemma {:induction false} CheckAgrees(decls: seq<TypeDecl>, fuel: nat, other: nat, ref: Ref)
    requires Check(decls, fuel, ref) != Some(OutOfFuel) && Check(decls, other, ref) != Some(OutOfFuel)
    ensures Check(decls, fuel, ref) == Check(decls, other, ref)
  {
    if fuel <= other {
      CheckFuel(decls, fuel, other, ref);
    } else {
      CheckFuel(decls, other, fuel, ref);
    }
  }

  // ----- success: sound references without a cycle

  /** The reference is to a declaration of the right kind. */
  predicate RefOk(decls: seq<TypeDecl>, ref: Ref) {
    var t := Named(decls, ref);
    match ref
    case DaRef(def) =>
      || def.attrType.Basic?
      || (t.Some? && if def.attrType.Enumerated? then decls[t.value].EnumType? else decls[t.value].DaType?)
    case DoRef(_) => t.Some? && decls[t.value].DoType?
    case LnRef(_) => t.Some? && decls[t.value].LNodeType?
  }

  predicate WellReferring(decls: seq<TypeDecl>, d: TypeDecl) {
    forall ref :: ref in Items(d) ==> RefOk(decls, ref)
  }

  /** The reference and all references in declarations it leads to are to the right kind. */
  ghost predicate Sound(decls: seq<TypeDecl>, ref: Ref) {
    RefOk(decls, ref) && forall j :: j in ReachOf(decls, ref) ==> WellReferring(decls, decls[j])
  }

  /** In addition no declaration it leads to can lead to itself. */
  ghost predicate Fine(decls: seq<TypeDecl>, ref: Ref) {
    Sound(decls, ref) && Acyclic(Refers(decls), ReachOf(decls, ref))
  }

  lemma {:induction false} SoundItem(decls: seq<TypeDecl>, ref: Ref, t: nat, item: Ref)
    requires Sound(decls, ref) && Named(decls, ref) == Some(t) && item in Items(decls[t])
    ensures Sound(decls, item)
  {
    ReachStep(decls, ref);
    forall j | j in ReachOf(decls, item) ensures WellReferring(decls, decls[j]) {
      ReachAllIs(decls, Items(decls[t]), j);
    }
  }

  lemma {:induction false} SoundByItems(decls: seq<TypeDecl>, ref: Ref, t: nat)
    requires RefOk(decls, ref) && Named(decls, ref) == Some(t)
    requires forall item :: item in Items(decls[t]) ==> Sound(decls, item)
    ensures Sound(decls, ref)
  {
    ReachStep(decls, ref);
    forall item | item in Items(decls[t]) ensures RefOk(decls, item) {
      assert Sound(decls, item);
    }
    forall j | j in ReachOf(decls, ref) && j != t ensures WellReferring(decls, decls[j]) {
      ReachAllIs(decls, Items(decls[t]), j);
    }
  }

  /** Ranks closed under a graph's edges and falling along them. */
  ghost predicate Ranks(g: Graph, rank: Ranking) {
    forall i: nat, k: nat :: i in rank && Arc(g, i, k) ==> k in rank && rank[k] < rank[i]
  }

  /** A sound reference whose declaration ranks below the fuel. */
  ghost predicate Low(decls: seq<TypeDecl>, rank: Ranking, fuel: nat, ref: Ref) {
    var t := Named(decls, ref);
    Sound(decls, ref) && (t.Some? ==> t.value in rank && rank[t.value] < fuel)
  }

  lemma {:induction false} ItemLow(decls: seq<TypeDecl>, rank: Ranking, fuel: nat, ref: Ref, t: nat, item: Ref)
    requires Ranks(Refers(decls), rank) && Low(decls, rank, fuel, ref)
    requires Named(decls, ref) == Some(t) && item in Items(decls[t])
    ensures Low(decls, rank, fuel - 1, item)
  {
    SoundItem(decls, ref, t, item);
    if Named(decls, item).Some? {
      assert Arc(Refers(decls), t, Named(decls, item).value);
    }
  }

  lemma {:induction false} LowChecks(decls: seq<TypeDecl>, rank: Ranking, fuel: nat, ref: Ref)
    requires Ranks(Refers(decls), rank) && Low(decls, rank, fuel, ref)
    ensures Check(decls, fuel, ref).None?
    decreases fuel, 0, 0
  {
    var e := Look(decls, ref);
    if e.Enter? {
      var items := Items(decls[e.t]);
      forall item | item in items ensures Low(decls, rank, fuel - 1, item) {
        ItemLow(decls, rank, fuel, ref, e.t, item);
      }
      LowAllCheck(decls, rank, fuel - 1, items);
    }
  }

  lemma {:induction false} LowAllCheck(decls: seq<TypeDecl>, rank: Ranking, fuel: nat, refs: seq<Ref>)
    requires Ranks(Refers(decls), rank) && forall ref :: ref in refs ==> Low(decls, rank, fuel, ref)
    ensures CheckAll(decls, fuel, refs).None?
    decreases fuel, 1, |refs|
  {
    if refs != [] {
      LowChecks(decls, rank, fuel, refs[0]);
      LowAllCheck(decls, rank, fuel, refs[1..]);
    }
  }

  lemma {:induction false} NoneAt(decls: seq<TypeDecl>, fuel: nat, refs: seq<Ref>, ref: Ref)
    requires CheckAll(decls, fuel, refs).None? && ref in refs
    ensures Check(decls, fuel, ref).None?
  {
    if ref != refs[0] {
      NoneAt(decls, fuel, refs[1..], ref);
    }
  }

  lemma {:induction false} FineChecks(decls: seq<TypeDecl>, ref: Ref)
    requires Fine(decls, ref)
    ensures Check(decls, |decls|, ref).None?
  {
    EdgesWithin(decls);
    var rank: Ranking := map[];
    if Named(decls, ref).Some? {
      rank := ReachedRanks(Refers(decls), |decls|, Named(decls, ref).value);
    }
    LowChecks(decls, rank, |decls|, ref);
  }

  lemma {:induction false} AllFineCheck(decls: seq<TypeDecl>, refs: seq<Ref>)
    requires forall ref :: ref in refs ==> Fine(decls, ref)
    ensures CheckAll(decls, |decls|, refs).None?
  {
    if refs != [] {
      FineChecks(decls, refs[0]);
      AllFineCheck(decls, refs[1..]);
    }
  }

  /** Members of a declaration with references are entered. */
  lemma {:induction false} ItemEntered(decls: seq<TypeDecl>, ref: Ref, t: nat, item: Ref)
    requires Look(decls, ref) in {Stop(None), Enter(t, None)} && Named(decls, ref) == Some(t) && item in Items(decls[t])
    ensures Look(decls, ref) == Enter(t, None)
  {
  }

  lemma {:induction false} ItemChecked(decls: seq<TypeDecl>, fuel: nat, ref: Ref, t: nat, item: Ref)
    requires Check(decls, fuel, ref).None? && Named(decls, ref) == Some(t) && item in Items(decls[t])
    ensures fuel > 0 && Check(decls, fuel - 1, item).None?
  {
    ItemEntered(decls, ref, t, item);
    NoneAt(decls, fuel - 1, Items(decls[t]), item);
  }

  lemma {:induction false} CheckedSound(decls: seq<TypeDecl>, fuel: nat, ref: Ref)
    requires Check(decls, fuel, ref).None?
    ensures Sound(decls, ref)
    decreases fuel
  {
    var t := Named(decls, ref);
    if t.Some? {
      var items := Items(decls[t.value]);
      forall item | item in items ensures Sound(decls, item) {
        ItemChecked(decls, fuel, ref, t.value, item);
        CheckedSound(decls, fuel - 1, item);
      }
      SoundByItems(decls, ref, t.value);
    }
  }

  lemma {:induction false} CheckedStep(decls: seq<TypeDecl>, fuel: nat, ref: Ref, t: nat, k: nat) returns (item: Ref)
    requires Check(decls, fuel, ref).None? && Named(decls, ref) == Some(t) && Arc(Refers(decls), t, k)
    ensures fuel > 0 && Check(decls, fuel - 1, item).None? && Named(decls, item) == Some(k)
  {
    item :| item in Items(decls[t]) && Named(decls, item) == Some(k);
    ItemChecked(decls, fuel, ref, t, item);
  }

  /** Success within a depth bounds all paths that references open. */
  lemma {:induction false} CheckedBounds(decls: seq<TypeDecl>, fuel: nat, ref: Ref, t: nat, p: seq<nat>, j: nat)
    requires Check(decls, fuel, ref).None? && Named(decls, ref) == Some(t) && IsPath(Refers(decls), p, t, j)
    ensures |p| <= fuel + 1
    decreases fuel
  {
    if |p| > 1 {
      PathTail(Refers(decls), p, t, j);
      var item := CheckedStep(decls, fuel, ref, t, p[1]);
      CheckedBounds(decls, fuel - 1, item, p[1], p[1..], j);
    }
  }

  lemma {:induction false} CheckedFine(decls: seq<TypeDecl>, fuel: nat, ref: Ref)
    requires Check(decls, fuel, ref).None?
    ensures Fine(decls, ref)
  {
    CheckedSound(decls, fuel, ref);
    var g, t := Refers(decls), Named(decls, ref);
    if t.Some? {
      forall p, j | IsPath(g, p, t.value, j) ensures |p| <= fuel + 1 {
        CheckedBounds(decls, fuel, ref, t.value, p, j);
      }
      forall j: nat, k: nat | j in ReachOf(decls, ref) && Arc(g, j, k) ensures !Reaches(g, k, j) {
        BoundedAcyclic(g, t.value, fuel + 1, j, k);
      }
    }
  }

  // ----- an answer: no cycle among the references that are followed

  /** From declaration i instantiation goes on to k: behind references that all succeed. */
  ghost predicate Follows(decls: seq<TypeDecl>, i: nat, k: nat) {
    i < |decls| && exists n: nat :: FollowsAt(decls, Items(decls[i]), n, k)
  }

  ghost predicate FollowsAt(decls: seq<TypeDecl>, refs: seq<Ref>, n: nat, k: nat) {
    Behind(decls, refs, n) && Look(decls, refs[n]).Enter? && Look(decls, refs[n]).t == k
  }

  /** Nothing in a list fails before reference n. */
  ghost predicate Behind(decls: seq<TypeDecl>, refs: seq<Ref>, n: nat) {
    n < |refs| && forall m :: 0 <= m < n ==> Fine(decls, refs[m])
  }

  ghost function Followed(decls: seq<TypeDecl>): Graph {
    iset i: nat, k: nat | Follows(decls, i, k) :: (i, k)
  }

  /** No cycle among the declarations entered from a reference on. */
  ghost predicate Quiet(decls: seq<TypeDecl>, ref: Ref) {
    var e := Look(decls, ref);
    e.Enter? ==> Acyclic(Followed(decls), ReachedFrom(Followed(decls), |decls|, e.t))
  }

  lemma {:induction false} RankedAnswers(decls: seq<TypeDecl>, rank: Ranking, fuel: nat, ref: Ref)
    requires Ranks(Followed(decls), rank)
    requires Look(decls, ref).Enter? ==> Look(decls, ref).t in rank && rank[Look(decls, ref).t] < fuel
    ensures Check(decls, fuel, ref) != Some(OutOfFuel)
    decreases fuel, 0, 0
  {
    var e := Look(decls, ref);
    if e.Enter? {
      assert Items(decls[e.t])[0..] == Items(decls[e.t]);
      RankedItemsAnswer(decls, rank, fuel - 1, e.t, 0);
    }
  }

  lemma {:induction false} RankedItemsAnswer(decls: seq<TypeDecl>, rank: Ranking, fuel: nat, i: nat, n: nat)
    requires Ranks(Followed(decls), rank) && i in rank && i < |decls| && rank[i] <= fuel
    requires n <= |Items(decls[i])| && forall m :: 0 <= m < n ==> Fine(decls, Items(decls[i])[m])
    ensures CheckAll(decls, fuel, Items(decls[i])[n..]) != Some(OutOfFuel)
    decreases fuel, 1, |Items(decls[i])| - n
  {
    var refs := Items(decls[i]);
    if n < |refs| {
      var e := Look(decls, refs[n]);
      if e.Enter? {
        assert FollowsAt(decls, refs, n, e.t);
        assert Arc(Followed(decls), i, e.t);
      }
      RankedAnswers(decls, rank, fuel, refs[n]);
      assert refs[n..][1..] == refs[n + 1..];
      if Check(decls, fuel, refs[n]).None? {
        CheckedFine(decls, fuel, refs[n]);
        RankedItemsAnswer(decls, rank, fuel, i, n + 1);
      }
    }
  }

  lemma {:induction false} QuietAnswers(decls: seq<TypeDecl>, ref: Ref)
    requires Quiet(decls, ref)
    ensures Check(decls, |decls|, ref) != Some(OutOfFuel)
  {
    var rank: Ranking := map[];
    if Look(decls, ref).Enter? {
      rank := ReachedRanks(Followed(decls), |decls|, Look(decls, ref).t);
    }
    RankedAnswers(decls, rank, |decls|, ref);
  }

  /** The first reference that is not fine is come to. */
  lemma {:induction false} ComeTo(decls: seq<TypeDecl>, fuel: nat, refs: seq<Ref>, n: nat)
    requires CheckAll(decls, fuel, refs) != Some(OutOfFuel) && Behind(decls, refs, n)
    ensures Check(decls, fuel, refs[n]) != Some(OutOfFuel)
  {
    if n > 0 {
      FineChecks(decls, refs[0]);
      CheckAgrees(decls, fuel, |decls|, refs[0]);
      ComeTo(decls, fuel, refs[1..], n - 1);
    }
  }

  lemma {:induction false} AnswerStep(decls: seq<TypeDecl>, fuel: nat, ref: Ref, t: nat, k: nat) returns (item: Ref)
    requires Check(decls, fuel, ref) != Some(OutOfFuel) && Look(decls, ref).Enter? && Look(decls, ref).t == t
    requires Arc(Followed(decls), t, k)
    ensures fuel > 0 && Check(decls, fuel - 1, item) != Some(OutOfFuel)
    ensures Look(decls, item).Enter? && Look(decls, item).t == k
  {
    var items := Items(decls[t]);
    var n: nat :| FollowsAt(decls, items, n, k);
    ComeTo(decls, fuel - 1, items, n);
    item := items[n];
  }

  /** So does an answer all paths of references that are followed. */
  lemma {:induction false} AnswerBounds(decls: seq<TypeDecl>, fuel: nat, ref: Ref, p: seq<nat>, j: nat)
    requires Check(decls, fuel, ref) != Some(OutOfFuel) && Look(decls, ref).Enter?
    requires IsPath(Followed(decls), p, Look(decls, ref).t, j)
    ensures |p| <= fuel
    decreases fuel
  {
    var t := Look(decls, ref).t;
    if |p| > 1 {
      PathTail(Followed(decls), p, t, j);
      var item := AnswerStep(decls, fuel, ref, t, p[1]);
      AnswerBounds(decls, fuel - 1, item, p[1..], j);
    }
  }

  lemma {:induction false} AnsweredQuiet(decls: seq<TypeDecl>, fuel: nat, ref: Ref)
    requires Check(decls, fuel, ref) != Some(OutOfFuel)
    ensures Quiet(decls, ref)
  {
    var g, e := Followed(decls), Look(decls, ref);
    if e.Enter? {
      forall p, j | IsPath(g, p, e.t, j) ensures |p| <= fuel {
        AnswerBounds(decls, fuel, ref, p, j);
      }
      forall j: nat, k: nat | j in ReachedFrom(g, |decls|, e.t) && Arc(g, j, k) ensures !Reaches(g, k, j) {
        BoundedAcyclic(g, e.t, fuel, j, k);
      }
    }
  }

  /** The same for a list, of which instantiation follows what stands behind no failure. */
  ghost predicate AllQuiet(decls: seq<TypeDecl>, refs: seq<Ref>) {
    forall n: nat :: Behind(decls, refs, n) ==> Quiet(decls, refs[n])
  }

  lemma {:induction false} AllQuietAnswer(decls: seq<TypeDecl>, refs: seq<Ref>)
    requires AllQuiet(decls, refs)
    ensures CheckAll(decls, |decls|, refs) != Some(OutOfFuel)
  {
    if refs != [] {
      assert Behind(decls, refs, 0);
      QuietAnswers(decls, refs[0]);
      if Check(decls, |decls|, refs[0]).None? {
        CheckedFine(decls, |decls|, refs[0]);
        forall n: nat | Behind(decls, refs[1..], n) ensures Quiet(decls, refs[1..][n]) {
          BehindMore(decls, refs, n);
        }
        AllQuietAnswer(decls, refs[1..]);
      }
    }
  }

  lemma {:induction false} BehindMore(decls: seq<TypeDecl>, refs: seq<Ref>, n: nat)
    requires refs != [] && Fine(decls, refs[0]) && Behind(decls, refs[1..], n)
    ensures Behind(decls, refs, n + 1)
  {
    forall m | 0 < m < n + 1 ensures Fine(decls, refs[m]) {
      assert refs[m] == refs[1..][m - 1];
    }
  }

  // ----- the theorems

  /** Instantiation of an attribute answers, within some bound, exactly if the references it follows
      run into no cycle, and succeeds exactly if in addition all of them are sound.  As many units of
      fuel as there are declarations are always enough. */
  lemma {:induction false} DaUnfolds(decls: seq<TypeDecl>, def: DaDef, fc: string, inherited: Option<Trigger>)
    ensures (exists fuel :: UnfoldDa(decls, fuel, def, fc, inherited).Answered()) <==> Quiet(decls, DaRef(def))
    ensures (exists fuel :: UnfoldDa(decls, fuel, def, fc, inherited).Ok?) <==> Fine(decls, DaRef(def))
    ensures Quiet(decls, DaRef(def)) ==> UnfoldDa(decls, |decls|, def, fc, inherited).Answered()
  {
    if fuel :| UnfoldDa(decls, fuel, def, fc, inherited).Answered() {
      DaStatus(decls, fuel, def, fc, inherited);
      AnsweredQuiet(decls, fuel, DaRef(def));
    }
    if fuel :| UnfoldDa(decls, fuel, def, fc, inherited).Ok? {
      DaStatus(decls, fuel, def, fc, inherited);
      CheckedFine(decls, fuel, DaRef(def));
    }
    DaStatus(decls, |decls|, def, fc, inherited);
    if Quiet(decls, DaRef(def)) {
      QuietAnswers(decls, DaRef(def));
    }
    if Fine(decls, DaRef(def)) {
      FineChecks(decls, DaRef(def));
    }
  }

  /** The same for data objects. */
  lemma {:induction false} DoUnfolds(decls: seq<TypeDecl>, def: DoDef)
    ensures (exists fuel :: UnfoldDo(decls, fuel, def).Answered()) <==> Quiet(decls, DoRef(def))
    ensures (exists fuel :: UnfoldDo(decls, fuel, def).Ok?) <==> Fine(decls, DoRef(def))
    ensures Quiet(decls, DoRef(def)) ==> UnfoldDo(decls, |decls|, def).Answered()
  {
    if fuel :| UnfoldDo(decls, fuel, def).Answered() {
      DoStatus(decls, fuel, def);
      AnsweredQuiet(decls, fuel, DoRef(def));
    }
    if fuel :| UnfoldDo(decls, fuel, def).Ok? {
      DoStatus(decls, fuel, def);
      CheckedFine(decls, fuel, DoRef(def));
    }
    DoStatus(decls, |decls|, def);
    if Quiet(decls, DoRef(def)) {
      QuietAnswers(decls, DoRef(def));
    }
    if Fine(decls, DoRef(def)) {
      FineChecks(decls, DoRef(def));
    }
  }

  /** The same for logical nodes. */
  lemma {:induction false} LnUnfolds(decls: seq<TypeDecl>, lnType: string)
    ensures (exists fuel :: UnfoldLn(decls, fuel, lnType).Answered()) <==> Quiet(decls, LnRef(lnType))
    ensures (exists fuel :: UnfoldLn(decls, fuel, lnType).Ok?) <==> Fine(decls, LnRef(lnType))
    ensures Quiet(decls, LnRef(lnType)) ==> UnfoldLn(decls, |decls|, lnType).Answered()
  {
    if fuel :| UnfoldLn(decls, fuel, lnType).Answered() {
      LnStatus(decls, fuel, lnType);
      AnsweredQuiet(decls, fuel, LnRef(lnType));
    }
    if fuel :| UnfoldLn(decls, fuel, lnType).Ok? {
      LnStatus(decls, fuel, lnType);
      CheckedFine(decls, fuel, LnRef(lnType));
    }
    LnStatus(decls, |decls|, lnType);
    if Quiet(decls, LnRef(lnType)) {
      QuietAnswers(decls, LnRef(lnType));
    }
    if Fine(decls, LnRef(lnType)) {
      FineChecks(decls, LnRef(lnType));
    }
  }

  // ----- devices

  /** Every node of the device can be instantiated. */
  ghost predicate Smooth(decls: seq<TypeDecl>, lnTypes: seq<string>) {
    forall ref :: ref in LnItems(lnTypes) ==> Fine(decls, ref)
  }

  /** One of the device's types is not declared, or no node that is come to runs into a cycle. */
  ghost predicate Ends(decls: seq<TypeDecl>, lnTypes: seq<string>) {
    !Declared(decls, lnTypes) || AllQuiet(decls, LnItems(lnTypes))
  }

  lemma {:induction false} SmoothDeclared(decls: seq<TypeDecl>, lnTypes: seq<string>)
    requires Smooth(decls, lnTypes)
    ensures Declared(decls, lnTypes)
  {
    forall lnType | lnType in lnTypes ensures LookupType(decls, lnType).Some? {
      LnItemsMember(lnTypes, LnRef(lnType));
      assert RefOk(decls, LnRef(lnType));
    }
  }

  lemma {:induction false} EndsAnswers(decls: seq<TypeDecl>, lnTypes: seq<string>)
    requires Ends(decls, lnTypes)
    ensures UnfoldDevice(decls, |decls|, lnTypes).Answered()
  {
    if Declared(decls, lnTypes) {
      AllQuietAnswer(decls, LnItems(lnTypes));
      LnsStatus(decls, |decls|, lnTypes);
    }
  }

  lemma {:induction false} AnsweredEnds(decls: seq<TypeDecl>, fuel: nat, lnTypes: seq<string>)
    requires UnfoldDevice(decls, fuel, lnTypes).Answered()
    ensures Ends(decls, lnTypes)
  {
    if Declared(decls, lnTypes) {
      LnsStatus(decls, fuel, lnTypes);
      AnsweredAllQuiet(decls, fuel, LnItems(lnTypes));
    }
  }

  lemma {:induction false} AnsweredAllQuiet(decls: seq<TypeDecl>, fuel: nat, refs: seq<Ref>)
    requires CheckAll(decls, fuel, refs) != Some(OutOfFuel)
    ensures AllQuiet(decls, refs)
  {
    forall n: nat | Behind(decls, refs, n) ensures Quiet(decls, refs[n]) {
      ComeTo(decls, fuel, refs, n);
      AnsweredQuiet(decls, fuel, refs[n]);
    }
  }

  lemma {:induction false} OkSmooth(decls: seq<TypeDecl>, fuel: nat, lnTypes: seq<string>)
    requires UnfoldDevice(decls, fuel, lnTypes).Ok?
    ensures Smooth(decls, lnTypes)
  {
    LnsStatus(decls, fuel, lnTypes);
    forall ref | ref in LnItems(lnTypes) ensures Fine(decls, ref) {
      NoneAt(decls, fuel, LnItems(lnTypes), ref);
      CheckedFine(decls, fuel, ref);
    }
  }

  lemma {:induction false} SmoothOk(decls: seq<TypeDecl>, lnTypes: seq<string>)
    requires Smooth(decls, lnTypes)
    ensures UnfoldDevice(decls, |decls|, lnTypes).Ok?
  {
    SmoothDeclared(decls, lnTypes);
    AllFineCheck(decls, LnItems(lnTypes));
    LnsStatus(decls, |decls|, lnTypes);
  }

  /** Every device behind smooth ones ends. */
  ghost predicate AllEnd(decls: seq<TypeDecl>, devices: seq<seq<string>>) {
    forall n :: 0 <= n < |devices| && AllSmooth(decls, devices[..n]) ==> Ends(decls, devices[n])
  }

  ghost predicate AllSmooth(decls: seq<TypeDecl>, devices: seq<seq<string>>) {
    forall device :: device in devices ==> Smooth(decls, device)
  }

  lemma {:induction false} DevicesComeTo(decls: seq<TypeDecl>, fuel: nat, devices: seq<seq<string>>, n: nat)
    requires UnfoldDevices(decls, fuel, devices).Answered() && n < |devices| && AllSmooth(decls, devices[..n])
    ensures UnfoldDevice(decls, fuel, devices[n]).Answered()
  {
    if n > 0 {
      assert devices[0] == devices[..n][0];
      SmoothOk(decls, devices[0]);
      DeviceAgrees(decls, fuel, |decls|, devices[0]);
      forall device | device in devices[1..][..n - 1] ensures Smooth(decls, device) {
        assert devices[1..][..n - 1] == devices[..n][1..];
      }
      DevicesComeTo(decls, fuel, devices[1..], n - 1);
    }
  }

  lemma {:induction false} AllEndTail(decls: seq<TypeDecl>, devices: seq<seq<string>>)
    requires devices != [] && AllEnd(decls, devices) && Smooth(decls, devices[0])
    ensures AllEnd(decls, devices[1..])
  {
    forall n | 0 <= n < |devices[1..]| && AllSmooth(decls, devices[1..][..n]) ensures Ends(decls, devices[1..][n]) {
      assert devices[..n + 1] == [devices[0]] + devices[1..][..n];
      assert AllSmooth(decls, devices[..n + 1]);
    }
  }

  lemma {:induction false} AllEndAnswer(decls: seq<TypeDecl>, devices: seq<seq<string>>)
    requires AllEnd(decls, devices)
    ensures UnfoldDevices(decls, |decls|, devices).Answered()
    ensures AllSmooth(decls, devices) ==> UnfoldDevices(decls, |decls|, devices).Ok?
  {
    if devices != [] {
      assert devices[..0] == [];
      EndsAnswers(decls, devices[0]);
      if Smooth(decls, devices[0]) {
        SmoothOk(decls, devices[0]);
      }
      if UnfoldDevice(decls, |decls|, devices[0]).Ok? {
        OkSmooth(decls, |decls|, devices[0]);
        AllEndTail(decls, devices);
        AllEndAnswer(decls, devices[1..]);
      }
    }
  }

  lemma {:induction false} SmoothEnds(decls: seq<TypeDecl>, devices: seq<seq<string>>)
    requires AllSmooth(decls, devices)
    ensures AllEnd(decls, devices)
  {
    forall n | 0 <= n < |devices| ensures Ends(decls, devices[n]) {
      SmoothOk(decls, devices[n]);
      AnsweredEnds(decls, |decls|, devices[n]);
    }
  }

  lemma {:induction false} DevicesOk(decls: seq<TypeDecl>, fuel: nat, devices: seq<seq<string>>)
    requires UnfoldDevices(decls, fuel, devices).Ok?
    ensures AllSmooth(decls, devices)
  {
    if devices != [] {
      OkSmooth(decls, fuel, devices[0]);
      DevicesOk(decls, fuel, devices[1..]);
    }
  }

  /** The whole instantiation answers exactly if every device behind ones that can be instantiated has an
      undeclared node type or no node that runs into a cycle, and succeeds exactly if every node can be
      instantiated. */
  lemma {:induction false} DevicesUnfold(decls: seq<TypeDecl>, devices: seq<seq<string>>)
    ensures (exists fuel :: UnfoldDevices(decls, fuel, devices).Answered()) <==> AllEnd(decls, devices)
    ensures (exists fuel :: UnfoldDevices(decls, fuel, devices).Ok?) <==> AllSmooth(decls, devices)
    ensures AllEnd(decls, devices) ==> UnfoldDevices(decls, |decls|, devices).Answered()
  {
    if fuel :| UnfoldDevices(decls, fuel, devices).Answered() {
      forall n | 0 <= n < |devices| && AllSmooth(decls, devices[..n]) ensures Ends(decls, devices[n]) {
        DevicesComeTo(decls, fuel, devices, n);
        AnsweredEnds(decls, fuel, devices[n]);
      }
    }
    if fuel :| UnfoldDevices(decls, fuel, devices).Ok? {
      DevicesOk(decls, fuel, devices);
    }
    if AllSmooth(decls, devices) {
      SmoothEnds(decls, devices);
    }
    if AllEnd(decls, devices) {
      AllEndAnswer(decls, devices);
    }
  }

  // ----- cycles that are followed and cycles that are not

  /** If every reference that can be come to is sound, instantiation answers exactly if the part that
      can be reached has no cycle. */
  lemma {:induction false} SoundAnswers(decls: seq<TypeDecl>, ref: Ref)
    requires Sound(decls, ref)
    ensures Quiet(decls, ref) <==> Acyclic(Refers(decls), ReachOf(decls, ref))
  {
    if Quiet(decls, ref) {
      QuietAnswers(decls, ref);
      SoundNoFailure(decls, |decls|, ref);
      CheckedFine(decls, |decls|, ref);
    }
    if Fine(decls, ref) {
      FineChecks(decls, ref);
      AnsweredQuiet(decls, |decls|, ref);
    }
  }

  lemma {:induction false} SoundNoFailure(decls: seq<TypeDecl>, fuel: nat, ref: Ref)
    requires Sound(decls, ref)
    ensures Check(decls, fuel, ref) in {None, Some(OutOfFuel)}
    decreases fuel, 0, 0
  {
    var e := Look(decls, ref);
    if e.Enter? && fuel > 0 {
      forall item | item in Items(decls[e.t]) ensures Sound(decls, item) {
        SoundItem(decls, ref, e.t, item);
      }
      SoundNoFailures(decls, fuel - 1, Items(decls[e.t]));
    }
  }

  lemma {:induction false} SoundNoFailures(decls: seq<TypeDecl>, fuel: nat, refs: seq<Ref>)
    requires forall ref :: ref in refs ==> Sound(decls, ref)
    ensures CheckAll(decls, fuel, refs) in {None, Some(OutOfFuel)}
    decreases fuel, 1, |refs|
  {
    if refs != [] {
      SoundNoFailure(decls, fuel, refs[0]);
      SoundNoFailures(decls, fuel, refs[1..]);
    }
  }

  /** An attribute type whose first member is constructed of that very type: no bound is enough. */
  lemma {:induction false} SelfReference(decls: seq<TypeDecl>, fuel: nat, t: nat, def: DaDef, fc: string,
                                         inherited: Option<Trigger>)
    requires def.attrType.Constructed? && LookupType(decls, def.typ) == Some(t) && decls[t].DaType?
    requires decls[t].bdas != [] && decls[t].bdas[0].attrType.Constructed?
    requires LookupType(decls, decls[t].bdas[0].typ) == Some(t)
    ensures UnfoldDa(decls, fuel, def, fc, inherited) == Failed(OutOfFuel)
  {
    if fuel > 0 {
      SelfReference(decls, fuel - 1, t, decls[t].bdas[0], EffectiveFc(def, fc), Some(inherited.GetOr(def.trigger)));
    }
  }

  function Constructs(name: string, typ: string): DaDef {
    DaDef(name, "", typ, Constructed, 0, Trigger(false, false, false), 0)
  }

  /** The same type with a member of an undeclared type in front: the cycle is reachable and never
      followed, and the answer is the error. */
  lemma {:induction false} CycleBehindFailure(fc: string, inherited: Option<Trigger>)
    ensures var def := Constructs("a", "T");
            var decls := [DaType("T", [Constructs("b", "nowhere"), def])];
            && UnfoldDa(decls, 1, def, fc, inherited) == Failed(MissingType)
            && Quiet(decls, DaRef(def)) && !Acyclic(Refers(decls), ReachOf(decls, DaRef(def)))
  {
    var def := Constructs("a", "T");
    var bdas := [Constructs("b", "nowhere"), def];
    var decls := [DaType("T", bdas)];
    assert UnfoldSubs(decls, 0, bdas, EffectiveFc(def, fc), inherited.GetOr(def.trigger)) == Failed(MissingType);
    DaStatus(decls, 1, def, fc, inherited);
    AnsweredQuiet(decls, 1, DaRef(def));
    assert bdas[1..][0] == def && DaItems(bdas[1..])[0] == DaRef(def);
    assert DaRef(def) in Items(decls[0]);
    assert Arc(Refers(decls), 0, 0);
    ReachesSelf(Refers(decls), 0);
    assert 0 in ReachOf(decls, DaRef(def));
  }
}
