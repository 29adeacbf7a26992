/** DataSetDetail.GetDOType: a search through the templates with a memo table. */
module DoTypeCache {
  import opened Text

  datatype DoDecl = DoDecl(name: string, typ: string)
  datatype LNodeType = LNodeType(id: string, lnClass: string, dos: seq<DoDecl>)
  datatype DOType = DOType(id: string, content: int)
  datatype Templates = Templates(lnodeTypes: seq<LNodeType>, doTypes: seq<DOType>)

  datatype Query = Query(prefix: string, lnClass: string, name: string)

  /** First node type that has the composed id or the class. */
  function FindNode(ns: seq<LNodeType>, q: Query): Option<LNodeType> {
    if ns == [] then None
    else if ns[0].id == q.prefix + q.lnClass || ns[0].lnClass == q.lnClass then Some(ns[0])
    else FindNode(ns[1..], q)
  }

  function FindDo(dos: seq<DoDecl>, name: string): Option<string> {
    if dos == [] then None else if dos[0].name == name then Some(dos[0].typ) else FindDo(dos[1..], name)
  }

  function FindType(ts: seq<DOType>, id: string): Option<DOType> {
    if ts == [] then None else if ts[0].id == id then Some(ts[0]) else FindType(ts[1..], id)
  }

  /** The id looked for: empty when no node type or no data object is found. */
  function TypeId(t: Templates, q: Query): string {
    var n := FindNode(t.lnodeTypes, q);
    if n.None? then "" else FindDo(n.value.dos, q.name).GetOr("")
  }

  // ----- what is found, told from the templates

  predicate NodeMatches(n: LNodeType, q: Query) {
    n.id == q.prefix + q.lnClass || n.lnClass == q.lnClass
  }

  /** Node type n is the first one that matches. */
  ghost predicate FirstNode(t: Templates, q: Query, n: nat) {
    n < |t.lnodeTypes| && NodeMatches(t.lnodeTypes[n], q) && forall j :: 0 <= j < n ==> !NodeMatches(t.lnodeTypes[j], q)
  }

  ghost predicate FirstDo(dos: seq<DoDecl>, name: string, d: nat) {
    d < |dos| && dos[d].name == name && forall j :: 0 <= j < d ==> dos[j].name != name
  }

  ghost predicate FirstType(ts: seq<DOType>, id: string, y: nat) {
    y < |ts| && ts[y].id == id && forall j :: 0 <= j < y ==> ts[j].id != id
  }

  /** The first data object of the name in the first node type that matches is of this type. */
  ghost predicate Names(t: Templates, q: Query, id: string) {
    exists n: nat, d: nat :: FirstNode(t, q, n) && FirstDo(t.lnodeTypes[n].dos, q.name, d)
                             && t.lnodeTypes[n].dos[d].typ == id
  }

  /** What a query comes to without memo: the first type with the id that it names; a query that names
      none finds the first type with an empty id. */
  ghost predicate Finds(t: Templates, q: Query, r: DOType) {
    exists id, y: nat :: (Names(t, q, id) || (id == "" && !exists other :: Names(t, q, other)))
                         && FirstType(t.doTypes, id, y) && t.doTypes[y] == r
  }

  lemma {:induction false} NodeFound(ns: seq<LNodeType>, q: Query) returns (k: nat)
    ensures FindNode(ns, q).None? ==> k == |ns| && forall j :: 0 <= j < |ns| ==> !NodeMatches(ns[j], q)
    ensures FindNode(ns, q).Some? ==>
              k < |ns| && ns[k] == FindNode(ns, q).value && NodeMatches(ns[k], q)
              && forall j :: 0 <= j < k ==> !NodeMatches(ns[j], q)
  {
    k := 0;
    if ns != [] && !NodeMatches(ns[0], q) {
      k := NodeFound(ns[1..], q);
      forall j | 0 < j < |ns| ensures ns[j] == ns[1..][j - 1] {
      }
      k := k + 1;
    }
  }

  lemma {:induction false} DoFound(dos: seq<DoDecl>, name: string) returns (k: nat)
    ensures FindDo(dos, name).None? ==> forall j :: 0 <= j < |dos| ==> dos[j].name != name
    ensures FindDo(dos, name).Some? ==> FirstDo(dos, name, k) && dos[k].typ == FindDo(dos, name).value
  {
    k := 0;
    if dos != [] && dos[0].name != name {
      k := DoFound(dos[1..], name);
      forall j | 0 < j < |dos| ensures dos[j] == dos[1..][j - 1] {
      }
      k := k + 1;
    }
  }

  lemma {:induction false} TypeFound(ts: seq<DOType>, id: string) returns (k: nat)
    ensures FindType(ts, id).None? ==> forall j :: 0 <= j < |ts| ==> ts[j].id != id
    ensures FindType(ts, id).Some? ==> FirstType(ts, id, k) && ts[k] == FindType(ts, id).value
  {
    k := 0;
    if ts != [] && ts[0].id != id {
      k := TypeFound(ts[1..], id);
      forall j | 0 < j < |ts| ensures ts[j] == ts[1..][j - 1] {
      }
      k := k + 1;
    }
  }

  lemma {:induction false} TypeIdExact(t: Templates, q: Query, id: string)
    ensures TypeId(t, q) == id <==> Names(t, q, id) || (id == "" && !exists other :: Names(t, q, other))
  {
    var n := NodeFound(t.lnodeTypes, q);
    if FindNode(t.lnodeTypes, q).Some? {
      var d := DoFound(t.lnodeTypes[n].dos, q.name);
      assert FirstNode(t, q, n);
      forall m: nat | FirstNode(t, q, m) ensures m == n {
      }
      if FindDo(t.lnodeTypes[n].dos, q.name).Some? {
        assert Names(t, q, t.lnodeTypes[n].dos[d].typ);
      }
    }
  }

  /** The search finds exactly that. */
  lemma {:induction false} SearchExact(t: Templates, q: Query, r: DOType)
    ensures Search(t, q) == Some(r) <==> Finds(t, q, r)
  {
    var id := TypeId(t, q);
    TypeIdExact(t, q, id);
    var y := TypeFound(t.doTypes, id);
    if other, z: nat :| (Names(t, q, other) || (other == "" && !exists x :: Names(t, q, x)))
                        && FirstType(t.doTypes, other, z) && t.doTypes[z] == r {
      TypeIdExact(t, q, other);
    }
  }

  const EMPTY := DOType("", 0)

  /** The search without memo. */
  function Search(t: Templates, q: Query): Option<DOType> {
    FindType(t.doTypes, TypeId(t, q))
  }

  function KeyOf(q: Query): string {
    q.prefix + q.lnClass + "/" + q.name
  }

  type Cache = map<string, DOType>

  class DataSetDetail {
    const templates: Templates
    var doTypes: Option<Cache>

    constructor (templates: Templates)
      ensures this.templates == templates && doTypes == None
    {
      this.templates, doTypes := templates, None;
    }

    method GetDOType(q: Query) returns (r: DOType)
      modifies this
      ensures var s := Lookup(templates, old(doTypes), q); r == s.0 && doTypes == s.1
    {
      var key := KeyOf(q);
      if doTypes.Some? && key in doTypes.value {
        return doTypes.value[key];
      }
      var doTypeId := "";
      var i := 0;
      while i < |templates.lnodeTypes|
        invariant i <= |templates.lnodeTypes| && doTypeId == "" && doTypes == old(doTypes)
        invariant FindNode(templates.lnodeTypes, q) == FindNode(templates.lnodeTypes[i..], q)
      {
        var n := templates.lnodeTypes[i];
        assert templates.lnodeTypes[i..][1..] == templates.lnodeTypes[i + 1..];
        if n.id == q.prefix + q.lnClass || n.lnClass == q.lnClass {
          doTypeId := FindDo(n.dos, q.name).GetOr("");
          break;
        }
        i := i + 1;
      }
      assert doTypeId == TypeId(templates, q);
      var found := FindType(templates.doTypes, doTypeId);
      if found.None? {
        return EMPTY;
      }
      var cache := if doTypes.None? then map[] else doTypes.value;
      doTypes := Some(cache[key := found.value]);
      return found.value;
    }
  }

  /** One call as a function of the memo table. */
  function Lookup(t: Templates, cache: Option<Cache>, q: Query): (DOType, Option<Cache>) {
    var key := KeyOf(q);
    if cache.Some? && key in cache.value then (cache.value[key], cache)
    else
      var found := Search(t, q);
      if found.None? then (EMPTY, cache)
      else (found.value, Some((if cache.None? then map[] else cache.value)[key := found.value]))
  }

  function RunAll(t: Templates, cache: Option<Cache>, qs: seq<Query>): seq<DOType>
    decreases |qs|
  {
    if qs == [] then []
    else
      var first := Lookup(t, cache, qs[0]);
      [first.0] + RunAll(t, first.1, qs[1..])
  }

  // ----- agreement with the search

  /** The answer a search gives, with nothing found spelled as the source spells it. */
  function Answer(t: Templates, q: Query): DOType {
    Search(t, q).GetOr(EMPTY)
  }

  /** Two queries share a key only if the search answers them alike. */
  ghost predicate Consistent(t: Templates, qs: set<Query>) {
    forall p, q :: p in qs && q in qs && KeyOf(p) == KeyOf(q) && Search(t, p).Some? ==> Answer(t, p) == Answer(t, q)
  }

  /** The table holds only answers of queries from the set. */
  ghost predicate Sound(t: Templates, cache: Option<Cache>, qs: set<Query>) {
    cache.Some? ==> forall k :: k in cache.value ==>
      exists q :: q in qs && KeyOf(q) == k && Search(t, q) == Some(cache.value[k])
  }

  lemma {:induction false} LookupAgrees(t: Templates, cache: Option<Cache>, qs: set<Query>, q: Query)
    requires Consistent(t, qs) && Sound(t, cache, qs) && q in qs
    ensures Lookup(t, cache, q).0 == Answer(t, q)
    ensures Sound(t, Lookup(t, cache, q).1, qs)
  {
    var key := KeyOf(q);
    if cache.Some? && key in cache.value {
      var p :| p in qs && KeyOf(p) == key && Search(t, p) == Some(cache.value[key]);
    } else if Search(t, q).Some? {
      var next := Lookup(t, cache, q).1.value;
      forall k | k in next ensures exists p :: p in qs && KeyOf(p) == k && Search(t, p) == Some(next[k]) {
        if k != key {
          assert k in cache.value && next[k] == cache.value[k];
        }
      }
    }
  }

  function Set(qs: seq<Query>): set<Query> {
    set q | q in qs
  }

  function Answers(t: Templates, qs: seq<Query>): seq<DOType> {
    if qs == [] then [] else [Answer(t, qs[0])] + Answers(t, qs[1..])
  }

  lemma {:induction false} RunAgreesWithin(t: Templates, cache: Option<Cache>, all: set<Query>, qs: seq<Query>)
    requires Consistent(t, all) && Sound(t, cache, all) && forall q :: q in qs ==> q in all
    ensures RunAll(t, cache, qs) == Answers(t, qs)
    decreases |qs|
  {
    if qs != [] {
      LookupAgrees(t, cache, all, qs[0]);
      RunAgreesWithin(t, Lookup(t, cache, qs[0]).1, all, qs[1..]);
    }
  }

  lemma {:induction false} RunAgrees(t: Templates, qs: seq<Query>)
    requires Consistent(t, Set(qs))
    ensures RunAll(t, None, qs) == Answers(t, qs)
  {
    RunAgreesWithin(t, None, Set(qs), qs);
  }

  lemma {:induction false} TwoCalls(t: Templates, p: Query, q: Query)
    ensures RunAll(t, None, [p, q]) == [Answer(t, p), Lookup(t, Lookup(t, None, p).1, q).0]
  {
    assert [p, q][1..] == [q] && [q][1..] == [];
    var second := Lookup(t, None, p).1;
    assert RunAll(t, second, [q]) == [Lookup(t, second, q).0] + RunAll(t, Lookup(t, second, q).1, []);
  }

  lemma {:induction false} TwoAnswers(t: Templates, p: Query, q: Query)
    ensures Answers(t, [p, q]) == [Answer(t, p), Answer(t, q)]
  {
    assert [p, q][1..] == [q] && [q][1..] == [];
    assert Answers(t, [q]) == [Answer(t, q)] + Answers(t, []);
  }

  /** Over a set of queries the memo is invisible in every sequence of calls exactly if the keys are
      consistent. */
  lemma {:induction false} MemoInvisibleIff(t: Templates, all: set<Query>)
    ensures Consistent(t, all) <==> forall qs :: Set(qs) <= all ==> RunAll(t, None, qs) == Answers(t, qs)
  {
    if Consistent(t, all) {
      forall qs | Set(qs) <= all ensures RunAll(t, None, qs) == Answers(t, qs) {
        assert forall q :: q in qs ==> q in Set(qs);
        RunAgreesWithin(t, None, all, qs);
      }
    } else {
      var p, q :| p in all && q in all && KeyOf(p) == KeyOf(q) && Search(t, p).Some? && Answer(t, p) != Answer(t, q);
      var qs := [p, q];
      assert Set(qs) <= all;
      TwoCalls(t, p, q);
      TwoAnswers(t, p, q);
      assert RunAll(t, None, qs)[1] == Answer(t, p);
      assert RunAll(t, None, qs) != Answers(t, qs);
    }
  }

  // ----- a condition on the queries alone

  ghost predicate KeysTell(qs: set<Query>) {
    forall p, q :: p in qs && q in qs && KeyOf(p) == KeyOf(q) ==> p == q
  }

  ghost predicate Invisible(t: Templates, all: set<Query>) {
    forall qs :: Set(qs) <= all ==> RunAll(t, None, qs) == Answers(t, qs)
  }

  /** Templates that answer two queries with one key differently. */
  function Telling(p: Query, q: Query): Templates {
    var dos := [DoDecl(p.name, "T1")] + if p.name == q.name then [] else [DoDecl(q.name, "T2")];
    var others := if p.name == q.name then [DoDecl(q.name, "T2")] else dos;
    var id := p.prefix + p.lnClass + "x";
    Templates([LNodeType(id, p.lnClass, dos), LNodeType(id, q.lnClass, others)], [DOType("T1", 1), DOType("T2", 2)])
  }

  lemma {:induction false} SameNameSameId(p: Query, q: Query)
    requires KeyOf(p) == KeyOf(q) && p.name == q.name
    ensures p.prefix + p.lnClass == q.prefix + q.lnClass
    ensures p.lnClass == q.lnClass ==> p == q
  {
    var a, b := p.prefix + p.lnClass, q.prefix + q.lnClass;
    assert KeyOf(p) == a + ("/" + p.name) && KeyOf(q) == b + ("/" + q.name);
    assert |a| == |b| && a == KeyOf(p)[..|a|] && b == KeyOf(q)[..|b|];
    if p.lnClass == q.lnClass {
      assert p.prefix == a[..|p.prefix|] && q.prefix == b[..|q.prefix|];
    }
  }

  lemma {:induction false} TellingTypes()
    ensures FindType([DOType("T1", 1), DOType("T2", 2)], "T1") == Some(DOType("T1", 1))
    ensures FindType([DOType("T1", 1), DOType("T2", 2)], "T2") == Some(DOType("T2", 2))
  {
    assert "T1"[1] != "T2"[1];
    assert [DOType("T1", 1), DOType("T2", 2)][1..] == [DOType("T2", 2)];
  }

  lemma {:induction false} TellingDos(p: Query, q: Query)
    requires p.name != q.name
    ensures var dos := [DoDecl(p.name, "T1")] + [DoDecl(q.name, "T2")];
            FindDo(dos, p.name) == Some("T1") && FindDo(dos, q.name) == Some("T2")
  {
    assert ([DoDecl(p.name, "T1")] + [DoDecl(q.name, "T2")])[1..] == [DoDecl(q.name, "T2")];
  }

  lemma {:induction false} TellingTells(p: Query, q: Query)
    requires KeyOf(p) == KeyOf(q) && p != q
    ensures Search(Telling(p, q), p) == Some(DOType("T1", 1)) && Search(Telling(p, q), q) == Some(DOType("T2", 2))
  {
    var t := Telling(p, q);
    var first, second := t.lnodeTypes[0], t.lnodeTypes[1];
    assert t.lnodeTypes[1..] == [second];
    TellingTypes();
    assert FindNode(t.lnodeTypes, p) == Some(first);
    if p.name == q.name {
      SameNameSameId(p, q);
      assert |first.id| != |q.prefix + q.lnClass|;
      assert FindNode(t.lnodeTypes, q) == Some(second);
    } else {
      TellingDos(p, q);
      assert first.dos == second.dos;
      assert FindNode(t.lnodeTypes, q) == Some(first) || FindNode(t.lnodeTypes, q) == Some(second);
    }
  }

  /** Whatever the templates, the memo is invisible over a set of queries if and only if different
      queries of the set have different keys. */
  lemma {:induction false} KeysExact(all: set<Query>)
    ensures KeysTell(all) <==> forall t :: Invisible(t, all)
  {
    if KeysTell(all) {
      forall t ensures Invisible(t, all) {
        MemoInvisibleIff(t, all);
      }
    } else {
      var p, q :| p in all && q in all && KeyOf(p) == KeyOf(q) && p != q;
      var t := Telling(p, q);
      TellingTells(p, q);
      assert !Consistent(t, all);
      MemoInvisibleIff(t, all);
      assert !Invisible(t, all);
    }
  }

  /** Class names of four characters and no '/' before the separator: then keys tell queries apart. */
  predicate Standard(q: Query) {
    |q.lnClass| == 4 && Free(q.prefix, {'/'}) && Free(q.lnClass, {'/'})
  }

  lemma {:induction false} KeyInjective(p: Query, q: Query)
    requires Standard(p) && Standard(q) && KeyOf(p) == KeyOf(q)
    ensures p == q
  {
    var a, b := p.prefix + p.lnClass, q.prefix + q.lnClass;
    assert a + ("/" + p.name) == KeyOf(p) == KeyOf(q) == b + ("/" + q.name);
    UniqueSplit(a, "/" + p.name, b, "/" + q.name, {'/'});
    assert ("/" + p.name)[1..] == p.name && ("/" + q.name)[1..] == q.name;
    assert a[..|a| - 4] == p.prefix && b[..|b| - 4] == q.prefix;
    assert a[|a| - 4..] == p.lnClass && b[|b| - 4..] == q.lnClass;
  }

  lemma {:induction false} StandardConsistent(t: Templates, qs: set<Query>)
    requires forall q :: q in qs ==> Standard(q)
    ensures Consistent(t, qs)
  {
    forall p, q | p in qs && q in qs && KeyOf(p) == KeyOf(q) ensures p == q {
      KeyInjective(p, q);
    }
  }

  /** Over any sequence of calls with standard class names the memo is invisible. */
  lemma {:induction false} MemoInvisible(t: Templates, qs: seq<Query>)
    requires forall q :: q in qs ==> Standard(q)
    ensures RunAll(t, None, qs) == Answers(t, qs)
  {
    StandardConsistent(t, Set(qs));
    RunAgrees(t, qs);
  }

  /** With class names of other lengths it is not: two node types, one key, two answers. */
  lemma {:induction false} ShortClassesCollide()
    ensures var t := Templates([LNodeType("n1", "AB", [DoDecl("Pos", "T1")]),
                                LNodeType("n2", "B", [DoDecl("Pos", "T2")])],
                               [DOType("T1", 1), DOType("T2", 2)]);
            var p, q := Query("", "AB", "Pos"), Query("A", "B", "Pos");
            KeyOf(p) == KeyOf(q) && RunAll(t, None, [p, q]) != Answers(t, [p, q])
  {
    var n1, n2 := LNodeType("n1", "AB", [DoDecl("Pos", "T1")]), LNodeType("n2", "B", [DoDecl("Pos", "T2")]);
    var t := Templates([n1, n2], [DOType("T1", 1), DOType("T2", 2)]);
    var p, q := Query("", "AB", "Pos"), Query("A", "B", "Pos");
    assert [n1, n2][1..] == [n2] && [DOType("T1", 1), DOType("T2", 2)][1..] == [DOType("T2", 2)];
    assert "" + "AB" == "AB" && "A" + "B" == "AB";
    assert FindNode([n1, n2], p) == Some(n1);
    assert FindNode([n1, n2], q) == Some(n2) by {
      assert n1.id != "AB" && n1.lnClass != "B";
      assert FindNode([n2], q) == Some(n2);
    }
    assert TypeId(t, p) == "T1" && TypeId(t, q) == "T2";
    assert Search(t, p) == Some(DOType("T1", 1));
    assert "T1" != "T2";
    assert FindType([DOType("T2", 2)], "T2") == Some(DOType("T2", 2));
    assert Search(t, q) == Some(DOType("T2", 2));
    TwoCalls(t, p, q);
    TwoAnswers(t, p, q);
    assert RunAll(t, None, [p, q])[1] != Answers(t, [p, q])[1];
  }
}
