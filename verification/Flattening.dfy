/** GetVariableTypeValues: walks a specification and a value side by side and lists the scalar
    leaves, each with a reference that spells its place. */
module Flattening {
  import opened Text
  import opened MmsSpec

  datatype MmsValue = MmsValue(typ: int, payload: Payload)

  /** A list of possibly missing values, or anything else. */
  datatype Payload = Elems(elems: seq<Option<MmsValue>>) | Scalar(content: int)

  datatype Leaf = Leaf(typ: int, name: string, ref: string, payload: Payload)

  function Element(s: Spec): Option<Spec> {
    if s.arraySpec.None? then None else s.arraySpec.value.element
  }

  function IndexRef(ref: string, i: nat): string {
    ref + "[" + Itoa(i) + "]"
  }

  function FieldRef(ref: string, field: Spec): string {
    if field.name != "" then ref + "." + field.name else ref
  }

  /** An element goes by its own name, or by that of the array and its position. */
  function ElementName(element: Spec, name: string, i: nat): string {
    if element.name != "" then element.name else IndexRef(name, i)
  }

  /** A field goes by its own name, or by that of the structure. */
  function FieldName(field: Spec, name: string): string {
    if field.name != "" then field.name else name
  }

  function Walk(spec: Option<Spec>, val: Option<MmsValue>, ref: string, name: string): Option<seq<Leaf>>
    decreases val, 1
  {
    if spec.None? || val.None? then None
    else
      var s, v := spec.value, val.value;
      if s.typ == ARRAY then
        if v.typ != ARRAY || !v.payload.Elems? then None
        else WalkElements(Element(s), v.payload.elems, ref, name, 0)
      else if s.typ == STRUCTURE then
        if v.typ != STRUCTURE || !v.payload.Elems? || s.structureSpec.None? then None
        else WalkFields(s.structureSpec.value.elements, v.payload.elems, ref, name)
      else Some([Leaf(v.typ, FieldName(s, name), ref, v.payload)])
  }

  function WalkElements(element: Option<Spec>, vals: seq<Option<MmsValue>>, ref: string, name: string, i: nat)
    : Option<seq<Leaf>>
    decreases vals, 0
  {
    if vals == [] then Some([])
    else if element.None? then None
    else
      var nextName := ElementName(element.value, name, i);
      var first := Walk(element, vals[0], IndexRef(ref, i), nextName);
      var rest := WalkElements(element, vals[1..], ref, name, i + 1);
      if first.None? || rest.None? then None else Some(first.value + rest.value)
  }

  /** Fields and values beyond the shorter of the two lists are ignored. */
  function WalkFields(fields: seq<Spec>, vals: seq<Option<MmsValue>>, ref: string, name: string): Option<seq<Leaf>>
    decreases vals, 0
  {
    if fields == [] || vals == [] then Some([])
    else
      var nextName := FieldName(fields[0], name);
      var first := Walk(Some(fields[0]), vals[0], FieldRef(ref, fields[0]), nextName);
      var rest := WalkFields(fields[1..], vals[1..], ref, name);
      if first.None? || rest.None? then None else Some(first.value + rest.value)
  }

  /** The name a walk starts with: the specification's, or the last part of the reference. */
  function StartName(spec: Spec, objectRef: string): string {
    if spec.name != "" then spec.name
    else
      var i := LastDot(objectRef, |objectRef|);
      if i.Some? && i.value + 1 < |objectRef| then objectRef[i.value + 1..] else objectRef
  }

  function LastDot(s: string, n: nat): (r: Option<nat>)
    requires n <= |s|
    ensures r.Some? ==> r.value < n && s[r.value] == '.' && forall k :: r.value < k < n ==> s[k] != '.'
    ensures r.None? ==> forall k :: 0 <= k < n ==> s[k] != '.'
  {
    if n == 0 then None else if s[n - 1] == '.' then Some(n - 1) else LastDot(s, n - 1)
  }

  /** What has been collected, followed by what the rest of the walk yields. */
  function After(out: seq<Leaf>, rest: Option<seq<Leaf>>): Option<seq<Leaf>> {
    if rest.Some? then Some(out + rest.value) else None
  }

  lemma {:induction false} AfterMore(out: seq<Leaf>, here: seq<Leaf>, later: Option<seq<Leaf>>)
    ensures After(out, After(here, later)) == After(out + here, later)
  {
    assert later.Some? ==> out + (here + later.value) == out + here + later.value;
  }

  class Collector {
    var out: seq<Leaf>

    constructor ()
      ensures out == []
    {
      out := [];
    }

    /** Appends the leaves; after a failure what has been appended is of no use. */
    method Visit(spec: Option<Spec>, val: Option<MmsValue>, curRef: string, curName: string) returns (ok: bool)
      modifies this
      ensures ok <==> Walk(spec, val, curRef, curName).Some?
      ensures ok ==> out == old(out) + Walk(spec, val, curRef, curName).value
      decreases val, 0
    {
      if spec.None? || val.None? {
        return false;
      }
      var s, v := spec.value, val.value;
      if s.typ == ARRAY {
        if v.typ != ARRAY || !v.payload.Elems? {
          return false;
        }
        ok := VisitElements(Element(s), v.payload.elems, curRef, curName);
      } else if s.typ == STRUCTURE {
        if v.typ != STRUCTURE || !v.payload.Elems? || s.structureSpec.None? {
          return false;
        }
        ok := VisitFields(s.structureSpec.value.elements, v.payload.elems, curRef, curName);
      } else {
        out := out + [Leaf(v.typ, if s.name != "" then s.name else curName, curRef, v.payload)];
        ok := true;
      }
    }

    method VisitElements(element: Option<Spec>, elems: seq<Option<MmsValue>>, curRef: string, curName: string)
      returns (ok: bool)
      modifies this
      ensures ok <==> WalkElements(element, elems, curRef, curName, 0).Some?
      ensures ok ==> out == old(out) + WalkElements(element, elems, curRef, curName, 0).value
      decreases elems, 1
    {
      ghost var whole := WalkElements(element, elems, curRef, curName, 0);
      for i := 0 to |elems|
        invariant After(out, WalkElements(element, elems[i..], curRef, curName, i)) == After(old(out), whole)
      {
        assert elems[i..][0] == elems[i] && elems[i..][1..] == elems[i + 1..];
        if element.None? {
          return false;
        }
        var nextName := if element.value.name != "" then element.value.name else IndexRef(curName, i);
        ghost var before := out;
        var visited := Visit(element, elems[i], IndexRef(curRef, i), nextName);
        if !visited {
          return false;
        }
        ghost var here := Walk(element, elems[i], IndexRef(curRef, i), nextName).value;
        AfterMore(before, here, WalkElements(element, elems[i + 1..], curRef, curName, i + 1));
      }
      assert elems[|elems|..] == [];
      return true;
    }

    method VisitFields(fields: seq<Spec>, elems: seq<Option<MmsValue>>, curRef: string, curName: string)
      returns (ok: bool)
      modifies this
      ensures ok <==> WalkFields(fields, elems, curRef, curName).Some?
      ensures ok ==> out == old(out) + WalkFields(fields, elems, curRef, curName).value
      decreases elems, 1
    {
      ghost var whole := WalkFields(fields, elems, curRef, curName);
      var n := if |fields| < |elems| then |fields| else |elems|;
      for i := 0 to n
        invariant After(out, WalkFields(fields[i..], elems[i..], curRef, curName)) == After(old(out), whole)
      {
        assert elems[i..][0] == elems[i] && elems[i..][1..] == elems[i + 1..];
        assert fields[i..][0] == fields[i] && fields[i..][1..] == fields[i + 1..];
        var nextName := if fields[i].name != "" then fields[i].name else curName;
        ghost var before := out;
        var visited := Visit(Some(fields[i]), elems[i], FieldRef(curRef, fields[i]), nextName);
        if !visited {
          return false;
        }
        ghost var here := Walk(Some(fields[i]), elems[i], FieldRef(curRef, fields[i]), nextName).value;
        AfterMore(before, here, WalkFields(fields[i + 1..], elems[i + 1..], curRef, curName));
      }
      assert fields[n..] == [] || elems[n..] == [];
      return true;
    }
  }

  // ----- the walk succeeds exactly on compatible pairs

  /** Lists where the specification has lists, a description for every element met, nothing missing. */
  predicate Compatible(spec: Option<Spec>, val: Option<MmsValue>)
    decreases val
  {
    && spec.Some? && val.Some?
    && (spec.value.typ == ARRAY ==>
          && val.value.typ == ARRAY && val.value.payload.Elems?
          && forall e :: e in val.value.payload.elems ==> Compatible(Element(spec.value), e))
    && (spec.value.typ == STRUCTURE ==>
          && val.value.typ == STRUCTURE && val.value.payload.Elems? && spec.value.structureSpec.Some?
          && var fields, elems := spec.value.structureSpec.value.elements, val.value.payload.elems;
             forall i :: 0 <= i < |fields| && i < |elems| ==> Compatible(Some(fields[i]), elems[i]))
  }

  lemma {:induction false} WalkSucceeds(spec: Option<Spec>, val: Option<MmsValue>, ref: string, name: string)
    ensures Walk(spec, val, ref, name).Some? <==> Compatible(spec, val)
    decreases val, 1
  {
    if spec.Some? && val.Some? && val.value.payload.Elems? {
      var s, elems := spec.value, val.value.payload.elems;
      if s.typ == ARRAY {
        ElementsSucceed(Element(s), elems, ref, name, 0);
      } else if s.typ == STRUCTURE && s.structureSpec.Some? {
        FieldsSucceed(s.structureSpec.value.elements, elems, ref, name);
      }
    }
  }

  lemma {:induction false} ElementsSucceed(element: Option<Spec>, vals: seq<Option<MmsValue>>, ref: string,
                                           name: string, i: nat)
    ensures WalkElements(element, vals, ref, name, i).Some? <==> forall e :: e in vals ==> Compatible(element, e)
    decreases vals, 0
  {
    if vals != [] {
      if element.Some? {
        var nextName := ElementName(element.value, name, i);
        WalkSucceeds(element, vals[0], IndexRef(ref, i), nextName);
        ElementsSucceed(element, vals[1..], ref, name, i + 1);
        assert forall e :: e in vals <==> e == vals[0] || e in vals[1..];
      } else {
        assert vals[0] in vals && !Compatible(element, vals[0]);
      }
    }
  }

  predicate FieldsCompatible(fields: seq<Spec>, vals: seq<Option<MmsValue>>) {
    forall i :: 0 <= i < |fields| && i < |vals| ==> Compatible(Some(fields[i]), vals[i])
  }

  lemma {:induction false} FieldsCompatibleStep(fields: seq<Spec>, vals: seq<Option<MmsValue>>)
    requires fields != [] && vals != []
    ensures FieldsCompatible(fields, vals)
       <==> Compatible(Some(fields[0]), vals[0]) && FieldsCompatible(fields[1..], vals[1..])
  {
    forall i | 0 < i < |fields| && i < |vals| ensures fields[i] == fields[1..][i - 1] && vals[i] == vals[1..][i - 1] {
    }
    if FieldsCompatible(fields[1..], vals[1..]) && Compatible(Some(fields[0]), vals[0]) {
      forall i | 0 <= i < |fields| && i < |vals| ensures Compatible(Some(fields[i]), vals[i]) {
        if i > 0 {
          assert Compatible(Some(fields[1..][i - 1]), vals[1..][i - 1]);
        }
      }
    }
  }

  lemma {:induction false} FieldsSucceed(fields: seq<Spec>, vals: seq<Option<MmsValue>>, ref: string, name: string)
    ensures WalkFields(fields, vals, ref, name).Some? <==> FieldsCompatible(fields, vals)
    decreases vals, 0
  {
    if fields != [] && vals != [] {
      WalkSucceeds(Some(fields[0]), vals[0], FieldRef(ref, fields[0]), FieldName(fields[0], name));
      FieldsSucceed(fields[1..], vals[1..], ref, name);
      FieldsCompatibleStep(fields, vals);
    }
  }

  // ----- the leaves, independently of the walk

  /** A place in a value: the positions taken from the root down. */
  type Path = seq<nat>

  /** Steps that lead from the pair to an aligned scalar. */
  predicate IsLeaf(spec: Option<Spec>, val: Option<MmsValue>, p: Path)
    decreases p
  {
    && spec.Some? && val.Some?
    && if spec.value.typ == ARRAY then
         && val.value.payload.Elems? && p != [] && p[0] < |val.value.payload.elems|
         && IsLeaf(Element(spec.value), val.value.payload.elems[p[0]], p[1..])
       else if spec.value.typ == STRUCTURE then
         && val.value.payload.Elems? && spec.value.structureSpec.Some? && p != []
         && p[0] < |val.value.payload.elems| && p[0] < |spec.value.structureSpec.value.elements|
         && IsLeaf(Some(spec.value.structureSpec.value.elements[p[0]]), val.value.payload.elems[p[0]], p[1..])
       else p == []
  }

  function ValueAt(val: Option<MmsValue>, p: Path): Option<MmsValue>
    decreases p
  {
    if p == [] then val
    else if val.Some? && val.value.payload.Elems? && p[0] < |val.value.payload.elems|
    then ValueAt(val.value.payload.elems[p[0]], p[1..])
    else None
  }

  function RefAt(spec: Option<Spec>, ref: string, p: Path): string
    decreases p
  {
    if p == [] || spec.None? then ref
    else if spec.value.typ == ARRAY then RefAt(Element(spec.value), IndexRef(ref, p[0]), p[1..])
    else if spec.value.typ == STRUCTURE && spec.value.structureSpec.Some?
            && p[0] < |spec.value.structureSpec.value.elements|
    then
      var field := spec.value.structureSpec.value.elements[p[0]];
      RefAt(Some(field), FieldRef(ref, field), p[1..])
    else ref
  }

  /** The name of a place below one that goes by `name`. */
  function NameAt(spec: Option<Spec>, name: string, p: Path): string
    decreases p
  {
    if spec.None? then name
    else if p == [] then FieldName(spec.value, name)
    else if spec.value.typ == ARRAY && Element(spec.value).Some? then
      NameAt(Element(spec.value), ElementName(Element(spec.value).value, name, p[0]), p[1..])
    else if spec.value.typ == STRUCTURE && spec.value.structureSpec.Some?
            && p[0] < |spec.value.structureSpec.value.elements|
    then
      var field := spec.value.structureSpec.value.elements[p[0]];
      NameAt(Some(field), FieldName(field, name), p[1..])
    else name
  }

  predicate Before(p: Path, q: Path) {
    q != [] && (p == [] || p[0] < q[0] || (p[0] == q[0] && Before(p[1..], q[1..])))
  }

  ghost predicate Ordered(ps: seq<Path>) {
    forall a, b :: 0 <= a < b < |ps| ==> Before(ps[a], ps[b])
  }

  function Below(i: nat, ps: seq<Path>): (r: seq<Path>)
    ensures |r| == |ps| && forall k :: 0 <= k < |ps| ==> r[k] == [i] + ps[k]
  {
    seq(|ps|, k requires 0 <= k < |ps| => [i] + ps[k])
  }

  /** The leaf places in the order the walk meets them. */
  function Paths(spec: Option<Spec>, val: Option<MmsValue>): seq<Path>
    decreases val, 1
  {
    if spec.None? || val.None? then []
    else if spec.value.typ == ARRAY then
      if val.value.payload.Elems? then ElementPaths(Element(spec.value), val.value.payload.elems, 0) else []
    else if spec.value.typ == STRUCTURE then
      if val.value.payload.Elems? && spec.value.structureSpec.Some?
      then FieldPaths(spec.value.structureSpec.value.elements, val.value.payload.elems, 0) else []
    else [[]]
  }

  function ElementPaths(element: Option<Spec>, vals: seq<Option<MmsValue>>, i: nat): seq<Path>
    decreases vals, 0
  {
    if vals == [] then [] else Below(i, Paths(element, vals[0])) + ElementPaths(element, vals[1..], i + 1)
  }

  function FieldPaths(fields: seq<Spec>, vals: seq<Option<MmsValue>>, i: nat): seq<Path>
    decreases vals, 0
  {
    if fields == [] || vals == [] then []
    else Below(i, Paths(Some(fields[0]), vals[0])) + FieldPaths(fields[1..], vals[1..], i + 1)
  }

  lemma {:induction false} InBelow(i: nat, ps: seq<Path>, p: Path)
    ensures p in Below(i, ps) <==> p != [] && p[0] == i && p[1..] in ps
  {
    if p in Below(i, ps) {
      var k :| 0 <= k < |ps| && Below(i, ps)[k] == p;
      assert p[1..] == ps[k];
    }
    if p != [] && p[0] == i && p[1..] in ps {
      var k :| 0 <= k < |ps| && ps[k] == p[1..];
      assert Below(i, ps)[k] == p;
    }
  }

  /** Paths lists the leaf places, all of them and nothing else. */
  lemma {:induction false} PathsAreLeaves(spec: Option<Spec>, val: Option<MmsValue>, p: Path)
    ensures p in Paths(spec, val) <==> IsLeaf(spec, val, p)
    decreases val, 1
  {
    if spec.Some? && val.Some? && val.value.payload.Elems? {
      if spec.value.typ == ARRAY {
        ElementPathsAre(Element(spec.value), val.value.payload.elems, 0, p);
      } else if spec.value.typ == STRUCTURE && spec.value.structureSpec.Some? {
        FieldPathsAre(spec.value.structureSpec.value.elements, val.value.payload.elems, 0, p);
      }
    }
  }

  lemma {:induction false} ElementPathsAre(element: Option<Spec>, vals: seq<Option<MmsValue>>, i: nat, p: Path)
    ensures p in ElementPaths(element, vals, i) <==> LeafBelow(seq(|vals|, k => element), vals, i, p)
    decreases vals, 0
  {
    if vals != [] {
      InBelow(i, Paths(element, vals[0]), p);
      if p != [] {
        PathsAreLeaves(element, vals[0], p[1..]);
      }
      ElementPathsAre(element, vals[1..], i + 1, p);
      var specs := seq(|vals|, k => element);
      assert specs[1..] == seq(|vals[1..]|, k => element);
      LeafBelowStep(specs, vals, i, p);
    }
  }

  /** A leaf place among children, of which the first has position i. */
  predicate LeafBelow(specs: seq<Option<Spec>>, vals: seq<Option<MmsValue>>, i: nat, p: Path) {
    && p != [] && i <= p[0] < i + |vals| && p[0] < i + |specs|
    && IsLeaf(specs[p[0] - i], vals[p[0] - i], p[1..])
  }

  lemma {:induction false} LeafBelowStep(specs: seq<Option<Spec>>, vals: seq<Option<MmsValue>>, i: nat, p: Path)
    requires specs != [] && vals != []
    ensures LeafBelow(specs, vals, i, p)
       <==> (p != [] && p[0] == i && IsLeaf(specs[0], vals[0], p[1..])) || LeafBelow(specs[1..], vals[1..], i + 1, p)
  {
    if p != [] && i < p[0] < i + |vals| && p[0] < i + |specs| {
      assert specs[p[0] - i] == specs[1..][p[0] - (i + 1)] && vals[p[0] - i] == vals[1..][p[0] - (i + 1)];
    }
  }

  function AsOptions(fields: seq<Spec>): (r: seq<Option<Spec>>)
    ensures |r| == |fields| && forall k :: 0 <= k < |fields| ==> r[k] == Some(fields[k])
  {
    seq(|fields|, k requires 0 <= k < |fields| => Some(fields[k]))
  }

  lemma {:induction false} FieldPathsAre(fields: seq<Spec>, vals: seq<Option<MmsValue>>, i: nat, p: Path)
    ensures p in FieldPaths(fields, vals, i) <==> LeafBelow(AsOptions(fields), vals, i, p)
    decreases vals, 0
  {
    if fields != [] && vals != [] {
      InBelow(i, Paths(Some(fields[0]), vals[0]), p);
      if p != [] {
        PathsAreLeaves(Some(fields[0]), vals[0], p[1..]);
      }
      FieldPathsAre(fields[1..], vals[1..], i + 1, p);
      assert AsOptions(fields)[1..] == AsOptions(fields[1..]);
      LeafBelowStep(AsOptions(fields), vals, i, p);
    }
  }

  predicate Beyond(ps: seq<Path>, i: nat) {
    forall k :: 0 <= k < |ps| ==> ps[k] != [] && ps[k][0] > i
  }

  lemma {:induction false} ElementsBeyond(element: Option<Spec>, vals: seq<Option<MmsValue>>, i: nat)
    ensures Beyond(ElementPaths(element, vals, i + 1), i)
  {
    var later := ElementPaths(element, vals, i + 1);
    forall k | 0 <= k < |later| ensures later[k] != [] && later[k][0] > i {
      assert later[k] in later;
      ElementPathsAre(element, vals, i + 1, later[k]);
    }
  }

  lemma {:induction false} FieldsBeyond(fields: seq<Spec>, vals: seq<Option<MmsValue>>, i: nat)
    ensures Beyond(FieldPaths(fields, vals, i + 1), i)
  {
    var later := FieldPaths(fields, vals, i + 1);
    forall k | 0 <= k < |later| ensures later[k] != [] && later[k][0] > i {
      assert later[k] in later;
      FieldPathsAre(fields, vals, i + 1, later[k]);
    }
  }

  lemma {:induction false} OrderedJoin(i: nat, ps: seq<Path>, later: seq<Path>)
    requires Ordered(ps) && Ordered(later) && Beyond(later, i)
    ensures Ordered(Below(i, ps) + later)
  {
    var all := Below(i, ps) + later;
    forall a, b | 0 <= a < b < |all| ensures Before(all[a], all[b]) {
      if b < |ps| {
        assert all[a][1..] == ps[a] && all[b][1..] == ps[b];
      } else if a < |ps| {
      }
    }
  }

  /** Each leaf is listed once, in preorder. */
  lemma {:induction false} PathsOrdered(spec: Option<Spec>, val: Option<MmsValue>)
    ensures Ordered(Paths(spec, val))
    decreases val, 1
  {
    if spec.Some? && val.Some? && val.value.payload.Elems? {
      if spec.value.typ == ARRAY {
        ElementPathsOrdered(Element(spec.value), val.value.payload.elems, 0);
      } else if spec.value.typ == STRUCTURE && spec.value.structureSpec.Some? {
        FieldPathsOrdered(spec.value.structureSpec.value.elements, val.value.payload.elems, 0);
      }
    }
  }

  lemma {:induction false} ElementPathsOrdered(element: Option<Spec>, vals: seq<Option<MmsValue>>, i: nat)
    ensures Ordered(ElementPaths(element, vals, i))
    decreases vals, 0
  {
    if vals != [] {
      PathsOrdered(element, vals[0]);
      ElementPathsOrdered(element, vals[1..], i + 1);
      ElementsBeyond(element, vals[1..], i);
      OrderedJoin(i, Paths(element, vals[0]), ElementPaths(element, vals[1..], i + 1));
    }
  }

  lemma {:induction false} FieldPathsOrdered(fields: seq<Spec>, vals: seq<Option<MmsValue>>, i: nat)
    ensures Ordered(FieldPaths(fields, vals, i))
    decreases vals, 0
  {
    if fields != [] && vals != [] {
      PathsOrdered(Some(fields[0]), vals[0]);
      FieldPathsOrdered(fields[1..], vals[1..], i + 1);
      FieldsBeyond(fields[1..], vals[1..], i);
      OrderedJoin(i, Paths(Some(fields[0]), vals[0]), FieldPaths(fields[1..], vals[1..], i + 1));
    }
  }

  /** A leaf record that tells the reference, name, type and value of a place. */
  predicate Tells(leaf: Leaf, ref: string, name: string, v: Option<MmsValue>) {
    leaf.ref == ref && leaf.name == name && v == Some(MmsValue(leaf.typ, leaf.payload))
  }

  /** The same, for a place given by its path. */
  predicate TellsPlace(leaf: Leaf, spec: Option<Spec>, ref: string, name: string, val: Option<MmsValue>, p: Path) {
    Tells(leaf, RefAt(spec, ref, p), NameAt(spec, name, p), ValueAt(val, p))
  }

  /** The k-th record is about the k-th leaf place. */
  lemma {:induction false} WalkFollowsPaths(spec: Option<Spec>, val: Option<MmsValue>, ref: string, name: string)
    requires Walk(spec, val, ref, name).Some?
    ensures var leaves, ps := Walk(spec, val, ref, name).value, Paths(spec, val);
            |leaves| == |ps| && forall k :: 0 <= k < |ps| ==> TellsPlace(leaves[k], spec, ref, name, val, ps[k])
    decreases val, 1
  {
    var s, v := spec.value, val.value;
    if s.typ == ARRAY {
      ElementsFollow(s, v.payload.elems, ref, name, 0);
      forall k | 0 <= k < |Paths(spec, val)|
        ensures TellsPlace(Walk(spec, val, ref, name).value[k], spec, ref, name, val, Paths(spec, val)[k])
      {
        assert TellsChild(Walk(spec, val, ref, name).value[k], Paths(spec, val)[k], s, ref, name, v.payload.elems, 0);
        ElementPathsAre(Element(s), v.payload.elems, 0, Paths(spec, val)[k]);
      }
    } else if s.typ == STRUCTURE {
      FieldsFollow(s, s.structureSpec.value.elements, v.payload.elems, ref, name, 0);
      forall k | 0 <= k < |Paths(spec, val)|
        ensures TellsPlace(Walk(spec, val, ref, name).value[k], spec, ref, name, val, Paths(spec, val)[k])
      {
        assert TellsChild(Walk(spec, val, ref, name).value[k], Paths(spec, val)[k], s, ref, name, v.payload.elems, 0);
        FieldPathsAre(s.structureSpec.value.elements, v.payload.elems, 0, Paths(spec, val)[k]);
      }
    }
  }

  /** The value at a place that starts among children, of which the first has position i. */
  function ValueIn(vals: seq<Option<MmsValue>>, i: nat, p: Path): Option<MmsValue> {
    if p != [] && i <= p[0] < i + |vals| then ValueAt(vals[p[0] - i], p[1..]) else None
  }

  lemma {:induction false} ValueInLater(vals: seq<Option<MmsValue>>, i: nat, p: Path)
    requires vals != [] && p != [] && i < p[0]
    ensures ValueIn(vals, i, p) == ValueIn(vals[1..], i + 1, p)
  {
  }

  /** The k-th record is about the k-th place among children, of which the first has position i. */
  predicate Follows(leaves: seq<Leaf>, ps: seq<Path>, s: Spec, ref: string, name: string,
                    vals: seq<Option<MmsValue>>, i: nat)
  {
    |leaves| == |ps| && forall k :: 0 <= k < |ps| ==> TellsChild(leaves[k], ps[k], s, ref, name, vals, i)
  }

  predicate TellsChild(leaf: Leaf, p: Path, s: Spec, ref: string, name: string, vals: seq<Option<MmsValue>>, i: nat) {
    Tells(leaf, RefAt(Some(s), ref, p), NameAt(Some(s), name, p), ValueIn(vals, i, p))
  }

  lemma {:induction false} FollowsJoin(first: seq<Leaf>, here: seq<Path>, rest: seq<Leaf>, later: seq<Path>,
                                       s: Spec, ref: string, name: string, vals: seq<Option<MmsValue>>, i: nat)
    requires vals != [] && Beyond(later, i)
    requires Follows(first, here, s, ref, name, vals, i) && Follows(rest, later, s, ref, name, vals[1..], i + 1)
    ensures Follows(first + rest, here + later, s, ref, name, vals, i)
  {
    forall k | 0 <= k < |later| ensures TellsChild(rest[k], later[k], s, ref, name, vals, i) {
      ValueInLater(vals, i, later[k]);
      assert TellsChild(rest[k], later[k], s, ref, name, vals[1..], i + 1);
    }
  }

  /** The records of the first child, whose reference and name are told from those of the whole. */
  lemma {:induction false} FollowsHere(leaves: seq<Leaf>, ps: seq<Path>, s: Spec, ref: string, name: string,
                                       child: Option<Spec>, childRef: string, childName: string,
                                       vals: seq<Option<MmsValue>>, i: nat)
    requires vals != [] && |leaves| == |ps|
    requires forall k :: 0 <= k < |ps| ==> TellsPlace(leaves[k], child, childRef, childName, vals[0], ps[k])
    requires forall p: Path :: p != [] && p[0] == i ==> RefAt(Some(s), ref, p) == RefAt(child, childRef, p[1..])
    requires forall p: Path :: p != [] && p[0] == i ==> NameAt(Some(s), name, p) == NameAt(child, childName, p[1..])
    ensures Follows(leaves, Below(i, ps), s, ref, name, vals, i)
  {
    var here := Below(i, ps);
    forall k | 0 <= k < |ps| ensures TellsChild(leaves[k], here[k], s, ref, name, vals, i) {
      assert here[k] == [i] + ps[k] && here[k][1..] == ps[k];
      assert TellsPlace(leaves[k], child, childRef, childName, vals[0], ps[k]);
    }
  }

  lemma {:induction false} ElementsFollow(s: Spec, vals: seq<Option<MmsValue>>, ref: string, name: string, i: nat)
    requires s.typ == ARRAY && WalkElements(Element(s), vals, ref, name, i).Some?
    ensures Follows(WalkElements(Element(s), vals, ref, name, i).value, ElementPaths(Element(s), vals, i), s, ref,
                    name, vals, i)
    decreases vals, 0
  {
    if vals != [] {
      var element := Element(s);
      var nextName := ElementName(element.value, name, i);
      var first, here := Walk(element, vals[0], IndexRef(ref, i), nextName).value, Paths(element, vals[0]);
      var rest := WalkElements(element, vals[1..], ref, name, i + 1).value;
      var later := ElementPaths(element, vals[1..], i + 1);
      WalkFollowsPaths(element, vals[0], IndexRef(ref, i), nextName);
      FollowsHere(first, here, s, ref, name, element, IndexRef(ref, i), nextName, vals, i);
      ElementsFollow(s, vals[1..], ref, name, i + 1);
      ElementsBeyond(element, vals[1..], i);
      FollowsJoin(first, Below(i, here), rest, later, s, ref, name, vals, i);
    }
  }

  lemma {:induction false} FieldsFollow(s: Spec, fields: seq<Spec>, vals: seq<Option<MmsValue>>, ref: string,
                                        name: string, i: nat)
    requires s.typ == STRUCTURE && s.structureSpec.Some? && i <= |s.structureSpec.value.elements|
    requires fields == s.structureSpec.value.elements[i..] && WalkFields(fields, vals, ref, name).Some?
    ensures Follows(WalkFields(fields, vals, ref, name).value, FieldPaths(fields, vals, i), s, ref, name, vals, i)
    decreases vals, 0
  {
    if fields != [] && vals != [] {
      var field := fields[0];
      var nextName := FieldName(field, name);
      var first, here := Walk(Some(field), vals[0], FieldRef(ref, field), nextName).value, Paths(Some(field), vals[0]);
      var rest, later := WalkFields(fields[1..], vals[1..], ref, name).value, FieldPaths(fields[1..], vals[1..], i + 1);
      WalkFollowsPaths(Some(field), vals[0], FieldRef(ref, field), nextName);
      FollowsHere(first, here, s, ref, name, Some(field), FieldRef(ref, field), nextName, vals, i);
      FieldsFollow(s, fields[1..], vals[1..], ref, name, i + 1);
      FieldsBeyond(fields[1..], vals[1..], i);
      FollowsJoin(first, Below(i, here), rest, later, s, ref, name, vals, i);
    }
  }

  // ----- the call as a whole

  function Listed(spec: Spec, val: MmsValue, objectRef: string): Option<seq<Leaf>> {
    Walk(Some(spec), Some(val), objectRef, StartName(spec, objectRef))
  }

  /** Nothing for an incompatible pair; else one record per aligned leaf place, in order, each with the
      reference, name, type and value of its place. */
  predicate Lists(spec: Spec, val: MmsValue, objectRef: string, r: Option<seq<Leaf>>) {
    var ps := Paths(Some(spec), Some(val));
    && (r.Some? <==> Compatible(Some(spec), Some(val)))
    && (r.Some? ==> |r.value| == |ps| && forall k :: 0 <= k < |ps| ==>
          TellsPlace(r.value[k], Some(spec), objectRef, StartName(spec, objectRef), Some(val), ps[k]))
  }

  method GetVariableTypeValues(spec: Spec, val: MmsValue, objectRef: string) returns (r: Option<seq<Leaf>>)
    ensures r == Listed(spec, val, objectRef)
    ensures Lists(spec, val, objectRef, r)
  {
    var c := new Collector();
    var ok := c.Visit(Some(spec), Some(val), objectRef, StartName(spec, objectRef));
    ghost var w := Listed(spec, val, objectRef);
    assert ok ==> [] + w.value == w.value;
    r := if ok then Some(c.out) else None;
    WalkSucceeds(Some(spec), Some(val), objectRef, StartName(spec, objectRef));
    if ok {
      WalkFollowsPaths(Some(spec), Some(val), objectRef, StartName(spec, objectRef));
    }
  }

  // ----- where a walk starts

  /** For a specification without name the walk starts with what stands behind the last dot of the
      reference; a reference without a dot, or that ends in one, is taken as a whole. */
  lemma {:induction false} StartNameExact(spec: Spec, objectRef: string, name: string)
    ensures spec.name != "" ==> StartName(spec, objectRef) == spec.name
    ensures spec.name == "" ==>
              (StartName(spec, objectRef) == name
               <==> if '.' !in objectRef || objectRef[|objectRef| - 1] == '.' then name == objectRef
                    else name != "" && '.' !in name && EndsWith(objectRef, "." + name))
  {
    var i := LastDot(objectRef, |objectRef|);
    if '.' in objectRef {
      var j :| 0 <= j < |objectRef| && objectRef[j] == '.';
      var n := i.value;
      if n + 1 < |objectRef| {
        var behind := objectRef[n + 1..];
        assert objectRef[n..] == "." + behind;
        if name != "" && '.' !in name && EndsWith(objectRef, "." + name) {
          LastDotIs(objectRef, name, n);
        }
      }
    }
  }

  predicate EndsWith(s: string, t: string) {
    |t| <= |s| && s[|s| - |t|..] == t
  }

  lemma {:induction false} LastDotIs(s: string, name: string, n: nat)
    requires n < |s| && s[n] == '.' && forall k :: n < k < |s| ==> s[k] != '.'
    requires '.' !in name && EndsWith(s, "." + name)
    ensures s[n + 1..] == name
  {
    var m := |s| - |name| - 1;
    assert s[m..][0] == '.' && s[m..][1..] == name;
    forall k | m < k < |s| ensures s[k] != '.' {
      assert s[k] == s[m..][k - m] == name[k - m - 1] && name[k - m - 1] in name;
    }
    assert m == n;
  }

  // ----- which name a record carries

  /** The positions taken in arrays. */
  function Indices(spec: Option<Spec>, p: Path): string
    decreases p
  {
    if p == [] || spec.None? then ""
    else (if spec.value.typ == ARRAY then "[" + Itoa(p[0]) + "]" else "") + Indices(Child(spec.value, p[0]), p[1..])
  }

  function Child(s: Spec, i: nat): Option<Spec> {
    if s.typ == ARRAY then Element(s)
    else if s.typ == STRUCTURE && s.structureSpec.Some? && i < |s.structureSpec.value.elements|
    then Some(s.structureSpec.value.elements[i])
    else None
  }

  /** The innermost name on the way to a place, and the array positions behind it. */
  function Innermost(spec: Option<Spec>, p: Path): Option<string>
    decreases p
  {
    if spec.None? then None
    else
      var below := if p == [] then None else Innermost(Child(spec.value, p[0]), p[1..]);
      if below.Some? then below
      else if spec.value.name != "" then Some(spec.value.name + Indices(spec, p)) else None
  }

  /** A leaf goes by the innermost name on the way to it, followed by the array positions behind that
      name; where nothing has a name, by what the walk started with. */
  lemma {:induction false} NameIsInnermost(spec: Option<Spec>, val: Option<MmsValue>, name: string, p: Path)
    requires IsLeaf(spec, val, p) && (spec.value.name != "" ==> name == spec.value.name)
    ensures NameAt(spec, name, p) == Innermost(spec, p).GetOr(name + Indices(spec, p))
    decreases p
  {
    if p != [] {
      var s, i := spec.value, p[0];
      var child, elem := Child(s, i), val.value.payload.elems[i];
      var next := if s.typ == ARRAY then ElementName(child.value, name, i) else FieldName(child.value, name);
      NameIsInnermost(child, elem, next, p[1..]);
      if s.typ == ARRAY {
        Assoc(name, "[" + Itoa(i) + "]", Indices(child, p[1..]));
        IndexSplit(name, i);
      }
    }
  }

  lemma {:induction false} IndexSplit(name: string, i: nat)
    ensures IndexRef(name, i) == name + ("[" + Itoa(i) + "]")
  {
  }

  // ----- references tell places

  const REF_SEPS: set<char> := {'.', '['}

  /** Fields have names, free of '.' and '[' and unique within their structure, at every level. */
  ghost predicate CleanFields(s: Spec) {
    && (s.arraySpec.Some? && s.arraySpec.value.element.Some? ==> CleanFields(s.arraySpec.value.element.value))
    && (s.structureSpec.Some? ==>
          var fields := s.structureSpec.value.elements;
          && (forall f :: f in fields ==> f.name != "" && Free(f.name, REF_SEPS) && CleanFields(f))
          && (forall i, j :: 0 <= i < j < |fields| ==> fields[i].name != fields[j].name))
  }

  /** What the path adds to the reference. */
  function Suffix(spec: Option<Spec>, p: Path): string
    decreases p
  {
    if p == [] || spec.None? then ""
    else if spec.value.typ == ARRAY then "[" + (Itoa(p[0]) + "]") + Suffix(Element(spec.value), p[1..])
    else if spec.value.typ == STRUCTURE && spec.value.structureSpec.Some?
            && p[0] < |spec.value.structureSpec.value.elements|
    then
      var field := spec.value.structureSpec.value.elements[p[0]];
      (if field.name != "" then "." + field.name else "") + Suffix(Some(field), p[1..])
    else ""
  }

  lemma {:induction false} RefIsSuffix(spec: Option<Spec>, ref: string, p: Path)
    ensures RefAt(spec, ref, p) == ref + Suffix(spec, p)
    decreases p
  {
    if p != [] && spec.Some? {
      if spec.value.typ == ARRAY {
        RefIsSuffix(Element(spec.value), IndexRef(ref, p[0]), p[1..]);
      } else if spec.value.typ == STRUCTURE && spec.value.structureSpec.Some?
                && p[0] < |spec.value.structureSpec.value.elements| {
        var field := spec.value.structureSpec.value.elements[p[0]];
        RefIsSuffix(Some(field), FieldRef(ref, field), p[1..]);
      }
    }
  }

  lemma {:induction false} SuffixStarts(s: Spec, v: Option<MmsValue>, p: Path)
    requires CleanFields(s) && IsLeaf(Some(s), v, p)
    ensures EmptyOrStartsIn(Suffix(Some(s), p), REF_SEPS)
  {
    if s.typ == STRUCTURE {
      var field := s.structureSpec.value.elements[p[0]];
      assert field in s.structureSpec.value.elements;
    }
  }

  /** Under one specification different leaf places have different references, whatever the values. */
  lemma {:induction false} SuffixInjective(s: Spec, v: Option<MmsValue>, w: Option<MmsValue>, p: Path, q: Path)
    requires CleanFields(s) && IsLeaf(Some(s), v, p) && IsLeaf(Some(s), w, q)
    requires Suffix(Some(s), p) == Suffix(Some(s), q)
    ensures p == q
    decreases p
  {
    if s.typ == ARRAY {
      var e := Element(s).value;
      var v', w' := v.value.payload.elems[p[0]], w.value.payload.elems[q[0]];
      var a, b, x, y := Itoa(p[0]) + "]", Itoa(q[0]) + "]", Suffix(Some(e), p[1..]), Suffix(Some(e), q[1..]);
      SuffixStarts(e, v', p[1..]);
      SuffixStarts(e, w', q[1..]);
      DropOne("[", a, x, b, y);
      UniqueSplit(a, x, b, y, REF_SEPS);
      assert Itoa(p[0]) == a[..|a| - 1] == b[..|b| - 1] == Itoa(q[0]);
      ItoaInjective(p[0], q[0]);
      SuffixInjective(e, v', w', p[1..], q[1..]);
      assert p == [p[0]] + p[1..] && q == [q[0]] + q[1..];
    } else if s.typ == STRUCTURE {
      var fields := s.structureSpec.value.elements;
      var f, g := fields[p[0]], fields[q[0]];
      assert f in fields && g in fields;
      SuffixStarts(f, v.value.payload.elems[p[0]], p[1..]);
      SuffixStarts(g, w.value.payload.elems[q[0]], q[1..]);
      DropOne(".", f.name, Suffix(Some(f), p[1..]), g.name, Suffix(Some(g), q[1..]));
      UniqueSplit(f.name, Suffix(Some(f), p[1..]), g.name, Suffix(Some(g), q[1..]), REF_SEPS);
      SameField(fields, p[0], q[0]);
      SuffixInjective(f, v.value.payload.elems[p[0]], w.value.payload.elems[q[0]], p[1..], q[1..]);
      assert p == [p[0]] + p[1..] && q == [q[0]] + q[1..];
    }
  }

  lemma {:induction false} SameField(fields: seq<Spec>, i: nat, j: nat)
    requires i < |fields| && j < |fields| && fields[i].name == fields[j].name
    requires forall a, b :: 0 <= a < b < |fields| ==> fields[a].name != fields[b].name
    ensures i == j
  {
  }

  lemma {:induction false} DropOne(c: string, a: string, x: string, b: string, y: string)
    requires c + a + x == c + b + y
    ensures a + x == b + y
  {
    assert c + a + x == c + (a + x) && c + b + y == c + (b + y);
    assert (c + (a + x))[|c|..] == a + x && (c + (b + y))[|c|..] == b + y;
  }

  lemma {:induction false} RefsTellPlaces(s: Spec, v: Option<MmsValue>, w: Option<MmsValue>, ref: string, p: Path,
                                          q: Path)
    requires CleanFields(s) && IsLeaf(Some(s), v, p) && IsLeaf(Some(s), w, q)
    requires RefAt(Some(s), ref, p) == RefAt(Some(s), ref, q)
    ensures p == q
  {
    RefIsSuffix(Some(s), ref, p);
    RefIsSuffix(Some(s), ref, q);
    assert Suffix(Some(s), p) == (ref + Suffix(Some(s), p))[|ref|..];
    assert Suffix(Some(s), q) == (ref + Suffix(Some(s), q))[|ref|..];
    SuffixInjective(s, v, w, p, q);
  }

  // ----- the list determines the value

  /** Same structure down to the scalars, and no values beyond the described ones. */
  predicate SameOutline(spec: Option<Spec>, v: Option<MmsValue>, w: Option<MmsValue>)
    decreases v
  {
    && spec.Some? && v.Some? && w.Some?
    && (spec.value.typ == ARRAY || spec.value.typ == STRUCTURE ==>
          && v.value.typ == w.value.typ && v.value.payload.Elems? && w.value.payload.Elems?
          && var a, b := v.value.payload.elems, w.value.payload.elems;
             && |a| == |b|
             && (spec.value.typ == ARRAY ==> forall i :: 0 <= i < |a| ==> SameOutline(Element(spec.value), a[i], b[i]))
             && (spec.value.typ == STRUCTURE ==>
                   && spec.value.structureSpec.Some? && |a| == |spec.value.structureSpec.value.elements|
                   && forall i :: 0 <= i < |a| ==>
                        SameOutline(Some(spec.value.structureSpec.value.elements[i]), a[i], b[i])))
  }

  ghost predicate AgreeOnLeaves(spec: Option<Spec>, v: Option<MmsValue>, w: Option<MmsValue>) {
    forall p :: IsLeaf(spec, v, p) ==> ValueAt(v, p) == ValueAt(w, p)
  }

  lemma {:induction false} AgreeBelow(spec: Spec, child: Option<Spec>, v: MmsValue, w: MmsValue, i: nat)
    requires v.payload.Elems? && w.payload.Elems? && i < |v.payload.elems| && i < |w.payload.elems|
    requires AgreeOnLeaves(Some(spec), Some(v), Some(w))
    requires (spec.typ == ARRAY && child == Element(spec))
          || (spec.typ == STRUCTURE && spec.structureSpec.Some? && i < |spec.structureSpec.value.elements|
              && child == Some(spec.structureSpec.value.elements[i]))
    ensures AgreeOnLeaves(child, v.payload.elems[i], w.payload.elems[i])
  {
    forall p: Path | IsLeaf(child, v.payload.elems[i], p)
      ensures ValueAt(v.payload.elems[i], p) == ValueAt(w.payload.elems[i], p)
    {
      var q := [i] + p;
      assert q[1..] == p;
      assert IsLeaf(Some(spec), Some(v), q);
      assert ValueAt(Some(v), q) == ValueAt(Some(w), q);
    }
  }

  lemma {:induction false} LeavesDetermine(spec: Option<Spec>, v: Option<MmsValue>, w: Option<MmsValue>)
    requires SameOutline(spec, v, w) && AgreeOnLeaves(spec, v, w)
    ensures v == w
    decreases v
  {
    if spec.value.typ == ARRAY || spec.value.typ == STRUCTURE {
      var a, b := v.value.payload.elems, w.value.payload.elems;
      forall i | 0 <= i < |a| ensures a[i] == b[i] {
        var child := Child(spec.value, i);
        AgreeBelow(spec.value, child, v.value, w.value, i);
        LeavesDetermine(child, a[i], b[i]);
      }
      assert a == b;
    } else {
      assert IsLeaf(spec, v, []);
      assert ValueAt(v, []) == v && ValueAt(w, []) == w;
    }
  }

  /** Two values of one outline whose lists hold the same records, in whatever order, are equal: the
      references alone say where each value belongs. */
  lemma {:induction false} ListDetermines(s: Spec, v: MmsValue, w: MmsValue, ref: string, name: string)
    requires CleanFields(s) && SameOutline(Some(s), Some(v), Some(w))
    requires Walk(Some(s), Some(v), ref, name).Some? && Walk(Some(s), Some(w), ref, name).Some?
    requires forall leaf :: leaf in Walk(Some(s), Some(v), ref, name).value ==>
               leaf in Walk(Some(s), Some(w), ref, name).value
    ensures v == w
  {
    var ls, ms := Walk(Some(s), Some(v), ref, name).value, Walk(Some(s), Some(w), ref, name).value;
    var ps, qs := Paths(Some(s), Some(v)), Paths(Some(s), Some(w));
    WalkFollowsPaths(Some(s), Some(v), ref, name);
    WalkFollowsPaths(Some(s), Some(w), ref, name);
    forall p: Path | IsLeaf(Some(s), Some(v), p) ensures ValueAt(Some(v), p) == ValueAt(Some(w), p) {
      PathsAreLeaves(Some(s), Some(v), p);
      var k :| 0 <= k < |ps| && ps[k] == p;
      assert ls[k] in ls;
      var m :| 0 <= m < |ms| && ms[m] == ls[k];
      assert qs[m] in qs;
      PathsAreLeaves(Some(s), Some(w), qs[m]);
      RefsTellPlaces(s, Some(v), Some(w), ref, p, qs[m]);
    }
    LeavesDetermine(Some(s), Some(v), Some(w));
  }
}
