/** Data type templates (section 9.5 of IEC 61850-6): the type declarations an SCL file carries. */
module Templates {
  import opened Text
  import opened Instances

  datatype DoDef = DoDef(name: string, typ: string, transient: bool, count: int)

  /** `slot` identifies the definition's Value field, which all instances of it share. */
  datatype DaDef = DaDef(name: string, fc: string, typ: string, attrType: AttributeType,
                         count: int, trigger: Trigger, slot: nat)

  datatype EnumVal = EnumVal(ord: int, symbolicName: string)

  datatype TypeDecl =
    | LNodeType(id: string, dos: seq<DoDef>)
    | DoType(id: string, das: seq<DaDef>, sdos: seq<DoDef>)
    | DaType(id: string, bdas: seq<DaDef>)
    | EnumType(id: string, vals: seq<EnumVal>)

  /** First declaration with the given id. */
  function LookupType(decls: seq<TypeDecl>, id: string): (r: Option<nat>)
    ensures r.Some? ==> r.value < |decls| && decls[r.value].id == id
                        && forall k :: 0 <= k < r.value ==> decls[k].id != id
    ensures r.None? ==> forall k :: 0 <= k < |decls| ==> decls[k].id != id
  {
    LookupFrom(decls, id, 0)
  }

  function LookupFrom(decls: seq<TypeDecl>, id: string, from: nat): (r: Option<nat>)
    requires from <= |decls|
    ensures r.Some? ==> from <= r.value < |decls| && decls[r.value].id == id
                        && forall k :: from <= k < r.value ==> decls[k].id != id
    ensures r.None? ==> forall k :: from <= k < |decls| ==> decls[k].id != id
    decreases |decls| - from
  {
    if from == |decls| then None
    else if decls[from].id == id then Some(from)
    else LookupFrom(decls, id, from + 1)
  }

  /** First enumeration value with the given symbolic name. */
  function ValByName(vals: seq<EnumVal>, name: string): (r: Option<nat>)
    ensures r.Some? ==> r.value < |vals| && vals[r.value].symbolicName == name
                        && forall k :: 0 <= k < r.value ==> vals[k].symbolicName != name
    ensures r.None? ==> forall k :: 0 <= k < |vals| ==> vals[k].symbolicName != name
  {
    if vals == [] then None
    else if vals[0].symbolicName == name then Some(0)
    else
      var r := ValByName(vals[1..], name);
      if r.None? then None else Some(r.value + 1)
  }

  /** Ordinal of the first enumeration value with the given symbolic name. */
  function OrdByName(vals: seq<EnumVal>, name: string): (r: Option<int>)
    ensures r.Some? <==> exists v :: v in vals && v.symbolicName == name
    ensures r.Some? ==> exists k :: 0 <= k < |vals| && vals[k] == EnumVal(r.value, name)
                                    && forall j :: 0 <= j < k ==> vals[j].symbolicName != name
  {
    var k := ValByName(vals, name);
    if k.None? then None
    else
      assert vals[k.value] == EnumVal(vals[k.value].ord, name);
      Some(vals[k.value].ord)
  }

  // ----- default values shared between instances

  /** The Value field of an attribute definition.  An enumerated default is kept by name until it
      is first needed. */
  datatype Default = Default(value: Scalar, enumName: string, enumType: string)

  /** The type assertion in the generator panics when a default names a type that is no enumeration. */
  predicate Resolvable(decls: seq<TypeDecl>, d: Default) {
    d.enumType != "" ==>
      var t := LookupType(decls, d.enumType);
      t.Some? ==> decls[t.value].EnumType?
  }

  /** The default after a look-up, if one is still pending and the look-up succeeds. */
  function Resolve(decls: seq<TypeDecl>, d: Default): Default
    requires Resolvable(decls, d)
  {
    if d.value != Unset || d.enumType == "" then d
    else
      var t := LookupType(decls, d.enumType);
      if t.None? then d
      else
        var ord := OrdByName(decls[t.value].vals, d.enumName);
        if ord.None? then d else d.(value := Ordinal(ord.value))
  }

  /** The first declaration with the identifier is an enumeration whose first value with the text has
      this ordinal. */
  ghost predicate Denotes(decls: seq<TypeDecl>, id: string, text: string, ord: int) {
    exists t: nat, k: nat :: FirstDeclared(decls, id, t) && FirstNamed(decls[t], text, k) && decls[t].vals[k].ord == ord
  }

  ghost predicate FirstDeclared(decls: seq<TypeDecl>, id: string, t: nat) {
    t < |decls| && decls[t].id == id && forall j :: 0 <= j < t ==> decls[j].id != id
  }

  ghost predicate FirstNamed(d: TypeDecl, text: string, k: nat) {
    && d.EnumType? && k < |d.vals| && d.vals[k].symbolicName == text
    && forall j :: 0 <= j < k ==> d.vals[j].symbolicName != text
  }

  /** What a default stands for: a pending enumeration text for the ordinal it denotes, if it denotes
      one, and everything else for itself. */
  ghost predicate StandsFor(decls: seq<TypeDecl>, d: Default, v: Scalar) {
    if d.value == Unset && d.enumType != "" && exists ord :: Denotes(decls, d.enumType, d.enumName, ord)
    then v.Ordinal? && Denotes(decls, d.enumType, d.enumName, v.ord)
    else v == d.value
  }

  lemma {:induction false} DenotesLookup(decls: seq<TypeDecl>, id: string, text: string, ord: int)
    ensures Denotes(decls, id, text, ord)
       <==> var t := LookupType(decls, id);
            t.Some? && decls[t.value].EnumType? && OrdByName(decls[t.value].vals, text) == Some(ord)
  {
    var t := LookupType(decls, id);
    if t.Some? && decls[t.value].EnumType? {
      var k := ValByName(decls[t.value].vals, text);
      assert FirstDeclared(decls, id, t.value);
      if k.Some? {
        assert FirstNamed(decls[t.value], text, k.value);
      }
    }
    if u: nat, k: nat :| FirstDeclared(decls, id, u) && FirstNamed(decls[u], text, k) && decls[u].vals[k].ord == ord {
      assert t == Some(u);
    }
  }

  /** Resolving keeps the pending text and its type, and gives the one value the default stands for. */
  lemma {:induction false} ResolveExact(decls: seq<TypeDecl>, d: Default, v: Scalar)
    requires Resolvable(decls, d)
    ensures StandsFor(decls, d, v) <==> v == Resolve(decls, d).value
    ensures Resolve(decls, d) == d.(value := Resolve(decls, d).value)
  {
    var t := LookupType(decls, d.enumType);
    forall ord ensures Denotes(decls, d.enumType, d.enumName, ord)
                  <==> t.Some? && decls[t.value].EnumType? && OrdByName(decls[t.value].vals, d.enumName) == Some(ord)
    {
      DenotesLookup(decls, d.enumType, d.enumName, ord);
    }
  }

  type Defaults = map<nat, Default>

  predicate AllResolvable(decls: seq<TypeDecl>, defs: Defaults) {
    forall s :: s in defs ==> Resolvable(decls, defs[s])
  }

  /** Some of the shared defaults have been resolved in place, and nothing else has changed. */
  ghost predicate Evolved(decls: seq<TypeDecl>, original: Defaults, now: Defaults)
    requires AllResolvable(decls, original)
  {
    && now.Keys == original.Keys
    && forall s :: s in original ==> now[s] == original[s] || now[s] == Resolve(decls, original[s])
  }

  /** Resolving early, late or twice gives the same default. */
  lemma {:induction false} ResolveOnce(decls: seq<TypeDecl>, original: Defaults, now: Defaults, s: nat)
    requires AllResolvable(decls, original) && Evolved(decls, original, now) && s in original
    ensures AllResolvable(decls, now)
    ensures Resolve(decls, now[s]) == Resolve(decls, original[s])
    ensures Evolved(decls, original, now[s := Resolve(decls, now[s])])
  {
    forall k | k in now ensures Resolvable(decls, now[k]) {
      assert now[k] == original[k] || now[k] == Resolve(decls, original[k]);
    }
  }
}
