/** GetLogicalDeviceVariablesHierarchical: the flat list of '$'-separated variable names as an index
    by logical node, functional constraint and data object. */
module VariableIndex {
  import opened Text

  datatype Parts = Parts(head: string, rest: string)

  /** Cuts at the first '$', if there is one. */
  function Cut(s: string): (r: Option<Parts>)
    ensures r.Some? ==> Free(r.value.head, {'$'}) && s == r.value.head + "$" + r.value.rest
    ensures r.None? ==> Free(s, {'$'})
  {
    if s == "" then None
    else if s[0] == '$' then Some(Parts("", s[1..]))
    else
      var r := Cut(s[1..]);
      if r.None? then None else Some(Parts([s[0]] + r.value.head, r.value.rest))
  }

  datatype Key = Key(ln: string, fc: string, base: string)

  datatype Name = Name(key: Key, remainder: Option<string>)

  /** Names with fewer than three components are skipped. */
  function ParseName(v: string): Option<Name> {
    var ln := Cut(v);
    if ln.None? then None
    else
      var fc := Cut(ln.value.rest);
      if fc.None? then None
      else
        var base := Cut(fc.value.rest);
        if base.None? then Some(Name(Key(ln.value.head, fc.value.head, fc.value.rest), None))
        else Some(Name(Key(ln.value.head, fc.value.head, base.value.head), Some(base.value.rest)))
  }

  function Spell(n: Name): string {
    n.key.ln + "$" + n.key.fc + "$" + n.key.base + (if n.remainder.Some? then "$" + n.remainder.value else "")
  }

  lemma {:induction false} CutIs(head: string, rest: string)
    requires Free(head, {'$'})
    ensures Cut(head + "$" + rest) == Some(Parts(head, rest))
  {
    var s := head + "$" + rest;
    var r := Cut(s);
    assert s[|head|] == '$' && s[|head|] in s;
    if r.Some? {
      assert s == head + ("$" + rest);
      assert s == r.value.head + "$" + r.value.rest == r.value.head + ("$" + r.value.rest);
      UniqueSplit(r.value.head, "$" + r.value.rest, head, "$" + rest, {'$'});
      assert ("$" + rest)[1..] == rest && ("$" + r.value.rest)[1..] == r.value.rest;
    }
  }

  lemma {:induction false} CutNone(s: string)
    requires Free(s, {'$'})
    ensures Cut(s).None?
  {
    if s != "" {
      assert s[0] in s;
      CutNone(s[1..]);
    }
  }

  function Tail(n: Name): string {
    n.key.base + (if n.remainder.Some? then "$" + n.remainder.value else "")
  }

  lemma {:induction false} SpellIs(n: Name)
    ensures Spell(n) == n.key.ln + "$" + (n.key.fc + "$" + Tail(n))
  {
    assert Spell(n) == n.key.ln + "$" + (n.key.fc + "$" + Tail(n));
  }

  lemma {:induction false} TailCut(n: Name)
    requires Free(n.key.base, {'$'})
    ensures Cut(Tail(n)) == if n.remainder.Some? then Some(Parts(n.key.base, n.remainder.value)) else None
  {
    if n.remainder.Some? {
      assert Tail(n) == n.key.base + "$" + n.remainder.value;
      CutIs(n.key.base, n.remainder.value);
    } else {
      assert Tail(n) == n.key.base;
      CutNone(n.key.base);
    }
  }

  lemma {:induction false} ParseSpelled(n: Name)
    requires Free(n.key.ln, {'$'}) && Free(n.key.fc, {'$'}) && Free(n.key.base, {'$'})
    ensures ParseName(Spell(n)) == Some(n)
  {
    SpellIs(n);
    CutIs(n.key.ln, n.key.fc + "$" + Tail(n));
    CutIs(n.key.fc, Tail(n));
    TailCut(n);
    assert n.remainder.None? ==> Tail(n) == n.key.base;
  }

  lemma {:induction false} SpellParsed(v: string, n: Name)
    requires ParseName(v) == Some(n)
    ensures v == Spell(n)
  {
    var ln := Cut(v).value;
    var fc := Cut(ln.rest).value;
    assert v == ln.head + "$" + ln.rest && ln.rest == fc.head + "$" + fc.rest;
    assert fc.rest == Tail(n) by {
      if n.remainder.Some? {
        assert Tail(n) == n.key.base + "$" + n.remainder.value;
      } else {
        assert Tail(n) == n.key.base;
      }
    }
    SpellIs(n);
  }

  /** A name is parsed into its first three '$'-components and the remainder, and only so. */
  lemma {:induction false} ParseInvertsSpelling(v: string, n: Name)
    requires Free(n.key.ln, {'$'}) && Free(n.key.fc, {'$'}) && Free(n.key.base, {'$'})
    ensures ParseName(v) == Some(n) <==> v == Spell(n)
  {
    ParseSpelled(n);
    if ParseName(v) == Some(n) {
      SpellParsed(v, n);
    }
  }

  // ----- the index

  type Vars = map<string, seq<string>>
  type ByConstraint = map<string, Vars>
  type Index = map<string, ByConstraint>

  function Get(m: Index, k: Key): Option<seq<string>> {
    if k.ln in m && k.fc in m[k.ln] && k.base in m[k.ln][k.fc] then Some(m[k.ln][k.fc][k.base]) else None
  }

  /** The remainders of the names with this key, in order; None if there is no such name. */
  function Selected(vars: seq<string>, k: Key): Option<seq<string>> {
    if vars == [] then None
    else
      var before := Selected(vars[..|vars| - 1], k);
      var n := ParseName(vars[|vars| - 1]);
      if n.Some? && n.value.key == k
      then Some(before.GetOr([]) + (if n.value.remainder.Some? then [n.value.remainder.value] else []))
      else before
  }

  lemma {:induction false} SelectedIff(vars: seq<string>, k: Key)
    ensures Selected(vars, k).Some?
       <==> exists i :: 0 <= i < |vars| && ParseName(vars[i]).Some? && ParseName(vars[i]).value.key == k
  {
    if vars != [] {
      var n := |vars| - 1;
      SelectedIff(vars[..n], k);
      forall i | 0 <= i < n ensures vars[i] == vars[..n][i] {
      }
    }
  }

  /** The text is the key's three components and a remainder, separated by '$'. */
  predicate Carries(v: string, k: Key, remainder: string) {
    KeyPlain(k) && v == k.ln + "$" + k.fc + "$" + k.base + "$" + remainder
  }

  predicate KeyPlain(k: Key) {
    Free(k.ln, {'$'}) && Free(k.fc, {'$'}) && Free(k.base, {'$'})
  }

  predicate CarriesSome(v: string, k: Key) {
    var head := k.ln + "$" + k.fc + "$" + k.base + "$";
    KeyPlain(k) && HasPrefix(v, head)
  }

  /** How many of the first i names carry a remainder for the key. */
  function Carried(vars: seq<string>, k: Key, i: nat): nat
    requires i <= |vars|
  {
    if i == 0 then 0 else Carried(vars, k, i - 1) + if CarriesSome(vars[i - 1], k) then 1 else 0
  }

  lemma {:induction false} ParsedPlain(v: string)
    requires ParseName(v).Some?
    ensures KeyPlain(ParseName(v).value.key)
  {
  }

  /** A name belongs to a key exactly if it spells the key, alone or with a remainder. */
  lemma {:induction false} BelongsExact(v: string, k: Key)
    ensures ParseName(v).Some? && ParseName(v).value.key == k
       <==> KeyPlain(k) && (v == k.ln + "$" + k.fc + "$" + k.base || CarriesSome(v, k))
    ensures forall r :: ParseName(v) == Some(Name(k, Some(r))) <==> Carries(v, k, r)
    ensures CarriesSome(v, k) <==> exists r :: Carries(v, k, r)
  {
    var bare, head := k.ln + "$" + k.fc + "$" + k.base, k.ln + "$" + k.fc + "$" + k.base + "$";
    forall r ensures ParseName(v) == Some(Name(k, Some(r))) <==> Carries(v, k, r) {
      SpelledWith(v, k, r);
    }
    if CarriesSome(v, k) {
      assert v == head + v[|head|..];
      assert Carries(v, k, v[|head|..]);
    }
    if KeyPlain(k) {
      ParseInvertsSpelling(v, Name(k, None));
      assert Spell(Name(k, None)) == bare;
    }
    if ParseName(v).Some? && ParseName(v).value.key == k {
      ParsedPlain(v);
      var n := ParseName(v).value;
      assert n == Name(k, n.remainder);
      if n.remainder.Some? {
        assert Carries(v, k, n.remainder.value);
      }
    }
    if r :| Carries(v, k, r) {
      assert v[..|head|] == head;
    }
  }

  lemma {:induction false} SpelledWith(v: string, k: Key, r: string)
    ensures ParseName(v) == Some(Name(k, Some(r))) <==> Carries(v, k, r)
  {
    var n := Name(k, Some(r));
    assert Spell(n) == k.ln + "$" + k.fc + "$" + k.base + "$" + r;
    if KeyPlain(k) {
      ParseInvertsSpelling(v, n);
    }
    if ParseName(v) == Some(n) {
      ParsedPlain(v);
    }
  }

  lemma {:induction false} CarriedPrefix(vars: seq<string>, k: Key, n: nat, i: nat)
    requires i <= n <= |vars|
    ensures Carried(vars[..n], k, i) == Carried(vars, k, i)
  {
    if i > 0 {
      CarriedPrefix(vars, k, n, i - 1);
    }
  }

  lemma {:induction false} CarriedGrows(vars: seq<string>, k: Key, i: nat, j: nat)
    requires i <= j <= |vars|
    ensures Carried(vars, k, i) <= Carried(vars, k, j)
  {
    if i < j {
      CarriedGrows(vars, k, i, j - 1);
    }
  }

  /** What the list of a key holds: the remainders of the names that spell the key, in their order, one for
      each; a name that spells the key alone contributes an empty list. */
  lemma {:induction false} SelectedExact(vars: seq<string>, k: Key)
    ensures Selected(vars, k).Some?
       <==> KeyPlain(k) && exists v :: v in vars && (v == k.ln + "$" + k.fc + "$" + k.base || CarriesSome(v, k))
    ensures var list := Selected(vars, k).GetOr([]);
            && |list| == Carried(vars, k, |vars|)
            && forall i, r :: 0 <= i < |vars| && Carries(vars[i], k, r) ==>
                 Carried(vars, k, i) < |list| && list[Carried(vars, k, i)] == r
  {
    SelectedSome(vars, k);
    SelectedHolds(vars, k);
  }

  lemma {:induction false} SelectedSome(vars: seq<string>, k: Key)
    ensures Selected(vars, k).Some?
       <==> KeyPlain(k) && exists v :: v in vars && (v == k.ln + "$" + k.fc + "$" + k.base || CarriesSome(v, k))
  {
    SelectedIff(vars, k);
    forall i | 0 <= i < |vars|
      ensures ParseName(vars[i]).Some? && ParseName(vars[i]).value.key == k
         <==> KeyPlain(k) && (vars[i] == k.ln + "$" + k.fc + "$" + k.base || CarriesSome(vars[i], k))
    {
      BelongsExact(vars[i], k);
    }
  }

  lemma {:induction false} SelectedHolds(vars: seq<string>, k: Key)
    ensures var list := Selected(vars, k).GetOr([]);
            && |list| == Carried(vars, k, |vars|)
            && forall i, r :: 0 <= i < |vars| && Carries(vars[i], k, r) ==>
                 Carried(vars, k, i) < |list| && list[Carried(vars, k, i)] == r
  {
    if vars != [] {
      var n := |vars| - 1;
      var before, list := Selected(vars[..n], k).GetOr([]), Selected(vars, k).GetOr([]);
      SelectedHolds(vars[..n], k);
      CarriedPrefix(vars, k, n, n);
      BelongsExact(vars[n], k);
      forall i, r | 0 <= i < |vars| && Carries(vars[i], k, r)
        ensures Carried(vars, k, i) < |list| && list[Carried(vars, k, i)] == r
      {
        if i < n {
          CarriedPrefix(vars, k, n, i);
          assert vars[..n][i] == vars[i];
        }
      }
    }
  }

  /** No level of the index holds an empty map. */
  ghost predicate NoEmpty(m: Index) {
    && (forall ln :: ln in m ==> m[ln] != map[])
    && (forall ln, fc :: ln in m && fc in m[ln] ==> m[ln][fc] != map[])
  }

  /** What the loop does for one name. */
  function Insert(m: Index, n: Name): Index {
    var k := n.key;
    var fcs := if k.ln in m then m[k.ln] else map[];
    var bases := if k.fc in fcs then fcs[k.fc] else map[];
    var list := if k.base in bases then bases[k.base] else [];
    m[k.ln := fcs[k.fc := bases[k.base := list + if n.remainder.Some? then [n.remainder.value] else []]]]
  }

  /** Creating the missing levels first and appending last comes to the same. */
  function Create(m: Index, k: Key): Index {
    var m1 := if k.ln in m then m else m[k.ln := map[]];
    var m2 := if k.fc in m1[k.ln] then m1 else m1[k.ln := m1[k.ln][k.fc := map[]]];
    if k.base in m2[k.ln][k.fc] then m2 else m2[k.ln := m2[k.ln][k.fc := m2[k.ln][k.fc][k.base := []]]]
  }

  lemma {:induction false} InsertBySteps(m: Index, n: Name)
    ensures var k, c := n.key, Create(m, n.key);
            k.ln in c && k.fc in c[k.ln] && k.base in c[k.ln][k.fc]
    ensures var k, c := n.key, Create(m, n.key);
            Insert(m, n) == if n.remainder.None? then c
                            else
                              var list := c[k.ln][k.fc][k.base] + [n.remainder.value];
                              c[k.ln := c[k.ln][k.fc := c[k.ln][k.fc][k.base := list]]]
  {
    var k, c, r := n.key, Create(m, n.key), Insert(m, n);
    var list := Get(m, k).GetOr([]);
    assert c[k.ln][k.fc][k.base] == list && list + [] == list;
    if n.remainder.None? {
      assert r[k.ln][k.fc] == c[k.ln][k.fc];
      assert r[k.ln] == c[k.ln];
      assert r == c;
    } else {
      var bases := c[k.ln][k.fc][k.base := list + [n.remainder.value]];
      assert r[k.ln][k.fc] == bases;
      assert r[k.ln] == c[k.ln][k.fc := bases];
      assert r == c[k.ln := c[k.ln][k.fc := bases]];
    }
  }

  lemma {:induction false} InsertGet(m: Index, n: Name, k: Key)
    ensures Get(Insert(m, n), k)
         == if k == n.key then Some(Get(m, k).GetOr([]) + (if n.remainder.Some? then [n.remainder.value] else []))
            else Get(m, k)
  {
  }

  lemma {:induction false} InsertNoEmpty(m: Index, n: Name)
    requires NoEmpty(m)
    ensures NoEmpty(Insert(m, n))
  {
  }

  method Group(vars: seq<string>) returns (m: Index)
    ensures forall k :: Get(m, k) == Selected(vars, k)
    ensures NoEmpty(m)
  {
    m := map[];
    for i := 0 to |vars|
      invariant forall k :: Get(m, k) == Selected(vars[..i], k)
      invariant NoEmpty(m)
    {
      assert vars[..i + 1][..i] == vars[..i] && vars[..i + 1][i] == vars[i];
      var parts := ParseName(vars[i]);
      if parts.None? {
        continue;
      }
      var before := m;
      var k, remainder := parts.value.key, parts.value.remainder;
      if k.ln !in m {
        m := m[k.ln := map[]];
      }
      if k.fc !in m[k.ln] {
        m := m[k.ln := m[k.ln][k.fc := map[]]];
      }
      if k.base !in m[k.ln][k.fc] {
        m := m[k.ln := m[k.ln][k.fc := m[k.ln][k.fc][k.base := []]]];
      }
      if remainder.Some? {
        m := m[k.ln := m[k.ln][k.fc := m[k.ln][k.fc][k.base := m[k.ln][k.fc][k.base] + [remainder.value]]]];
      }
      InsertBySteps(before, parts.value);
      forall l ensures Get(m, l) == Selected(vars[..i + 1], l) {
        InsertGet(before, parts.value, l);
      }
      InsertNoEmpty(before, parts.value);
    }
    assert vars[..|vars|] == vars;
  }

  // ----- the sorted result

  /** Byte-wise order of strings. */
  predicate Less(a: string, b: string) {
    b != "" && (a == "" || a[0] < b[0] || (a[0] == b[0] && Less(a[1..], b[1..])))
  }

  lemma {:induction false} LessIsTotal(a: string, b: string)
    ensures a == b || Less(a, b) || Less(b, a)
    ensures !(Less(a, b) && Less(b, a)) && !(a == b && Less(a, b))
  {
    if a != "" && b != "" {
      LessIsTotal(a[1..], b[1..]);
      if a[0] == b[0] && a[1..] == b[1..] {
        assert a == [a[0]] + a[1..] == [b[0]] + b[1..] == b;
      }
    }
  }

  lemma {:induction false} LessIsTransitive(a: string, b: string, c: string)
    requires Less(a, b) && Less(b, c)
    ensures Less(a, c)
  {
    if a != "" && a[0] == b[0] && b[0] == c[0] {
      LessIsTransitive(a[1..], b[1..], c[1..]);
    }
  }

  /** One string is less if it is a proper beginning of the other or has the smaller character where they
      first differ. */
  lemma {:induction false} LessExact(a: string, b: string)
    ensures Less(a, b)
       <==> exists n: nat :: n <= |a| && n < |b| && a[..n] == b[..n] && (n == |a| || a[n] < b[n])
  {
    if a == "" || b == "" {
      assert b != "" ==> a[..0] == b[..0];
    } else if a[0] == b[0] {
      LessExact(a[1..], b[1..]);
      if Less(a, b) {
        var n: nat :| && n <= |a[1..]| && n < |b[1..]| && a[1..][..n] == b[1..][..n]
                      && (n == |a[1..]| || a[1..][n] < b[1..][n]);
        assert a[..n + 1] == [a[0]] + a[1..][..n] == [b[0]] + b[1..][..n] == b[..n + 1];
      }
      if n: nat :| n <= |a| && n < |b| && a[..n] == b[..n] && (n == |a| || a[n] < b[n]) {
        assert n > 0;
        assert a[1..][..n - 1] == a[..n][1..] == b[..n][1..] == b[1..][..n - 1];
      }
    } else {
      assert a[..0] == b[..0];
      forall n: nat | 0 < n <= |a| && n < |b| ensures a[..n] != b[..n] {
        assert a[..n][0] == a[0] && b[..n][0] == b[0];
      }
    }
  }

  datatype FcVar = FcVar(ln: string, fcVars: ByConstraint)

  predicate Sorted(s: seq<FcVar>) {
    forall i, j :: 0 <= i < j < |s| ==> Less(s[i].ln, s[j].ln)
  }

  /** The entries are those of the map, for the given keys. */
  predicate Holds(s: seq<FcVar>, m: Index, keys: set<string>) {
    && (forall x :: x in s ==> x.ln in keys && x.ln in m && x.fcVars == m[x.ln])
    && (forall ln :: ln in keys && ln in m ==> FcVar(ln, m[ln]) in s)
  }

  method InsertSorted(s: seq<FcVar>, x: FcVar) returns (r: seq<FcVar>)
    requires Sorted(s) && forall y :: y in s ==> y.ln != x.ln
    ensures Sorted(r) && forall y :: y in r <==> y == x || y in s
  {
    var i := 0;
    while i < |s| && Less(s[i].ln, x.ln)
      invariant i <= |s| && forall k :: 0 <= k < i ==> Less(s[k].ln, x.ln)
    {
      i := i + 1;
    }
    r := s[..i] + [x] + s[i..];
    forall k | i <= k < |s| ensures Less(x.ln, s[k].ln) {
      assert s[i] in s;
      LessIsTotal(s[i].ln, x.ln);
      if k > i {
        LessIsTransitive(x.ln, s[i].ln, s[k].ln);
      }
    }
  }

  /** Collects the map's entries in whatever order it is iterated, sorted by logical node. */
  method ToSorted(m: Index) returns (ret: seq<FcVar>)
    ensures Sorted(ret) && Holds(ret, m, m.Keys)
  {
    ret := [];
    var left := m.Keys;
    while left != {}
      invariant left <= m.Keys
      invariant Sorted(ret) && Holds(ret, m, m.Keys - left)
      decreases |left|
    {
      var k :| k in left;
      ret := InsertSorted(ret, FcVar(k, m[k]));
      left := left - {k};
    }
  }

  lemma {:induction false} SortedTail(s: seq<FcVar>, m: Index, keys: set<string>)
    requires s != [] && Sorted(s) && Holds(s, m, keys) && keys <= m.Keys
    ensures s[0].ln in keys && Sorted(s[1..]) && Holds(s[1..], m, keys - {s[0].ln})
    ensures forall k :: k in keys && k != s[0].ln ==> Less(s[0].ln, k)
  {
    assert s[0] in s;
    forall k | k in keys && k != s[0].ln ensures Less(s[0].ln, k) && FcVar(k, m[k]) in s[1..] {
      var i :| 0 <= i < |s| && s[i] == FcVar(k, m[k]);
      assert s[1..][i - 1] == s[i];
    }
    forall x | x in s[1..] ensures x.ln != s[0].ln {
      var i :| 0 <= i < |s[1..]| && s[1..][i] == x;
      assert s[i + 1] == x;
      LessIsTotal(s[0].ln, x.ln);
    }
  }

  /** The result does not depend on the iteration order: only one list is sorted and holds the map. */
  lemma {:induction false} SortedUnique(s: seq<FcVar>, t: seq<FcVar>, m: Index, keys: set<string>)
    requires Sorted(s) && Sorted(t) && Holds(s, m, keys) && Holds(t, m, keys) && keys <= m.Keys
    ensures s == t
    decreases |s|
  {
    if s != [] {
      assert s[0] in s;
      SortedTail(s, m, keys);
      if t != [] {
        SortedTail(t, m, keys);
        LessIsTotal(s[0].ln, t[0].ln);
        SortedUnique(s[1..], t[1..], m, keys - {s[0].ln});
        assert s == [s[0]] + s[1..] && t == [t[0]] + t[1..];
      }
    }
  }

  method GetLogicalDeviceVariablesHierarchical(vars: seq<string>) returns (ret: seq<FcVar>, ghost m: Index)
    ensures forall k :: Get(m, k) == Selected(vars, k)
    ensures NoEmpty(m) && Sorted(ret) && Holds(ret, m, m.Keys)
  {
    var index := Group(vars);
    m := index;
    ret := ToSorted(index);
  }
}
