/** Instance values (DOI/DAI elements) laid over an instantiated logical node. */
module InstanceValues {
  import opened Text
  import opened Instances
  import opened Templates
  import opened Linking
  import opened ModelTable
  import opened Generator

  /** NotAnAttribute is the unchecked type assertion hit when the name belongs to a sub data object. */
  datatype DaiFailure = MissingElement | BadValue | NotAnAttribute
  datatype Parsed<+T> = Done(value: T) | Rejected(failure: DaiFailure)

  datatype Dai = Dai(name: string, val: Option<string>, sAddr: string)
  datatype Doi = Doi(name: string, dais: seq<Dai>)

  /** Text to value; the definition is named by its slot because it carries the enumeration type. */
  type Conversion = (AttributeType, nat, string) -> Option<Scalar>

  /** First attribute with the name. */
  function FindDa(das: seq<DataAttribute>, name: string): (r: Option<nat>)
    ensures r.Some? ==> r.value < |das| && das[r.value].name == name
                        && forall k :: 0 <= k < r.value ==> das[k].name != name
    ensures r.None? ==> forall k :: 0 <= k < |das| ==> das[k].name != name
  {
    if das == [] then None
    else if das[0].name == name then Some(0)
    else
      var r := FindDa(das[1..], name);
      if r.None? then None else Some(r.value + 1)
  }

  function FindDo(dos: seq<DataObject>, name: string): (r: Option<nat>)
    ensures r.Some? ==> r.value < |dos| && dos[r.value].name == name
                        && forall k :: 0 <= k < r.value ==> dos[k].name != name
    ensures r.None? ==> forall k :: 0 <= k < |dos| ==> dos[k].name != name
  {
    if dos == [] then None
    else if dos[0].name == name then Some(0)
    else
      var r := FindDo(dos[1..], name);
      if r.None? then None else Some(r.value + 1)
  }

  function SetValue(da: DataAttribute, dai: Dai, v: Scalar): DataAttribute {
    da.(value := Some(v), shortAddress := if dai.sAddr != "" then dai.sAddr else da.shortAddress)
  }

  function ApplyDai(conv: Conversion, d: DataObject, dai: Dai): Parsed<DataObject> {
    var i := FindDa(d.das, dai.name);
    if i.None? then Rejected(if FindDo(d.sdos, dai.name).Some? then NotAnAttribute else MissingElement)
    else if dai.val.None? then Done(d)
    else
      var da := d.das[i.value];
      var v := conv(da.attrType, da.slot, dai.val.value);
      if v.None? then Rejected(BadValue)
      else Done(d.(das := d.das[i.value := SetValue(da, dai, v.value)]))
  }

  function ApplyDais(conv: Conversion, d: DataObject, dais: seq<Dai>): Parsed<DataObject>
    decreases |dais|
  {
    if dais == [] then Done(d)
    else
      var first := ApplyDai(conv, d, dais[0]);
      if first.Rejected? then first else ApplyDais(conv, first.value, dais[1..])
  }

  function ApplyDois(conv: Conversion, dos: seq<DataObject>, dois: seq<Doi>): Parsed<seq<DataObject>>
    decreases |dois|
  {
    if dois == [] then Done(dos)
    else
      var i := FindDo(dos, dois[0].name);
      if i.None? then Rejected(MissingElement)
      else
        var d := ApplyDais(conv, dos[i.value], dois[0].dais);
        if d.Rejected? then Rejected(d.failure)
        else ApplyDois(conv, dos[i.value := d.value], dois[1..])
  }

  method ParseDataAttributeNodes(conv: Conversion, d: DataObject, dais: seq<Dai>) returns (r: Parsed<DataObject>)
    ensures r == ApplyDais(conv, d, dais)
  {
    var current := d;
    for k := 0 to |dais|
      invariant ApplyDais(conv, d, dais) == ApplyDais(conv, current, dais[k..])
    {
      assert dais[k..][1..] == dais[k + 1..];
      var i := FindDa(current.das, dais[k].name);
      if i.None? {
        return Rejected(if FindDo(current.sdos, dais[k].name).Some? then NotAnAttribute else MissingElement);
      }
      if dais[k].val.Some? {
        var da := current.das[i.value];
        var v := conv(da.attrType, da.slot, dais[k].val.value);
        if v.None? {
          return Rejected(BadValue);
        }
        current := current.(das := current.das[i.value := SetValue(da, dais[k], v.value)]);
      }
    }
    assert dais[|dais|..] == [];
    return Done(current);
  }

  method ParseDataObjectNodes(conv: Conversion, dos: seq<DataObject>, dois: seq<Doi>)
    returns (r: Parsed<seq<DataObject>>)
    ensures r == ApplyDois(conv, dos, dois)
  {
    var current := dos;
    for k := 0 to |dois|
      invariant ApplyDois(conv, dos, dois) == ApplyDois(conv, current, dois[k..])
    {
      assert dois[k..][1..] == dois[k + 1..];
      var i := FindDo(current, dois[k].name);
      if i.None? {
        return Rejected(MissingElement);
      }
      var d := ParseDataAttributeNodes(conv, current[i.value], dois[k].dais);
      if d.Rejected? {
        return Rejected(d.failure);
      }
      current := current[i.value := d.value];
    }
    assert dois[|dois|..] == [];
    return Done(current);
  }

  // ----- what instance values change

  /** The last value-carrying DAI with the name. */
  function LastDai(dais: seq<Dai>, name: string): (r: Option<nat>)
    ensures r.Some? ==> r.value < |dais| && dais[r.value].name == name && dais[r.value].val.Some?
                        && forall k :: r.value < k < |dais| ==> !(dais[k].name == name && dais[k].val.Some?)
    ensures r.None? ==> forall k :: 0 <= k < |dais| ==> !(dais[k].name == name && dais[k].val.Some?)
  {
    if dais == [] then None
    else
      var n := |dais| - 1;
      if dais[n].name == name && dais[n].val.Some? then Some(n) else LastDai(dais[..n], name)
  }

  /** The last value-carrying DAI with the name that also carries a short address. */
  function LastAddressed(dais: seq<Dai>, name: string): (r: Option<nat>)
    ensures r.Some? ==> r.value < |dais| && Addresses(dais[r.value], name)
                        && forall k :: r.value < k < |dais| ==> !Addresses(dais[k], name)
    ensures r.None? ==> forall k :: 0 <= k < |dais| ==> !Addresses(dais[k], name)
  {
    if dais == [] then None
    else
      var n := |dais| - 1;
      if Addresses(dais[n], name) then Some(n) else LastAddressed(dais[..n], name)
  }

  predicate Addresses(dai: Dai, name: string) {
    dai.name == name && dai.val.Some? && dai.sAddr != ""
  }

  /** Same attribute up to its own value and short address. */
  predicate SameButValue(a: DataAttribute, b: DataAttribute) {
    b == a.(value := b.value, shortAddress := b.shortAddress)
  }

  /** Same data object up to values and short addresses of its direct attributes. */
  predicate SameButValues(d: DataObject, e: DataObject) {
    && e == d.(das := e.das) && |e.das| == |d.das|
    && forall i :: 0 <= i < |d.das| ==> SameButValue(d.das[i], e.das[i])
  }

  lemma {:induction false} ApplySplit(conv: Conversion, d: DataObject, a: seq<Dai>, b: seq<Dai>)
    ensures ApplyDais(conv, d, a + b)
         == var mid := ApplyDais(conv, d, a); if mid.Rejected? then mid else ApplyDais(conv, mid.value, b)
    decreases |a|
  {
    if a == [] {
      assert a + b == b;
    } else {
      assert (a + b)[1..] == a[1..] + b;
      var first := ApplyDai(conv, d, a[0]);
      if first.Done? {
        ApplySplit(conv, first.value, a[1..], b);
      }
    }
  }

  /** What attribute i of a data object has become: changed only if it is the first of its name and a
      DAI with a value names it, and then it holds the value of the last such DAI, and the short address of
      the last of them that has one. */
  predicate Became(conv: Conversion, das: seq<DataAttribute>, dais: seq<Dai>, i: nat, after: DataAttribute)
    requires i < |das|
  {
    var da := das[i];
    var k := LastDai(dais, da.name);
    && SameButValue(da, after)
    && if FindDa(das, da.name) == Some(i) && k.Some?
       then
         && after.value.Some? && after.value == conv(da.attrType, da.slot, dais[k.value].val.value)
         && var a := LastAddressed(dais, da.name);
            after.shortAddress == if a.Some? then dais[a.value].sAddr else da.shortAddress
       else after == da
  }

  /** The effect of a list of DAIs on every direct attribute.  Sub attributes, sub data objects and
      everything else stay as they were. */
  lemma {:induction false} DaisEffect(conv: Conversion, d: DataObject, dais: seq<Dai>)
    requires ApplyDais(conv, d, dais).Done?
    ensures var e := ApplyDais(conv, d, dais).value;
            SameButValues(d, e) && forall i :: 0 <= i < |d.das| ==> Became(conv, d.das, dais, i, e.das[i])
    decreases |dais|
  {
    if dais != [] {
      var n := |dais| - 1;
      var before, last := dais[..n], dais[n];
      assert dais == before + [last];
      assert [last][1..] == [];
      ApplySplit(conv, d, before, [last]);
      DaisEffect(conv, d, before);
      var m := ApplyDais(conv, d, before).value;
      assert ApplyDais(conv, d, dais) == ApplyDai(conv, m, last);
      ApplyDaiShape(conv, m, last);
      var e := ApplyDai(conv, m, last).value;
      assert e == d.(das := e.das);
      forall i | 0 <= i < |d.das| ensures Became(conv, d.das, dais, i, e.das[i]) && SameButValue(d.das[i], e.das[i]) {
        assert Became(conv, d.das, before, i, m.das[i]);
        BecameStep(conv, d, m, dais, i);
      }
    }
  }

  lemma {:induction false} ApplyDaiShape(conv: Conversion, d: DataObject, dai: Dai)
    requires ApplyDai(conv, d, dai).Done?
    ensures var e := ApplyDai(conv, d, dai).value; e == d.(das := e.das) && |e.das| == |d.das|
  {
  }

  lemma {:induction false} BecameStep(conv: Conversion, d: DataObject, m: DataObject, dais: seq<Dai>, i: nat)
    requires dais != [] && SameButValues(d, m) && i < |d.das|
    requires Became(conv, d.das, dais[..|dais| - 1], i, m.das[i])
    requires ApplyDai(conv, m, dais[|dais| - 1]).Done?
    ensures var e := ApplyDai(conv, m, dais[|dais| - 1]).value;
            |e.das| == |d.das| && Became(conv, d.das, dais, i, e.das[i])
  {
    var n := |dais| - 1;
    assert SameButValue(d.das[i], m.das[i]);
    SameFind(d.das, m.das, dais[n].name);
    LastDaiStep(dais, d.das[i].name);
    ApplyDaiShape(conv, m, dais[n]);
    ApplyDaiAt(conv, m, dais[n], i);
    if LastDai(dais[..n], d.das[i].name).None? {
      NoneAddressed(dais[..n], d.das[i].name);
    }
  }

  /** What one DAI does to attribute i. */
  lemma {:induction false} ApplyDaiAt(conv: Conversion, d: DataObject, dai: Dai, i: nat)
    requires ApplyDai(conv, d, dai).Done? && i < |d.das|
    ensures var da, e := d.das[i], ApplyDai(conv, d, dai).value;
            && |e.das| == |d.das|
            && if FindDa(d.das, dai.name) == Some(i) && dai.val.Some?
               then
                 && conv(da.attrType, da.slot, dai.val.value).Some?
                 && e.das[i] == SetValue(da, dai, conv(da.attrType, da.slot, dai.val.value).value)
               else e.das[i] == da
  {
  }

  lemma {:induction false} LastDaiStep(dais: seq<Dai>, name: string)
    requires dais != []
    ensures var n := |dais| - 1;
            if dais[n].name == name && dais[n].val.Some? then LastDai(dais, name) == Some(n)
            else LastDai(dais, name) == LastDai(dais[..n], name)
    ensures var n := |dais| - 1;
            LastAddressed(dais, name)
            == if Addresses(dais[n], name) then Some(n) else LastAddressed(dais[..n], name)
  {
  }

  lemma {:induction false} NoneAddressed(dais: seq<Dai>, name: string)
    requires LastDai(dais, name).None?
    ensures LastAddressed(dais, name).None?
  {
  }

  lemma {:induction false} SameFind(a: seq<DataAttribute>, b: seq<DataAttribute>, name: string)
    requires |a| == |b| && forall i :: 0 <= i < |a| ==> SameButValue(a[i], b[i])
    ensures FindDa(a, name) == FindDa(b, name)
  {
  }

  /** A DAI can be applied: an attribute of the data object has its name, and its text, if it has one,
      is a value of that attribute's type. */
  predicate Applicable(conv: Conversion, d: DataObject, dai: Dai) {
    var i := FindDa(d.das, dai.name);
    i.Some? && (dai.val.Some? ==> conv(d.das[i.value].attrType, d.das[i.value].slot, dai.val.value).Some?)
  }

  lemma {:induction false} StaysApplicable(conv: Conversion, d: DataObject, e: DataObject, dai: Dai)
    requires SameButValues(d, e)
    ensures Applicable(conv, d, dai) <==> Applicable(conv, e, dai)
  {
    SameFind(d.das, e.das, dai.name);
    var i := FindDa(d.das, dai.name);
    if i.Some? {
      assert SameButValue(d.das[i.value], e.das[i.value]);
    }
  }

  /** A list of DAIs is accepted exactly if each of them can be applied to the data object as it was. */
  lemma {:induction false} DaisAccepted(conv: Conversion, d: DataObject, dais: seq<Dai>)
    ensures ApplyDais(conv, d, dais).Done? <==> AllApplicable(conv, d, dais)
    decreases |dais|
  {
    if dais != [] {
      assert AllApplicable(conv, d, dais) <==> Applicable(conv, d, dais[0]) && AllApplicable(conv, d, dais[1..]) by {
        assert forall dai :: dai in dais <==> dai == dais[0] || dai in dais[1..];
      }
      var first := ApplyDai(conv, d, dais[0]);
      assert first.Done? <==> Applicable(conv, d, dais[0]);
      if first.Done? {
        OneDaiSame(conv, d, dais[0]);
        DaisAccepted(conv, first.value, dais[1..]);
        StayAllApplicable(conv, d, first.value, dais[1..]);
      }
    }
  }

  predicate AllApplicable(conv: Conversion, d: DataObject, dais: seq<Dai>) {
    forall dai :: dai in dais ==> Applicable(conv, d, dai)
  }

  lemma {:induction false} StayAllApplicable(conv: Conversion, d: DataObject, e: DataObject, dais: seq<Dai>)
    requires SameButValues(d, e)
    ensures AllApplicable(conv, d, dais) <==> AllApplicable(conv, e, dais)
  {
    forall dai | dai in dais ensures Applicable(conv, d, dai) <==> Applicable(conv, e, dai) {
      StaysApplicable(conv, d, e, dai);
    }
  }

  lemma {:induction false} OneDaiSame(conv: Conversion, d: DataObject, dai: Dai)
    requires ApplyDai(conv, d, dai).Done?
    ensures SameButValues(d, ApplyDai(conv, d, dai).value)
  {
  }

  /** Why a DAI cannot be applied. */
  predicate RejectedFor(d: DataObject, dai: Dai, failure: DaiFailure) {
    var attribute := exists da :: da in d.das && da.name == dai.name;
    var below := exists s :: s in d.sdos && s.name == dai.name;
    && (failure == BadValue <==> attribute)
    && (failure == NotAnAttribute <==> !attribute && below)
    && (failure == MissingElement <==> !attribute && !below)
  }

  lemma {:induction false} OneRejected(conv: Conversion, d: DataObject, dai: Dai)
    requires !Applicable(conv, d, dai)
    ensures ApplyDai(conv, d, dai).Rejected? && RejectedFor(d, dai, ApplyDai(conv, d, dai).failure)
  {
    var i, j := FindDa(d.das, dai.name), FindDo(d.sdos, dai.name);
    assert i.Some? ==> d.das[i.value] in d.das;
    assert j.Some? ==> d.sdos[j.value] in d.sdos;
  }

  /** A list of DAIs fails for the reason of the first one that cannot be applied. */
  lemma {:induction false} FirstRejected(conv: Conversion, d: DataObject, dais: seq<Dai>, k: nat)
    requires k < |dais| && !Applicable(conv, d, dais[k]) && AllApplicable(conv, d, dais[..k])
    ensures ApplyDais(conv, d, dais).Rejected? && RejectedFor(d, dais[k], ApplyDais(conv, d, dais).failure)
    decreases k
  {
    if k == 0 {
      OneRejected(conv, d, dais[0]);
    } else {
      assert dais[0] == dais[..k][0] && dais[..k][1..] == dais[1..][..k - 1];
      assert Applicable(conv, d, dais[0]);
      var e := ApplyDai(conv, d, dais[0]).value;
      OneDaiSame(conv, d, dais[0]);
      StaysApplicable(conv, d, e, dais[k]);
      assert AllApplicable(conv, d, dais[1..][..k - 1]);
      StayAllApplicable(conv, d, e, dais[1..][..k - 1]);
      FirstRejected(conv, e, dais[1..], k - 1);
      SameNames(d, e, dais[k], ApplyDais(conv, d, dais).failure);
    }
  }

  lemma {:induction false} SameNames(d: DataObject, e: DataObject, dai: Dai, failure: DaiFailure)
    requires SameButValues(d, e) && RejectedFor(e, dai, failure)
    ensures RejectedFor(d, dai, failure)
  {
    if da :| da in d.das && da.name == dai.name {
      var i :| 0 <= i < |d.das| && d.das[i] == da;
      assert SameButValue(d.das[i], e.das[i]) && e.das[i] in e.das;
    }
    if da :| da in e.das && da.name == dai.name {
      var i :| 0 <= i < |e.das| && e.das[i] == da;
      assert SameButValue(d.das[i], e.das[i]) && d.das[i] in d.das;
    }
  }

  /** The DAIs of all DOIs with the name, in order. */
  function DaisFor(dois: seq<Doi>, name: string): seq<Dai> {
    if dois == [] then []
    else (if dois[0].name == name then dois[0].dais else []) + DaisFor(dois[1..], name)
  }

  /** What data object i has become: the first of its name takes all DAIs for the name, any other none. */
  predicate ObjectBecame(conv: Conversion, dos: seq<DataObject>, dois: seq<Doi>, i: nat, after: DataObject)
    requires i < |dos|
  {
    if FindDo(dos, dos[i].name) == Some(i)
    then ApplyDais(conv, dos[i], DaisFor(dois, dos[i].name)) == Done(after)
    else after == dos[i]
  }

  /** The effect of a list of DOIs on every data object of a logical node. */
  lemma {:induction false} DoisEffect(conv: Conversion, dos: seq<DataObject>, dois: seq<Doi>)
    requires ApplyDois(conv, dos, dois).Done?
    ensures var es := ApplyDois(conv, dos, dois).value;
            |es| == |dos| && forall i :: 0 <= i < |dos| ==> ObjectBecame(conv, dos, dois, i, es[i])
    decreases |dois|
  {
    var es := ApplyDois(conv, dos, dois).value;
    if dois == [] {
      forall i | 0 <= i < |dos| ensures ObjectBecame(conv, dos, dois, i, es[i]) {
        assert DaisFor(dois, dos[i].name) == [];
      }
    } else {
      var n := FindDo(dos, dois[0].name).value;
      var d := ApplyDais(conv, dos[n], dois[0].dais).value;
      var mid := dos[n := d];
      DoisEffect(conv, mid, dois[1..]);
      DaisEffect(conv, dos[n], dois[0].dais);
      forall i | 0 <= i < |dos| ensures ObjectBecame(conv, dos, dois, i, es[i]) {
        assert ObjectBecame(conv, mid, dois[1..], i, es[i]);
        ObjectStep(conv, dos, dois, i, n, d, es[i]);
      }
    }
  }

  lemma {:induction false} ObjectStep(conv: Conversion, dos: seq<DataObject>, dois: seq<Doi>, i: nat, n: nat,
                                      d: DataObject, after: DataObject)
    requires dois != [] && i < |dos| && FindDo(dos, dois[0].name) == Some(n)
    requires ApplyDais(conv, dos[n], dois[0].dais) == Done(d) && d.name == dos[n].name
    requires ObjectBecame(conv, dos[n := d], dois[1..], i, after)
    ensures ObjectBecame(conv, dos, dois, i, after)
  {
    var mid, name := dos[n := d], dos[i].name;
    SameFindDo(dos, mid, name);
    if i == n {
      ApplySplit(conv, dos[i], dois[0].dais, DaisFor(dois[1..], name));
    } else {
      assert FindDo(dos, name) == Some(i) ==> dois[0].name != name;
      assert [] + DaisFor(dois[1..], name) == DaisFor(dois[1..], name);
    }
  }

  lemma {:induction false} SameFindDo(dos: seq<DataObject>, es: seq<DataObject>, name: string)
    requires |dos| == |es| && forall i :: 0 <= i < |dos| ==> es[i].name == dos[i].name
    ensures FindDo(dos, name) == FindDo(es, name)
  {
  }

  /** A list of DOIs is accepted exactly if each names a data object and all its DAIs can be applied to the
      first one of that name. */
  lemma {:induction false} DoisAccepted(conv: Conversion, dos: seq<DataObject>, dois: seq<Doi>)
    ensures ApplyDois(conv, dos, dois).Done? <==> AllDoiApplicable(conv, dos, dois)
    decreases |dois|
  {
    if dois != [] {
      assert AllDoiApplicable(conv, dos, dois)
        <==> DoiApplicable(conv, dos, dois[0]) && AllDoiApplicable(conv, dos, dois[1..]) by {
        assert forall doi :: doi in dois <==> doi == dois[0] || doi in dois[1..];
      }
      var i := FindDo(dos, dois[0].name);
      if i.Some? {
        DaisAccepted(conv, dos[i.value], dois[0].dais);
        var d := ApplyDais(conv, dos[i.value], dois[0].dais);
        if d.Done? {
          DaisEffect(conv, dos[i.value], dois[0].dais);
          DoisAccepted(conv, dos[i.value := d.value], dois[1..]);
          StayAllDoiApplicable(conv, dos, i.value, d.value, dois[1..]);
        }
      }
    }
  }

  predicate DoiApplicable(conv: Conversion, dos: seq<DataObject>, doi: Doi) {
    var i := FindDo(dos, doi.name);
    i.Some? && AllApplicable(conv, dos[i.value], doi.dais)
  }

  predicate AllDoiApplicable(conv: Conversion, dos: seq<DataObject>, dois: seq<Doi>) {
    forall doi :: doi in dois ==> DoiApplicable(conv, dos, doi)
  }

  lemma {:induction false} StayAllDoiApplicable(conv: Conversion, dos: seq<DataObject>, n: nat, d: DataObject,
                                                dois: seq<Doi>)
    requires n < |dos| && SameButValues(dos[n], d)
    ensures AllDoiApplicable(conv, dos, dois) <==> AllDoiApplicable(conv, dos[n := d], dois)
  {
    forall doi | doi in dois ensures DoiApplicable(conv, dos, doi) <==> DoiApplicable(conv, dos[n := d], doi) {
      SameFindDo(dos, dos[n := d], doi.name);
      StayAllApplicable(conv, dos[n], d, doi.dais);
    }
  }

  ghost predicate SameShapes(dos: seq<DataObject>, es: seq<DataObject>) {
    |es| == |dos| && forall i :: 0 <= i < |dos| ==> SameButValues(dos[i], es[i])
  }

  lemma {:induction false} SameShapesJoin(a: seq<DataObject>, b: seq<DataObject>, c: seq<DataObject>)
    requires SameShapes(a, b) && SameShapes(b, c)
    ensures SameShapes(a, c)
  {
    forall i | 0 <= i < |a| ensures SameButValues(a[i], c[i]) {
      assert SameButValues(a[i], b[i]) && SameButValues(b[i], c[i]);
      forall k | 0 <= k < |a[i].das| ensures SameButValue(a[i].das[k], c[i].das[k]) {
        assert SameButValue(a[i].das[k], b[i].das[k]) && SameButValue(b[i].das[k], c[i].das[k]);
      }
    }
  }

  /** Instance values never change the shape of a logical node. */
  lemma {:induction false} DoisKeepShape(conv: Conversion, dos: seq<DataObject>, dois: seq<Doi>)
    requires ApplyDois(conv, dos, dois).Done?
    ensures SameShapes(dos, ApplyDois(conv, dos, dois).value)
    decreases |dois|
  {
    if dois != [] {
      var i := FindDo(dos, dois[0].name).value;
      DaisEffect(conv, dos[i], dois[0].dais);
      var mid := dos[i := ApplyDais(conv, dos[i], dois[0].dais).value];
      assert SameShapes(dos, mid);
      DoisKeepShape(conv, mid, dois[1..]);
      SameShapesJoin(dos, mid, ApplyDois(conv, mid, dois[1..]).value);
    }
  }

  lemma {:induction false} ValuesKeepClean(d: DataObject, e: DataObject)
    requires SameButValues(d, e) && CleanDas(d.das, PLAIN) && KidsApart(d)
    ensures CleanDas(e.das, PLAIN) && KidsApart(e)
  {
    forall k | 0 <= k < |e.das|
      ensures CleanDa(e.das[k], PLAIN) && Uniform(e.das[k]) && e.das[k].name == d.das[k].name
    {
      assert SameButValue(d.das[k], e.das[k]) && d.das[k] in d.das;
    }
    forall k, l | 0 <= k < l < |e.das| ensures DasApart(e.das[k], e.das[l]) {
      assert SameButValue(d.das[k], e.das[k]) && SameButValue(d.das[l], e.das[l]) && DasApart(d.das[k], d.das[l]);
    }
    forall s, a | s in e.sdos && a in e.das ensures s.name != a.name {
      var k :| 0 <= k < |e.das| && e.das[k] == a;
      assert s in d.sdos && d.das[k] in d.das;
    }
  }

  lemma {:induction false} ShapeKeepsClean(dos: seq<DataObject>, es: seq<DataObject>)
    requires CleanDos(dos, PLAIN) && SameShapes(dos, es)
    ensures CleanDos(es, PLAIN)
  {
    forall i | 0 <= i < |es|
      ensures Over(es[i].name, PLAIN) && CleanDos(es[i].sdos, PLAIN) && CleanDas(es[i].das, PLAIN) && KidsApart(es[i])
      ensures es[i].name == dos[i].name
    {
      assert SameButValues(dos[i], es[i]) && dos[i] in dos;
      ValuesKeepClean(dos[i], es[i]);
    }
    CleanByIndex(es);
  }

  lemma {:induction false} CleanByIndex(es: seq<DataObject>)
    requires forall i :: 0 <= i < |es| ==>
               Over(es[i].name, PLAIN) && CleanDos(es[i].sdos, PLAIN) && CleanDas(es[i].das, PLAIN) && KidsApart(es[i])
    requires forall i, j :: 0 <= i < j < |es| ==> es[i].name != es[j].name
    ensures CleanDos(es, PLAIN)
  {
  }
}
