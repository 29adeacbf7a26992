/** Strings the way the generator and the client build them: decimal numbers, names joined by a
    separator, and the one fact behind every "this text decodes uniquely" result. */
module Text {

  datatype Option<+T> = None | Some(value: T) {
    function GetOr(default: T): T {
      if Some? then value else default
    }
  }

  /** strconv.Itoa / "%d" on a non-negative number. */
  function Itoa(n: nat): (s: string)
    ensures s != ""
    ensures forall c :: c in s ==> '0' <= c <= '9'
  {
    if n < 10 then [('0' as int + n) as char]
    else Itoa(n / 10) + [('0' as int + n % 10) as char]
  }

  lemma {:induction false} ItoaInjective(m: nat, n: nat)
    requires Itoa(m) == Itoa(n)
    ensures m == n
  {
    var s, t := Itoa(m), Itoa(n);
    assert s[|s| - 1] == t[|t| - 1];
    if m >= 10 && n >= 10 {
      assert Itoa(m / 10) == s[..|s| - 1] == t[..|t| - 1] == Itoa(n / 10);
      ItoaInjective(m / 10, n / 10);
    }
  }

  /** The number that a row of digits stands for. */
  function Number(s: string): int {
    if s == "" then 0 else 10 * Number(s[..|s| - 1]) + (s[|s| - 1] as int - '0' as int)
  }

  /** Decimal digits without a leading zero that stand for the number. */
  lemma {:induction false} ItoaReads(n: nat)
    ensures Number(Itoa(n)) == n && (|Itoa(n)| > 1 ==> Itoa(n)[0] != '0')
    ensures n >= 10 <==> |Itoa(n)| > 1
    ensures n >= 100 <==> |Itoa(n)| > 2
  {
    var s := Itoa(n);
    if n >= 10 {
      ItoaReads(n / 10);
      assert s[..|s| - 1] == Itoa(n / 10);
    } else {
      assert s[..0] == "";
    }
  }

  /** "%d" on any integer. */
  function Decimal(n: int): (s: string)
    ensures s != ""
    ensures forall c :: c in s ==> '0' <= c <= '9' || c == '-'
  {
    if n < 0 then "-" + Itoa(-n) else Itoa(n)
  }

  lemma {:induction false} DecimalReads(n: int)
    ensures n >= 0 ==> Number(Decimal(n)) == n
    ensures n < 0 ==> Decimal(n)[0] == '-' && Number(Decimal(n)[1..]) == -n
  {
    ItoaReads(if n < 0 then -n else n);
    assert n < 0 ==> Decimal(n)[1..] == Itoa(-n);
  }

  lemma {:induction false} DecimalInjective(m: int, n: int)
    requires m != n
    ensures Decimal(m) != Decimal(n)
  {
    if m < 0 && n < 0 {
      if Itoa(-m) == Itoa(-n) {
        ItoaInjective(-m, -n);
      }
      assert Decimal(m)[1..] == Itoa(-m) && Decimal(n)[1..] == Itoa(-n);
    } else if m >= 0 && n >= 0 {
      if Itoa(m) == Itoa(n) {
        ItoaInjective(m, n);
      }
    } else {
      var s := Itoa(if m >= 0 then m else n);
      assert s[0] in s;
    }
  }

  predicate Free(s: string, seps: set<char>) {
    forall c :: c in s ==> c !in seps
  }

  predicate EmptyOrStartsIn(s: string, seps: set<char>) {
    s == "" || s[0] in seps
  }

  lemma {:induction false} ShorterWordDiffers(a: string, x: string, b: string, y: string, seps: set<char>)
    requires Free(b, seps) && EmptyOrStartsIn(x, seps) && |a| < |b|
    ensures a + x != b + y
  {
    assert (b + y)[|a|] == b[|a|] && b[|a|] in b;
    if |a + x| > |a| {
      assert (a + x)[|a|] == x[0];
    }
  }

  /** A separator-free word followed by nothing or a separator can be cut off in one way only. */
  lemma {:induction false} UniqueSplit(a: string, x: string, b: string, y: string, seps: set<char>)
    requires Free(a, seps) && Free(b, seps)
    requires EmptyOrStartsIn(x, seps) && EmptyOrStartsIn(y, seps)
    requires a + x == b + y
    ensures a == b && x == y
  {
    if |a| < |b| {
      ShorterWordDiffers(a, x, b, y, seps);
    } else if |b| < |a| {
      ShorterWordDiffers(b, y, a, x, seps);
    }
    assert a == (a + x)[..|a|] == (b + y)[..|a|] == b;
    assert x == (a + x)[|a|..] == (b + y)[|a|..] == y;
  }

  predicate EndsPlain(s: string) {
    s != "" && !('0' <= s[|s| - 1] <= '9')
  }

  lemma {:induction false} ShorterStemDiffers(a: string, d: string, b: string, e: string)
    requires EndsPlain(b) && (forall c :: c in d ==> '0' <= c <= '9') && |a| < |b|
    ensures a + d != b + e
  {
    if |a + d| >= |b| {
      assert (a + d)[|b| - 1] == d[|b| - 1 - |a|] && d[|b| - 1 - |a|] in d;
      assert (b + e)[|b| - 1] == b[|b| - 1];
    }
  }

  predicate HasPrefix(s: string, prefix: string) {
    |prefix| <= |s| && s[..|prefix|] == prefix
  }

  /** A path of names, each preceded by '_'. */
  function Join(path: seq<string>): (s: string)
    ensures path == [] <==> s == ""
    ensures s != "" ==> s[0] == '_'
  {
    if path == [] then "" else "_" + path[0] + Join(path[1..])
  }

  lemma {:induction false} JoinAppend(path: seq<string>, name: string)
    ensures Join(path + [name]) == Join(path) + "_" + name
  {
    if path == [] {
      assert path + [name] == [name];
      assert [name][1..] == [];
    } else {
      assert (path + [name])[1..] == path[1..] + [name];
      JoinAppend(path[1..], name);
      calc {
        Join(path + [name]);
        "_" + path[0] + Join(path[1..] + [name]);
        "_" + path[0] + (Join(path[1..]) + "_" + name);
        Join(path) + "_" + name;
      }
    }
  }

  predicate Plain(path: seq<string>) {
    forall name :: name in path ==> Free(name, {'_'})
  }

  lemma {:induction false} JoinInjective(p: seq<string>, q: seq<string>)
    requires Plain(p) && Plain(q)
    requires Join(p) == Join(q)
    ensures p == q
  {
    if p != [] {
      var x, y := Join(p[1..]), Join(q[1..]);
      assert Join(p)[1..] == p[0] + x;
      assert Join(q)[1..] == q[0] + y;
      UniqueSplit(p[0], x, q[0], y, {'_'});
      JoinInjective(p[1..], q[1..]);
      assert p == [p[0]] + p[1..];
      assert q == [q[0]] + q[1..];
    }
  }

  // ----- a chain of appends, taken apart behind its first part

  lemma {:induction false} Assoc<T>(a: seq<T>, b: seq<T>, c: seq<T>)
    ensures a + b + c == a + (b + c)
  {
  }

  lemma {:induction false} Assoc4<T>(a: seq<T>, b: seq<T>, c: seq<T>, d: seq<T>)
    ensures a + b + c + d == a + (b + c + d)
  {
  }

  lemma {:induction false} Assoc5<T>(a: seq<T>, b: seq<T>, c: seq<T>, d: seq<T>, e: seq<T>)
    ensures a + b + c + d + e == a + (b + c + d + e)
  {
  }

  // ----- lists without repetition

  ghost predicate Distinct<T>(s: seq<T>) {
    forall i, j :: 0 <= i < j < |s| ==> s[i] != s[j]
  }

  lemma {:induction false} DistinctJoin<T>(a: seq<T>, b: seq<T>)
    ensures Distinct(a + b) <==> Distinct(a) && Distinct(b) && forall x, y :: x in a && y in b ==> x != y
  {
    if Distinct(a + b) {
      forall i, j | 0 <= i < j < |a| ensures a[i] != a[j] {
        assert (a + b)[i] != (a + b)[j];
      }
      forall i, j | 0 <= i < j < |b| ensures b[i] != b[j] {
        assert (a + b)[|a| + i] != (a + b)[|a| + j];
      }
      forall x, y | x in a && y in b ensures x != y {
        var i :| 0 <= i < |a| && a[i] == x;
        var j :| 0 <= j < |b| && b[j] == y;
        assert (a + b)[i] != (a + b)[|a| + j];
      }
    } else if Distinct(a) && Distinct(b) {
      var i, j :| 0 <= i < j < |a + b| && (a + b)[i] == (a + b)[j];
      assert i < |a| <= j;
      assert a[i] in a && b[j - |a|] in b;
    }
  }
}
