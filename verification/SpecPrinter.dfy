/** The printed form of a variable specification, and its unambiguity. */
module SpecPrinter {
  import opened Text
  import opened MmsSpec

  /** Name of a type tag; tags outside the table are printed with their number. */
  function TypeWord(typ: int): string {
    if typ == 0 then "Array" else if typ == 1 then "Structure" else if typ == 2 then "Boolean"
    else if typ == 3 then "BitString" else if typ == 4 then "Integer" else if typ == 5 then "Unsigned"
    else if typ == 6 then "Float" else if typ == 7 then "OctetString" else if typ == 8 then "VisibleString"
    else if typ == 9 then "GeneralizedTime" else if typ == 10 then "BinaryTime" else if typ == 11 then "Bcd"
    else if typ == 12 then "ObjId" else if typ == 13 then "String" else if typ == 14 then "UTCTime"
    else if typ == 15 then "DataAccessError" else if typ == 16 then "Int8" else if typ == 17 then "Int16"
    else if typ == 18 then "Int32" else if typ == 19 then "Int64" else if typ == 20 then "Uint8"
    else if typ == 21 then "Uint16" else if typ == 22 then "Uint32" else "MmsType"
  }

  predicate Known(typ: int) {
    0 <= typ <= 22
  }

  function Sized(size: int, suffix: string): string {
    if size != 0 then "(" + Decimal(size) + suffix else ""
  }

  function FloatSize(format: int, exponent: int): string {
    if format != 0 && exponent != 0 then "(fmt=" + Decimal(format) + ", exp=" + Decimal(exponent) + ")"
    else if format != 0 then "(fmt=" + Decimal(format) + ")"
    else if exponent != 0 then "(exp=" + Decimal(exponent) + ")"
    else ""
  }

  function ScalarTail(s: Spec): string {
    if s.typ == INTEGER then Sized(s.integerBits, "bit)")
    else if s.typ == UNSIGNED then Sized(s.unsignedBits, "bit)")
    else if s.typ == FLOAT then FloatSize(s.floatFormatWidth, s.floatExponentWidth)
    else if s.typ == BIT_STRING then Sized(s.bitStringSize, "bit)")
    else if s.typ == OCTET_STRING then Sized(s.octetStringSize, ")")
    else if s.typ == VISIBLE_STRING then Sized(s.visibleStringSize, ")")
    else if s.typ == STRING then Sized(s.mmsStringSize, ")")
    else if s.typ == BINARY_TIME then Sized(s.binaryTimeSize, ")")
    else if Known(s.typ) then ""
    else "(" + Decimal(s.typ) + ")"
  }

  /** What follows the type word. */
  function Tail(s: Spec): string
    decreases s, 0
  {
    if s.typ == ARRAY then
      if s.arraySpec.None? || s.arraySpec.value.element.None? then "[?]"
      else "[" + Decimal(s.arraySpec.value.elementCount) + "] of " + Printed(s.arraySpec.value.element.value)
    else if s.typ == STRUCTURE then
      "{" + (if s.structureSpec.Some? then Fields(s.structureSpec.value.elements) else "") + "}"
    else ScalarTail(s)
  }

  function Printed(s: Spec): string
    decreases s, 1
  {
    TypeWord(s.typ) + Tail(s)
  }

  function Field(s: Spec): string
    decreases s, 2
  {
    (if s.name != "" then s.name + ": " else "") + Printed(s)
  }

  function Fields(els: seq<Spec>): string
    decreases els
  {
    if els == [] then ""
    else Field(els[0]) + (if |els| > 1 then ", " + Fields(els[1..]) else "")
  }

  // ----- the texts of single types, spelled out

  const NUMBERED: seq<string> := [
    "Array", "Structure", "Boolean", "BitString", "Integer", "Unsigned", "Float", "OctetString", "VisibleString",
    "GeneralizedTime", "BinaryTime", "Bcd", "ObjId", "String", "UTCTime", "DataAccessError", "Int8", "Int16",
    "Int32", "Int64", "Uint8", "Uint16", "Uint32"]

  /** Types without sizes are printed by name, and unknown tags with their number. */
  lemma {:induction false} NameTexts(s: Spec)
    ensures s.typ in {2, 9, 11, 12} || 14 <= s.typ <= 22 ==> Printed(s) == NUMBERED[s.typ]
    ensures s.typ < 0 || s.typ > 22 ==> Printed(s) == "MmsType(" + Decimal(s.typ) + ")"
  {
    assert s.typ in {2, 9, 11, 12} || 14 <= s.typ <= 22 ==> Printed(s) == TypeWord(s.typ);
    assert s.typ < 0 || s.typ > 22 ==> Printed(s) == "MmsType" + ("(" + Decimal(s.typ) + ")");
  }

  function WithSize(word: string, size: int, unit: string): string {
    if size == 0 then word else word + "(" + Decimal(size) + unit + ")"
  }

  lemma {:induction false} WithSizeIs(word: string, size: int, unit: string)
    requires unit == "bit" || unit == ""
    ensures WithSize(word, size, unit) == word + Sized(size, unit + ")")
  {
    assert unit + ")" == if unit == "bit" then "bit)" else ")";
    if size == 0 {
      assert word + "" == word;
    } else {
      Assoc5(word, "(", Decimal(size), unit, ")");
      Assoc4("(", Decimal(size), unit, ")");
      Assoc(Decimal(size), unit, ")");
    }
  }

  /** Types with a size are printed with it unless it is zero, some of them in bits. */
  lemma {:induction false} BitTexts(s: Spec)
    ensures s.typ == 4 ==> Printed(s) == WithSize("Integer", s.integerBits, "bit")
    ensures s.typ == 5 ==> Printed(s) == WithSize("Unsigned", s.unsignedBits, "bit")
    ensures s.typ == 3 ==> Printed(s) == WithSize("BitString", s.bitStringSize, "bit")
  {
    WithSizeIs("Integer", s.integerBits, "bit");
    WithSizeIs("Unsigned", s.unsignedBits, "bit");
    WithSizeIs("BitString", s.bitStringSize, "bit");
    assert "bit" + ")" == "bit)";
  }

  lemma {:induction false} ByteTexts(s: Spec)
    ensures s.typ == 7 ==> Printed(s) == WithSize("OctetString", s.octetStringSize, "")
    ensures s.typ == 8 ==> Printed(s) == WithSize("VisibleString", s.visibleStringSize, "")
    ensures s.typ == 13 ==> Printed(s) == WithSize("String", s.mmsStringSize, "")
    ensures s.typ == 10 ==> Printed(s) == WithSize("BinaryTime", s.binaryTimeSize, "")
  {
    WithSizeIs("OctetString", s.octetStringSize, "");
    WithSizeIs("VisibleString", s.visibleStringSize, "");
    WithSizeIs("String", s.mmsStringSize, "");
    WithSizeIs("BinaryTime", s.binaryTimeSize, "");
    assert "" + ")" == ")";
  }

  /** Floats show the sizes that are not zero. */
  lemma {:induction false} FloatTexts(s: Spec)
    requires s.typ == 6
    ensures var f, e := Decimal(s.floatFormatWidth), Decimal(s.floatExponentWidth);
            Printed(s)
            == if s.floatFormatWidth == 0 && s.floatExponentWidth == 0 then "Float"
               else if s.floatExponentWidth == 0 then "Float(fmt=" + f + ")"
               else if s.floatFormatWidth == 0 then "Float(exp=" + e + ")"
               else "Float(fmt=" + f + ", exp=" + e + ")"
  {
    var f, e := Decimal(s.floatFormatWidth), Decimal(s.floatExponentWidth);
    assert Printed(s) == "Float" + FloatSize(s.floatFormatWidth, s.floatExponentWidth);
    FloatTogether(f, e);
  }

  lemma {:induction false} FloatTogether(f: string, e: string)
    ensures "Float" + ("(fmt=" + f + ", exp=" + e + ")") == "Float(fmt=" + f + ", exp=" + e + ")"
    ensures "Float" + ("(fmt=" + f + ")") == "Float(fmt=" + f + ")"
    ensures "Float" + ("(exp=" + e + ")") == "Float(exp=" + e + ")"
    ensures "Float" + "" == "Float"
  {
    assert "Float" + "(fmt=" == "Float(fmt=" && "Float" + "(exp=" == "Float(exp=";
    Assoc4("Float", "(fmt=", f, ")");
    Assoc4("Float", "(exp=", e, ")");
    Assoc5("Float", "(fmt=", f, ", exp=", e);
    Assoc("Float", "(fmt=" + f + ", exp=" + e, ")");
  }

  /** Arrays show their length and their element, structures their fields in order. */
  lemma {:induction false} ComposedTexts(s: Spec)
    ensures s.typ == 0 ==>
              Printed(s) == if s.arraySpec.None? || s.arraySpec.value.element.None? then "Array[?]"
                            else "Array[" + Decimal(s.arraySpec.value.elementCount) + "] of "
                                 + Printed(s.arraySpec.value.element.value)
    ensures s.typ == 1 ==>
              var els := if s.structureSpec.Some? then s.structureSpec.value.elements else [];
              Printed(s) == "Structure{" + Joined(els) + "}"
  {
    if s.typ == 0 && s.arraySpec.Some? && s.arraySpec.value.element.Some? {
      ArrayText(s);
    }
    if s.typ == 1 {
      StructureText(s);
      FieldsJoined(Elements(s));
    }
  }

  /** The fields' texts, each behind its name if it has one, with commas between them. */
  function Joined(els: seq<Spec>): string
    decreases els, 3
  {
    if els == [] then ""
    else
      var n := |els| - 1;
      Joined(els[..n]) + (if n > 0 then ", " else "")
      + (if els[n].name == "" then "" else els[n].name + ": ") + Printed(els[n])
  }

  lemma {:induction false} FieldsJoined(els: seq<Spec>)
    ensures Joined(els) == Fields(els)
  {
    if els != [] {
      var n := |els| - 1;
      FieldsJoined(els[..n]);
      FieldsLast(els);
      var named := if els[n].name == "" then "" else els[n].name + ": ";
      Assoc(Fields(els[..n]) + (if n > 0 then ", " else ""), named, Printed(els[n]));
    }
  }

  lemma {:induction false} FieldsLast(els: seq<Spec>)
    requires els != []
    ensures var n := |els| - 1; Fields(els) == Fields(els[..n]) + (if n > 0 then ", " else "") + Field(els[n])
  {
    var n := |els| - 1;
    if n == 0 {
      assert els[..0] == [] && Fields(els[..0]) == "";
    } else {
      FieldsLast(els[1..]);
      assert els[..n][1..] == els[1..][..n - 1] && els[..n][0] == els[0] && els[1..][n - 1] == els[n];
      MoveComma(Field(els[0]), Fields(els[1..][..n - 1]), Field(els[n]), n > 1);
    }
  }

  lemma {:induction false} MoveComma(first: string, rest: string, last: string, more: bool)
    requires more || rest == ""
    ensures first + (", " + (rest + (if more then ", " else "") + last))
         == first + (if more then ", " + rest else "") + ", " + last
  {
    if more {
      Assoc4(", ", rest, ", ", last);
      Assoc(first, ", " + rest, ", " + last);
    } else {
      assert rest + "" + last == last && first + "" == first;
    }
  }

  class Builder {
    var text: string

    constructor ()
      ensures text == ""
    {
      text := "";
    }

    method WriteString(s: string)
      modifies this
      ensures text == old(text) + s
    {
      text := text + s;
    }
  }

  method WriteVarSpec(b: Builder, s: Spec)
    modifies b
    ensures b.text == old(b.text) + Printed(s)
    decreases s, 0
  {
    if s.typ == ARRAY {
      if s.arraySpec.None? || s.arraySpec.value.element.None? {
        b.WriteString("Array[?]");
        return;
      }
      var head := "Array[" + Decimal(s.arraySpec.value.elementCount) + "] of ";
      var element := s.arraySpec.value.element.value;
      ArrayText(s);
      b.WriteString(head);
      WriteVarSpec(b, element);
      Assoc(old(b.text), head, Printed(element));
    } else if s.typ == STRUCTURE {
      ghost var els := Elements(s);
      StructureText(s);
      b.WriteString("Structure{");
      if s.structureSpec.Some? {
        WriteFields(b, s.structureSpec.value.elements);
      }
      b.WriteString("}");
      Assoc(old(b.text), "Structure{", Fields(els));
      Assoc(old(b.text), "Structure{" + Fields(els), "}");
    } else {
      b.WriteString(TypeWord(s.typ));
      b.WriteString(ScalarTail(s));
      Assoc(old(b.text), TypeWord(s.typ), ScalarTail(s));
    }
  }

  lemma {:induction false} ArrayText(s: Spec)
    requires s.typ == ARRAY && s.arraySpec.Some? && s.arraySpec.value.element.Some?
    ensures var a := s.arraySpec.value;
            Printed(s) == "Array[" + Decimal(a.elementCount) + "] of " + Printed(a.element.value)
  {
  }

  function Elements(s: Spec): (els: seq<Spec>)
    ensures s.structureSpec.Some? ==> els == s.structureSpec.value.elements
  {
    if s.structureSpec.Some? then s.structureSpec.value.elements else []
  }

  lemma {:induction false} StructureText(s: Spec)
    requires s.typ == STRUCTURE
    ensures Printed(s) == "Structure{" + Fields(Elements(s)) + "}"
  {
  }

  method WriteFields(b: Builder, els: seq<Spec>)
    modifies b
    ensures b.text == old(b.text) + Fields(els)
    decreases els, 1
  {
    ghost var target := old(b.text) + Fields(els);
    for i := 0 to |els|
      invariant b.text + Remaining(els, i) == target
    {
      ghost var before := b.text;
      WriteField(b, els, i);
      RemainingStep(els, i);
      Assoc(before, Chunk(els, i), Remaining(els, i + 1));
    }
  }

  method WriteField(b: Builder, els: seq<Spec>, i: nat)
    requires i < |els|
    modifies b
    ensures b.text == old(b.text) + Chunk(els, i)
    decreases els, 0
  {
    ghost var comma := if i > 0 then ", " else "";
    ghost var tag := if els[i].name != "" then els[i].name + ": " else "";
    if i > 0 {
      b.WriteString(", ");
    }
    assert b.text == old(b.text) + comma;
    if els[i].name != "" {
      b.WriteString(els[i].name + ": ");
    }
    assert b.text == old(b.text) + comma + tag;
    WriteVarSpec(b, els[i]);
    ChunkText(els, i, old(b.text));
  }

  lemma {:induction false} ChunkText(els: seq<Spec>, i: nat, before: string)
    requires i < |els|
    ensures var comma := if i > 0 then ", " else "";
            var tag := if els[i].name != "" then els[i].name + ": " else "";
            before + Chunk(els, i) == before + comma + tag + Printed(els[i])
  {
    var comma := if i > 0 then ", " else "";
    var tag := if els[i].name != "" then els[i].name + ": " else "";
    Assoc(comma, tag, Printed(els[i]));
    Assoc(before + comma, tag, Printed(els[i]));
    Assoc(before, comma, tag + Printed(els[i]));
    assert Field(els[i]) == tag + Printed(els[i]);
  }

  /** The i-th field with its separator. */
  function Chunk(els: seq<Spec>, i: nat): string
    requires i < |els|
  {
    (if i > 0 then ", " else "") + Field(els[i])
  }

  /** What is still to be written when i fields have been. */
  function Remaining(els: seq<Spec>, i: nat): string
    requires i <= |els|
  {
    (if 0 < i < |els| then ", " else "") + Fields(els[i..])
  }

  lemma {:induction false} RemainingStep(els: seq<Spec>, i: nat)
    requires i < |els|
    ensures Remaining(els, i) == Chunk(els, i) + Remaining(els, i + 1)
  {
    assert els[i..][0] == els[i] && els[i..][1..] == els[i + 1..];
    var comma := if i > 0 then ", " else "";
    var rest := if i + 1 < |els| then ", " + Fields(els[i + 1..]) else "";
    assert Remaining(els, i + 1) == rest;
    assert Fields(els[i..]) == Field(els[i]) + rest;
    assert comma + (Field(els[i]) + rest) == comma + Field(els[i]) + rest;
  }

  // ----- what a text determines

  datatype Shape =
    | ArrayOf(count: int, element: Shape)
    | ArrayUnknown
    | StructureOf(fields: seq<NamedShape>)
    | Scalar(typ: int, size: int)
    | FloatOf(format: int, exponent: int)

  datatype NamedShape = NamedShape(name: string, shape: Shape)

  function SizeOf(s: Spec): int {
    if s.typ == INTEGER then s.integerBits
    else if s.typ == UNSIGNED then s.unsignedBits
    else if s.typ == BIT_STRING then s.bitStringSize
    else if s.typ == OCTET_STRING then s.octetStringSize
    else if s.typ == VISIBLE_STRING then s.visibleStringSize
    else if s.typ == STRING then s.mmsStringSize
    else if s.typ == BINARY_TIME then s.binaryTimeSize
    else 0
  }

  /** A specification up to what the printer omits: its own name, the name of an array element, an
      absent against an empty structure, and fields that do not belong to its type. */
  function ShapeOf(s: Spec): Shape
    decreases s, 0
  {
    if s.typ == ARRAY then
      if s.arraySpec.None? || s.arraySpec.value.element.None? then ArrayUnknown
      else ArrayOf(s.arraySpec.value.elementCount, ShapeOf(s.arraySpec.value.element.value))
    else if s.typ == STRUCTURE then
      StructureOf(if s.structureSpec.Some? then Shapes(s.structureSpec.value.elements) else [])
    else if s.typ == FLOAT then FloatOf(s.floatFormatWidth, s.floatExponentWidth)
    else Scalar(s.typ, SizeOf(s))
  }

  function Shapes(els: seq<Spec>): seq<NamedShape>
    decreases els, 0
  {
    if els == [] then [] else [NamedShape(els[0].name, ShapeOf(els[0]))] + Shapes(els[1..])
  }

  /** Characters that end a word. */
  const SEPS: set<char> := {'(', '[', '{', ',', '}', ':'}

  /** A name without opening brace that does not hold both comma and space. */
  predicate PlainName(n: string) {
    '{' !in n && (',' !in n || ' ' !in n)
  }

  /** Element names are plain, at every level. */
  predicate PlainNames(s: Spec) {
    && (s.arraySpec.Some? && s.arraySpec.value.element.Some? ==> PlainNames(s.arraySpec.value.element.value))
    && (s.structureSpec.Some? ==> PlainFields(s.structureSpec.value.elements))
  }

  predicate PlainFields(els: seq<Spec>) {
    forall el :: el in els ==> PlainName(el.name) && PlainNames(el)
  }

  /** Read from the left, the text ends, opens a structure or goes on to a next field before a colon,
      or a comma without a space behind it, comes. */
  predicate Shut(s: string) {
    s == "" || s[0] == '{' || (s[0] == ',' && |s| > 1 && s[1] == ' ') || (s[0] !in COLON_COMMA && Shut(s[1..]))
  }

  const COLON_COMMA: set<char> := {':', ','}

  /** What may follow a specification: nothing, the next field, or the end of the structure. */
  predicate Follow(x: string) {
    EmptyOrStartsIn(x, {',', '}'}) && Shut(x)
  }

  lemma {:induction false} WordFree(typ: int)
    ensures TypeWord(typ) != "" && Free(TypeWord(typ), SEPS)
  {
    Words0();
    Words1();
    Words2();
    Words3();
    Words4();
    Words5();
    Words6();
    Words7();
    Words8();
    Words9();
  }

  lemma {:induction false} Words0()
    ensures Free("Array", SEPS) && Free("Structure", SEPS) && Free("Boolean", SEPS)
  {
  }

  lemma {:induction false} Words1()
    ensures Free("BitString", SEPS) && Free("Integer", SEPS) && Free("Unsigned", SEPS)
  {
  }

  lemma {:induction false} Words2()
    ensures Free("Float", SEPS) && Free("OctetString", SEPS)
  {
  }

  lemma {:induction false} Words3()
    ensures Free("VisibleString", SEPS)
  {
  }

  lemma {:induction false} Words4()
    ensures Free("GeneralizedTime", SEPS)
  {
  }

  lemma {:induction false} Words5()
    ensures Free("BinaryTime", SEPS) && Free("Bcd", SEPS) && Free("ObjId", SEPS)
  {
  }

  lemma {:induction false} Words6()
    ensures Free("String", SEPS) && Free("UTCTime", SEPS) && Free("MmsType", SEPS)
  {
  }

  lemma {:induction false} Words7()
    ensures Free("DataAccessError", SEPS)
  {
  }

  lemma {:induction false} Words8()
    ensures Free("Int8", SEPS) && Free("Int16", SEPS) && Free("Int32", SEPS) && Free("Int64", SEPS)
  {
  }

  lemma {:induction false} Words9()
    ensures Free("Uint8", SEPS) && Free("Uint16", SEPS) && Free("Uint32", SEPS)
  {
  }

  /** The type tag, recovered from the length, first and last character of its word. */
  function TypeOf(len: nat, first: char, last: char): int {
    if len == 5 && first == 'A' then 0 else if len == 9 && first == 'S' then 1
    else if len == 7 && first == 'B' then 2 else if len == 9 && first == 'B' then 3
    else if len == 7 && first == 'I' then 4 else if len == 8 then 5
    else if len == 5 && first == 'F' then 6 else if len == 11 then 7 else if len == 13 then 8
    else if len == 15 && first == 'G' then 9 else if len == 10 then 10 else if len == 3 then 11
    else if len == 5 && first == 'O' then 12 else if len == 6 && first == 'S' then 13
    else if len == 7 && first == 'U' then 14 else if len == 15 && first == 'D' then 15
    else if len == 4 then 16 else if len == 5 && first == 'I' && last == '6' then 17
    else if len == 5 && first == 'I' && last == '2' then 18 else if len == 5 && first == 'I' && last == '4' then 19
    else if len == 5 && first == 'U' then 20 else if len == 6 && last == '6' then 21
    else if len == 6 && last == '2' then 22 else -1
  }

  lemma {:induction false} TypeOfWord(typ: int)
    ensures var w := TypeWord(typ);
            w != "" && TypeOf(|w|, w[0], w[|w| - 1]) == if Known(typ) then typ else -1
  {
  }

  lemma {:induction false} WordTells(a: int, b: int)
    requires TypeWord(a) == TypeWord(b)
    ensures a == b || (!Known(a) && !Known(b))
  {
    TypeOfWord(a);
    TypeOfWord(b);
  }

  // ----- numbers

  lemma {:induction false} NumberEnds(m: int, x: string, n: int, y: string, seps: set<char>)
    requires forall c :: c in seps ==> !('0' <= c <= '9') && c != '-'
    requires EmptyOrStartsIn(x, seps) && EmptyOrStartsIn(y, seps)
    requires Decimal(m) + x == Decimal(n) + y
    ensures m == n && x == y
  {
    UniqueSplit(Decimal(m), x, Decimal(n), y, seps);
    if m != n {
      DecimalInjective(m, n);
    }
  }

  lemma {:induction false} Drop(p: string, a: string, b: string)
    requires p + a == p + b
    ensures a == b
  {
    assert a == (p + a)[|p|..] && b == (p + b)[|p|..];
  }

  lemma {:induction false} SizedTells(m: int, n: int, suffix: string, x: string, y: string)
    requires suffix == "bit)" || suffix == ")"
    requires Follow(x) && Follow(y) && Sized(m, suffix) + x == Sized(n, suffix) + y
    ensures m == n && x == y
  {
    SizedStarts(m, suffix, x);
    SizedStarts(n, suffix, y);
    if m != 0 && n != 0 {
      SizedParts(m, suffix, x);
      SizedParts(n, suffix, y);
      Drop("(", Decimal(m) + (suffix + x), Decimal(n) + (suffix + y));
      NumberEnds(m, suffix + x, n, suffix + y, {'b', ')'});
      Drop(suffix, x, y);
    }
  }

  lemma {:induction false} SizedParts(m: int, suffix: string, x: string)
    requires m != 0
    ensures Sized(m, suffix) + x == "(" + (Decimal(m) + (suffix + x))
  {
  }

  lemma {:induction false} SizedStarts(m: int, suffix: string, x: string)
    requires Follow(x)
    ensures m == 0 ==> Sized(m, suffix) + x == x
    ensures m != 0 <==> Sized(m, suffix) + x != "" && (Sized(m, suffix) + x)[0] == '('
  {
  }

  function FloatRest(f: int, e: int, x: string): string {
    if f != 0 && e != 0 then "(fmt=" + (Decimal(f) + (", exp=" + (Decimal(e) + (")" + x))))
    else if f != 0 then "(fmt=" + (Decimal(f) + (")" + x))
    else if e != 0 then "(exp=" + (Decimal(e) + (")" + x))
    else x
  }

  lemma {:induction false} FloatParts(f: int, e: int, x: string)
    ensures FloatSize(f, e) + x == FloatRest(f, e, x)
  {
  }

  lemma {:induction false} FloatTells(f: int, e: int, g: int, h: int, x: string, y: string)
    requires Follow(x) && Follow(y) && FloatSize(f, e) + x == FloatSize(g, h) + y
    ensures f == g && e == h && x == y
  {
    FloatParts(f, e, x);
    FloatParts(g, h, y);
    FloatKinds(f, e, g, h, x, y);
    if f != 0 {
      var p := if e != 0 then ", exp=" + (Decimal(e) + (")" + x)) else ")" + x;
      var q := if h != 0 then ", exp=" + (Decimal(h) + (")" + y)) else ")" + y;
      Drop("(fmt=", Decimal(f) + p, Decimal(g) + q);
      NumberEnds(f, p, g, q, {',', ')'});
      CommaOrClose(e, h, x, y);
    } else if e != 0 {
      Drop("(exp=", Decimal(e) + (")" + x), Decimal(h) + (")" + y));
      NumberEnds(e, ")" + x, h, ")" + y, {')'});
      Drop(")", x, y);
    }
  }

  /** The opening of a float's sizes tells whether a format width is printed, and whether anything is. */
  lemma {:induction false} FloatKinds(f: int, e: int, g: int, h: int, x: string, y: string)
    requires Follow(x) && Follow(y) && FloatRest(f, e, x) == FloatRest(g, h, y)
    ensures f != 0 <==> g != 0
    ensures f == 0 ==> (e != 0 <==> h != 0)
  {
    FloatOpening(f, e, x);
    FloatOpening(g, h, y);
  }

  lemma {:induction false} FloatOpening(f: int, e: int, x: string)
    requires Follow(x)
    ensures var r := FloatRest(f, e, x);
            && (f != 0 || e != 0 <==> r != "" && r[0] == '(')
            && (f != 0 ==> |r| > 1 && r[1] == 'f')
            && (f == 0 && e != 0 ==> |r| > 1 && r[1] == 'e')
  {
  }

  lemma {:induction false} CommaOrClose(e: int, h: int, x: string, y: string)
    requires (if e != 0 then ", exp=" + (Decimal(e) + (")" + x)) else ")" + x)
          == (if h != 0 then ", exp=" + (Decimal(h) + (")" + y)) else ")" + y)
    ensures e == h && x == y
  {
    var p := if e != 0 then ", exp=" + (Decimal(e) + (")" + x)) else ")" + x;
    var q := if h != 0 then ", exp=" + (Decimal(h) + (")" + y)) else ")" + y;
    assert p[0] == (if e != 0 then ',' else ')') && q[0] == (if h != 0 then ',' else ')');
    if e != 0 {
      Drop(", exp=", Decimal(e) + (")" + x), Decimal(h) + (")" + y));
      NumberEnds(e, ")" + x, h, ")" + y, {')'});
    }
    Drop(")", x, y);
  }

  // ----- the main result

  /** A type's tail, with whatever may follow, is empty or opens a bracket or ends a field. */
  lemma {:induction false} TailStarts(s: Spec, x: string)
    requires Follow(x)
    ensures EmptyOrStartsIn(Tail(s) + x, {'(', '[', '{', ',', '}'})
  {
    if s.typ == ARRAY || s.typ == STRUCTURE {
      assert Tail(s) != "";
    } else {
      assert Tail(s) == "" || Tail(s)[0] == '(';
      assert Tail(s) == "" ==> Tail(s) + x == x;
    }
  }

  /** Printing is unambiguous: equal texts, followed by anything that can follow a specification,
      come from specifications of one shape. */
  lemma {:induction false} Unambiguous(s: Spec, t: Spec, x: string, y: string)
    requires PlainNames(s) && PlainNames(t) && Follow(x) && Follow(y)
    requires Printed(s) + x == Printed(t) + y
    ensures ShapeOf(s) == ShapeOf(t) && x == y
    decreases s, 2
  {
    WordFree(s.typ);
    WordFree(t.typ);
    TailStarts(s, x);
    TailStarts(t, y);
    Assoc(TypeWord(s.typ), Tail(s), x);
    Assoc(TypeWord(t.typ), Tail(t), y);
    UniqueSplit(TypeWord(s.typ), Tail(s) + x, TypeWord(t.typ), Tail(t) + y, SEPS);
    WordTells(s.typ, t.typ);
    if s.typ == t.typ {
      TailTells(s, t, x, y);
    } else {
      UnknownTells(s, t, x, y);
    }
  }

  lemma {:induction false} UnknownTells(s: Spec, t: Spec, x: string, y: string)
    requires !Known(s.typ) && !Known(t.typ) && Tail(s) + x == Tail(t) + y
    ensures s.typ == t.typ && x == y
  {
    assert Tail(s) + x == "(" + (Decimal(s.typ) + (")" + x));
    assert Tail(t) + y == "(" + (Decimal(t.typ) + (")" + y));
    Drop("(", Decimal(s.typ) + (")" + x), Decimal(t.typ) + (")" + y));
    NumberEnds(s.typ, ")" + x, t.typ, ")" + y, {')'});
    Drop(")", x, y);
  }

  lemma {:induction false} TailTells(s: Spec, t: Spec, x: string, y: string)
    requires PlainNames(s) && PlainNames(t) && Follow(x) && Follow(y)
    requires s.typ == t.typ && Tail(s) + x == Tail(t) + y
    ensures ShapeOf(s) == ShapeOf(t) && x == y
    decreases s, 1
  {
    if s.typ == ARRAY {
      ArrayTells(s, t, x, y);
    } else if s.typ == STRUCTURE {
      StructureTail(s, x);
      StructureTail(t, y);
      Drop("{", Fields(Elements(s)) + ("}" + x), Fields(Elements(t)) + ("}" + y));
      if Elements(s) == [] {
        NoFields(Elements(t), x, y);
      } else {
        FieldsTell(Elements(s), Elements(t), x, y);
      }
    } else {
      ScalarTells(s, t, x, y);
    }
  }

  lemma {:induction false} StructureTail(s: Spec, x: string)
    requires s.typ == STRUCTURE
    ensures Tail(s) + x == "{" + (Fields(Elements(s)) + ("}" + x))
  {
  }

  lemma {:induction false} ScalarTells(s: Spec, t: Spec, x: string, y: string)
    requires s.typ == t.typ && s.typ != ARRAY && s.typ != STRUCTURE && Follow(x) && Follow(y)
    requires Tail(s) + x == Tail(t) + y
    ensures ShapeOf(s) == ShapeOf(t) && x == y
  {
    if s.typ == FLOAT {
      FloatTells(s.floatFormatWidth, s.floatExponentWidth, t.floatFormatWidth, t.floatExponentWidth, x, y);
    } else if !Known(s.typ) {
      UnknownTells(s, t, x, y);
    } else if s.typ in {INTEGER, UNSIGNED, BIT_STRING} {
      SizedTells(SizeOf(s), SizeOf(t), "bit)", x, y);
    } else if s.typ in {OCTET_STRING, VISIBLE_STRING, STRING, BINARY_TIME} {
      SizedTells(SizeOf(s), SizeOf(t), ")", x, y);
    } else {
      assert Tail(s) + x == x && Tail(t) + y == y;
    }
  }

  predicate HasElement(s: Spec) {
    s.arraySpec.Some? && s.arraySpec.value.element.Some?
  }

  lemma {:induction false} ElementTail(s: Spec, x: string)
    requires s.typ == ARRAY && HasElement(s)
    ensures Tail(s) + x == "[" + (Decimal(s.arraySpec.value.elementCount)
                                  + ("] of " + (Printed(s.arraySpec.value.element.value) + x)))
  {
    var d, p := Decimal(s.arraySpec.value.elementCount), Printed(s.arraySpec.value.element.value);
    assert Tail(s) == "[" + d + "] of " + p;
    Assoc5("[", d, "] of ", p, x);
    Assoc4(d, "] of ", p, x);
    Assoc("] of ", p, x);
  }

  lemma {:induction false} ArrayTail(s: Spec, x: string)
    requires s.typ == ARRAY
    ensures |Tail(s) + x| > 1 && (HasElement(s) <==> (Tail(s) + x)[1] != '?')
    ensures !HasElement(s) ==> Tail(s) + x == "[?]" + x
  {
    if HasElement(s) {
      ElementTail(s, x);
      var d := Decimal(s.arraySpec.value.elementCount);
      assert (Tail(s) + x)[1] == d[0] && d[0] in d;
    }
  }

  lemma {:induction false} ArrayTells(s: Spec, t: Spec, x: string, y: string)
    requires PlainNames(s) && PlainNames(t) && Follow(x) && Follow(y)
    requires s.typ == ARRAY && t.typ == ARRAY && Tail(s) + x == Tail(t) + y
    ensures ShapeOf(s) == ShapeOf(t) && x == y
    decreases s, 0
  {
    ArrayTail(s, x);
    ArrayTail(t, y);
    if HasElement(s) {
      var m, n := s.arraySpec.value.elementCount, t.arraySpec.value.elementCount;
      var e, f := s.arraySpec.value.element.value, t.arraySpec.value.element.value;
      ElementTail(s, x);
      ElementTail(t, y);
      Drop("[", Decimal(m) + ("] of " + (Printed(e) + x)), Decimal(n) + ("] of " + (Printed(f) + y)));
      NumberEnds(m, "] of " + (Printed(e) + x), n, "] of " + (Printed(f) + y), {']'});
      Drop("] of ", Printed(e) + x, Printed(f) + y);
      Unambiguous(e, f, x, y);
    } else {
      Drop("[?]", x, y);
    }
  }

  // ----- the text of a field tells whether it has a name, and which

  lemma {:induction false} ShutSkip(w: string, z: string)
    requires Free(w, COLON_COMMA) && Shut(z)
    ensures Shut(w + z)
  {
    if w == "" {
      assert w + z == z;
    } else {
      assert (w + z)[1..] == w[1..] + z;
      ShutSkip(w[1..], z);
    }
  }

  lemma {:induction false} NumberFree(n: int)
    ensures Free(Decimal(n), COLON_COMMA)
  {
  }

  lemma {:induction false} Bracketed(open: string, n: int, close: string)
    requires Free(open, COLON_COMMA) && Free(close, COLON_COMMA)
    ensures Free(open + Decimal(n) + close, COLON_COMMA)
  {
    NumberFree(n);
  }

  lemma {:induction false} TailFree(s: Spec)
    requires s.typ != ARRAY && s.typ != STRUCTURE
    requires s.typ == FLOAT ==> s.floatFormatWidth == 0 || s.floatExponentWidth == 0
    ensures Free(Tail(s), COLON_COMMA)
  {
    if s.typ == FLOAT {
      Bracketed("(fmt=", s.floatFormatWidth, ")");
      Bracketed("(exp=", s.floatExponentWidth, ")");
    } else {
      Bracketed("(", SizeOf(s), "bit)");
      Bracketed("(", SizeOf(s), ")");
      Bracketed("(", s.typ, ")");
    }
  }

  lemma {:induction false} ScalarShut(s: Spec, y: string)
    requires s.typ != ARRAY && s.typ != STRUCTURE && Shut(y)
    ensures Shut(Tail(s) + y)
  {
    var f, e := s.floatFormatWidth, s.floatExponentWidth;
    if s.typ == FLOAT && f != 0 && e != 0 {
      FloatParts(f, e, y);
      var z := ", exp=" + (Decimal(e) + (")" + y));
      assert z[0] == ',' && z[1] == ' ';
      NumberFree(f);
      ShutSkip(Decimal(f), z);
      ShutSkip("(fmt=", Decimal(f) + z);
    } else {
      TailFree(s);
      ShutSkip(Tail(s), y);
    }
  }

  /** A specification's text keeps what follows it shut. */
  lemma {:induction false} PrintedShut(s: Spec, y: string)
    requires Shut(y)
    ensures Shut(Printed(s) + y)
    decreases s
  {
    WordFree(s.typ);
    Assoc(TypeWord(s.typ), Tail(s), y);
    if s.typ == STRUCTURE {
      StructureTail(s, y);
    } else if s.typ != ARRAY {
      ScalarShut(s, y);
    } else if !HasElement(s) {
      ArrayTail(s, y);
      ShutSkip("[?]", y);
    } else {
      ElementTail(s, y);
      PrintedShut(s.arraySpec.value.element.value, y);
      var z := Printed(s.arraySpec.value.element.value) + y;
      NumberFree(s.arraySpec.value.elementCount);
      ShutSkip("] of ", z);
      ShutSkip(Decimal(s.arraySpec.value.elementCount), "] of " + z);
      ShutSkip("[", Decimal(s.arraySpec.value.elementCount) + ("] of " + z));
    }
    ShutSkip(TypeWord(s.typ), Tail(s) + y);
  }

  /** A plain name, empty or not, with its colon is never shut. */
  lemma {:induction false} NameOpen(n: string, rest: string)
    requires PlainName(n)
    ensures !Shut(n + (": " + rest))
  {
    var text := n + (": " + rest);
    if n == "" {
      assert text[0] == ':';
    } else {
      assert text[0] == n[0] && text[1..] == n[1..] + (": " + rest);
      assert n[0] in n;
      if n[0] == ',' {
        assert |n| > 1 ==> text[1] == n[1] && n[1] in n;
        assert |n| == 1 ==> text[1] == ':';
      }
      NameOpen(n[1..], rest);
    }
  }

  /** A name cannot continue another one's colon. */
  lemma {:induction false} LongerName(s: Spec, t: Spec, x: string, y: string)
    requires PlainName(t.name) && Shut(x) && |s.name| < |t.name|
    ensures s.name + (": " + (Printed(s) + x)) != t.name + (": " + (Printed(t) + y))
  {
    var n, m := |s.name|, t.name;
    var left, right := s.name + (": " + (Printed(s) + x)), m + (": " + (Printed(t) + y));
    if left == right {
      assert left[n + 1] == ' ';
      assert right[n + 1] == if n + 1 < |m| then m[n + 1] else ':';
      var r := m[n + 2..];
      assert right[n + 2..] == r + (": " + (Printed(t) + y));
      assert left[n + 2..] == Printed(s) + x;
      assert m[n + 1] in m;
      PrintedShut(s, x);
      NameOpen(r, Printed(t) + y);
    }
  }

  /** A field's text begins with its name and a colon, if it has a name. */
  lemma {:induction false} FieldSplit(s: Spec, x: string)
    ensures s.name != "" ==> Field(s) + x == s.name + (": " + (Printed(s) + x))
    ensures s.name == "" ==> Field(s) + x == Printed(s) + x
  {
    if s.name != "" {
      Assoc(s.name + ": ", Printed(s), x);
      Assoc(s.name, ": ", Printed(s) + x);
    }
  }

  /** A named field never prints like an unnamed one. */
  lemma {:induction false} NamedDiffers(s: Spec, t: Spec, x: string, y: string)
    requires PlainName(s.name) && Shut(y) && s.name != "" && t.name == ""
    ensures Field(s) + x != Field(t) + y
  {
    FieldSplit(s, x);
    FieldSplit(t, y);
    NameOpen(s.name, Printed(s) + x);
    PrintedShut(t, y);
  }

  lemma {:induction false} NamesEqual(s: Spec, t: Spec, x: string, y: string)
    requires PlainName(s.name) && PlainName(t.name) && Shut(x) && Shut(y) && s.name != "" && t.name != ""
    requires Field(s) + x == Field(t) + y
    ensures s.name == t.name && Printed(s) + x == Printed(t) + y
  {
    FieldSplit(s, x);
    FieldSplit(t, y);
    var p, q := ": " + (Printed(s) + x), ": " + (Printed(t) + y);
    if |s.name| < |t.name| {
      LongerName(s, t, x, y);
    }
    if |t.name| < |s.name| {
      LongerName(t, s, y, x);
    }
    assert s.name == (s.name + p)[..|s.name|] == (t.name + q)[..|t.name|] == t.name;
    Drop(s.name, p, q);
    Drop(": ", Printed(s) + x, Printed(t) + y);
  }

  lemma {:induction false} FieldTells(s: Spec, t: Spec, x: string, y: string)
    requires PlainNames(s) && PlainNames(t) && PlainName(s.name) && PlainName(t.name) && Follow(x) && Follow(y)
    requires Field(s) + x == Field(t) + y
    ensures s.name == t.name && ShapeOf(s) == ShapeOf(t) && x == y
    decreases s, 3
  {
    FieldSplit(s, x);
    FieldSplit(t, y);
    if s.name != "" && t.name == "" {
      NamedDiffers(s, t, x, y);
    } else if s.name == "" && t.name != "" {
      NamedDiffers(t, s, y, x);
    } else {
      if s.name != "" {
        NamesEqual(s, t, x, y);
      }
      Unambiguous(s, t, x, y);
    }
  }

  /** What follows the first of some fields. */
  function AfterFirst(els: seq<Spec>, x: string): string
    requires els != []
  {
    if |els| > 1 then ", " + (Fields(els[1..]) + ("}" + x)) else "}" + x
  }

  lemma {:induction false} FieldsSplit(els: seq<Spec>, x: string)
    requires els != []
    ensures Fields(els) + ("}" + x) == Field(els[0]) + AfterFirst(els, x)
  {
  }

  lemma {:induction false} ShutClose(x: string)
    requires Shut(x)
    ensures Shut("}" + x)
  {
    assert ("}" + x)[1..] == x;
  }

  lemma {:induction false} AfterFollows(els: seq<Spec>, x: string)
    requires els != [] && Shut(x)
    ensures Follow(AfterFirst(els, x))
  {
    ShutClose(x);
  }

  lemma {:induction false} FieldsTell(a: seq<Spec>, b: seq<Spec>, x: string, y: string)
    requires PlainFields(a) && PlainFields(b) && Shut(x) && Shut(y)
    requires Fields(a) + ("}" + x) == Fields(b) + ("}" + y)
    ensures Shapes(a) == Shapes(b) && x == y
    decreases a, 0
  {
    if a == [] {
      NoFields(b, x, y);
    } else if b == [] {
      NoFields(a, y, x);
    } else {
      FieldsSplit(a, x);
      FieldsSplit(b, y);
      AfterFollows(a, x);
      AfterFollows(b, y);
      assert a[0] in a && b[0] in b;
      FieldTells(a[0], b[0], AfterFirst(a, x), AfterFirst(b, y));
      assert AfterFirst(a, x)[0] == (if |a| > 1 then ',' else '}');
      assert AfterFirst(b, y)[0] == (if |b| > 1 then ',' else '}');
      if |a| > 1 {
        Drop(", ", Fields(a[1..]) + ("}" + x), Fields(b[1..]) + ("}" + y));
        FieldsTell(a[1..], b[1..], x, y);
      } else {
        Drop("}", x, y);
      }
    }
  }

  lemma {:induction false} NoFields(b: seq<Spec>, x: string, y: string)
    requires PlainFields(b) && Shut(x) && Fields([]) + ("}" + x) == Fields(b) + ("}" + y)
    ensures b == [] && x == y
  {
    assert Fields([]) + ("}" + x) == "}" + x;
    if b != [] {
      SomeFields(b, x, y);
    }
    assert Fields(b) + ("}" + y) == "}" + y;
    Drop("}", x, y);
  }

  /** The first field, named or not, keeps a text from being taken for the end of the structure. */
  lemma {:induction false} SomeFields(els: seq<Spec>, x: string, y: string)
    requires PlainFields(els) && els != [] && Shut(x)
    ensures "}" + x != Fields(els) + ("}" + y)
  {
    var first, after := els[0], AfterFirst(els, y);
    assert first in els;
    FieldsSplit(els, y);
    FieldSplit(first, after);
    if first.name != "" {
      ShutClose(x);
      NameOpen(first.name, Printed(first) + after);
    } else {
      WordFirst(first, after);
    }
  }

  lemma {:induction false} WordFirst(s: Spec, y: string)
    ensures Printed(s) + y != "" && (Printed(s) + y)[0] !in SEPS
  {
    WordFree(s.typ);
    var w := TypeWord(s.typ);
    Assoc(w, Tail(s), y);
    assert (Printed(s) + y)[0] == w[0] && w[0] in w;
  }

  lemma {:induction false} SameShapeSameText(s: Spec, t: Spec)
    requires ShapeOf(s) == ShapeOf(t)
    ensures Printed(s) == Printed(t)
    decreases s, 1
  {
    if s.typ == ARRAY {
      if HasElement(s) {
        SameShapeSameText(s.arraySpec.value.element.value, t.arraySpec.value.element.value);
      }
    } else if s.typ == STRUCTURE {
      StructureText(s);
      StructureText(t);
      if s.structureSpec.Some? {
        SameShapesSameText(s.structureSpec.value.elements, Elements(t));
      } else {
        assert Elements(t) == [] by {
          assert Shapes(Elements(t)) == [];
        }
      }
    }
  }

  lemma {:induction false} SameShapesSameText(a: seq<Spec>, b: seq<Spec>)
    requires Shapes(a) == Shapes(b)
    ensures Fields(a) == Fields(b)
    decreases a, 0
  {
    if a != [] {
      assert b != [];
      assert Shapes(a)[0] == Shapes(b)[0] && Shapes(a)[1..] == Shapes(a[1..]) && Shapes(b)[1..] == Shapes(b[1..]);
      SameShapeSameText(a[0], b[0]);
      SameShapesSameText(a[1..], b[1..]);
      ShapesLength(a);
      ShapesLength(b);
    }
  }

  lemma {:induction false} ShapesLength(els: seq<Spec>)
    ensures |Shapes(els)| == |els|
  {
    if els != [] {
      ShapesLength(els[1..]);
    }
  }

  /** Two specifications with plain element names print the same text exactly if they have one shape. */
  lemma {:induction false} PrintingTellsShape(s: Spec, t: Spec)
    requires PlainNames(s) && PlainNames(t)
    ensures Printed(s) == Printed(t) <==> ShapeOf(s) == ShapeOf(t)
  {
    if ShapeOf(s) == ShapeOf(t) {
      SameShapeSameText(s, t);
    }
    if Printed(s) == Printed(t) {
      assert Printed(s) + "" == Printed(s) && Printed(t) + "" == Printed(t);
      Unambiguous(s, t, "", "");
    }
  }

  function Boolean(name: string): Spec {
    Spec(2, name, None, None, 0, 0, 0, 0, 0, 0, 0, 0, 0)
  }

  function StructureOfFields(els: seq<Spec>): Spec {
    Boolean("").(typ := STRUCTURE, structureSpec := Some(StructureSpec(els)))
  }

  /** A comma and a space in a name: one field prints like two. */
  lemma {:induction false} CommaConfuses()
    ensures var s, t := StructureOfFields([Boolean("Boolean, b")]), StructureOfFields([Boolean(""), Boolean("b")]);
            Printed(s) == Printed(t) && ShapeOf(s) != ShapeOf(t)
  {
    var one, two := [Boolean("Boolean, b")], [Boolean(""), Boolean("b")];
    BooleanText("b");
    BooleanText("Boolean, b");
    assert two[1..] == [Boolean("b")] && Field(Boolean("")) == "Boolean";
    assert Fields(two) == Field(two[0]) + (", " + Fields(two[1..]));
    assert Fields(one) == Fields(two);
    assert |Shapes(one)| == 1 && |Shapes(two)| == 1 + |Shapes(two[1..])|;
  }

  lemma {:induction false} OneField(a: Spec)
    ensures Fields([a]) == Field(a) && |Shapes([a])| == 1
  {
  }

  lemma {:induction false} TwoFields(a: Spec, b: Spec)
    ensures Fields([a, b]) == Field(a) + (", " + Field(b)) && |Shapes([a, b])| == 2
  {
    assert [a, b][1..] == [b];
    OneField(b);
  }

  lemma {:induction false} UnnamedStructure(els: seq<Spec>)
    ensures Field(StructureOfFields(els)) == Printed(StructureOfFields(els)) == "Structure{" + Fields(els) + "}"
  {
    StructureText(StructureOfFields(els));
  }

  lemma {:induction false} BraceTexts(a: string, b: string)
    requires a == "a" && b == "b"
    ensures "Structure{" + a + ": Boolean" + (", " + ("Structure{" + (b + ": Boolean") + "}"))
         == "Structure{" + (a + ": Boolean" + (", " + ("Structure{" + b + ": Boolean"))) + "}"
  {
  }

  /** A brace alone: which of two fields of a structure is nested in the other cannot be told. */
  lemma {:induction false} BraceConfuses()
    ensures var s := StructureOfFields([Boolean("Structure{" + "a"), StructureOfFields([Boolean("b")])]);
            var t := StructureOfFields([StructureOfFields([Boolean("a"), Boolean("Structure{" + "b")])]);
            Printed(s) == Printed(t) && ShapeOf(s) != ShapeOf(t)
  {
    var inner, pair := StructureOfFields([Boolean("b")]), [Boolean("a"), Boolean("Structure{" + "b")];
    var outer := StructureOfFields(pair);
    var two, one := [Boolean("Structure{" + "a"), inner], [outer];
    BooleanText("a");
    BooleanText("b");
    BooleanText("Structure{" + "a");
    BooleanText("Structure{" + "b");
    UnnamedStructure([Boolean("b")]);
    TwoFields(two[0], inner);
    TwoFields(pair[0], pair[1]);
    UnnamedStructure(pair);
    OneField(outer);
    BraceTexts("a", "b");
    assert Fields(two) == Fields(one);
    UnnamedStructure(two);
    UnnamedStructure(one);
  }

  lemma {:induction false} BooleanText(name: string)
    requires name != ""
    ensures Fields([Boolean(name)]) == Field(Boolean(name)) == name + ": Boolean"
  {
    assert Printed(Boolean(name)) == "Boolean";
    assert name + ": " + "Boolean" == name + ": Boolean";
  }

  // ----- which characters names may use

  /** Element names, at every level, use these characters only. */
  ghost predicate NamesOver(s: Spec, allowed: iset<char>) {
    && (s.arraySpec.Some? && s.arraySpec.value.element.Some? ==> NamesOver(s.arraySpec.value.element.value, allowed))
    && (s.structureSpec.Some? ==> FieldsOver(s.structureSpec.value.elements, allowed))
  }

  ghost predicate FieldsOver(els: seq<Spec>, allowed: iset<char>) {
    forall el :: el in els ==> Uses(el.name, allowed) && NamesOver(el, allowed)
  }

  ghost predicate Uses(n: string, allowed: iset<char>) {
    forall c :: c in n ==> c in allowed
  }

  /** The text tells the shape, for all specifications over these characters. */
  ghost predicate TextTells(allowed: iset<char>) {
    forall s, t :: NamesOver(s, allowed) && NamesOver(t, allowed) && Printed(s) == Printed(t) ==>
      ShapeOf(s) == ShapeOf(t)
  }

  predicate Letter(c: char) {
    'a' <= c <= 'z' || 'A' <= c <= 'Z'
  }

  lemma {:induction false} OverPlain(s: Spec, allowed: iset<char>)
    requires NamesOver(s, allowed) && '{' !in allowed && (',' !in allowed || ' ' !in allowed)
    ensures PlainNames(s)
    decreases s
  {
    if s.arraySpec.Some? && s.arraySpec.value.element.Some? {
      OverPlain(s.arraySpec.value.element.value, allowed);
    }
    if s.structureSpec.Some? {
      forall el | el in s.structureSpec.value.elements ensures PlainName(el.name) && PlainNames(el) {
        OverPlain(el, allowed);
      }
    }
  }

  /** Whatever characters beside letters names may use: the text tells the shape exactly if the opening
      brace is not among them, nor comma and space together. */
  lemma {:induction false} AlphabetExact(allowed: iset<char>)
    requires forall c :: Letter(c) ==> c in allowed
    ensures TextTells(allowed) <==> '{' !in allowed && (',' !in allowed || ' ' !in allowed)
  {
    if '{' !in allowed && (',' !in allowed || ' ' !in allowed) {
      forall s, t | NamesOver(s, allowed) && NamesOver(t, allowed) && Printed(s) == Printed(t)
        ensures ShapeOf(s) == ShapeOf(t)
      {
        OverPlain(s, allowed);
        OverPlain(t, allowed);
        PrintingTellsShape(s, t);
      }
    }
    if '{' in allowed {
      BraceConfuses();
      BraceNames(allowed);
    }
    if ',' in allowed && ' ' in allowed {
      CommaConfuses();
      CommaNames(allowed);
    }
  }

  lemma {:induction false} BraceNames(allowed: iset<char>)
    requires '{' in allowed && forall c :: Letter(c) ==> c in allowed
    ensures NamesOver(StructureOfFields([Boolean("Structure{" + "a"), StructureOfFields([Boolean("b")])]), allowed)
    ensures NamesOver(StructureOfFields([StructureOfFields([Boolean("a"), Boolean("Structure{" + "b")])]), allowed)
  {
    assert Uses("Structure{", allowed) && Uses("a", allowed) && Uses("b", allowed);
    var inner, pair := [Boolean("b")], [Boolean("a"), Boolean("Structure{" + "b")];
    assert FieldsOver(inner, allowed) && FieldsOver(pair, allowed);
    assert NamesOver(StructureOfFields(inner), allowed) && NamesOver(StructureOfFields(pair), allowed);
  }

  lemma {:induction false} CommaNames(allowed: iset<char>)
    requires ',' in allowed && ' ' in allowed && forall c :: Letter(c) ==> c in allowed
    ensures NamesOver(StructureOfFields([Boolean("Boolean, b")]), allowed)
    ensures NamesOver(StructureOfFields([Boolean(""), Boolean("b")]), allowed)
  {
    assert Uses("Boolean, b", allowed) && Uses("b", allowed) && Uses("", allowed);
    assert FieldsOver([Boolean("Boolean, b")], allowed) && FieldsOver([Boolean(""), Boolean("b")], allowed);
  }
}
