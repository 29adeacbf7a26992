/** Variable specifications as the client keeps them: a type tag and, whatever the tag, a field for
    every variant. */
module MmsSpec {
  import opened Text

  datatype Spec = Spec(
    typ: int, name: string, arraySpec: Option<ArraySpec>, structureSpec: Option<StructureSpec>,
    integerBits: int, unsignedBits: int, floatExponentWidth: int, floatFormatWidth: int,
    bitStringSize: int, octetStringSize: int, visibleStringSize: int, mmsStringSize: int, binaryTimeSize: int)

  datatype StructureSpec = StructureSpec(elements: seq<Spec>)

  datatype ArraySpec = ArraySpec(elementCount: int, element: Option<Spec>)

  const ARRAY := 0
  const STRUCTURE := 1
  const BIT_STRING := 3
  const INTEGER := 4
  const UNSIGNED := 5
  const FLOAT := 6
  const OCTET_STRING := 7
  const VISIBLE_STRING := 8
  const BINARY_TIME := 10
  const STRING := 13
}
