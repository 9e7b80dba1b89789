/** The identifier (`Id`, `ValueId`) that every cell of a result holds, and the
    `IdOrString` cell of an expression result.

    global/Id.h is not part of this model. An Id is taken to be a datatype tag
    stored above a 60-bit payload; the numbers given to the tags and the way a
    payload encodes an integer are this model's choice. Floating-point values
    are kept as uninterpreted bit patterns. */
module ValueIds {

  /** The number of payload bits below the datatype tag. */
  const PayloadBound: int := 0x1000_0000_0000_0000

  type Payload = x: int | 0 <= x < PayloadBound

  datatype Datatype = Undefined | Bool | Int | Double | VocabIndex | LocalVocabIndex | Date

  datatype Id = Id(kind: Datatype, payload: Payload)

  /** A double as the payload of the Id it becomes; no arithmetic is done on it. */
  datatype DoubleBits = DoubleBits(bits: Payload)

  /** A cell of an expression result: an Id or a string the vocabulary does not hold. */
  datatype IdOrString = IsId(id: Id) | IsString(str: string)

  function Tag(d: Datatype): (t: nat)
    ensures t < 16
  {
    match d
    case Undefined => 0
    case Bool => 1
    case Int => 2
    case Double => 3
    case VocabIndex => 4
    case LocalVocabIndex => 5
    case Date => 6
  }

  lemma TagInjective(d: Datatype, e: Datatype)
    ensures Tag(d) == Tag(e) ==> d == e
  {
  }

  /** The raw bit pattern of an Id (`getBits`). */
  function Bits(id: Id): (b: nat)
    ensures b < 16 * PayloadBound
    ensures b / PayloadBound == Tag(id.kind) && b % PayloadBound == id.payload
  {
    Tag(id.kind) * PayloadBound + id.payload
  }

  /** Different Ids have different bit patterns. */
  lemma BitsInjective(a: Id, b: Id)
    ensures Bits(a) == Bits(b) ==> a == b
  {
    if Bits(a) == Bits(b) {
      TagInjective(a.kind, b.kind);
    }
  }

  function MakeUndefined(): (id: Id)
    ensures id.kind == Undefined
  {
    Id(Undefined, 0)
  }

  function MakeFromBool(b: bool): (id: Id)
    ensures id.kind == Bool
    ensures GetBool(id) == b
  {
    Id(Bool, if b then 1 else 0)
  }

  /** Reads the boolean back from a Bool Id. */
  function GetBool(id: Id): bool
  {
    id.payload != 0
  }

  /** `makeFromInt`: the low 60 bits of the two's-complement integer. */
  function MakeFromInt(i: int): (id: Id)
    ensures id.kind == Int
    ensures -PayloadBound / 2 <= i < PayloadBound / 2 ==> GetInt(id) == i
  {
    Id(Int, i % PayloadBound)
  }

  /** Sign-extends the 60-bit payload of an Int Id. */
  function GetInt(id: Id): int
  {
    if id.payload < PayloadBound / 2 then id.payload else id.payload - PayloadBound
  }

  function MakeFromDouble(d: DoubleBits): (id: Id)
    ensures id.kind == Datatype.Double && id.payload == d.bits
  {
    Id(Datatype.Double, d.bits)
  }

  function MakeFromLocalVocabIndex(index: Payload): (id: Id)
    ensures id.kind == LocalVocabIndex && id.payload == index
  {
    Id(LocalVocabIndex, index)
  }
}
