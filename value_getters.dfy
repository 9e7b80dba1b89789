/** The value getters of the SPARQL expression evaluator: pure conversions from
    a cell (an Id, a string, or an `IdOrString` holding either) to the domain
    value a built-in function works on.

    The Id overloads whose bodies are not part of this model (numeric value,
    validity, effective boolean value, string value, isIRI/isBlank/isLiteral on
    an Id, literal-from-Id) are the function-valued fields of `IdSemantics`; every
    getter takes them as a parameter and is proved for all of them. */
module ValueGetters {
  import opened Wrappers
  import opened ValueIds

  /** `NumericValue`: not numeric, a double or a 64-bit integer. */
  datatype NumericValue = NotNumeric | DoubleValue(d: DoubleBits) | IntValue(i: int)

  /** The three-valued effective boolean value of section 17.2.2 of SPARQL 1.1 Query. */
  datatype EbvResult = False | True | Undef

  /** The three literal kinds that `IsSomethingValueGetter` recognises by prefix. */
  datatype TermKind = Iri | BlankNode | Literal

  /** The Id overloads declared without a body, as uninterpreted functions. */
  datatype IdSemantics = IdSemantics(
    numeric: Id -> NumericValue,
    isValid: Id -> bool,
    effectiveBoolean: Id -> EbvResult,
    stringValue: Id -> Option<string>,
    isSomething: (TermKind, Id) -> Id,
    literalFromId: Id -> Option<string>)

  /** The single dispatch on the alternative an `IdOrString` holds (`std::visit`),
      shared by every getter's `IdOrString` overload. */
  function Visit<R>(cell: IdOrString, onId: Id -> R, onString: string -> R): (r: R)
    ensures cell.IsId? ==> r == onId(cell.id)
    ensures cell.IsString? ==> r == onString(cell.str)
  {
    match cell
    case IsId(id) => onId(id)
    case IsString(s) => onString(s)
  }

  predicate StartsWith(s: string, prefix: string)
  {
    |prefix| <= |s| && s[..|prefix|] == prefix
  }

  /** `makeNumericId`: an integer becomes an Int Id, a double a Double Id and
      `NotNumeric` the undefined Id. */
  function MakeNumericId(v: NumericValue): (r: Id)
    ensures v.NotNumeric? <==> r.kind == Undefined
    ensures v.IntValue? <==> r.kind == Int
    ensures v.DoubleValue? <==> r.kind == Datatype.Double
    ensures v.IntValue? && -PayloadBound / 2 <= v.i < PayloadBound / 2 ==> GetInt(r) == v.i
    ensures v.DoubleValue? ==> r.payload == v.d.bits
  {
    match v
    case NotNumeric => MakeUndefined()
    case DoubleValue(d) => MakeFromDouble(d)
    case IntValue(i) => MakeFromInt(i)
  }

  /** `makeNumericId` on an Id, and `ActualValueGetter`: the input unchanged. */
  function ActualValue<T>(v: T): (r: T)
    ensures r == v
  {
    v
  }

  function NumericOfString(s: string): NumericValue
  {
    NotNumeric
  }

  /** `NumericValueGetter`: strings are never numeric. */
  function NumericValueOf(sem: IdSemantics, cell: IdOrString): (r: NumericValue)
    ensures cell.IsString? ==> r.NotNumeric?
    ensures cell.IsId? ==> r == sem.numeric(cell.id)
  {
    Visit(cell, sem.numeric, NumericOfString)
  }

  function IsValidString(s: string): bool
  {
    true
  }

  /** `IsValidValueGetter`: every string is valid. */
  function IsValid(sem: IdSemantics, cell: IdOrString): (r: bool)
    ensures cell.IsString? ==> r
    ensures cell.IsId? ==> r == sem.isValid(cell.id)
  {
    Visit(cell, sem.isValid, IsValidString)
  }

  function EffectiveBooleanOfString(s: string): EbvResult
  {
    if |s| == 0 then False else True
  }

  /** `EffectiveBooleanValueGetter`: a string is false iff it is empty, and never undefined. */
  function EffectiveBooleanValue(sem: IdSemantics, cell: IdOrString): (r: EbvResult)
    ensures cell.IsString? ==> (r == False <==> cell.str == []) && (r == True <==> cell.str != [])
    ensures cell.IsId? ==> r == sem.effectiveBoolean(cell.id)
  {
    Visit(cell, sem.effectiveBoolean, EffectiveBooleanOfString)
  }

  predicate IsQuoted(s: string)
  {
    |s| >= 2 && s[0] == '"' && s[|s| - 1] == '"'
  }

  /** The string overload of `StringValueGetter` and `LiteralFromIdGetter`:
      one leading and one trailing quote are removed when both are there. */
  function StripQuotes(s: string): (r: string)
    ensures IsQuoted(s) ==> s == "\"" + r + "\""
    ensures !IsQuoted(s) ==> r == s
    ensures |r| == if IsQuoted(s) then |s| - 2 else |s|
  {
    if IsQuoted(s) then s[1..|s| - 1] else s
  }

  /** Quoting a string and stripping the quotes gives the string back. */
  lemma StripQuotesOfQuoted(t: string)
    ensures StripQuotes("\"" + t + "\"") == t
  {
    var q := "\"" + t + "\"";
    assert IsQuoted(q);
    assert q[1..|q| - 1] == t;
  }

  function StringValueOfString(s: string): Option<string>
  {
    Some(StripQuotes(s))
  }

  /** `StringValueGetter`: a string always has a string value, its unquoted form. */
  function StringValue(sem: IdSemantics, cell: IdOrString): (r: Option<string>)
    ensures cell.IsString? ==> r == Some(StripQuotes(cell.str))
    ensures cell.IsId? ==> r == sem.stringValue(cell.id)
  {
    Visit(cell, sem.stringValue, StringValueOfString)
  }

  /** `LiteralFromIdGetter`. */
  function LiteralFromId(sem: IdSemantics, cell: IdOrString): (r: Option<string>)
    ensures cell.IsString? ==> r == Some(StripQuotes(cell.str))
    ensures cell.IsId? ==> r == sem.literalFromId(cell.id)
  {
    Visit(cell, sem.literalFromId, StringValueOfString)
  }

  /** On strings the two string getters agree. */
  lemma LiteralFromIdAgreesOnStrings(sem: IdSemantics, s: string)
    ensures LiteralFromId(sem, IsString(s)) == StringValue(sem, IsString(s))
  {
  }

  /** The prefixes of `isIriPrefix`, `isBlankPrefix` and `isLiteralPrefix`. */
  function Prefix(kind: TermKind): string
  {
    match kind
    case Iri => "<"
    case BlankNode => "_:"
    case Literal => "\""
  }

  /** The three prefixes begin with different characters, so a string is of at most one kind. */
  lemma PrefixesExclusive(s: string, a: TermKind, b: TermKind)
    requires a != b
    ensures !(StartsWith(s, Prefix(a)) && StartsWith(s, Prefix(b)))
  {
    PrefixFirstCharacter(s, a);
    PrefixFirstCharacter(s, b);
  }

  lemma PrefixFirstCharacter(s: string, kind: TermKind)
    ensures StartsWith(s, Prefix(kind)) ==> |s| > 0 && s[0] == Prefix(kind)[0]
  {
    if StartsWith(s, Prefix(kind)) {
      assert s[..|Prefix(kind)|][0] == s[0];
    }
  }

  /** `IsSomethingValueGetter`: on a string, a Bool Id telling whether the string
      starts with the kind's prefix; the vocabulary is not consulted. */
  function IsSomething(sem: IdSemantics, kind: TermKind, cell: IdOrString): (r: Id)
    ensures cell.IsString? ==> r.kind == Bool && (GetBool(r) <==> StartsWith(cell.str, Prefix(kind)))
    ensures cell.IsId? ==> r == sem.isSomething(kind, cell.id)
  {
    Visit(cell, (id: Id) => sem.isSomething(kind, id), (s: string) => MakeFromBool(StartsWith(s, Prefix(kind))))
  }

  /** `IsIriValueGetter` on the raw strings `<http://x>` and `plain`. */
  lemma IsIriOnRawStrings(sem: IdSemantics)
    ensures GetBool(IsSomething(sem, Iri, IsString("<http://x>")))
    ensures !GetBool(IsSomething(sem, Iri, IsString("plain")))
    ensures GetBool(IsSomething(sem, BlankNode, IsString("_:b0")))
    ensures !GetBool(IsSomething(sem, BlankNode, IsString("_x")))
    ensures GetBool(IsSomething(sem, Literal, IsString("\"x\"")))
  {
    assert "<http://x>"[..1] == "<";
    assert "plain"[..1] != "<" by { assert "plain"[0] != '<'; }
    assert "_:b0"[..2] == "_:";
    assert "_x"[..2] != "_:" by { assert "_x"[1] != "_:"[1]; }
    assert "\"x\""[..1] == "\"";
  }

  /** `IsNumericValueGetter`: exactly the Int and Double Ids are numeric; strings
      are not (the operand data types of section 17.1 of SPARQL 1.1 Query). */
  function IsNumeric(cell: IdOrString): (r: Id)
    ensures r.kind == Bool
    ensures GetBool(r) <==> cell.IsId? && (cell.id.kind == Int || cell.id.kind == Datatype.Double)
  {
    Visit(cell, IsNumericOfId, (s: string) => MakeFromBool(false))
  }

  function IsNumericOfId(id: Id): Id
  {
    MakeFromBool(id.kind == Datatype.Double || id.kind == Int)
  }

  /** `DateValueGetter`: the date payload of a Date Id, nothing for anything else. */
  function DateValue(cell: IdOrString): (r: Option<Payload>)
    ensures r.Some? <==> cell.IsId? && cell.id.kind == Date
    ensures r.Some? ==> r.value == cell.id.payload
  {
    Visit(cell, DateOfId, (s: string) => None)
  }

  function DateOfId(id: Id): Option<Payload>
  {
    if id.kind == Date then Some(id.payload) else None
  }

  /** An Id made from a numeric value is numeric exactly when the value was, and
      it is never a date. */
  lemma {:induction false} MadeNumericIdIsNumeric(v: NumericValue)
    ensures GetBool(IsNumeric(IsId(MakeNumericId(v)))) <==> !v.NotNumeric?
    ensures DateValue(IsId(MakeNumericId(v))).None?
  {
    var id := MakeNumericId(v);
    assert id.kind == Undefined || id.kind == Int || id.kind == Datatype.Double;
  }
}
