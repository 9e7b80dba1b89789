/** The per-group accumulators of the GROUP BY hash-map optimization: COUNT,
    SUM, AVG (its count and error flag), MIN/MAX and GROUP_CONCAT. Each is a
    class whose `AddValue` updates its fields; a ghost `added` records the
    values added so far, and `Valid` states what the fields are in terms of it. */
module GroupByAggregation {
  import opened Wrappers
  import opened ValueIds
  import opened ValueGetters

  // ---------------------------------------------------------------------------
  // Specification functions over the values added so far

  /** How many of the values are valid (`IsValidValueGetter`). */
  function CountValid(sem: IdSemantics, values: seq<IdOrString>): (n: nat)
    ensures n <= |values|
  {
    if values == [] then 0
    else CountValid(sem, values[..|values| - 1]) + (if IsValid(sem, values[|values| - 1]) then 1 else 0)
  }

  /** Some value is not numeric. */
  predicate AnyNotNumeric(sem: IdSemantics, values: seq<IdOrString>)
  {
    exists i :: 0 <= i < |values| && NumericValueOf(sem, values[i]).NotNumeric?
  }

  /** No value is a double. */
  predicate NoDouble(sem: IdSemantics, values: seq<IdOrString>)
  {
    forall i :: 0 <= i < |values| ==> !NumericValueOf(sem, values[i]).DoubleValue?
  }

  /** The sum of the integer values; other values add nothing. */
  function IntSum(sem: IdSemantics, values: seq<IdOrString>): int
  {
    if values == [] then 0
    else
      var last := NumericValueOf(sem, values[|values| - 1]);
      IntSum(sem, values[..|values| - 1]) + (if last.IntValue? then last.i else 0)
  }

  // ---------------------------------------------------------------------------
  // COUNT

  class CountAggregation {
    var count: int
    ghost var added: seq<IdOrString>

    ghost predicate Valid(sem: IdSemantics)
      reads this
    {
      count == CountValid(sem, added)
    }

    constructor (ghost sem: IdSemantics)
      ensures Valid(sem) && added == [] && count == 0
    {
      count := 0;
      added := [];
    }

    /** Counts the value when it is valid. */
    method AddValue(value: IdOrString, sem: IdSemantics)
      requires Valid(sem)
      modifies this
      ensures Valid(sem) && added == old(added) + [value]
      ensures count == old(count) + (if IsValid(sem, value) then 1 else 0)
    {
      if IsValid(sem, value) {
        count := count + 1;
      }
      added := added + [value];
      assert added[..|added| - 1] == old(added);
    }

    /** The count as an Int Id. */
    function CalculateResult(ghost sem: IdSemantics): (r: Id)
      requires Valid(sem)
      reads this
      ensures r.kind == Int
      ensures count < PayloadBound / 2 ==> GetInt(r) == CountValid(sem, added)
    {
      MakeFromInt(count)
    }
  }

  // ---------------------------------------------------------------------------
  // SUM

  class SumAggregation {
    var error: bool
    var intSumValid: bool
    var intSum: int
    ghost var added: seq<IdOrString>

    ghost predicate Valid(sem: IdSemantics)
      reads this
    {
      && error == AnyNotNumeric(sem, added)
      && intSumValid == NoDouble(sem, added)
      && intSum == IntSum(sem, added)
    }

    constructor (ghost sem: IdSemantics)
      ensures Valid(sem) && added == []
      ensures !error && intSumValid && intSum == 0
    {
      error, intSumValid, intSum := false, true, 0;
      added := [];
    }

    /** A double clears `intSumValid`, an integer is added to `intSum`, and a
        value that is not numeric sets `error`. */
    method AddValue(value: IdOrString, sem: IdSemantics)
      requires Valid(sem)
      modifies this
      ensures Valid(sem) && added == old(added) + [value]
      ensures error == (old(error) || NumericValueOf(sem, value).NotNumeric?)
      ensures intSumValid == (old(intSumValid) && !NumericValueOf(sem, value).DoubleValue?)
      ensures intSum == old(intSum) + (if NumericValueOf(sem, value).IntValue? then NumericValueOf(sem, value).i else 0)
    {
      var val := NumericValueOf(sem, value);
      match val {
        case DoubleValue(_) => intSumValid := false;
        case IntValue(i) => intSum := intSum + i;
        case NotNumeric => error := true;
      }
      added := added + [value];
      assert added[..|added| - 1] == old(added);
      assert added[|added| - 1] == value;
    }

    /** Undefined after an error, else the Int of the integer sum when no double
        was added; `None` stands for the floating-point sum, which is not part of
        this model. */
    function CalculateResult(ghost sem: IdSemantics): (r: Option<Id>)
      requires Valid(sem)
      reads this
      ensures AnyNotNumeric(sem, added) <==> r == Some(MakeUndefined())
      ensures !AnyNotNumeric(sem, added) && NoDouble(sem, added) ==> r == Some(MakeFromInt(IntSum(sem, added)))
      ensures r.None? <==> !AnyNotNumeric(sem, added) && !NoDouble(sem, added)
    {
      if error then Some(MakeUndefined())
      else if intSumValid then Some(MakeFromInt(intSum))
      else None
    }
  }

  // ---------------------------------------------------------------------------
  // AVG (the count and the error flag)

  class AvgAggregation {
    var error: bool
    var count: int
    ghost var added: seq<IdOrString>

    ghost predicate Valid(sem: IdSemantics)
      reads this
    {
      error == AnyNotNumeric(sem, added) && count == |added|
    }

    constructor (ghost sem: IdSemantics)
      ensures Valid(sem) && added == [] && !error && count == 0
    {
      error, count := false, 0;
      added := [];
    }

    /** Every value is counted, numeric or not; a value that is not numeric sets `error`. */
    method AddValue(value: IdOrString, sem: IdSemantics)
      requires Valid(sem)
      modifies this
      ensures Valid(sem) && added == old(added) + [value]
      ensures count == old(count) + 1
      ensures error == (old(error) || NumericValueOf(sem, value).NotNumeric?)
    {
      if NumericValueOf(sem, value).NotNumeric? {
        error := true;
      }
      count := count + 1;
      added := added + [value];
      assert added[..|added| - 1] == old(added);
      assert added[|added| - 1] == value;
    }

    /** Undefined after an error; `None` stands for the floating-point mean,
        which is not part of this model. */
    function CalculateResult(ghost sem: IdSemantics): (r: Option<Id>)
      requires Valid(sem)
      reads this
      ensures r.Some? <==> AnyNotNumeric(sem, added)
      ensures r.Some? ==> r.value == MakeUndefined()
    {
      if error then Some(MakeUndefined()) else None
    }
  }

  // ---------------------------------------------------------------------------
  // MIN and MAX

  /** What the accumulator holds after the values: the first one, replaced by
      each later one that `prefers(value, current)` prefers. `prefers` is
      `compareIdsOrStrings` with `LT` for MIN and `GT` for MAX. */
  function Extremum(prefers: (IdOrString, IdOrString) -> bool, values: seq<IdOrString>): IdOrString
    requires |values| > 0
  {
    if |values| == 1 then values[0]
    else
      var current := Extremum(prefers, values[..|values| - 1]);
      var last := values[|values| - 1];
      if prefers(last, current) then last else current
  }

  ghost predicate Irreflexive(rel: (IdOrString, IdOrString) -> bool)
  {
    forall x :: !rel(x, x)
  }

  ghost predicate Transitive(rel: (IdOrString, IdOrString) -> bool)
  {
    forall x, y, z :: rel(x, y) && rel(y, z) ==> rel(x, z)
  }

  /** For a strict order, the accumulated value is one of the values and no value
      is strictly preferred to it: the minimum for `<`, the maximum for `>`. */
  lemma {:induction false} ExtremumIsExtreme(prefers: (IdOrString, IdOrString) -> bool, values: seq<IdOrString>)
    requires |values| > 0
    requires Irreflexive(prefers) && Transitive(prefers)
    ensures Extremum(prefers, values) in values
    ensures forall i :: 0 <= i < |values| ==> !prefers(values[i], Extremum(prefers, values))
  {
    if |values| > 1 {
      var prefix := values[..|values| - 1];
      var last := values[|values| - 1];
      ExtremumIsExtreme(prefers, prefix);
      var current := Extremum(prefers, prefix);
      assert values == prefix + [last];
      forall i | 0 <= i < |values|
        ensures !prefers(values[i], Extremum(prefers, values))
      {
        if i < |values| - 1 {
          assert values[i] == prefix[i];
        }
      }
    }
  }

  class ExtremumAggregation {
    var currentValue: IdOrString
    var firstValueSet: bool
    ghost var added: seq<IdOrString>

    ghost predicate Valid(prefers: (IdOrString, IdOrString) -> bool)
      reads this
    {
      && firstValueSet == (|added| > 0)
      && (firstValueSet ==> currentValue == Extremum(prefers, added))
    }

    /** The default-constructed cell is taken to be the undefined Id. */
    constructor (ghost prefers: (IdOrString, IdOrString) -> bool)
      ensures Valid(prefers) && added == [] && !firstValueSet
    {
      currentValue := IsId(MakeUndefined());
      firstValueSet := false;
      added := [];
    }

    /** The first value is stored unconditionally; a later one prefers the
        current value only when the comparison holds. */
    method AddValue(value: IdOrString, prefers: (IdOrString, IdOrString) -> bool)
      requires Valid(prefers)
      modifies this
      ensures Valid(prefers) && added == old(added) + [value] && firstValueSet
      ensures !old(firstValueSet) ==> currentValue == value
      ensures old(firstValueSet) ==>
        currentValue == if prefers(value, old(currentValue)) then value else old(currentValue)
    {
      added := added + [value];
      assert added[..|added| - 1] == old(added);
      if !firstValueSet {
        currentValue := value;
        firstValueSet := true;
        return;
      }
      if prefers(value, currentValue) {
        currentValue := value;
      }
    }

    /** An Id is returned as it is; a string is added to the local vocabulary
        (`localIndex` gives the index it gets there). */
    function CalculateResult(localIndex: string -> Payload): (r: Id)
      reads this
      ensures currentValue.IsId? ==> r == currentValue.id
      ensures currentValue.IsString? ==> r.kind == LocalVocabIndex && r.payload == localIndex(currentValue.str)
    {
      match currentValue
      case IsId(id) => id
      case IsString(s) => MakeFromLocalVocabIndex(localIndex(s))
    }
  }

  // ---------------------------------------------------------------------------
  // GROUP_CONCAT

  /** The string values of the cells that have one (`StringValueGetter`). */
  function StringsOf(sem: IdSemantics, values: seq<IdOrString>): seq<string>
  {
    if values == [] then []
    else
      var s := StringValue(sem, values[|values| - 1]);
      StringsOf(sem, values[..|values| - 1]) + (if s.Some? then [s.value] else [])
  }

  /** The strings joined, with `separator` between each two neighbours. */
  function Join(strings: seq<string>, separator: string): string
  {
    if |strings| == 0 then ""
    else if |strings| == 1 then strings[0]
    else Join(strings[..|strings| - 1], separator) + separator + strings[|strings| - 1]
  }

  /** The strings from the first non-empty one on. */
  function DropLeadingEmpty(strings: seq<string>): (r: seq<string>)
    ensures r != [] ==> r[0] != ""
    ensures |r| <= |strings| && r == strings[|strings| - |r|..]
  {
    if strings == [] then []
    else if strings[0] == "" then DropLeadingEmpty(strings[1..])
    else strings
  }

  lemma {:induction false} DropLeadingEmptyAppend(strings: seq<string>, s: string)
    ensures DropLeadingEmpty(strings + [s]) ==
      if DropLeadingEmpty(strings) == [] then (if s == "" then [] else [s])
      else DropLeadingEmpty(strings) + [s]
  {
    if strings != [] {
      assert (strings + [s])[1..] == strings[1..] + [s];
      if strings[0] == "" {
        DropLeadingEmptyAppend(strings[1..], s);
      }
    }
  }

  /** A join begins with its first string. */
  lemma {:induction false} JoinStartsWithFirst(strings: seq<string>, separator: string)
    requires strings != []
    ensures |Join(strings, separator)| >= |strings[0]|
    ensures Join(strings, separator)[..|strings[0]|] == strings[0]
  {
    if |strings| > 1 {
      JoinStartsWithFirst(strings[..|strings| - 1], separator);
    }
  }

  /** Joining one more string onto strings that begin with a non-empty one
      appends the separator and the string to a non-empty join. */
  lemma JoinAppend(strings: seq<string>, s: string, separator: string)
    requires strings != [] && strings[0] != ""
    ensures Join(strings, separator) != ""
    ensures Join(strings + [s], separator) == Join(strings, separator) + separator + s
  {
    JoinStartsWithFirst(strings, separator);
    var e := strings + [s];
    assert e[..|e| - 1] == strings;
  }

  /** Joining nothing, or a single string, gives that string. */
  lemma JoinSingle(s: string, separator: string)
    ensures Join(if s == "" then [] else [s], separator) == s
  {
  }

  /** One step of GROUP_CONCAT keeps the accumulated value equal to the join of
      the strings from the first non-empty one on. */
  lemma {:induction false} ConcatStep(strings: seq<string>, s: string, separator: string)
    ensures Join(DropLeadingEmpty(strings), separator) == "" ==>
      Join(DropLeadingEmpty(strings + [s]), separator) == s
    ensures Join(DropLeadingEmpty(strings), separator) != "" ==>
      Join(DropLeadingEmpty(strings + [s]), separator) == Join(DropLeadingEmpty(strings), separator) + separator + s
  {
    DropLeadingEmptyAppend(strings, s);
    var d := DropLeadingEmpty(strings);
    var e := DropLeadingEmpty(strings + [s]);
    if d == [] {
      assert e == if s == "" then [] else [s];
      JoinSingle(s, separator);
    } else {
      assert e == d + [s];
      JoinAppend(d, s, separator);
    }
  }

  class GroupConcatAggregation {
    var currentValue: string
    const separator: string
    ghost var added: seq<IdOrString>

    /** The separator is left out while the result is still empty, so leading
        empty strings vanish: the result is the join of the strings from the
        first non-empty one on. */
    ghost predicate Valid(sem: IdSemantics)
      reads this
    {
      currentValue == Join(DropLeadingEmpty(StringsOf(sem, added)), separator)
    }

    constructor (separator: string, ghost sem: IdSemantics)
      ensures Valid(sem) && added == [] && currentValue == "" && this.separator == separator
    {
      this.separator := separator;
      currentValue := "";
      added := [];
    }

    /** A value with no string form is skipped; otherwise the separator is
        appended when the result is non-empty, then the string. */
    method AddValue(value: IdOrString, sem: IdSemantics)
      requires Valid(sem)
      modifies this
      ensures Valid(sem) && added == old(added) + [value]
      ensures StringValue(sem, value).None? ==> currentValue == old(currentValue)
      ensures StringValue(sem, value).Some? ==>
        currentValue == (if old(currentValue) != "" then old(currentValue) + separator else old(currentValue))
                        + StringValue(sem, value).value
    {
      ghost var before := StringsOf(sem, added);
      var val := StringValue(sem, value);
      if val.Some? {
        ConcatStep(before, val.value, separator);
        if currentValue != "" {
          currentValue := currentValue + separator;
        }
        currentValue := currentValue + val.value;
      }
      added := added + [value];
      assert added[..|added| - 1] == old(added);
      assert added[|added| - 1] == value;
      if val.Some? {
        assert StringsOf(sem, added) == before + [val.value];
      } else {
        assert StringsOf(sem, added) == before;
      }
    }

    /** The concatenation, added to the local vocabulary. */
    function CalculateResult(localIndex: string -> Payload): (r: Id)
      reads this
      ensures r.kind == LocalVocabIndex && r.payload == localIndex(currentValue)
    {
      MakeFromLocalVocabIndex(localIndex(currentValue))
    }
  }

  /** When no string is empty, the accumulated value is the plain join. */
  lemma {:induction false} NoEmptyStringsGivePlainJoin(strings: seq<string>)
    requires forall i :: 0 <= i < |strings| ==> strings[i] != ""
    ensures DropLeadingEmpty(strings) == strings
  {
  }
}
