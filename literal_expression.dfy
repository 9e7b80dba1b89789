/** The leaves of the SPARQL expression tree (`LiteralExpression<T>`): a variable,
    an IRI, a string literal, an Id, a vector of Ids or a plain number. One
    variant datatype stands for the template instantiations; the lazily filled
    literal cache makes the leaf itself a class. */
module LiteralExpressions {
  import opened Wrappers
  import opened ValueIds
  import Decimal

  datatype Variable = Variable(name: string)

  /** The `T` of `LiteralExpression<T>`. */
  datatype Literal =
    | VariableLit(variable: Variable)
    | IriLit(iri: string)
    | StringLit(rawContent: string)
    | IdLit(id: Id)
    | IdVectorLit(ids: seq<Id>)
    | NumberLit(number: int)

  /** The part of `ExpressionResult` that a leaf can produce. */
  datatype ExpressionResult =
    | CellResult(cell: IdOrString)
    | IdResult(id: Id)
    | VariableResult(variable: Variable)
    | VectorResult(ids: seq<Id>)
    | NumberResult(number: int)

  /** An exception thrown out of an evaluation, or the cancellation that aborts it. */
  datatype EvaluationError = Thrown(message: string) | Cancelled

  /** The parts of `EvaluationContext` a leaf reads. `vocabulary` is the index
      lookup `getIndex().getId`; `cancelled` is what `throwIfCancelled` polls. */
  datatype EvaluationContext = EvaluationContext(
    inputTable: seq<seq<Id>>,
    beginIndex: nat,
    endIndex: nat,
    columns: map<Variable, nat>,
    groupedVariables: set<Variable>,
    previousResults: map<Variable, ExpressionResult>,
    vocabulary: string -> Option<Id>,
    cancelled: bool)

  // ---------------------------------------------------------------------------
  // Classification of a leaf

  function IsConstantExpression(lit: Literal): (r: bool)
    ensures r <==> ContainedVariables(lit) == []
  {
    !lit.VariableLit?
  }

  function VariableOrNone(lit: Literal): (r: Option<Variable>)
    ensures r.Some? <==> lit.VariableLit?
    ensures r.Some? ==> r.value == lit.variable
  {
    if lit.VariableLit? then Some(lit.variable) else None
  }

  /** The variables a leaf contains: its own variable, if it is one. */
  function ContainedVariables(lit: Literal): (r: seq<Variable>)
    ensures |r| <= 1
    ensures forall v :: v in r <==> lit.VariableLit? && v == lit.variable
  {
    if lit.VariableLit? then [lit.variable] else []
  }

  /** A leaf is never an aggregate, so its unaggregated variables are the ones it contains. */
  function UnaggregatedVariables(lit: Literal): (r: seq<Variable>)
    ensures r == ContainedVariables(lit)
  {
    if lit.VariableLit? then [lit.variable] else []
  }

  /** A leaf is constant exactly when it contains no variable; otherwise the
      variable queries name its one variable. */
  lemma ClassificationAgrees(lit: Literal)
    ensures IsConstantExpression(lit) <==> ContainedVariables(lit) == []
    ensures IsConstantExpression(lit) <==> VariableOrNone(lit).None?
    ensures !IsConstantExpression(lit) ==> ContainedVariables(lit) == [VariableOrNone(lit).value]
  {
  }

  // ---------------------------------------------------------------------------
  // Cache keys

  const NotCacheableMessage: string := "Trying to get cache key for value that should not be cached."

  function VariableNotFoundMessage(v: Variable): string
  {
    "Variable " + v.name + " not found"
  }

  function ColumnKey(column: nat): string
  {
    "#column_" + Decimal.NatToString(column) + "#"
  }

  /** `getCacheKey`: a variable is keyed by its column, so that the key does not
      depend on the variable's name; a vector of Ids must never be cached. */
  function CacheKey(lit: Literal, varColMap: map<Variable, nat>): (r: Result<string, EvaluationError>)
    ensures r.Failure? <==> lit.IdVectorLit? || (lit.VariableLit? && lit.variable !in varColMap)
    ensures lit.IdVectorLit? ==> r == Failure(Thrown(NotCacheableMessage))
    ensures lit.VariableLit? && lit.variable !in varColMap ==> r == Failure(Thrown(VariableNotFoundMessage(lit.variable)))
    ensures lit.IriLit? ==> r == Success(lit.iri)
  {
    match lit
    case VariableLit(v) =>
      if v !in varColMap then Failure(Thrown(VariableNotFoundMessage(v)))
      else Success(ColumnKey(varColMap[v]))
    case IriLit(iri) => Success(iri)
    case IdLit(id) => Success("#valueId " + Decimal.NatToString(Bits(id)) + "#")
    case StringLit(raw) => Success("#literal: " + raw)
    case IdVectorLit(_) => Failure(Thrown(NotCacheableMessage))
    case NumberLit(n) => Success(Decimal.IntToString(n))
  }

  /** Removes a known prefix and suffix from a string. */
  lemma StripAffixes(p: string, x: string, y: string, q: string)
    requires p + x + q == p + y + q
    ensures x == y
  {
    assert x == (p + x + q)[|p|..|p| + |x|];
    assert |x| == |y|;
    assert y == (p + y + q)[|p|..|p| + |y|];
  }

  /** Two variables get the same cache key exactly when they are mapped to the same column. */
  lemma {:induction false} VariableKeysEqualIffSameColumn(v: Variable, w: Variable, varColMap: map<Variable, nat>)
    requires v in varColMap && w in varColMap
    ensures CacheKey(VariableLit(v), varColMap) == CacheKey(VariableLit(w), varColMap)
        <==> varColMap[v] == varColMap[w]
  {
    if CacheKey(VariableLit(v), varColMap) == CacheKey(VariableLit(w), varColMap) {
      StripAffixes("#column_", Decimal.NatToString(varColMap[v]), Decimal.NatToString(varColMap[w]), "#");
      Decimal.NatToStringInjective(varColMap[v], varColMap[w]);
    }
  }

  /** Different Ids get different cache keys. */
  lemma {:induction false} IdKeysInjective(a: Id, b: Id, varColMap: map<Variable, nat>)
    ensures CacheKey(IdLit(a), varColMap) == CacheKey(IdLit(b), varColMap) ==> a == b
  {
    if CacheKey(IdLit(a), varColMap) == CacheKey(IdLit(b), varColMap) {
      StripAffixes("#valueId ", Decimal.NatToString(Bits(a)), Decimal.NatToString(Bits(b)), "#");
      Decimal.NatToStringInjective(Bits(a), Bits(b));
      BitsInjective(a, b);
    }
  }

  /** Different string literals and different numbers get different cache keys. */
  lemma {:induction false} LiteralAndNumberKeysInjective(s: string, t: string, m: int, n: int, varColMap: map<Variable, nat>)
    ensures CacheKey(StringLit(s), varColMap) == CacheKey(StringLit(t), varColMap) ==> s == t
    ensures CacheKey(NumberLit(m), varColMap) == CacheKey(NumberLit(n), varColMap) ==> m == n
  {
    if CacheKey(StringLit(s), varColMap) == CacheKey(StringLit(t), varColMap) {
      StripAffixes("#literal: ", s, t, "");
    }
    Decimal.IntToStringInjective(m, n);
  }

  // ---------------------------------------------------------------------------
  // Variable resolution

  /** The Id `table.at(beginIndex, column)` can be read for every grouped variable. */
  ghost predicate GroupedReadable(ctx: EvaluationContext)
  {
    forall g :: g in ctx.groupedVariables ==>
      g in ctx.columns && ctx.beginIndex < |ctx.inputTable| && ctx.columns[g] < |ctx.inputTable[ctx.beginIndex]|
  }

  /** Renamings `(?x AS ?y)` only refer to variables bound before them in the
      SELECT clause: `rank` is the position of each alias, and every renaming
      that resolution follows goes to a smaller position. */
  ghost predicate AliasesRanked(ctx: EvaluationContext, rank: map<Variable, nat>)
  {
    forall v :: v in ctx.previousResults && v !in ctx.groupedVariables && ctx.previousResults[v].VariableResult? ==>
      v in rank && ctx.previousResults[v].variable in rank && rank[ctx.previousResults[v].variable] < rank[v]
  }

  /** A result in which nothing is left to resolve: a variable result names a
      variable that has no pending alias and is not a foldable grouped variable. */
  ghost predicate Resolved(ctx: EvaluationContext, insideAggregate: bool, r: ExpressionResult)
  {
    r.VariableResult? ==>
      && !(r.variable in ctx.previousResults && r.variable !in ctx.groupedVariables)
      && !(r.variable in ctx.groupedVariables && !insideAggregate)
  }

  /** `evaluateIfVariable`: follow a renaming chain bound earlier in the SELECT
      clause, else read a grouped variable from the first row of the group, else
      leave the variable for the caller to look up by column. */
  function ResolveVariable(ctx: EvaluationContext, insideAggregate: bool, v: Variable, ghost rank: map<Variable, nat>): (r: ExpressionResult)
    requires GroupedReadable(ctx) && AliasesRanked(ctx, rank)
    ensures Resolved(ctx, insideAggregate, r)
    ensures r.VariableResult? ==> r.variable == v || r in ctx.previousResults.Values
    ensures r.IdResult? ==>
      || r in ctx.previousResults.Values
      || exists g :: g in ctx.groupedVariables && r.id == ctx.inputTable[ctx.beginIndex][ctx.columns[g]]
    ensures !r.VariableResult? && !r.IdResult? ==> r in ctx.previousResults.Values
    decreases if v in rank then rank[v] else 0
  {
    if v in ctx.previousResults && v !in ctx.groupedVariables then
      var bound := ctx.previousResults[v];
      if bound.VariableResult? then
        ResolveVariable(ctx, insideAggregate, bound.variable, rank)
      else
        bound
    else if v in ctx.groupedVariables && !insideAggregate then
      IdResult(ctx.inputTable[ctx.beginIndex][ctx.columns[v]])
    else
      VariableResult(v)
  }

  /** A renaming chain collapses: a variable renamed from another resolves as that one does. */
  lemma AliasChainCollapses(ctx: EvaluationContext, insideAggregate: bool, v: Variable, rank: map<Variable, nat>)
    requires GroupedReadable(ctx) && AliasesRanked(ctx, rank)
    requires v in ctx.previousResults && v !in ctx.groupedVariables && ctx.previousResults[v].VariableResult?
    ensures ResolveVariable(ctx, insideAggregate, v, rank)
         == ResolveVariable(ctx, insideAggregate, ctx.previousResults[v].variable, rank)
  {
  }

  /** A variable bound earlier to anything but a variable evaluates to that binding. */
  lemma AliasBindingReturned(ctx: EvaluationContext, insideAggregate: bool, v: Variable, rank: map<Variable, nat>)
    requires GroupedReadable(ctx) && AliasesRanked(ctx, rank)
    requires v in ctx.previousResults && v !in ctx.groupedVariables && !ctx.previousResults[v].VariableResult?
    ensures ResolveVariable(ctx, insideAggregate, v, rank) == ctx.previousResults[v]
  {
  }

  /** All rows of the group hold the same Id in `column`. */
  ghost predicate SliceConstant(ctx: EvaluationContext, column: nat)
  {
    ctx.beginIndex < |ctx.inputTable| && column < |ctx.inputTable[ctx.beginIndex]| &&
    forall i :: ctx.beginIndex <= i < ctx.endIndex && i < |ctx.inputTable| && column < |ctx.inputTable[i]| ==>
      ctx.inputTable[i][column] == ctx.inputTable[ctx.beginIndex][column]
  }

  /** A grouped variable outside an aggregate is folded to the Id of the first
      row of the group, which is the Id of every row of a constant group. */
  lemma GroupedVariableFolds(ctx: EvaluationContext, v: Variable, rank: map<Variable, nat>, i: nat)
    requires GroupedReadable(ctx) && AliasesRanked(ctx, rank)
    requires v in ctx.groupedVariables
    requires SliceConstant(ctx, ctx.columns[v])
    requires ctx.beginIndex <= i < ctx.endIndex && i < |ctx.inputTable| && ctx.columns[v] < |ctx.inputTable[i]|
    ensures ResolveVariable(ctx, false, v, rank) == IdResult(ctx.inputTable[i][ctx.columns[v]])
  {
  }

  /** Inside an aggregate, or when neither bound nor grouped, a variable stays a variable. */
  lemma VariableLeftForColumnLookup(ctx: EvaluationContext, insideAggregate: bool, v: Variable, rank: map<Variable, nat>)
    requires GroupedReadable(ctx) && AliasesRanked(ctx, rank)
    requires v !in ctx.previousResults || v in ctx.groupedVariables
    requires v !in ctx.groupedVariables || insideAggregate
    ensures ResolveVariable(ctx, insideAggregate, v, rank) == VariableResult(v)
  {
  }

  /** `(?x AS ?y)`, `(?y AS ?z)` with `?x` bound to 5: `?z` evaluates to 5. */
  lemma RenamingChainExample(table: seq<seq<Id>>, vocabulary: string -> Option<Id>)
    ensures
      var x, y, z := Variable("?x"), Variable("?y"), Variable("?z");
      var ctx := EvaluationContext(table, 0, |table|, map[], {},
        map[x := NumberResult(5), y := VariableResult(x), z := VariableResult(y)], vocabulary, false);
      var rank := map[x := 0, y := 1, z := 2];
      AliasesRanked(ctx, rank) && ResolveVariable(ctx, false, z, rank) == NumberResult(5)
  {
    var x, y, z := Variable("?x"), Variable("?y"), Variable("?z");
    assert x != y && y != z && x != z by {
      assert x.name[1] != y.name[1] && y.name[1] != z.name[1] && x.name[1] != z.name[1];
    }
    var ctx := EvaluationContext(table, 0, |table|, map[], {},
      map[x := NumberResult(5), y := VariableResult(x), z := VariableResult(y)], vocabulary, false);
    var rank := map[x := 0, y := 1, z := 2];
    assert AliasesRanked(ctx, rank);
    AliasChainCollapses(ctx, false, z, rank);
    AliasChainCollapses(ctx, false, y, rank);
    AliasBindingReturned(ctx, false, x, rank);
  }

  // ---------------------------------------------------------------------------
  // Evaluation and the literal cache

  predicate HasLexicalForm(lit: Literal)
  {
    lit.IriLit? || lit.StringLit?
  }

  /** The string handed to the vocabulary: the IRI, or the literal's `rawContent()`. */
  function LexicalForm(lit: Literal): string
    requires HasLexicalForm(lit)
  {
    if lit.IriLit? then lit.iri else lit.rawContent
  }

  /** The Id the vocabulary holds for `s`, or `s` itself. */
  function LookupCell(vocabulary: string -> Option<Id>, s: string): (c: IdOrString)
    ensures c.IsId? <==> vocabulary(s).Some?
    ensures c.IsId? ==> c.id == vocabulary(s).value
    ensures c.IsString? ==> c.str == s
  {
    match vocabulary(s)
    case Some(id) => IsId(id)
    case None => IsString(s)
  }

  class LiteralExpression {
    const value: Literal
    /** `cachedResult_`: filled by the first evaluation of an IRI or a string literal. */
    var cachedResult: Option<IdOrString>

    ghost predicate Valid()
      reads this
    {
      cachedResult.Some? ==> HasLexicalForm(value)
    }

    /** The cache holds what the vocabulary gives for the leaf's lexical form. */
    ghost predicate CacheCoherent(vocabulary: string -> Option<Id>)
      reads this
    {
      cachedResult.Some? ==> HasLexicalForm(value) && cachedResult.value == LookupCell(vocabulary, LexicalForm(value))
    }

    constructor (value: Literal)
      ensures this.value == value && cachedResult.None?
      ensures Valid()
    {
      this.value := value;
      cachedResult := None;
    }

    /** `evaluate`. An IRI or string literal returns the cached cell once the
        cache is set; otherwise it looks its lexical form up, stores the cell in
        the cache and then aborts if the evaluation was cancelled. */
    method Evaluate(ctx: EvaluationContext, insideAggregate: bool, ghost rank: map<Variable, nat>)
      returns (r: Result<ExpressionResult, EvaluationError>)
      requires Valid()
      requires value.VariableLit? ==> GroupedReadable(ctx) && AliasesRanked(ctx, rank)
      modifies this
      ensures Valid()
      ensures !HasLexicalForm(value) ==> cachedResult == old(cachedResult)
      ensures value.VariableLit? ==> r == Success(ResolveVariable(ctx, insideAggregate, value.variable, rank))
      ensures value.IdLit? ==> r == Success(IdResult(value.id))
      ensures value.IdVectorLit? ==> r == Success(VectorResult(value.ids))
      ensures value.NumberLit? ==> r == Success(NumberResult(value.number))
      ensures HasLexicalForm(value) && old(cachedResult).Some? ==>
        r == Success(CellResult(old(cachedResult).value)) && cachedResult == old(cachedResult)
      ensures HasLexicalForm(value) && old(cachedResult).None? ==>
        && cachedResult == Some(LookupCell(ctx.vocabulary, LexicalForm(value)))
        && r == if ctx.cancelled then Failure(Cancelled) else Success(CellResult(cachedResult.value))
      ensures old(CacheCoherent(ctx.vocabulary)) ==> CacheCoherent(ctx.vocabulary)
      ensures HasLexicalForm(value) && old(CacheCoherent(ctx.vocabulary)) && r.Success? ==>
        r.value == CellResult(LookupCell(ctx.vocabulary, LexicalForm(value)))
    {
      match value {
        case IriLit(iri) => r := EvaluateLexical(ctx, iri);
        case StringLit(raw) => r := EvaluateLexical(ctx, raw);
        case VariableLit(v) => r := Success(ResolveVariable(ctx, insideAggregate, v, rank));
        case IdVectorLit(ids) => r := Success(VectorResult(ids));
        case IdLit(id) => r := Success(IdResult(id));
        case NumberLit(n) => r := Success(NumberResult(n));
      }
    }

    /** The lambda `getIdOrString` shared by the IRI and the string literal case. */
    method EvaluateLexical(ctx: EvaluationContext, s: string) returns (r: Result<ExpressionResult, EvaluationError>)
      requires HasLexicalForm(value) && s == LexicalForm(value)
      modifies this
      ensures old(cachedResult).Some? ==> r == Success(CellResult(old(cachedResult).value)) && cachedResult == old(cachedResult)
      ensures old(cachedResult).None? ==>
        && cachedResult == Some(LookupCell(ctx.vocabulary, s))
        && r == if ctx.cancelled then Failure(Cancelled) else Success(CellResult(cachedResult.value))
    {
      if cachedResult.Some? {
        return Success(CellResult(cachedResult.value));
      }
      var result := LookupCell(ctx.vocabulary, s);
      cachedResult := Some(result);
      if ctx.cancelled {
        return Failure(Cancelled);
      }
      r := Success(CellResult(result));
    }
  }
}
