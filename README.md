# QLever engine core, modelled in Dafny

This project models seven self-contained pieces of the QLever SPARQL engine and
proves properties about them:

- **LRU cache with pinning** (`LRUCaches`, lru_cache.dfy). The cache keeps at
  most `capacity` entries in a recency list, most recently used first. An
  access map sends each key to its entry's position in that list. Pinned
  entries sit in a separate map; only an explicit erase removes them.
  Every operation keeps three invariants:
  - the list and the access map agree;
  - the list stays within the capacity;
  - no key is both pinned and listed.
- **Value getters** (`ValueGetters`, value_getters.dfy). These turn a cell (an
  Id, a string, or an `IdOrString` holding either) into the value a SPARQL
  built-in works on:
  - numeric value;
  - validity;
  - effective boolean value (section 17.2.2 of SPARQL 1.1 Query);
  - string value;
  - isIRI/isBlank/isLiteral;
  - isNumeric (the operand data types of section 17.1 of SPARQL 1.1 Query);
  - date;
  - literal from Id.

  The Id overloads that are declared in the header and defined in
  SparqlExpressionValueGetters.cpp, outside this model, are the
  function-valued fields of `IdSemantics`. Every getter takes them as a parameter and is proved for
  all of them.
- **Literal expression leaves** (`LiteralExpressions`, literal_expression.dfy;
  decimal rendering in decimal.dfy). This covers:
  - cache keys, including their two error cases;
  - classification of a leaf as constant or variable;
  - resolution of a variable through renamings `(?x AS ?y)` bound earlier in
    the SELECT clause, then grouped-constant folding;
  - the lazily filled cache of IRI and string literal lookups.
- **GROUP BY hash-map aggregators** (`GroupByAggregation`,
  group_by_aggregation.dfy). COUNT, SUM, AVG (count and error flag), MIN/MAX
  and GROUP_CONCAT are classes whose `AddValue` updates their fields. A ghost
  history of the added values states what each field means.
- **Result table** (`ResultTables`, result_table.dfy). This covers:
  - turning fixed-width rows of 1 to 5 columns into variable-width rows;
  - the result-type default;
  - the finished flag;
  - `swap` and the move constructor.
- **Triples view** (`TriplesViews`, triples_view.dfy). The ignored Id ranges
  are sorted and bracketed by sentinels, then turned into allowed ranges of
  relations by lower-bound searches. The relations in those ranges are
  scanned, and their triples are filtered by a caller predicate.
- **Runtime information** (`RuntimeInformations`, runtime_information.dfy).
  This covers the column-name inversion, the children's time, the operation
  time, the setters and getters, and adding children.

Common types:
- Wrappers holds `Option` and `Result`.
- value_ids.dfy holds the `Id` used by all of the above. global/Id.h is not
  part of this model. An Id is taken to be a datatype tag stored above a
  60-bit payload; the tag numbers and the integer encoding are this model's
  own choice. Doubles are kept as uninterpreted bit patterns.

## Model

| member | source | states |
|---|---|---|
| LRUCaches.SpliceKeepsIndex | src/util/LRUCache.h:86-87 | moving position i to the front, with positions before i shifted back by one and the key set to 0, leaves an access map that indexes the new list exactly |
| LRUCaches.PushKeepsIndex | src/util/LRUCache.h:94-95 | putting a new key at the front and shifting every position by one keeps the access map an exact index of the list |
| LRUCaches.PopKeepsIndex | src/util/LRUCache.h:101-102 | dropping the back entry together with its key in the access map keeps the index exact |
| LRUCaches.EraseKeepsIndex | src/util/LRUCache.h:211-213 | erasing a listed key's entry and moving later positions up by one keeps the index exact |
| LRUCaches.ListedIffIndexed | src/util/LRUCache.h:193 | a key is in the access map iff some list entry has it |
| LRUCaches.LRUCache.constructor | src/util/LRUCache.h:54-55 | a new cache has the given capacity, no entries, no pinned entries, and satisfies the invariant |
| LRUCaches.LRUCache.MoveToFront | src/util/LRUCache.h:155-157 | the key's entry becomes the first and the other entries keep their relative order (splice); the set of listed keys is unchanged |
| LRUCaches.LRUCache.PushFront | src/util/LRUCache.h:94-104 | the new entry goes to the front; when that exceeds the capacity exactly the back (least recently used) entry is dropped; the key is listed if the capacity is positive |
| LRUCaches.LRUCache.TryEmplace | src/util/LRUCache.h:74-106 | a pinned key returns (none, pinned value) and changes nothing; a listed key returns (none, its value) and moves to the front; an absent key gets the new value at the front, returned in both components, with the back entry evicted on overflow; the invariant (including list size at most capacity) is kept |
| LRUCaches.LRUCache.TryEmplacePinned | src/util/LRUCache.h:113-136 | a pinned key returns its value and changes nothing; a listed key moves out of the list and the access map into the pinned map with its value unchanged; an absent key is pinned with the new value, returned in both components; afterwards the key is pinned |
| LRUCaches.LRUCache.Get | src/util/LRUCache.h:140-159 | operator[]: a pinned value without reordering; a listed value, moved to the front; none, with nothing changed, for an absent key |
| LRUCaches.LRUCache.Insert | src/util/LRUCache.h:163-176 | the entry goes to the front, the back one is evicted on overflow, pinned entries are untouched and the invariant holds |
| LRUCaches.LRUCache.SetCapacity | src/util/LRUCache.h:179-188 | the eviction loop leaves the first nofElements entries (all of them if they fit), with the access map and the pinned entries consistent |
| LRUCaches.LRUCache.Contains | src/util/LRUCache.h:191-194 | true iff the key is pinned or some list entry has it |
| LRUCaches.LRUCache.Erase | src/util/LRUCache.h:198-214 | removes a pinned key from the pinned map, else a listed key's entry from the list, else nothing; afterwards the key is not contained |
| LRUCaches.LRUCache.Clear | src/util/LRUCache.h:217-224 | empties the list and the access map and leaves the pinned entries |
| ValueGetters.Visit | src/engine/sparqlExpressions/SparqlExpressionValueGetters.h:61-64 | every IdOrString overload gives the Id overload's result for an Id and the string overload's result for a string |
| ValueGetters.MakeNumericId | src/engine/sparqlExpressions/SparqlExpressionValueGetters.h:36-51 | NotNumeric gives exactly the Undefined Ids, an integer exactly the Int Ids (reading back the integer within the payload range), a double exactly the Double Ids carrying its bits |
| ValueGetters.ActualValue | src/engine/sparqlExpressions/SparqlExpressionValueGetters.h:69-75 | the input is returned unchanged |
| ValueGetters.NumericValueOf | src/engine/sparqlExpressions/SparqlExpressionValueGetters.h:55-64 | a string is never numeric; an Id gives the Id overload's value |
| ValueGetters.IsValid | src/engine/sparqlExpressions/SparqlExpressionValueGetters.h:83-89 | every string is valid; an Id gives the Id overload's answer |
| ValueGetters.EffectiveBooleanValue | src/engine/sparqlExpressions/SparqlExpressionValueGetters.h:100-107 | a string is False iff empty and True iff non-empty, never Undef |
| ValueGetters.StripQuotes | src/engine/sparqlExpressions/SparqlExpressionValueGetters.h:115-122 | a string of length at least 2 with a quote at both ends is the result between two quotes; any other string is returned unchanged |
| ValueGetters.StripQuotesOfQuoted | src/engine/sparqlExpressions/SparqlExpressionValueGetters.h:118-119 | stripping the quotes of a quoted string gives the string back |
| ValueGetters.StringValue | src/engine/sparqlExpressions/SparqlExpressionValueGetters.h:112-129 | a string always has a string value, its unquoted form |
| ValueGetters.LiteralFromId | src/engine/sparqlExpressions/SparqlExpressionValueGetters.h:200-218 | a string gives its unquoted form; an Id gives the Id overload's value |
| ValueGetters.LiteralFromIdAgreesOnStrings | src/engine/sparqlExpressions/SparqlExpressionValueGetters.h:203-211 | on strings the literal-from-Id getter and the string getter agree |
| ValueGetters.PrefixesExclusive | src/engine/sparqlExpressions/SparqlExpressionValueGetters.h:146-149 | the IRI, blank-node and literal prefixes begin with different characters, so no string has two of them |
| ValueGetters.IsSomething | src/engine/sparqlExpressions/SparqlExpressionValueGetters.h:133-145 | on a string, a Bool Id that is true iff the string starts with the kind's prefix |
| ValueGetters.IsIriOnRawStrings | src/engine/sparqlExpressions/SparqlExpressionValueGetters.h:146-155 | the prefixes are `<`, `_:` and `"`: `<http://x>` is an IRI, `plain` is not, `_:b0` is a blank node, `_x` is not, `"x"` is a literal |
| ValueGetters.IsNumeric | src/engine/sparqlExpressions/SparqlExpressionValueGetters.h:159-172 | a Bool Id, true iff the cell is an Id of datatype Int or Double (false for every string) |
| ValueGetters.DateValue | src/engine/sparqlExpressions/SparqlExpressionValueGetters.h:176-194 | a value iff the cell is a Date Id, and then its date; none for strings |
| ValueGetters.MadeNumericIdIsNumeric | src/engine/sparqlExpressions/SparqlExpressionValueGetters.h:160-164 | an Id made by makeNumericId is numeric iff the value was numeric, and is never a date |
| ValueIds.BitsInjective | src/engine/sparqlExpressions/LiteralExpression.h:100 | different Ids have different bit patterns |
| Decimal.NatToString | src/engine/sparqlExpressions/LiteralExpression.h:95 | the decimal rendering is a non-empty string of digits, one digit exactly below 10 |
| Decimal.NatToStringValue | src/engine/sparqlExpressions/LiteralExpression.h:95 | the digits `std::to_string` writes for a natural number denote that number |
| Decimal.NatToStringInjective | src/engine/sparqlExpressions/LiteralExpression.h:95 | different numbers render differently |
| Decimal.IntToString | src/engine/sparqlExpressions/LiteralExpression.h:95 | `std::to_string` of an integer: non-empty, a leading minus sign exactly for a negative number, digits everywhere else |
| Decimal.IntToStringInjective | src/engine/sparqlExpressions/LiteralExpression.h:109 | different integers render differently |
| LiteralExpressions.IsConstantExpression | src/engine/sparqlExpressions/LiteralExpression.h:114-116 | a leaf is constant exactly when it contains no variable |
| LiteralExpressions.VariableOrNone | src/engine/sparqlExpressions/LiteralExpression.h:120-125 | a variable iff the leaf is a variable leaf, and then its variable |
| LiteralExpressions.ContainedVariables | src/engine/sparqlExpressions/LiteralExpression.h:72-78 | at most one contained variable, and a variable is contained exactly when the leaf is that variable |
| LiteralExpressions.UnaggregatedVariables | src/engine/sparqlExpressions/LiteralExpression.h:81-87 | the unaggregated variables are exactly the contained ones |
| LiteralExpressions.ClassificationAgrees | src/engine/sparqlExpressions/LiteralExpression.h:114-116 | a leaf is constant iff it contains no variable iff it has no variable; otherwise both variable queries give exactly its variable |
| LiteralExpressions.CacheKey | src/engine/sparqlExpressions/LiteralExpression.h:90-111 | fails iff the leaf is an Id vector ("should not be cached") or a variable missing from the map ("Variable … not found"); an IRI is its own key |
| LiteralExpressions.VariableKeysEqualIffSameColumn | src/engine/sparqlExpressions/LiteralExpression.h:91-96 | two mapped variables get the same key iff they are mapped to the same column |
| LiteralExpressions.IdKeysInjective | src/engine/sparqlExpressions/LiteralExpression.h:99-100 | different Ids get different keys |
| LiteralExpressions.LiteralAndNumberKeysInjective | src/engine/sparqlExpressions/LiteralExpression.h:101-109 | different literals get different keys, and so do different numbers |
| LiteralExpressions.ResolveVariable | src/engine/sparqlExpressions/LiteralExpression.h:133-169 | terminates for ranked renamings; the result is fully resolved (a variable result has no pending alias and is not a foldable grouped variable); it is the variable itself, a binding from the SELECT clause, or the first-row Id of a grouped variable |
| LiteralExpressions.AliasChainCollapses | src/engine/sparqlExpressions/LiteralExpression.h:145-148 | a variable renamed from another one resolves exactly as that one does |
| LiteralExpressions.AliasBindingReturned | src/engine/sparqlExpressions/LiteralExpression.h:149-151 | a variable bound to anything but a variable evaluates to that binding |
| LiteralExpressions.GroupedVariableFolds | src/engine/sparqlExpressions/LiteralExpression.h:157-165 | a grouped, unbound variable outside an aggregate is the Id in its column at the group's first row, which equals the Id of every row of a constant group |
| LiteralExpressions.VariableLeftForColumnLookup | src/engine/sparqlExpressions/LiteralExpression.h:166-168 | in every other case the variable evaluates to itself |
| LiteralExpressions.RenamingChainExample | src/engine/sparqlExpressions/LiteralExpression.h:142-148 | with ?x bound to 5, `(?x AS ?y)` and `(?y AS ?z)`, ?z evaluates to 5 |
| LiteralExpressions.LookupCell | src/engine/sparqlExpressions/LiteralExpression.h:47-49 | an Id iff the vocabulary holds the string, and then that Id; otherwise the string itself |
| LiteralExpressions.LiteralExpression.constructor | src/engine/sparqlExpressions/LiteralExpression.h:27 | a new leaf holds its value with an empty cache |
| LiteralExpressions.LiteralExpression.Evaluate | src/engine/sparqlExpressions/LiteralExpression.h:40-69 | a variable resolves; an Id, an Id vector and a number are returned as they are; an IRI or literal returns the cached cell once the cache is set, else caches the vocabulary lookup and returns it unless cancelled; a coherent cache stays coherent and is returned |
| LiteralExpressions.LiteralExpression.EvaluateLexical | src/engine/sparqlExpressions/LiteralExpression.h:42-55 | the cached cell if any; otherwise the lookup is cached first and the cancellation check comes after |
| GroupByAggregation.CountValid | src/engine/GroupByHashMapOptimization.h:57-59 | the number of valid values never exceeds the number of values |
| GroupByAggregation.CountAggregation.constructor | src/engine/GroupByHashMapOptimization.h:54 | the count starts at 0 |
| GroupByAggregation.CountAggregation.AddValue | src/engine/GroupByHashMapOptimization.h:57-59 | the count grows by one exactly for a valid value, and stays the number of valid values added |
| GroupByAggregation.CountAggregation.CalculateResult | src/engine/GroupByHashMapOptimization.h:62-65 | an Int Id that reads back as the number of valid values added |
| GroupByAggregation.SumAggregation.constructor | src/engine/GroupByHashMapOptimization.h:112-115 | no error, integer sum valid, integer sum 0 |
| GroupByAggregation.SumAggregation.AddValue | src/engine/GroupByHashMapOptimization.h:118-136 | a non-numeric value sets the error for good, a double clears intSumValid for good, and an integer is added to intSum; the fields stay "some value was not numeric", "no value was a double" and "the sum of the integers" |
| GroupByAggregation.SumAggregation.CalculateResult | src/engine/GroupByHashMapOptimization.h:139-147 | Undefined iff some value was not numeric; otherwise, with no double, the Int of the integer sum |
| GroupByAggregation.AvgAggregation.constructor | src/engine/GroupByHashMapOptimization.h:30-32 | no error, count 0 |
| GroupByAggregation.AvgAggregation.AddValue | src/engine/GroupByHashMapOptimization.h:35-39 | every value is counted, numeric or not; a non-numeric value sets the error for good |
| GroupByAggregation.AvgAggregation.CalculateResult | src/engine/GroupByHashMapOptimization.h:42-48 | Undefined iff some value was not numeric |
| GroupByAggregation.ExtremumIsExtreme | src/engine/GroupByHashMapOptimization.h:104-107 | for a strict order, the accumulated value is one of the values and no value is preferred to it (the minimum for LT, the maximum for GT) |
| GroupByAggregation.ExtremumAggregation.constructor | src/engine/GroupByHashMapOptimization.h:71-72 | no first value yet |
| GroupByAggregation.ExtremumAggregation.AddValue | src/engine/GroupByHashMapOptimization.h:75-89 | the first value is stored unconditionally; a later one replaces the current value only when the comparison holds; the current value stays the fold of all values added |
| GroupByAggregation.ExtremumAggregation.CalculateResult | src/engine/GroupByHashMapOptimization.h:92-101 | an Id is returned as it is; a string becomes the LocalVocabIndex Id of its local-vocabulary index |
| GroupByAggregation.DropLeadingEmpty | src/engine/GroupByHashMapOptimization.h:160 | a suffix of the strings that is empty or starts with a non-empty string |
| GroupByAggregation.DropLeadingEmptyAppend | src/engine/GroupByHashMapOptimization.h:160-161 | appending one string to the list extends the kept suffix by it, or starts the suffix with it when it is non-empty |
| GroupByAggregation.JoinAppend | src/engine/GroupByHashMapOptimization.h:160-161 | appending a string to a join that starts with a non-empty string adds the separator and then the string |
| GroupByAggregation.JoinStartsWithFirst | src/engine/GroupByHashMapOptimization.h:160-161 | a join begins with its first string |
| GroupByAggregation.ConcatStep | src/engine/GroupByHashMapOptimization.h:157-163 | appending the separator when the result is non-empty and then the string is the join of the strings from the first non-empty one on |
| GroupByAggregation.GroupConcatAggregation.constructor | src/engine/GroupByHashMapOptimization.h:173-176 | empty result with the given separator |
| GroupByAggregation.GroupConcatAggregation.AddValue | src/engine/GroupByHashMapOptimization.h:157-163 | a value without a string form is skipped; otherwise the separator is appended iff the result is non-empty, then the string; the result stays the join of the strings added, from the first non-empty one on |
| GroupByAggregation.GroupConcatAggregation.CalculateResult | src/engine/GroupByHashMapOptimization.h:166-170 | the LocalVocabIndex Id of the concatenation's local-vocabulary index |
| GroupByAggregation.NoEmptyStringsGivePlainJoin | src/engine/GroupByHashMapOptimization.h:160-161 | when no string value is empty, the result is the plain join of all of them |
| ResultTables.ResultTable.FromParts | src/engine/ResultTable.h:26-33 | a table holding the given fields |
| ResultTables.ResultTable.Move | src/engine/ResultTable.h:39-46 | the new table takes over status, columns, sorting and both data stores but no result types (every column reads KB); the moved-from table has 0 columns, no data, a null fixed-size pointer and status OTHER, and keeps its result types |
| ResultTables.ResultTable.Swap | src/engine/ResultTable.h:58-65 | exchanges status, column count, sorted-by column and both data stores, and not the result types |
| ResultTables.ResultTable.Finish | src/engine/ResultTable.h:69-79 | afterwards the table is finished |
| ResultTables.ResultTable.IsFinished | src/engine/ResultTable.h:75-79 | true exactly when the status is not OTHER, i.e. FINISHED |
| ResultTables.ResultTable.ResultTypeOf | src/engine/ResultTable.h:129-134 | the recorded type for a recorded column, KB for any other; a non-KB answer is a recorded type |
| ResultTables.ResultTable.GetDataAsVarSize | src/engine/ResultTable.h:92-127 | non-empty var-size data is returned unchanged; otherwise for 1 to 5 columns one row per fixed row with exactly that row's Ids, in order; otherwise nothing |
| ResultTables.RepresentationIndependence | src/engine/ResultTable.h:92-127 | for 1 to 5 columns and any number of rows, including none, the same rows held in the fixed-size store or in the var-size store give the same result |
| TriplesViews.TriplesOfMembership | src/index/TriplesView.h:77-85 | a triple comes from a relation iff it starts with the relation's Id, continues with one of its rows, and is not rejected by isTripleIgnored |
| TriplesViews.ExpectedMembership | src/index/TriplesView.h:25-32 | a triple is yielded iff its relation's Id is below Id::max() and in no ignored range, it is a row of that relation, and isTripleIgnored is false for it |
| TriplesViews.ExpectedInIdOrder | src/index/TriplesView.h:71-86 | the yielded triples come in ascending order of their first Id |
| TriplesViews.TriplesOfFirst | src/index/TriplesView.h:77-85 | every triple of a relation starts with that relation's Id |
| TriplesViews.ExpectedFirstsBelow | src/index/TriplesView.h:71-86 | relations with Ids below x yield only triples whose first Id is below x |
| TriplesViews.DefaultsYieldAll | src/index/TriplesView.h:38-39 | with no ranges and a predicate that rejects nothing, exactly the triples of relations below Id::max() are yielded |
| TriplesViews.Insert | src/index/TriplesView.h:40 | one insertion step of the sort adds exactly the element to the multiset |
| TriplesViews.InsertElements | src/index/TriplesView.h:40 | an insertion step adds no element other than the inserted one |
| TriplesViews.DisjointFromPrefix | src/index/TriplesView.h:40 | under the non-overlap precondition, each range is disjoint from every range sorted before it |
| TriplesViews.InsertSeparated | src/index/TriplesView.h:40 | inserting a range disjoint from separated ranges keeps them separated |
| TriplesViews.SeparatedIsSorted | src/index/TriplesView.h:40 | separated well-formed ranges are in the lexicographic pair order |
| TriplesViews.SortRanges | src/index/TriplesView.h:40 | the result is a permutation of the ranges, in lexicographic order, each ending before the next begins |
| TriplesViews.WithSentinels | src/index/TriplesView.h:48-51 | the sorted ranges with (Id::min(), Id::min()) inserted at the front and (Id::max(), Id::max()) at the back |
| TriplesViews.SentinelsKeepOrder | src/index/TriplesView.h:50-51 | with the (min, min) and (max, max) sentinels the ranges stay separated; the inner ones are exactly ignored ranges |
| TriplesViews.LowerBound | src/index/TriplesView.h:58-67 | the binary search returns the position before which every relation Id is smaller than x and from which none is |
| TriplesViews.LowerBoundMonotone | src/index/TriplesView.h:57-69 | a larger bound never gives an earlier position, so each allowed range is well-formed and follows the previous one |
| TriplesViews.AllowedRanges | src/index/TriplesView.h:57-69 | allowed range i runs from the lower bound of range i's end to the lower bound of range i+1's start |
| TriplesViews.KeptBetween | src/index/TriplesView.h:55-69 | an Id between the end of one range and the start of the next is below Id::max() and in no ignored range |
| TriplesViews.AllowedKept | src/index/TriplesView.h:57-69 | every relation inside an allowed range is kept |
| TriplesViews.GapUnkept | src/index/TriplesView.h:57-69 | the relations between two allowed ranges lie in an ignored range |
| TriplesViews.ExpectedStep | src/index/TriplesView.h:71-88 | one more relation adds its triples when it is kept and nothing otherwise |
| TriplesViews.SegmentOfKept | src/index/TriplesView.h:71-88 | over positions whose relations are all kept, the expected output grows by all their triples in order |
| TriplesViews.SkipUnkept | src/index/TriplesView.h:71-72 | relations that are not scanned contribute no triple |
| TriplesViews.ScanRelation | src/index/TriplesView.h:77-85 | the triples of one relation's rows that isTripleIgnored does not reject, in row order |
| TriplesViews.ScanAllowed | src/index/TriplesView.h:71-88 | scanning one allowed range appends exactly those relations' triples |
| TriplesViews.TriplesView | src/index/TriplesView.h:34-90 | for well-formed, non-overlapping ranges the result is exactly the triples of the kept relations in Id order, and only kept relations are scanned |
| RuntimeInformations.ChildrenTimeAppend | src/engine/RuntimeInformation.h:130-136 | adding a child adds its time to the children's time |
| RuntimeInformations.ChildrenTimeNonNegative | src/engine/RuntimeInformation.h:130-136 | children with non-negative times have a non-negative total |
| RuntimeInformations.OperationTime | src/engine/RuntimeInformation.h:121-127 | the total time when cached; otherwise the operation time and the children's time add up to the total |
| RuntimeInformations.Resized | src/engine/RuntimeInformation.h:97 | vector resize: the new length, the old names kept where they fit, empty names after them |
| RuntimeInformations.RuntimeInformation.constructor | src/engine/RuntimeInformation.h:32-40 | zero time, rows and columns, not cached, no descriptor, column names or children |
| RuntimeInformations.RuntimeInformation.Snapshot | src/engine/RuntimeInformation.h:140 | the copy holds every field of the object |
| RuntimeInformations.RuntimeInformation.SetDescriptor | src/engine/RuntimeInformation.h:91-93 | sets the descriptor and nothing else |
| RuntimeInformations.RuntimeInformation.SetColumnNames | src/engine/RuntimeInformation.h:95-101 | one name per map entry; the name at a column's index is a column mapped to that index; indices that no column claims keep the resized old name; for a map with distinct indices each column's name sits at its index |
| RuntimeInformations.RuntimeInformation.SetTime | src/engine/RuntimeInformation.h:104-107 | getTime returns the time set, and nothing else changes |
| RuntimeInformations.RuntimeInformation.SetRows | src/engine/RuntimeInformation.h:110-113 | getRows returns the rows set, and nothing else changes |
| RuntimeInformations.RuntimeInformation.SetCols | src/engine/RuntimeInformation.h:116-119 | getCols returns the columns set, and nothing else changes |
| RuntimeInformations.RuntimeInformation.GetTime | src/engine/RuntimeInformation.h:106-107 | the overall time recorded in the object's snapshot |
| RuntimeInformations.RuntimeInformation.GetRows | src/engine/RuntimeInformation.h:112-113 | the row count recorded in the object's snapshot |
| RuntimeInformations.RuntimeInformation.GetCols | src/engine/RuntimeInformation.h:118-119 | the column count recorded in the object's snapshot |
| RuntimeInformations.RuntimeInformation.SetWasCached | src/engine/RuntimeInformation.h:138 | sets the cached flag and nothing else |
| RuntimeInformations.RuntimeInformation.GetChildrenTime | src/engine/RuntimeInformation.h:130-136 | the loop's sum is the sum of the children's total times |
| RuntimeInformations.RuntimeInformation.GetOperationTime | src/engine/RuntimeInformation.h:121-127 | the operation time of the current state: the total when cached, otherwise the total minus the children's time |
| RuntimeInformations.RuntimeInformation.AddChild | src/engine/RuntimeInformation.h:140 | appends a copy of the child taken before the call, keeps earlier children, and raises the children's time by the child's time |

## Left out

- LiteralExpressions.ResolveVariable: two assumptions are preconditions rather than modelled behaviour. (1) `AliasesRanked`: renamings in `previousResults` form no cycle. The source follows a renaming chain by unbounded recursion (LiteralExpression.h:145-148), so on a cyclic chain it never terminates; the model does not describe that case. (2) `GroupedReadable`: every grouped variable has a column and a readable first-row cell, although the source reads the table only for the grouped variable being evaluated outside an aggregate (LiteralExpression.h:157-160). The failure paths of `getColumnIndexForVariable` and `table.at` are therefore not modelled.
- Concurrency is not modelled; every operation is one sequential step. This covers:
  - the mutex of the LRU cache;
  - the condition variable and `awaitFinished` of the result table;
  - the atomic exchange of the literal cache.
- The LRU cache's values are plain values; the sharing and lifetime given by `shared_ptr` are not modelled.
- LRUCaches.LRUCache.Insert: requires the key to be neither listed nor pinned. The source does not check this. With a duplicate, the old entry stays in the list and its later eviction removes the live key from the access map, which breaks the cache's invariant.
- global/Id.h is not part of this model. The Id layout is this model's own choice (a tag above a 60-bit payload), so `getBits` values are not the source's.
- Floating point is not modelled:
  - NaN handling in `makeNumericId`;
  - the double sum of SUM;
  - the mean of AVG;
  - fixed-precision formatting.
- GroupByAggregation.SumAggregation.CalculateResult: the double result is represented by `None`, not by a Double Id.
- GroupByAggregation.AvgAggregation.CalculateResult: the mean is represented by `None`.
- RuntimeInformation times are `real`, not `double`, so rounding is not modelled.
- GroupByAggregation.CountAggregation.CalculateResult: the count read back from the Int Id is stated only below 2^59, the model's payload range. The 64-bit wrap-around of `count_` is not modelled.
- GroupByAggregation.SumAggregation.AddValue: `intSum_` is an unbounded integer; the 64-bit overflow of `int64_t` is not modelled.
- Some Id overloads are declared in the header and defined in SparqlExpressionValueGetters.cpp: numeric value, validity, effective boolean value, string value, isIRI/isBlank/isLiteral on an Id, and literal from Id. They are uninterpreted parameters (`IdSemantics`), so nothing is proved about their results.
- `RegexValueGetter` is not modelled, because compiling an RE2 regular expression lies outside this model.
- Calls into code outside this model become parameters:
  - the vocabulary lookup `getIndex().getId` is `vocabulary`;
  - `compareIdsOrStrings` is `prefers`;
  - `LocalVocab::getIndexAndAddIfNotContained` is `localIndex`, and the local vocabulary's growth is not modelled;
  - `throwIfCancelled` in the literal expression is the `cancelled` flag.
- The cancellation check of the triples view is not modelled.
- `permutation.lazyScan` is not modelled. A relation is given as the concatenation of its blocks' rows, and the generator's laziness is not modelled either.
- TriplesViews.TriplesView: relation Ids are integers from `MinId` to `MaxId`, standing in for the order of `Id` between `Id::min()` and `Id::max()`.
- TriplesViews.TriplesView: requires every ignored range `(a, b)` to have `a <= b`, in addition to the non-overlap the source requires.
- TriplesViews.SortRanges: `std::sort` is modelled by an insertion sort. Under the preconditions the sorted order is unique, so the result is the same.
- ExtremumAggregation starts from the undefined Id. The default value of `IdOrString` comes from its definition in a header outside this model; the field is overwritten by the first value before it is read.
- `ResultTable` members declared in ResultTable.h and defined in ResultTable.cpp are replaced by `FromParts`:
  - the default constructor, the copy constructor and the destructor;
  - `size`, `clear` and `asDebugString`.
- The result table's copy and move assignments (swap with the argument) are not modelled.
- RuntimeInformation: `toString`, `writeToStream`, `to_json` and `addDetail` are not modelled. These are stream and JSON output, and the JSON details object is not part of this model.
- test/IndexTest.cpp (integration tests over an on-disk index) is not part of this model.
- src/global/IndexTypes.h (type aliases only) is not part of this model.
- Strings are sequences of characters; byte encoding is not modelled.
