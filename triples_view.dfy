/** `TriplesView`: every triple of a permutation, relation by relation in Id
    order, except the relations whose Id lies in one of the ignored ranges
    `[a, b)` (these are never scanned) and the triples the caller's
    `isTripleIgnored` rejects. Ids are ordered as the integers from `MinId`
    (`Id::min()`) to `MaxId` (`Id::max()`); a relation is scanned as one
    sequence of (second, third) rows, the concatenation of its blocks. */
module TriplesViews {

  const MinId: int := 0
  const MaxId: int := 0xFFFF_FFFF_FFFF_FFFF

  type RelId = x: int | MinId <= x <= MaxId

  /** An ignored range `(a, b)`: the Ids `a <= id < b`. */
  type IdRange = (RelId, RelId)

  datatype Triple = Triple(first: RelId, second: RelId, third: RelId)

  /** A relation of the permutation: its Id and the rows of its other two columns. */
  datatype Relation = Relation(id: RelId, rows: seq<(RelId, RelId)>)

  /** The permutation's metadata lists every relation once, in Id order. */
  predicate Ordered(perm: seq<Relation>)
  {
    forall i, j :: 0 <= i < j < |perm| ==> perm[i].id < perm[j].id
  }

  predicate InRange(id: int, r: IdRange)
  {
    r.0 <= id < r.1
  }

  /** A relation is scanned iff its Id is below `Id::max()` and in no ignored range. */
  predicate Kept(id: RelId, ignored: seq<IdRange>)
  {
    id < MaxId && forall j :: 0 <= j < |ignored| ==> !InRange(id, ignored[j])
  }

  /** The triples of one relation that `isIgnored` lets through, in row order. */
  function TriplesOf(id: RelId, rows: seq<(RelId, RelId)>, isIgnored: Triple -> bool): seq<Triple>
  {
    if |rows| == 0 then []
    else
      var t := Triple(id, rows[|rows| - 1].0, rows[|rows| - 1].1);
      TriplesOf(id, rows[..|rows| - 1], isIgnored) + (if isIgnored(t) then [] else [t])
  }

  /** The triples the view yields, relation by relation. */
  function Expected(perm: seq<Relation>, ignored: seq<IdRange>, isIgnored: Triple -> bool): seq<Triple>
  {
    if |perm| == 0 then []
    else
      var rel := perm[|perm| - 1];
      Expected(perm[..|perm| - 1], ignored, isIgnored)
        + (if Kept(rel.id, ignored) then TriplesOf(rel.id, rel.rows, isIgnored) else [])
  }

  lemma {:induction false} TriplesOfMembership(id: RelId, rows: seq<(RelId, RelId)>, isIgnored: Triple -> bool, t: Triple)
    ensures t in TriplesOf(id, rows, isIgnored) <==> t.first == id && (t.second, t.third) in rows && !isIgnored(t)
  {
    if |rows| > 0 {
      TriplesOfMembership(id, rows[..|rows| - 1], isIgnored, t);
      assert rows == rows[..|rows| - 1] + [rows[|rows| - 1]];
    }
  }

  /** A triple is yielded iff it belongs to a scanned relation and `isIgnored` accepts it. */
  lemma {:induction false} ExpectedMembership(perm: seq<Relation>, ignored: seq<IdRange>, isIgnored: Triple -> bool, t: Triple)
    ensures t in Expected(perm, ignored, isIgnored) <==>
      exists k :: 0 <= k < |perm| && perm[k].id == t.first && Kept(perm[k].id, ignored)
        && (t.second, t.third) in perm[k].rows && !isIgnored(t)
  {
    if |perm| > 0 {
      var n := |perm| - 1;
      var rel := perm[n];
      ExpectedMembership(perm[..n], ignored, isIgnored, t);
      TriplesOfMembership(rel.id, rel.rows, isIgnored, t);
      if t in Expected(perm, ignored, isIgnored) {
        if t in Expected(perm[..n], ignored, isIgnored) {
          var k :| 0 <= k < n && perm[..n][k].id == t.first && Kept(perm[..n][k].id, ignored)
            && (t.second, t.third) in perm[..n][k].rows && !isIgnored(t);
          assert perm[k] == perm[..n][k];
        } else {
          assert perm[n].id == t.first;
        }
      }
      if exists k :: 0 <= k < |perm| && perm[k].id == t.first && Kept(perm[k].id, ignored)
          && (t.second, t.third) in perm[k].rows && !isIgnored(t) {
        var k :| 0 <= k < |perm| && perm[k].id == t.first && Kept(perm[k].id, ignored)
          && (t.second, t.third) in perm[k].rows && !isIgnored(t);
        if k < n {
          assert perm[..n][k] == perm[k];
        }
      }
    }
  }

  predicate FirstsAscending(triples: seq<Triple>)
  {
    forall i, j :: 0 <= i < j < |triples| ==> triples[i].first <= triples[j].first
  }

  lemma {:induction false} TriplesOfFirst(id: RelId, rows: seq<(RelId, RelId)>, isIgnored: Triple -> bool)
    ensures forall i :: 0 <= i < |TriplesOf(id, rows, isIgnored)| ==> TriplesOf(id, rows, isIgnored)[i].first == id
  {
    if |rows| > 0 {
      TriplesOfFirst(id, rows[..|rows| - 1], isIgnored);
    }
  }

  /** Relations with Ids below `x` yield only triples whose first Id is below `x`. */
  lemma {:induction false} ExpectedFirstsBelow(perm: seq<Relation>, ignored: seq<IdRange>, isIgnored: Triple -> bool, x: int)
    requires forall k :: 0 <= k < |perm| ==> perm[k].id < x
    ensures forall i :: 0 <= i < |Expected(perm, ignored, isIgnored)| ==> Expected(perm, ignored, isIgnored)[i].first < x
  {
    if |perm| > 0 {
      var n := |perm| - 1;
      assert forall k :: 0 <= k < n ==> perm[..n][k] == perm[k];
      ExpectedFirstsBelow(perm[..n], ignored, isIgnored, x);
      TriplesOfFirst(perm[n].id, perm[n].rows, isIgnored);
    }
  }

  lemma AscendingConcat(a: seq<Triple>, b: seq<Triple>, x: int)
    requires FirstsAscending(a) && FirstsAscending(b)
    requires forall i :: 0 <= i < |a| ==> a[i].first < x
    requires forall j :: 0 <= j < |b| ==> b[j].first == x
    ensures FirstsAscending(a + b)
  {
    forall i, j | 0 <= i < j < |a + b|
      ensures (a + b)[i].first <= (a + b)[j].first
    {
      if j < |a| {
        assert (a + b)[i] == a[i] && (a + b)[j] == a[j];
      } else if i < |a| {
        assert (a + b)[i] == a[i] && (a + b)[j] == b[j - |a|];
      } else {
        assert (a + b)[i] == b[i - |a|] && (a + b)[j] == b[j - |a|];
      }
    }
  }

  /** Triples come out in ascending order of their first Id (and, within one
      relation, in scan order, by the definition of `TriplesOf`). */
  lemma {:induction false} ExpectedInIdOrder(perm: seq<Relation>, ignored: seq<IdRange>, isIgnored: Triple -> bool)
    requires Ordered(perm)
    ensures FirstsAscending(Expected(perm, ignored, isIgnored))
  {
    if |perm| > 0 {
      var n := |perm| - 1;
      var rel := perm[n];
      assert forall k :: 0 <= k < n ==> perm[..n][k] == perm[k];
      ExpectedInIdOrder(perm[..n], ignored, isIgnored);
      ExpectedFirstsBelow(perm[..n], ignored, isIgnored, rel.id);
      TriplesOfFirst(rel.id, rel.rows, isIgnored);
      AscendingConcat(Expected(perm[..n], ignored, isIgnored),
        if Kept(rel.id, ignored) then TriplesOf(rel.id, rel.rows, isIgnored) else [], rel.id);
    }
  }

  /** With no ignored ranges and nothing rejected, every triple of every relation
      below `Id::max()` is yielded. */
  lemma DefaultsYieldAll(perm: seq<Relation>, t: Triple)
    ensures t in Expected(perm, [], _ => false) <==>
      exists k :: 0 <= k < |perm| && perm[k].id == t.first && perm[k].id < MaxId && (t.second, t.third) in perm[k].rows
  {
    ExpectedMembership(perm, [], _ => false, t);
  }

  // ---- ignored ranges ----

  predicate WellFormed(r: seq<IdRange>)
  {
    forall i :: 0 <= i < |r| ==> r[i].0 <= r[i].1
  }

  predicate Disjoint(x: IdRange, y: IdRange)
  {
    x.1 <= y.0 || y.1 <= x.0
  }

  /** No two entries overlap; otherwise the source's behaviour is undefined. */
  predicate NonOverlapping(r: seq<IdRange>)
  {
    forall i, j :: 0 <= i < |r| && 0 <= j < |r| && i != j ==> Disjoint(r[i], r[j])
  }

  /** Each range ends before the next one begins. */
  predicate Separated(r: seq<IdRange>)
  {
    forall i, j :: 0 <= i < j < |r| ==> r[i].1 <= r[j].0
  }

  /** The lexicographic order of `std::pair`. */
  predicate LessEq(x: IdRange, y: IdRange)
  {
    x.0 < y.0 || (x.0 == y.0 && x.1 <= y.1)
  }

  predicate Sorted(r: seq<IdRange>)
  {
    forall i, j :: 0 <= i < j < |r| ==> LessEq(r[i], r[j])
  }

  function Insert(x: IdRange, s: seq<IdRange>): (r: seq<IdRange>)
    ensures multiset(r) == multiset(s) + multiset{x}
  {
    if |s| == 0 then [x]
    else if LessEq(x, s[0]) then [x] + s
    else
      assert s == [s[0]] + s[1..];
      [s[0]] + Insert(x, s[1..])
  }

  /** Prepending a range that ends before every other one begins keeps the order. */
  lemma ConsSeparated(a: IdRange, r: seq<IdRange>)
    requires a.0 <= a.1 && WellFormed(r) && Separated(r)
    requires forall y :: y in r ==> a.1 <= y.0
    ensures Separated([a] + r) && WellFormed([a] + r)
  {
    forall i, j | 0 <= i < j < |[a] + r|
      ensures ([a] + r)[i].1 <= ([a] + r)[j].0
    {
      assert ([a] + r)[j] == r[j - 1];
      if i > 0 {
        assert ([a] + r)[i] == r[i - 1];
      }
    }
    forall i | 0 < i < |[a] + r|
      ensures ([a] + r)[i].0 <= ([a] + r)[i].1
    {
      assert ([a] + r)[i] == r[i - 1];
    }
  }

  lemma InsertElements(x: IdRange, s: seq<IdRange>, y: IdRange)
    requires y in Insert(x, s)
    ensures y == x || y in s
  {
    assert y in multiset(Insert(x, s));
  }

  lemma {:induction false} InsertSeparated(x: IdRange, s: seq<IdRange>)
    requires x.0 <= x.1 && WellFormed(s) && Separated(s)
    requires forall y :: y in s ==> Disjoint(x, y)
    ensures Separated(Insert(x, s)) && WellFormed(Insert(x, s))
  {
    if |s| == 0 {
    } else if LessEq(x, s[0]) {
      assert s[0] in s;
      assert x.1 <= s[0].0;
      ConsSeparated(x, s);
    } else {
      assert s[0] in s;
      assert s[0].1 <= x.0;
      var rest := s[1..];
      assert forall y :: y in rest ==> y in s;
      InsertSeparated(x, rest);
      var r := Insert(x, rest);
      forall y | y in r
        ensures s[0].1 <= y.0
      {
        InsertElements(x, rest, y);
        if y != x {
          var j :| 0 <= j < |rest| && rest[j] == y;
          assert s[j + 1] == y;
        }
      }
      ConsSeparated(s[0], r);
    }
  }

  /** Separated well-formed ranges are in `std::sort` order. */
  lemma SeparatedIsSorted(r: seq<IdRange>)
    requires WellFormed(r) && Separated(r)
    ensures Sorted(r)
  {
  }

  /** A range is disjoint from every range that precedes it in the input. */
  lemma DisjointFromPrefix(ranges: seq<IdRange>, i: nat, sorted: seq<IdRange>)
    requires i < |ranges| && NonOverlapping(ranges)
    requires multiset(sorted) == multiset(ranges[..i])
    ensures forall y :: y in sorted ==> Disjoint(ranges[i], y)
  {
    forall y | y in sorted
      ensures Disjoint(ranges[i], y)
    {
      assert y in multiset(ranges[..i]);
      var j :| 0 <= j < i && ranges[..i][j] == y;
      assert ranges[j] == y;
    }
  }

  /** `std::sort` of the ignored ranges: a permutation of them in lexicographic
      order, each ending before the next begins. */
  method SortRanges(ranges: seq<IdRange>) returns (sorted: seq<IdRange>)
    requires WellFormed(ranges) && NonOverlapping(ranges)
    ensures multiset(sorted) == multiset(ranges)
    ensures Sorted(sorted) && Separated(sorted) && WellFormed(sorted)
  {
    sorted := [];
    for i := 0 to |ranges|
      invariant multiset(sorted) == multiset(ranges[..i])
      invariant Separated(sorted) && WellFormed(sorted)
    {
      DisjointFromPrefix(ranges, i, sorted);
      InsertSeparated(ranges[i], sorted);
      sorted := Insert(ranges[i], sorted);
      assert ranges[..i + 1] == ranges[..i] + [ranges[i]];
    }
    assert ranges[..|ranges|] == ranges;
    SeparatedIsSorted(sorted);
  }

  // ---- lower bound ----

  /** `k` is the result of `std::lower_bound` for `x` over the relation Ids. */
  predicate IsLowerBound(perm: seq<Relation>, x: int, k: int)
  {
    && 0 <= k <= |perm|
    && (forall j :: 0 <= j < k ==> perm[j].id < x)
    && (forall j :: k <= j < |perm| ==> perm[j].id >= x)
  }

  method LowerBound(perm: seq<Relation>, x: int) returns (k: nat)
    requires Ordered(perm)
    ensures IsLowerBound(perm, x, k)
  {
    var lo, hi := 0, |perm|;
    while lo < hi
      invariant 0 <= lo <= hi <= |perm|
      invariant forall j :: 0 <= j < lo ==> perm[j].id < x
      invariant forall j :: hi <= j < |perm| ==> perm[j].id >= x
    {
      var mid := (lo + hi) / 2;
      if perm[mid].id < x {
        lo := mid + 1;
      } else {
        hi := mid;
      }
    }
    k := lo;
  }

  lemma LowerBoundMonotone(perm: seq<Relation>, x: int, y: int, kx: int, ky: int)
    requires x <= y && IsLowerBound(perm, x, kx) && IsLowerBound(perm, y, ky)
    ensures kx <= ky
  {
    if ky < |perm| {
      assert perm[ky].id >= y;
    }
  }

  // ---- the view ----

  /** One more relation adds its triples if it is kept, and nothing otherwise. */
  lemma ExpectedStep(perm: seq<Relation>, ignored: seq<IdRange>, isIgnored: Triple -> bool, k: nat)
    requires k < |perm|
    ensures Expected(perm[..k + 1], ignored, isIgnored) == Expected(perm[..k], ignored, isIgnored)
      + (if Kept(perm[k].id, ignored) then TriplesOf(perm[k].id, perm[k].rows, isIgnored) else [])
  {
    assert perm[..k + 1][..k] == perm[..k];
  }

  lemma ExpectedKeptStep(perm: seq<Relation>, ignored: seq<IdRange>, isIgnored: Triple -> bool, n: nat)
    requires 0 < n <= |perm| && Kept(perm[n - 1].id, ignored)
    ensures Expected(perm[..n], ignored, isIgnored) == Expected(perm[..n - 1], ignored, isIgnored)
      + TriplesOf(perm[n - 1].id, perm[n - 1].rows, isIgnored)
  {
    ExpectedStep(perm, ignored, isIgnored, n - 1);
  }

  lemma AppendAssociative(a: seq<Triple>, b: seq<Triple>, c: seq<Triple>)
    ensures (a + b) + c == a + (b + c)
  {
  }

  /** The triples of every relation at positions `begin` up to `end`, ignored or not. */
  function Segment(perm: seq<Relation>, isIgnored: Triple -> bool, begin: nat, end: nat): seq<Triple>
    requires begin <= end <= |perm|
    decreases end - begin
  {
    if begin == end then []
    else Segment(perm, isIgnored, begin, end - 1) + TriplesOf(perm[end - 1].id, perm[end - 1].rows, isIgnored)
  }

  /** Over positions whose relations are all kept, `Expected` grows by exactly their triples. */
  lemma {:induction false} SegmentOfKept(perm: seq<Relation>, ignored: seq<IdRange>, isIgnored: Triple -> bool, begin: nat, end: nat)
    requires begin <= end <= |perm|
    requires forall k :: begin <= k < end ==> Kept(perm[k].id, ignored)
    ensures Expected(perm[..end], ignored, isIgnored)
      == Expected(perm[..begin], ignored, isIgnored) + Segment(perm, isIgnored, begin, end)
    decreases end - begin
  {
    if begin < end {
      var last := end - 1;
      SegmentOfKept(perm, ignored, isIgnored, begin, last);
      var before := Expected(perm[..begin], ignored, isIgnored);
      var middle := Segment(perm, isIgnored, begin, last);
      var added := TriplesOf(perm[last].id, perm[last].rows, isIgnored);
      ExpectedKeptStep(perm, ignored, isIgnored, end);
      assert Segment(perm, isIgnored, begin, end) == middle + added;
      AppendAssociative(before, middle, added);
    }
  }

  /** Relations that are not scanned contribute nothing. */
  lemma {:induction false} SkipUnkept(perm: seq<Relation>, ignored: seq<IdRange>, isIgnored: Triple -> bool, from: nat, to: nat)
    requires from <= to <= |perm|
    requires forall k :: from <= k < to ==> !Kept(perm[k].id, ignored)
    ensures Expected(perm[..to], ignored, isIgnored) == Expected(perm[..from], ignored, isIgnored)
  {
    if from < to {
      SkipUnkept(perm, ignored, isIgnored, from, to - 1);
      ExpectedStep(perm, ignored, isIgnored, to - 1);
    }
  }

  /** An Id between the end of range `i` and the start of range `i + 1` is scanned. */
  lemma KeptBetween(ranges: seq<IdRange>, ignored: seq<IdRange>, i: nat, id: RelId)
    requires WellFormed(ranges) && Separated(ranges)
    requires i + 1 < |ranges| && ranges[|ranges| - 1].0 == MaxId
    requires forall y :: y in ignored ==> y in ranges
    requires ranges[i].1 <= id < ranges[i + 1].0
    ensures Kept(id, ignored)
  {
    forall j | 0 <= j < |ignored|
      ensures !InRange(id, ignored[j])
    {
      assert ignored[j] in ignored;
      var p :| 0 <= p < |ranges| && ranges[p] == ignored[j];
      if p < i {
        assert ranges[p].1 <= ranges[i].0;
      } else if p > i + 1 {
        assert ranges[i + 1].1 <= ranges[p].0;
      }
    }
    if i + 1 < |ranges| - 1 {
      assert ranges[i + 1].1 <= ranges[|ranges| - 1].0;
    }
  }

  /** The sorted ranges between the sentinels `(Id::min(), Id::min())` and `(Id::max(), Id::max())`. */
  function WithSentinels(sorted: seq<IdRange>): (r: seq<IdRange>)
    ensures |r| == |sorted| + 2
    ensures r[0] == (MinId as RelId, MinId as RelId) && r[|r| - 1] == (MaxId as RelId, MaxId as RelId)
    ensures forall i :: 0 < i < |r| - 1 ==> r[i] == sorted[i - 1]
  {
    [(MinId as RelId, MinId as RelId)] + sorted + [(MaxId as RelId, MaxId as RelId)]
  }

  lemma SentinelsKeepOrder(sorted: seq<IdRange>, ignored: seq<IdRange>)
    requires Separated(sorted) && WellFormed(sorted) && multiset(sorted) == multiset(ignored)
    ensures Separated(WithSentinels(sorted)) && WellFormed(WithSentinels(sorted))
    ensures forall y :: y in ignored ==> y in WithSentinels(sorted)
    ensures forall i :: 0 < i < |WithSentinels(sorted)| - 1 ==> WithSentinels(sorted)[i] in ignored
  {
    var ranges := WithSentinels(sorted);
    forall i, j | 0 <= i < j < |ranges|
      ensures ranges[i].1 <= ranges[j].0
    {
      if 0 < i && j < |ranges| - 1 {
        assert ranges[i] == sorted[i - 1] && ranges[j] == sorted[j - 1];
      }
    }
    forall i | 0 < i < |ranges| - 1
      ensures ranges[i].0 <= ranges[i].1 && ranges[i] in ignored
    {
      assert ranges[i] == sorted[i - 1];
      assert ranges[i] in multiset(sorted);
    }
    forall y | y in ignored
      ensures y in ranges
    {
      assert y in multiset(ignored);
      assert y in sorted;
    }
  }

  /** The allowed ranges of relation positions: from the lower bound of one
      range's end to the lower bound of the next range's start. */
  method AllowedRanges(perm: seq<Relation>, ranges: seq<IdRange>) returns (allowed: seq<(nat, nat)>)
    requires Ordered(perm) && |ranges| >= 1
    ensures |allowed| == |ranges| - 1
    ensures forall p :: 0 <= p < |allowed| ==>
      IsLowerBound(perm, ranges[p].1, allowed[p].0) && IsLowerBound(perm, ranges[p + 1].0, allowed[p].1)
  {
    allowed := [];
    for i := 0 to |ranges| - 1
      invariant |allowed| == i
      invariant forall p :: 0 <= p < i ==>
        IsLowerBound(perm, ranges[p].1, allowed[p].0) && IsLowerBound(perm, ranges[p + 1].0, allowed[p].1)
    {
      var beginOfAllowed := LowerBound(perm, ranges[i].1);
      var endOfAllowed := LowerBound(perm, ranges[i + 1].0);
      allowed := allowed + [(beginOfAllowed, endOfAllowed)];
    }
  }

  /** The rows of one scanned relation as triples, skipping those `isTripleIgnored` rejects. */
  method ScanRelation(id: RelId, rows: seq<(RelId, RelId)>, isTripleIgnored: Triple -> bool) returns (triples: seq<Triple>)
    ensures triples == TriplesOf(id, rows, isTripleIgnored)
  {
    triples := [];
    for r := 0 to |rows|
      invariant triples == TriplesOf(id, rows[..r], isTripleIgnored)
    {
      var triple := Triple(id, rows[r].0, rows[r].1);
      assert rows[..r + 1][..r] == rows[..r];
      if !isTripleIgnored(triple) {
        triples := triples + [triple];
      }
    }
    assert rows[..|rows|] == rows;
  }

  /** The positions between two allowed ranges hold Ids of the ignored range `ranges[i]`. */
  lemma GapUnkept(perm: seq<Relation>, ranges: seq<IdRange>, ignored: seq<IdRange>, i: nat, from: nat, to: nat)
    requires 0 < i < |ranges| && ranges[i] in ignored
    requires IsLowerBound(perm, ranges[i].0, from) && IsLowerBound(perm, ranges[i].1, to)
    ensures forall k :: from <= k < to ==> !Kept(perm[k].id, ignored)
  {
    forall k | from <= k < to
      ensures !Kept(perm[k].id, ignored)
    {
      assert InRange(perm[k].id, ranges[i]);
      var j :| 0 <= j < |ignored| && ignored[j] == ranges[i];
    }
  }

  /** Scans the relations at positions `begin` to `end`, all of them kept. */
  method ScanAllowed(perm: seq<Relation>, ignoredRanges: seq<IdRange>, isTripleIgnored: Triple -> bool, begin: nat, end: nat)
    returns (triples: seq<Triple>, ghost scanned: seq<RelId>)
    requires begin <= end <= |perm|
    requires forall k :: begin <= k < end ==> Kept(perm[k].id, ignoredRanges)
    ensures Expected(perm[..end], ignoredRanges, isTripleIgnored)
      == Expected(perm[..begin], ignoredRanges, isTripleIgnored) + triples
    ensures forall j :: 0 <= j < |scanned| ==> Kept(scanned[j], ignoredRanges)
  {
    triples := [];
    scanned := [];
    for k := begin to end
      invariant triples == Segment(perm, isTripleIgnored, begin, k)
      invariant forall j :: 0 <= j < |scanned| ==> Kept(scanned[j], ignoredRanges)
    {
      var id := perm[k].id;
      scanned := scanned + [id];
      var relationTriples := ScanRelation(id, perm[k].rows, isTripleIgnored);
      triples := triples + relationTriples;
    }
    SegmentOfKept(perm, ignoredRanges, isTripleIgnored, begin, end);
  }

  /** The positions inside an allowed range hold Ids that are kept. */
  lemma AllowedKept(perm: seq<Relation>, ranges: seq<IdRange>, ignored: seq<IdRange>, i: nat, begin: nat, end: nat)
    requires WellFormed(ranges) && Separated(ranges)
    requires i + 1 < |ranges| && ranges[|ranges| - 1].0 == MaxId
    requires forall y :: y in ignored ==> y in ranges
    requires IsLowerBound(perm, ranges[i].1, begin) && IsLowerBound(perm, ranges[i + 1].0, end)
    ensures forall k :: begin <= k < end ==> Kept(perm[k].id, ignored)
  {
    forall k | begin <= k < end
      ensures Kept(perm[k].id, ignored)
    {
      KeptBetween(ranges, ignored, i, perm[k].id);
    }
  }

  /** `TriplesView`: yields exactly `Expected`, and scans only relations that are kept. */
  method TriplesView(perm: seq<Relation>, ignoredRanges: seq<IdRange>, isTripleIgnored: Triple -> bool)
    returns (triples: seq<Triple>, ghost scanned: seq<RelId>)
    requires Ordered(perm)
    requires WellFormed(ignoredRanges) && NonOverlapping(ignoredRanges)
    ensures triples == Expected(perm, ignoredRanges, isTripleIgnored)
    ensures forall j :: 0 <= j < |scanned| ==> Kept(scanned[j], ignoredRanges)
  {
    var sorted := SortRanges(ignoredRanges);
    var ranges := WithSentinels(sorted);
    SentinelsKeepOrder(sorted, ignoredRanges);
    var allowed := AllowedRanges(perm, ranges);

    triples := [];
    scanned := [];
    ghost var done: nat := 0;
    for i := 0 to |allowed|
      invariant done <= |perm|
      invariant i == 0 ==> done == 0
      invariant i > 0 ==> IsLowerBound(perm, ranges[i].0, done)
      invariant triples == Expected(perm[..done], ignoredRanges, isTripleIgnored)
      invariant forall j :: 0 <= j < |scanned| ==> Kept(scanned[j], ignoredRanges)
    {
      var (begin, end) := allowed[i];
      LowerBoundMonotone(perm, ranges[i].1, ranges[i + 1].0, begin, end);
      if i > 0 {
        LowerBoundMonotone(perm, ranges[i].0, ranges[i].1, done, begin);
        GapUnkept(perm, ranges, ignoredRanges, i, done, begin);
      }
      SkipUnkept(perm, ignoredRanges, isTripleIgnored, done, begin);
      AllowedKept(perm, ranges, ignoredRanges, i, begin, end);
      var rangeTriples, rangeScanned := ScanAllowed(perm, ignoredRanges, isTripleIgnored, begin, end);
      triples := triples + rangeTriples;
      scanned := scanned + rangeScanned;
      done := end;
    }
    SkipUnkept(perm, ignoredRanges, isTripleIgnored, done, |perm|);
    assert perm[..|perm|] == perm;
  }
}
