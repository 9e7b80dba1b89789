/** `RuntimeInformation`: the statistics of one operation of a query plan and,
    as copies, those of its children. Times are `double` milliseconds in the
    source and `real` here; the free-form details object is not part of this
    model. */
module RuntimeInformations {

  /** A copy of a runtime information, as stored in a parent's children. */
  datatype Info = Info(time: real, rows: nat, cols: nat, wasCached: bool, descriptor: string,
                       columnNames: seq<string>, children: seq<Info>)

  /** The time spent in the children: the sum of their total times. */
  function ChildrenTime(children: seq<Info>): real
  {
    if |children| == 0 then 0.0 else children[0].time + ChildrenTime(children[1..])
  }

  lemma {:induction false} ChildrenTimeAppend(children: seq<Info>, child: Info)
    ensures ChildrenTime(children + [child]) == ChildrenTime(children) + child.time
  {
    if |children| > 0 {
      assert (children + [child])[1..] == children[1..] + [child];
      ChildrenTimeAppend(children[1..], child);
    }
  }

  lemma {:induction false} ChildrenTimeNonNegative(children: seq<Info>)
    requires forall i :: 0 <= i < |children| ==> children[i].time >= 0.0
    ensures ChildrenTime(children) >= 0.0
  {
    if |children| > 0 {
      ChildrenTimeNonNegative(children[1..]);
    }
  }

  /** The time of the operation itself: the total time if the result came from
      the cache, otherwise the total time minus the time of the children. */
  function OperationTime(info: Info): (r: real)
    ensures info.wasCached ==> r == info.time
    ensures !info.wasCached ==> r + ChildrenTime(info.children) == info.time
  {
    if info.wasCached then info.time else info.time - ChildrenTime(info.children)
  }

  /** `std::vector<std::string>::resize`: truncates or pads with empty strings. */
  function Resized(names: seq<string>, n: nat): (r: seq<string>)
    ensures |r| == n
    ensures forall p :: 0 <= p < n && p < |names| ==> r[p] == names[p]
    ensures forall p :: |names| <= p < n ==> r[p] == ""
  {
    if n <= |names| then names[..n] else names + seq(n - |names|, _ => "")
  }

  /** Every column has its own index. */
  predicate Injective(columnMap: map<string, nat>)
  {
    forall a, b :: a in columnMap && b in columnMap && columnMap[a] == columnMap[b] ==> a == b
  }

  class RuntimeInformation {
    var time: real
    var rows: nat
    var cols: nat
    var wasCached: bool
    var descriptor: string
    var columnNames: seq<string>
    var children: seq<Info>

    constructor ()
      ensures time == 0.0 && rows == 0 && cols == 0 && !wasCached && descriptor == ""
      ensures columnNames == [] && children == []
    {
      time := 0.0;
      rows := 0;
      cols := 0;
      wasCached := false;
      descriptor := "";
      columnNames := [];
      children := [];
    }

    /** The copy `addChild` stores. */
    function Snapshot(): (r: Info)
      reads this
      ensures r.time == time && r.rows == rows && r.cols == cols && r.wasCached == wasCached
      ensures r.descriptor == descriptor && r.columnNames == columnNames && r.children == children
    {
      Info(time, rows, cols, wasCached, descriptor, columnNames, children)
    }

    method SetDescriptor(descriptor: string)
      modifies this`descriptor
      ensures this.descriptor == descriptor
    {
      this.descriptor := descriptor;
    }

    /** `setColumnNames`: the column list gets one entry per column of the map
        and each column's name at its index; indices no column claims keep
        what the resized list held there. */
    method SetColumnNames(columnMap: map<string, nat>)
      requires forall k :: k in columnMap ==> columnMap[k] < |columnMap|
      modifies this`columnNames
      ensures |columnNames| == |columnMap|
      ensures forall k :: k in columnMap ==>
        columnNames[columnMap[k]] in columnMap && columnMap[columnNames[columnMap[k]]] == columnMap[k]
      ensures forall p :: 0 <= p < |columnMap| && p !in columnMap.Values ==>
        columnNames[p] == Resized(old(columnNames), |columnMap|)[p]
      ensures Injective(columnMap) ==> forall k :: k in columnMap ==> columnNames[columnMap[k]] == k
    {
      var n := |columnMap|;
      ghost var resized := Resized(columnNames, n);
      columnNames := Resized(columnNames, n);
      var remaining := columnMap.Keys;
      while remaining != {}
        invariant remaining <= columnMap.Keys
        invariant |columnNames| == n
        invariant forall k :: k in columnMap && k !in remaining ==>
          columnNames[columnMap[k]] in columnMap && columnMap[columnNames[columnMap[k]]] == columnMap[k]
        invariant forall p :: 0 <= p < n && columnNames[p] != resized[p] ==>
          columnNames[p] in columnMap && columnMap[columnNames[p]] == p
        decreases remaining
      {
        var column :| column in remaining;
        columnNames := columnNames[columnMap[column] := column];
        remaining := remaining - {column};
      }
      forall p | 0 <= p < n && p !in columnMap.Values
        ensures columnNames[p] == resized[p]
      {
        var name := columnNames[p];
        if name in columnMap {
          assert columnMap[name] in columnMap.Values;
        }
      }
    }

    method SetTime(time: real)
      modifies this`time
      ensures this.time == time && GetTime() == time
    {
      this.time := time;
    }

    function GetTime(): (r: real)
      reads this
      ensures r == Snapshot().time
    {
      time
    }

    method SetRows(rows: nat)
      modifies this`rows
      ensures this.rows == rows && GetRows() == rows
    {
      this.rows := rows;
    }

    function GetRows(): (r: nat)
      reads this
      ensures r == Snapshot().rows
    {
      rows
    }

    method SetCols(cols: nat)
      modifies this`cols
      ensures this.cols == cols && GetCols() == cols
    {
      this.cols := cols;
    }

    function GetCols(): (r: nat)
      reads this
      ensures r == Snapshot().cols
    {
      cols
    }

    method SetWasCached(wasCached: bool)
      modifies this`wasCached
      ensures this.wasCached == wasCached
    {
      this.wasCached := wasCached;
    }

    /** `getChildrenTime`: the children's total times, added up in order. */
    method GetChildrenTime() returns (sum: real)
      ensures sum == ChildrenTime(children)
    {
      sum := 0.0;
      for i := 0 to |children|
        invariant sum == ChildrenTime(children[..i])
      {
        ChildrenTimeAppend(children[..i], children[i]);
        assert children[..i + 1] == children[..i] + [children[i]];
        sum := sum + children[i].time;
      }
      assert children[..|children|] == children;
    }

    method GetOperationTime() returns (r: real)
      ensures r == OperationTime(Snapshot())
    {
      if wasCached {
        r := GetTime();
      } else {
        var childrenTime := GetChildrenTime();
        r := GetTime() - childrenTime;
      }
    }

    /** `addChild`: stores a copy of `r`, taken before the call (so a node may add itself). */
    method AddChild(r: RuntimeInformation)
      modifies this`children
      ensures children == old(children) + [old(r.Snapshot())]
      ensures ChildrenTime(children) == ChildrenTime(old(children)) + old(r.time)
    {
      var copy := r.Snapshot();
      children := children + [copy];
      ChildrenTimeAppend(old(children), copy);
    }
  }
}
