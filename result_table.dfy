/** The result container of an operation (`ResultTable`): a column count, a
    sorted-by column, rows either as variable-width vectors or behind a pointer
    to fixed-width rows of 1 to 5 Ids, per-column result types and a completion
    status. The mutex and condition variable are not part of this model; each
    operation is one atomic step. */
module ResultTables {
  import opened Wrappers
  import opened ValueIds

  datatype Status = Finished | Other

  datatype ResultType = KB | Verbatim | Text

  /** The widths for which the fixed-size storage is used. */
  predicate IsFixedWidth(n: nat)
  {
    1 <= n <= 5
  }

  class ResultTable {
    var status: Status
    var nofColumns: nat
    /** A value >= nofColumns means unsorted. */
    var sortedBy: nat
    var varSizeData: seq<seq<Id>>
    /** `_fixedSizeData`: `None` is the null pointer; otherwise the rows of the
        `vector<array<Id, nofColumns>>` it points to. */
    var fixedSizeData: Option<seq<seq<Id>>>
    var resultTypes: seq<ResultType>

    /** The cast in `getDataAsVarSize` is sound: when the rows come from the
        fixed-size storage, it exists and holds rows of `nofColumns` Ids. */
    ghost predicate FixedDataReadable()
      reads this
    {
      |varSizeData| == 0 && IsFixedWidth(nofColumns) ==>
        && fixedSizeData.Some?
        && forall i :: 0 <= i < |fixedSizeData.value| ==> |fixedSizeData.value[i]| == nofColumns
    }

    /** A table with the given fields; the default constructor is not part of this model. */
    constructor FromParts(status: Status, nofColumns: nat, sortedBy: nat, varSizeData: seq<seq<Id>>,
                          fixedSizeData: Option<seq<seq<Id>>>, resultTypes: seq<ResultType>)
      ensures this.status == status && this.nofColumns == nofColumns && this.sortedBy == sortedBy
      ensures this.varSizeData == varSizeData && this.fixedSizeData == fixedSizeData
      ensures this.resultTypes == resultTypes
    {
      this.status := status;
      this.nofColumns := nofColumns;
      this.sortedBy := sortedBy;
      this.varSizeData := varSizeData;
      this.fixedSizeData := fixedSizeData;
      this.resultTypes := resultTypes;
    }

    /** The move constructor: an empty table swapped with `other`. The result
        types are not swapped, so they stay with `other` and the new table has
        none. */
    constructor Move(other: ResultTable)
      modifies other
      ensures status == old(other.status) && nofColumns == old(other.nofColumns)
      ensures sortedBy == old(other.sortedBy) && varSizeData == old(other.varSizeData)
      ensures fixedSizeData == old(other.fixedSizeData) && resultTypes == []
      ensures other.status == Other && other.nofColumns == 0 && other.sortedBy == 0
      ensures other.varSizeData == [] && other.fixedSizeData.None?
      ensures other.resultTypes == old(other.resultTypes)
      ensures forall col: nat :: ResultTypeOf(col) == KB
    {
      status := Other;
      nofColumns := 0;
      sortedBy := 0;
      varSizeData := [];
      fixedSizeData := None;
      resultTypes := [];
      new;
      Swap(this, other);
    }

    /** `swap`: exchanges everything but the result types (and the synchronisation members). */
    static method Swap(a: ResultTable, b: ResultTable)
      modifies a, b
      ensures a.status == old(b.status) && b.status == old(a.status)
      ensures a.nofColumns == old(b.nofColumns) && b.nofColumns == old(a.nofColumns)
      ensures a.sortedBy == old(b.sortedBy) && b.sortedBy == old(a.sortedBy)
      ensures a.varSizeData == old(b.varSizeData) && b.varSizeData == old(a.varSizeData)
      ensures a.fixedSizeData == old(b.fixedSizeData) && b.fixedSizeData == old(a.fixedSizeData)
      ensures a.resultTypes == old(a.resultTypes) && b.resultTypes == old(b.resultTypes)
    {
      var status := a.status;
      a.status := b.status;
      b.status := status;
      var nofColumns := a.nofColumns;
      a.nofColumns := b.nofColumns;
      b.nofColumns := nofColumns;
      var sortedBy := a.sortedBy;
      a.sortedBy := b.sortedBy;
      b.sortedBy := sortedBy;
      var varSizeData := a.varSizeData;
      a.varSizeData := b.varSizeData;
      b.varSizeData := varSizeData;
      var fixedSizeData := a.fixedSizeData;
      a.fixedSizeData := b.fixedSizeData;
      b.fixedSizeData := fixedSizeData;
    }

    /** Marks the table finished. */
    method Finish()
      modifies this`status
      ensures IsFinished()
    {
      status := Finished;
    }

    /** Of the two statuses, the one that is not OTHER. */
    predicate IsFinished(): (r: bool)
      reads this
      ensures r <==> status != Other
    {
      status == Finished
    }

    /** `getResultType`: the recorded type of a column, KB for a column with none recorded. */
    function ResultTypeOf(col: nat): (r: ResultType)
      reads this
      ensures col < |resultTypes| ==> r == resultTypes[col]
      ensures col >= |resultTypes| ==> r == KB
      ensures r != KB ==> r in resultTypes
    {
      if col < |resultTypes| then resultTypes[col] else KB
    }

    /** `getDataAsVarSize`: the rows as variable-width vectors, whichever storage holds them. */
    method GetDataAsVarSize() returns (res: seq<seq<Id>>)
      requires FixedDataReadable()
      ensures |varSizeData| > 0 ==> res == varSizeData
      ensures |varSizeData| == 0 && IsFixedWidth(nofColumns) ==>
        && res == fixedSizeData.value
        && forall i :: 0 <= i < |res| ==> |res[i]| == nofColumns
      ensures |varSizeData| == 0 && !IsFixedWidth(nofColumns) ==> res == []
    {
      if |varSizeData| > 0 {
        return varSizeData;
      }
      res := [];
      if IsFixedWidth(nofColumns) {
        var data := fixedSizeData.value;
        for i := 0 to |data|
          invariant res == data[..i]
        {
          assert |data[i]| == nofColumns;
          assert data[i][..nofColumns] == data[i];
          assert data[..i + 1] == data[..i] + [data[i]];
          res := res + [data[i][..nofColumns]];
        }
        assert data[..|data|] == data;
      }
    }
  }

  /** Two tables holding the same rows, one in each storage, give the same rows. */
  method RepresentationIndependence(rows: seq<seq<Id>>, n: nat) returns (fixedRows: seq<seq<Id>>, varRows: seq<seq<Id>>)
    requires IsFixedWidth(n)
    requires forall i :: 0 <= i < |rows| ==> |rows[i]| == n
    ensures fixedRows == varRows == rows
  {
    var fixed := new ResultTable.FromParts(Finished, n, n, [], Some(rows), []);
    var generic := new ResultTable.FromParts(Finished, n, n, rows, Some([]), []);
    fixedRows := fixed.GetDataAsVarSize();
    varRows := generic.GetDataAsVarSize();
  }
}
