/** The in-memory paginated table source (`TableDataSource`) and the factory
    that configures it. Page windows follow `Array.prototype.slice`. */
module DataSourceFactory {

  import opened Records

  /** `s.slice(begin, end)`: never fails, empty when the clamped window is. */
  function Slice<T>(s: seq<T>, begin: int, end: int): seq<T>
  {
    var b, e := RelativeIndex(begin, |s|), RelativeIndex(end, |s|);
    if b < e then s[b..e] else []
  }

  /** The page `getPageDataAsync(start, len)` returns: a positive length asks
      for `len` items from `start`; a zero or negative one for the items before
      `start - len`. */
  function Page<T>(data: seq<T>, start: int, len: int): seq<T>
  {
    if len > 0 then Slice(data, start, start + len) else Slice(data, 0, start - len)
  }

  /** Whatever the arguments, a page is a contiguous, in-order run of the
      data, no longer than the data. */
  lemma PageIsRun<T>(data: seq<T>, start: int, len: int)
    ensures |Page(data, start, len)| <= |data|
    ensures exists i, j :: 0 <= i <= j <= |data| && Page(data, start, len) == data[i..j]
  {
    var n := |data|;
    var b := if len > 0 then RelativeIndex(start, n) else 0;
    var e := if len > 0 then RelativeIndex(start + len, n) else RelativeIndex(start - len, n);
    if b < e {
      assert Page(data, start, len) == data[b..e];
    } else {
      assert Page(data, start, len) == data[0..0];
    }
  }

  /** A positive length from a non-negative offset gives the items
      `start .. min(start + len, n)`, and nothing from `n` on. */
  lemma PositiveLengthPage<T>(data: seq<T>, start: int, len: int)
    requires 0 <= start && 0 < len
    ensures start < |data| ==> Page(data, start, len) == data[start..Min(start + len, |data|)]
    ensures |data| <= start ==> Page(data, start, len) == []
  {
  }

  /** A zero or negative length asks for the first `start - len` items,
      clamped to the data. */
  lemma NonPositiveLengthPage<T>(data: seq<T>, start: int, len: int)
    requires len <= 0 && 0 <= start - len
    ensures Page(data, start, len) == data[..Min(start - len, |data|)]
  {
  }

  /** The pages of length `len` at offsets `from`, `from + len`, ... below `n`,
      concatenated. */
  function Pages<T>(data: seq<T>, len: int, from: nat): seq<T>
    requires 0 < len
    decreases |data| - from
  {
    if from >= |data| then [] else Page(data, from, len) + Pages(data, len, from + len)
  }

  /** Walking the table page by page with a fixed positive length rebuilds it. */
  lemma {:induction false} PagesRebuildData<T>(data: seq<T>, len: int, from: nat)
    requires 0 < len && from <= |data|
    ensures Pages(data, len, from) == data[from..]
    decreases |data| - from
  {
    if from < |data| {
      var next := Min(from + len, |data|);
      assert Page(data, from, len) == data[from..next];
      PagesRebuildData(data, len, next);
      if from + len > |data| {
        assert Pages(data, len, from + len) == [];
      }
      assert data[from..] == data[from..next] + data[next..];
    }
  }

  class TableDataSource<T> {
    /** `model.tableData`: the rows, never changed by the source. */
    var tableData: seq<T>
    /** `model.elements`: the configured page size. */
    var elements: int
    /** `model.noOfColumns`. */
    var noOfColumns: int
    /** The page size and record count handed to the base data source. */
    var pageSize: int
    var recordsNumber: int

    constructor (data: seq<T>)
      ensures tableData == data
      ensures elements == 0 && noOfColumns == 0 && pageSize == 0 && recordsNumber == 0
    {
      tableData := data;
      elements, noOfColumns := 0, 0;
      pageSize, recordsNumber := 0, 0;
    }

    method SetNumberOfColumns(n: int) returns (r: int)
      modifies this`noOfColumns
      ensures noOfColumns == n && r == n
    {
      noOfColumns := n;
      r := noOfColumns;
    }

    method SetDataSourcePageSize(n: int)
      modifies this`elements, this`pageSize
      ensures elements == n && pageSize == n
    {
      elements := n;
      pageSize := elements;
    }

    /** `getPageDataAsync`: adapts the page size, publishes the record count
        and returns the requested window without touching the rows. */
    method GetPageData(start: int, len: int) returns (page: seq<T>)
      modifies this`pageSize, this`recordsNumber
      ensures tableData == old(tableData) && elements == old(elements)
      ensures pageSize == (if |tableData| <= len then |tableData| else elements)
      ensures recordsNumber == |tableData|
      ensures page == Page(tableData, start, len)
    {
      if |tableData| <= len {
        pageSize := |tableData|;
      } else {
        pageSize := elements;
      }
      recordsNumber := |tableData|;
      if len > 0 {
        page := Slice(tableData, start, start + len);
      } else {
        page := Slice(tableData, 0, start - len);
      }
    }
  }

  /** `DataSourceFactory.createDataSource(noOfColumns, itemsPerPage, data)`. */
  method CreateDataSource<T>(noOfColumns: int, itemsPerPage: int, data: seq<T>) returns (ds: TableDataSource<T>)
    ensures fresh(ds)
    ensures ds.tableData == data && ds.elements == itemsPerPage && ds.pageSize == itemsPerPage
    ensures ds.noOfColumns == noOfColumns && ds.recordsNumber == 0
  {
    ds := new TableDataSource(data);
    ds.SetDataSourcePageSize(itemsPerPage);
    var _ := ds.SetNumberOfColumns(noOfColumns);
  }

  /** A table shorter than the requested length is served whole, and the page
      size shrinks to its length; a negative length from offset 0 serves the
      first items. */
  method ShortTableScenario(a: int, b: int, c: int, d: int, e: int)
  {
    var ds := CreateDataSource(6, 10, [a, b, c]);
    var page := ds.GetPageData(0, 10);
    assert page == [a, b, c] && ds.pageSize == 3 && ds.recordsNumber == 3;

    var five := CreateDataSource(5, 2, [a, b, c, d, e]);
    page := five.GetPageData(0, -2);
    assert page == [a, b];
    assert five.pageSize == 2;
    page := five.GetPageData(4, 2);
    assert page == [e];
  }
}
