/** The paginated table component of the front end: a current page kept as
    component state, the rows of that page, and the navigation bar. */
module DataTable {
  import opened Text

  /** A JavaScript cell value; `Value` carries `String(cell)`. */
  datatype JsValue = JsNull | Undefined | Value(text: string)

  /** What a cell shows. */
  function CellText(c: JsValue): (t: string)
    ensures t == "N/D" <==> c.JsNull? || c.Undefined? || c.text == "N/D"
    ensures c.Value? ==> t == c.text
  {
    if c.JsNull? || c.Undefined? then "N/D" else c.text
  }

  /** `Math.ceil(length / pageSize)`. */
  function TotalPages(length: nat, pageSize: nat): (t: nat)
    requires pageSize > 0
    ensures t * pageSize >= length
    ensures t > 0 ==> (t - 1) * pageSize < length
    ensures t == 0 <==> length == 0
  {
    (length + pageSize - 1) / pageSize
  }

  /** A relative index of `slice`: a negative one counts back from the end,
      and either kind is clamped to `0..n`. */
  function RelativeIndex(i: int, n: nat): nat {
    if i < 0 then (if n + i < 0 then 0 else n + i) else if i > n then n else i
  }

  /** `data.slice(start, end)`. */
  function Slice<T>(data: seq<T>, start: int, end: int): (r: seq<T>)
    ensures 0 <= start ==> forall i :: 0 <= i < |r| ==> start + i < |data| && r[i] == data[start + i]
    ensures 0 <= start <= end ==>
              |r| == (if end <= |data| then end else |data|) - (if start <= |data| then start else |data|)
    ensures 0 <= end <= start ==> r == []
    ensures start <= end ==> |r| <= end - start
  {
    var lo := RelativeIndex(start, |data|);
    var hi := RelativeIndex(end, |data|);
    if hi <= lo then [] else data[lo..hi]
  }

  /** A negative index stands for the length plus that index, and for 0
      when that sum is still negative. */
  lemma SliceFromEnd<T>(data: seq<T>, start: int, end: int)
    ensures start < 0 ==> Slice(data, start, end) == Slice(data, if |data| + start < 0 then 0 else |data| + start, end)
    ensures end < 0 ==> Slice(data, start, end) == Slice(data, start, if |data| + end < 0 then 0 else |data| + end)
  {
  }

  /** Example: `[1, 2, 3].slice(-2, 3)` is `[2, 3]` and `[1, 2, 3].slice(0, -1)`
      is `[1, 2]`. */
  lemma SliceNegativeExample()
    ensures Slice([1, 2, 3], -2, 3) == [2, 3]
    ensures Slice([1, 2, 3], 0, -1) == [1, 2]
  {
    assert [1, 2, 3][1..3] == [2, 3];
    assert [1, 2, 3][0..2] == [1, 2];
  }

  /** The `width` rows from `start` on, as many as there are. */
  function Window<T>(data: seq<T>, start: int, width: nat): (r: seq<T>)
    ensures |r| <= width
    ensures 0 <= start && start + width <= |data| ==> |r| == width
    ensures 0 <= start ==> forall i :: 0 <= i < |r| ==> start + i < |data| && r[i] == data[start + i]
  {
    Slice(data, start, start + width)
  }

  /** Page `page` starts `pageSize` rows before page `page + 1`, and no
      page from the first on starts before row 0. */
  lemma PageStartStep(page: int, pageSize: nat)
    ensures page * pageSize == PageStart(page, pageSize) + pageSize
    ensures page >= 1 ==> PageStart(page, pageSize) >= 0
  {
  }

  /** The index of the first row of page `page`. */
  function PageStart(page: int, pageSize: nat): int {
    (page - 1) * pageSize
  }

  /** A later page starts no earlier. */
  lemma PageStartMono(p: int, q: int, pageSize: nat)
    requires p <= q
    ensures PageStart(p, pageSize) <= PageStart(q, pageSize)
  {
    assert PageStart(q, pageSize) - PageStart(p, pageSize) == (q - p) * pageSize;
  }

  /** The rows of page `page` (counted from 1). */
  function PageRows<T>(data: seq<T>, page: int, pageSize: nat): (r: seq<T>)
    requires pageSize > 0
    ensures |r| <= pageSize
    ensures page >= 1 && page * pageSize <= |data| ==> |r| == pageSize
    ensures page >= 1 ==> forall i :: 0 <= i < |r| ==>
              PageStart(page, pageSize) + i < |data| && r[i] == data[PageStart(page, pageSize) + i]
  {
    PageStartStep(page, pageSize);
    Window(data, PageStart(page, pageSize), pageSize)
  }

  /** Pages `1` to `count`, one after the other. */
  function Pages<T>(data: seq<T>, count: nat, pageSize: nat): seq<T>
    requires pageSize > 0
  {
    if count == 0 then [] else Pages(data, count - 1, pageSize) + PageRows(data, count, pageSize)
  }

  /** The first `count` pages hold the first `count * pageSize` rows. */
  lemma {:induction false} PagesPrefix<T>(data: seq<T>, count: nat, pageSize: nat)
    requires pageSize > 0
    ensures var n := if count * pageSize <= |data| then count * pageSize else |data|;
      Pages(data, count, pageSize) == data[..n]
  {
    if count > 0 {
      PagesPrefix(data, count - 1, pageSize);
      var s := PageStart(count, pageSize);
      PageStartStep(count, pageSize);
      var m := if s <= |data| then s else |data|;
      var n := if s + pageSize <= |data| then s + pageSize else |data|;
      assert s == (count - 1) * pageSize;
      assert Pages(data, count - 1, pageSize) == data[..m];
      assert PageRows(data, count, pageSize) == Window(data, s, pageSize);
      PageIsRange(data, s, pageSize);
      assert Pages(data, count, pageSize) == data[..m] + data[m..n];
      PrefixThenRun(data, m, n);
    }
  }

  /** The first `m` rows followed by rows `m` to `n` are the first `n`. */
  lemma PrefixThenRun<T>(data: seq<T>, m: nat, n: nat)
    requires m <= n <= |data|
    ensures data[..m] + data[m..n] == data[..n]
  {
  }

  /** The page starting at row `s` is the run of rows from `s` up to
      `s + pageSize`, both clamped to the length. */
  lemma PageIsRange<T>(data: seq<T>, s: nat, pageSize: nat)
    ensures var m := if s <= |data| then s else |data|;
      var n := if s + pageSize <= |data| then s + pageSize else |data|;
      Window(data, s, pageSize) == data[m..n]
  {
    var m := if s <= |data| then s else |data|;
    var n := if s + pageSize <= |data| then s + pageSize else |data|;
    var r := Window(data, s, pageSize);
    assert |r| == n - m;
    assert forall i :: 0 <= i < |r| ==> r[i] == data[m..n][i];
  }

  /** Turning through every page shows each row exactly once, in order. */
  lemma RowsShownOnce<T>(data: seq<T>, pageSize: nat)
    requires pageSize > 0
    ensures Pages(data, TotalPages(|data|, pageSize), pageSize) == data
  {
    PagesPrefix(data, TotalPages(|data|, pageSize), pageSize);
  }

  /** The pagination bar: the row range label, the page indicator and
      which buttons are disabled. */
  datatype Bar = Bar(from: int, to: int, of: nat, page: int, pages: nat,
                     backDisabled: bool, forwardDisabled: bool)

  datatype View =
    | NoData
    | Table(header: seq<string>, body: seq<seq<string>>, bar: Option<Bar>)

  /** What the component renders for the given props and page. */
  function Render(data: seq<seq<JsValue>>, columns: seq<string>, pageSize: nat, page: int): (v: View)
    requires pageSize > 0
    ensures v.NoData? <==> |data| == 0
    ensures v.Table? ==> v.header == columns && |v.body| == |PageRows(data, page, pageSize)| && |v.body| <= pageSize
    ensures v.Table? ==> forall i, k :: 0 <= i < |v.body| && 0 <= k < |PageRows(data, page, pageSize)[i]| ==>
              |v.body[i]| == |PageRows(data, page, pageSize)[i]| &&
              v.body[i][k] == CellText(PageRows(data, page, pageSize)[i][k])
    ensures v.Table? ==> (v.bar.Some? <==> TotalPages(|data|, pageSize) > 1)
  {
    if |data| == 0 then NoData
    else
      var total := TotalPages(|data|, pageSize);
      var start := PageStart(page, pageSize);
      var end := start + pageSize;
      var rows := PageRows(data, page, pageSize);
      var body := seq(|rows|, i requires 0 <= i < |rows| => seq(|rows[i]|, k requires 0 <= k < |rows[i]| => CellText(rows[i][k])));
      var bar := if total > 1 then
        Some(Bar(start + 1, if end < |data| then end else |data|, |data|, page, total, page == 1, page == total))
      else None;
      Table(columns, body, bar)
  }

  /** On a page in range the label names exactly the rows shown:
      `from` to `to` of `of`, counted from 1. */
  lemma LabelMatchesRows(data: seq<seq<JsValue>>, columns: seq<string>, pageSize: nat, page: int)
    requires pageSize > 0 && 1 <= page <= TotalPages(|data|, pageSize)
    ensures var v := Render(data, columns, pageSize, page);
      v.Table? && (v.bar.Some? ==>
        1 <= v.bar.value.from <= v.bar.value.to <= v.bar.value.of == |data| &&
        v.bar.value.to - v.bar.value.from + 1 == |v.body|)
  {
    var total := TotalPages(|data|, pageSize);
    PageStartStep(page, pageSize);
    PageStartStep(total, pageSize);
    PageStartMono(page, total, pageSize);
    PageIsRange(data, PageStart(page, pageSize), pageSize);
  }

  /** The component: `currentPage` is its state; the props (`data`,
      `columns` and `pageSize`) may change between renders without
      resetting it. */
  class Pager {
    var data: seq<seq<JsValue>>
    var columns: seq<string>
    var pageSize: nat
    var currentPage: int

    ghost predicate Valid()
      reads this
    {
      pageSize > 0 && currentPage >= 1
    }

    /** The page stays among the existing pages (page 1 when there is none). */
    ghost predicate InRange()
      reads this
    {
      Valid() && currentPage <= if TotalPages(|data|, pageSize) == 0 then 1 else TotalPages(|data|, pageSize)
    }

    function Total(): (t: nat)
      requires Valid()
      reads this
      ensures t == TotalPages(|data|, pageSize)
    {
      TotalPages(|data|, pageSize)
    }

    function View(): (v: View)
      requires Valid()
      reads this
      ensures v == Render(data, columns, pageSize, currentPage)
    {
      Render(data, columns, pageSize, currentPage)
    }

    /** `useState(1)`; `pageSize` defaults to 10 at the call site. */
    constructor (data: seq<seq<JsValue>>, columns: seq<string>, pageSize: nat)
      requires pageSize > 0
      ensures InRange()
      ensures this.data == data && this.columns == columns && this.pageSize == pageSize && currentPage == 1
    {
      this.data := data;
      this.columns := columns;
      this.pageSize := pageSize;
      currentPage := 1;
    }

    /** New props from the parent; `currentPage` is kept as it was. */
    method SetProps(data: seq<seq<JsValue>>, columns: seq<string>, pageSize: nat)
      requires Valid() && pageSize > 0
      modifies this
      ensures Valid()
      ensures this.data == data && this.columns == columns && this.pageSize == pageSize
      ensures currentPage == old(currentPage)
    {
      this.data := data;
      this.columns := columns;
      this.pageSize := pageSize;
    }

    /** `goToPage`: out-of-range pages are ignored. */
    method GoToPage(page: int)
      requires Valid()
      modifies this
      ensures Valid() && data == old(data) && columns == old(columns) && pageSize == old(pageSize)
      ensures 1 <= page <= Total() ==> currentPage == page
      ensures !(1 <= page <= Total()) ==> currentPage == old(currentPage)
      ensures old(InRange()) ==> InRange()
    {
      if 1 <= page <= TotalPages(|data|, pageSize) {
        currentPage := page;
      }
    }

    method GoToFirstPage()
      requires Valid()
      modifies this
      ensures Valid() && data == old(data) && columns == old(columns) && pageSize == old(pageSize)
      ensures currentPage == if Total() >= 1 then 1 else old(currentPage)
      ensures old(InRange()) ==> InRange()
    {
      GoToPage(1);
    }

    method GoToLastPage()
      requires Valid()
      modifies this
      ensures Valid() && data == old(data) && columns == old(columns) && pageSize == old(pageSize)
      ensures currentPage == if Total() >= 1 then Total() else old(currentPage)
      ensures old(InRange()) ==> InRange()
    {
      GoToPage(TotalPages(|data|, pageSize));
    }

    /** "Next" on the last page does nothing. */
    method GoToNextPage()
      requires Valid()
      modifies this
      ensures Valid() && data == old(data) && columns == old(columns) && pageSize == old(pageSize)
      ensures currentPage == if old(currentPage) < Total() then old(currentPage) + 1 else old(currentPage)
      ensures old(InRange()) ==> InRange()
    {
      GoToPage(currentPage + 1);
    }

    /** "Previous" on the first page does nothing. */
    method GoToPreviousPage()
      requires Valid()
      modifies this
      ensures Valid() && data == old(data) && columns == old(columns) && pageSize == old(pageSize)
      ensures currentPage == if 1 < old(currentPage) <= Total() + 1 then old(currentPage) - 1 else old(currentPage)
      ensures old(InRange()) ==> InRange()
    {
      GoToPage(currentPage - 1);
    }
  }

  /** When the data shrinks under a later page, the page is kept and the
      table body comes out empty. */
  lemma StalePageShowsNothing(data: seq<seq<JsValue>>, columns: seq<string>, pageSize: nat, page: int)
    requires pageSize > 0 && |data| > 0 && page > TotalPages(|data|, pageSize)
    ensures Render(data, columns, pageSize, page).Table?
    ensures |Render(data, columns, pageSize, page).body| == 0
  {
    var total := TotalPages(|data|, pageSize);
    PageStartStep(total + 1, pageSize);
    PageStartMono(total + 1, page, pageSize);
  }
}
