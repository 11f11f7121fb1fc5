/** The selection state behind the file table: the records, the rows the filters let through, and
    the set of checked row numbers. */
module FileTable {
  import opened Wrappers
  import opened Strings
  import opened Models
  import opened Selection
  import Persistence

  /** The roles a `setData` call can carry; only the check-state role edits the selection. */
  datatype Role = CheckStateRole | EditRole | OtherRole

  /** `COLUMNS`: the header and the key of each column, in order. */
  const Columns: seq<(string, string)> := [
    ("选择", "checked"), ("文件名", "filename"), ("MD5", "md5"), ("状态", "status"),
    ("进度", "progress"), ("大小", "size"), ("已下载", "downloaded_size"), ("本地路径", "local_path")
  ]

  /** `Qt.Checked`. */
  const Checked := 2

  /** The row numbers `0 .. n - 1`, as `set(range(n))`. */
  function Rows(n: nat): (r: set<nat>)
    ensures forall i: nat :: i in r <==> i < n
  {
    if n == 0 then {} else Rows(n - 1) + {n - 1}
  }

  /** The rows of `items` whose record has status `s`. */
  function RowsWithStatus(items: seq<FileItem>, s: DownloadStatus, n: nat): (r: set<nat>)
    requires n <= |items|
    reads items
  {
    set i: nat | i < n && items[i].status == s
  }

  /** For each row, whether it is checked. */
  function RowFlags(rows: set<nat>, n: nat): (r: seq<bool>)
    ensures |r| == n && forall i :: 0 <= i < n ==> r[i] == (i in rows)
  {
    seq(n, (i: int) => 0 <= i && (i as nat) in rows)
  }

  /** The filters of the table: the status, when one is chosen, and the search text, taken as the
      caller gives it, in the lower-cased filename or hash. */
  predicate PassesTableFilters(item: FileItem, statusFilter: Option<DownloadStatus>, searchText: string)
    reads item
  {
    (statusFilter.Some? ==> item.status == statusFilter.value)
    && (searchText != "" ==> Persistence.MatchesSearch(item, searchText))
  }

  /** The records that pass the filters, in their order. */
  function TableFilter(items: seq<FileItem>, statusFilter: Option<DownloadStatus>, searchText: string): seq<FileItem>
    reads items
  {
    if items == [] then []
    else
      var n := |items| - 1;
      TableFilter(items[..n], statusFilter, searchText)
      + (if PassesTableFilters(items[n], statusFilter, searchText) then [items[n]] else [])
  }

  /** The filtered list holds the records that pass, and every record that passes. */
  lemma {:induction false} TableFilterMembers(items: seq<FileItem>, statusFilter: Option<DownloadStatus>, searchText: string)
    ensures forall i :: 0 <= i < |TableFilter(items, statusFilter, searchText)| ==>
              TableFilter(items, statusFilter, searchText)[i] in items
              && PassesTableFilters(TableFilter(items, statusFilter, searchText)[i], statusFilter, searchText)
    ensures forall i :: 0 <= i < |items| && PassesTableFilters(items[i], statusFilter, searchText) ==>
              items[i] in TableFilter(items, statusFilter, searchText)
  {
    if items != [] {
      var n := |items| - 1;
      var front := items[..n];
      TableFilterMembers(front, statusFilter, searchText);
      assert forall i :: 0 <= i < n ==> front[i] == items[i];
      assert forall x :: x in front ==> x in items;
    }
  }

  /** With a search text that is already lower case (the main window lower-cases it), the table
      shows exactly what `filter_files` would return. */
  lemma {:induction false} TableFilterIsFilterFiles(items: seq<FileItem>, statusFilter: Option<DownloadStatus>, searchText: string)
    requires Lower(searchText) == searchText
    ensures TableFilter(items, statusFilter, searchText) == Persistence.FilterFiles(items, statusFilter, searchText)
  {
    if items != [] {
      var n := |items| - 1;
      var front, last := items[..n], items[n];
      TableFilterIsFilterFiles(front, statusFilter, searchText);
      Persistence.FilterFilesSnoc(items, statusFilter, searchText);
      FilterFilesOne(last, statusFilter, searchText);
    }
  }

  /** One record passes `filter_files` exactly when it passes the table's filters. */
  lemma FilterFilesOne(item: FileItem, statusFilter: Option<DownloadStatus>, searchText: string)
    requires Lower(searchText) == searchText
    ensures Persistence.FilterFiles([item], statusFilter, searchText)
            == if PassesTableFilters(item, statusFilter, searchText) then [item] else []
  {
    assert [item][..0] == [];
    var byStatus := if statusFilter.Some? then Persistence.WithStatus([item], statusFilter.value) else [item];
    assert byStatus == (if statusFilter.Some? && item.status != statusFilter.value then [] else [item]);
    if searchText != "" && byStatus == [item] {
      assert Persistence.WithText([item], searchText)
          == (if Persistence.MatchesSearch(item, searchText) then [item] else []);
    }
  }

  /** `FileTableModel`, without its rendering. */
  class FileTableModel {
    var fileItems: seq<FileItem>
    var filtered: seq<FileItem>
    var checked: set<nat>
    var statusFilter: Option<DownloadStatus>
    var searchText: string

    /** Every checked row is a row of the filtered list. */
    predicate Valid()
      reads this
    {
      forall i :: i in checked ==> i < |filtered|
    }

    constructor ()
      ensures fileItems == [] && filtered == [] && checked == {}
      ensures statusFilter == None && searchText == ""
      ensures Valid()
    {
      fileItems, filtered, checked := [], [], {};
      statusFilter, searchText := None, "";
    }

    /** `set_file_items`: every record shown, every row checked. */
    method SetFileItems(items: seq<FileItem>)
      modifies this
      ensures fileItems == items && filtered == items && checked == Rows(|items|)
      ensures statusFilter == old(statusFilter) && searchText == old(searchText)
      ensures Valid()
    {
      fileItems := items;
      filtered := items;
      checked := Rows(|items|);
    }

    /** `get_checked_items`: the shown records at checked rows (in row order), ignoring checked
        numbers past the end of the list. */
    function CheckedItems(): (r: seq<FileItem>)
      reads this
      ensures |r| <= |filtered|
      ensures forall i :: 0 <= i < |r| ==> r[i] in filtered
    {
      SelectWithin(filtered, RowFlags(checked, |filtered|), true);
      Select(filtered, RowFlags(checked, |filtered|), true)
    }

    /** The checked records are exactly the records at checked rows. */
    lemma CheckedItemsExactly()
      ensures forall x :: x in CheckedItems() <==> exists j: nat :: j < |filtered| && j in checked && filtered[j] == x
    {
      var flags := RowFlags(checked, |filtered|);
      SelectFlags(filtered, flags, true);
      SelectComplete(filtered, flags, true);
      forall x | x in CheckedItems()
        ensures exists j: nat :: j < |filtered| && j in checked && filtered[j] == x
      {
        var j :| 0 <= j < |filtered| && filtered[j] == x && flags[j] == true;
        assert j in checked;
      }
    }

    /** In a valid table no checked number is ignored: every checked row is shown, and its
        record is among the checked records. */
    lemma CheckedRowsShown()
      requires Valid()
      ensures forall i :: i in checked ==> i < |filtered| && filtered[i] in CheckedItems()
    {
      CheckedItemsExactly();
    }

    /** `get_file_item`: the record shown at `row`, if there is such a row. */
    function GetFileItem(row: int): (r: Option<FileItem>)
      reads this
      ensures r.Some? <==> 0 <= row < |filtered|
      ensures r.Some? ==> r.value == filtered[row] && r.value in filtered
    {
      if 0 <= row < |filtered| then Some(filtered[row]) else None
    }

    /** `rowCount`. */
    function RowCount(): (r: nat)
      reads this
      ensures r == |filtered|
      ensures forall row :: GetFileItem(row).Some? <==> 0 <= row < r
    {
      |filtered|
    }

    /** `check_all`: every row, or none. */
    method CheckAll(check: bool)
      modifies this
      ensures check ==> checked == Rows(|filtered|)
      ensures !check ==> checked == {}
      ensures fileItems == old(fileItems) && filtered == old(filtered)
      ensures statusFilter == old(statusFilter) && searchText == old(searchText)
      ensures Valid()
    {
      if check {
        checked := Rows(|filtered|);
      } else {
        checked := {};
      }
    }

    /** `check_by_status`: the rows whose record has `status` are added to (or taken out of) the
        selection; no other row changes. */
    method CheckByStatus(status: DownloadStatus, check: bool)
      modifies this
      ensures check ==> checked == old(checked) + RowsWithStatus(filtered, status, |filtered|)
      ensures !check ==> checked == old(checked) - RowsWithStatus(filtered, status, |filtered|)
      ensures fileItems == old(fileItems) && filtered == old(filtered)
      ensures statusFilter == old(statusFilter) && searchText == old(searchText)
      ensures old(Valid()) ==> Valid()
    {
      var i := 0;
      while i < |filtered|
        invariant 0 <= i <= |filtered|
        invariant fileItems == old(fileItems) && filtered == old(filtered)
        invariant statusFilter == old(statusFilter) && searchText == old(searchText)
        invariant check ==> checked == old(checked) + RowsWithStatus(filtered, status, i)
        invariant !check ==> checked == old(checked) - RowsWithStatus(filtered, status, i)
      {
        assert RowsWithStatus(filtered, status, i + 1)
            == RowsWithStatus(filtered, status, i) + (if filtered[i].status == status then {i} else {});
        if filtered[i].status == status {
          if check {
            checked := checked + {i};
          } else {
            checked := checked - {i};
          }
        }
        i := i + 1;
      }
    }

    /** The hashes of the checked records. */
    function CheckedMd5s(): (r: set<string>)
      reads this
    {
      set x | x in CheckedItems() :: x.md5
    }

    /** `apply_filters`: the shown list becomes the records that pass the new filters, in order,
        and a row is checked exactly when its hash was the hash of a checked record before. */
    method ApplyFilters(newStatusFilter: Option<DownloadStatus>, newSearchText: string)
      modifies this
      ensures statusFilter == newStatusFilter && searchText == newSearchText
      ensures fileItems == old(fileItems)
      ensures filtered == TableFilter(fileItems, newStatusFilter, newSearchText)
      ensures forall i: nat :: i in checked <==> i < |filtered| && filtered[i].md5 in old(CheckedMd5s())
      ensures Valid()
    {
      var md5s := CheckedMd5s();
      var shown := Refilter(fileItems, newStatusFilter, newSearchText);
      var rows := RecheckRows(shown, md5s);
      statusFilter, searchText, filtered, checked := newStatusFilter, newSearchText, shown, rows;
    }

    /** The loop that rebuilds the shown list. */
    static method Refilter(items: seq<FileItem>, statusFilter: Option<DownloadStatus>, searchText: string)
      returns (shown: seq<FileItem>)
      ensures shown == TableFilter(items, statusFilter, searchText)
    {
      shown := [];
      for i := 0 to |items|
        invariant shown == TableFilter(items[..i], statusFilter, searchText)
      {
        assert items[..i + 1][..i] == items[..i];
        if statusFilter.Some? && items[i].status != statusFilter.value {
          continue;
        }
        if searchText != "" {
          if !Contains(Lower(items[i].filename), searchText) && !Contains(Lower(items[i].md5), searchText) {
            continue;
          }
        }
        shown := shown + [items[i]];
      }
      assert items[..|items|] == items;
    }

    /** The loop that checks the rows whose hash was checked before. */
    static method RecheckRows(shown: seq<FileItem>, md5s: set<string>) returns (rows: set<nat>)
      ensures forall i: nat :: i in rows <==> i < |shown| && shown[i].md5 in md5s
    {
      rows := {};
      for i := 0 to |shown|
        invariant forall j: nat :: j in rows <==> j < i && shown[j].md5 in md5s
      {
        if shown[i].md5 in md5s {
          rows := rows + {i};
        }
      }
    }

    /** `setData` on a valid index (row and column) or an invalid one (none): a check-state edit of
        the checkbox column checks the row for `Qt.Checked` and unchecks it for anything else;
        every other call changes nothing and returns false. */
    method SetData(index: Option<(nat, nat)>, value: int, role: Role) returns (ok: bool)
      requires index.Some? ==> index.value.1 < |Columns|
      modifies this
      ensures ok <==> index.Some? && index.value.0 < |filtered| && role == CheckStateRole && index.value.1 == 0
      ensures ok && value == Checked ==> checked == old(checked) + {index.value.0}
      ensures ok && value != Checked ==> checked == old(checked) - {index.value.0}
      ensures !ok ==> checked == old(checked)
      ensures fileItems == old(fileItems) && filtered == old(filtered)
      ensures statusFilter == old(statusFilter) && searchText == old(searchText)
      ensures old(Valid()) ==> Valid()
    {
      if index.None? || index.value.0 >= |filtered| {
        return false;
      }
      var (row, column) := index.value;
      var columnKey := Columns[column].1;
      assert columnKey == "checked" <==> column == 0;
      if role == CheckStateRole && columnKey == "checked" {
        if value == Checked {
          checked := checked + {row};
        } else {
          checked := checked - {row};
        }
        return true;
      }
      return false;
    }
  }
}
