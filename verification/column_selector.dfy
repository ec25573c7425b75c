/** `ColumnSelector` (frontend/src/components/Explorer/ColumnSelector.tsx):
    the set of visible explorer columns, its initial value, the checkbox
    toggle, the visibility record it stores and the id list it reports. */
module ColumnSelector {
  import opened Wrappers

  type ColumnId = string

  /** The selection a stored visibility record gives: the ids valued true. */
  function FromStored(visibility: map<ColumnId, bool>): (r: set<ColumnId>)
    ensures forall id :: id in r <==> id in visibility && visibility[id]
  {
    set id | id in visibility && visibility[id]
  }

  /** The initial selection. `stored` is the parsed record under
      `explorer-column-visibility`, `None` when nothing (or the empty text)
      is stored: then every column is selected. */
  function Initial(columns: seq<ColumnId>, stored: Option<map<ColumnId, bool>>): (r: set<ColumnId>)
    ensures stored.None? ==> forall id :: id in r <==> id in columns
    ensures stored.Some? ==> forall id :: id in r <==> id in stored.value && stored.value[id]
  {
    if stored.Some? then FromStored(stored.value) else set id | id in columns
  }

  /** `toggleColumn`'s set update: `id` leaves the selection when present
      and joins it when absent; no other id changes. */
  function Toggle(selection: set<ColumnId>, id: ColumnId): (r: set<ColumnId>)
    ensures id in r <==> id !in selection
    ensures forall other :: other != id ==> (other in r <==> other in selection)
  {
    if id in selection then selection - {id} else selection + {id}
  }

  /** Toggling the same column twice gives the selection back. */
  lemma ToggleTwice(selection: set<ColumnId>, id: ColumnId)
    ensures Toggle(Toggle(selection, id), id) == selection
  {
  }

  /** The record `columns.reduce(...)` builds: one key per column, valued by
      whether the column is selected. */
  function Visibility(columns: seq<ColumnId>, selection: set<ColumnId>): (r: map<ColumnId, bool>)
    ensures forall id :: id in r <==> id in columns
    ensures forall id :: id in r ==> (r[id] <==> id in selection)
  {
    map id | id in columns :: id in selection
  }

  /** Where a column id first appears. */
  function FirstIndex(columns: seq<ColumnId>, id: ColumnId): (i: nat)
    requires id in columns
    ensures i < |columns| && columns[i] == id
    ensures forall j :: 0 <= j < i ==> columns[j] != id
  {
    if columns[0] == id then 0 else 1 + FirstIndex(columns[1..], id)
  }

  /** The first index of a listed id, -1 for an id not listed. */
  function Position(columns: seq<ColumnId>, id: ColumnId): int {
    if id in columns then FirstIndex(columns, id) else -1
  }

  function PositionIn(columns: seq<ColumnId>): ColumnId -> int {
    (id: ColumnId) => Position(columns, id)
  }

  /** Strictly ascending by `rank`. */
  predicate AscendingBy(s: seq<ColumnId>, rank: ColumnId -> int) {
    forall i, j :: 0 <= i < j < |s| ==> rank(s[i]) < rank(s[j])
  }

  /** `Object.keys` of the record: each column id once, in the order of its
      first column. */
  function Keys(columns: seq<ColumnId>): (r: seq<ColumnId>)
    ensures forall id :: id in r <==> id in columns
    ensures AscendingBy(r, PositionIn(columns))
  {
    if |columns| == 0 then []
    else
      var init, last := columns[..|columns|-1], columns[|columns|-1];
      var prev := Keys(init);
      KeepPositions(columns, prev);
      if last in init then
        prev
      else
        var r := prev + [last];
        AppendLast(columns, prev, r);
        r
  }

  /** The first index of an id of the prefix does not change when a column
      is appended. */
  lemma FirstIndexPrefix(columns: seq<ColumnId>, id: ColumnId)
    requires |columns| > 0 && id in columns[..|columns|-1]
    ensures FirstIndex(columns, id) == FirstIndex(columns[..|columns|-1], id)
  {
    var init := columns[..|columns|-1];
    var a, b := FirstIndex(columns, id), FirstIndex(init, id);
    assert columns[b] == id;
  }

  lemma KeepPositions(columns: seq<ColumnId>, prev: seq<ColumnId>)
    requires |columns| > 0
    requires forall id :: id in prev <==> id in columns[..|columns|-1]
    requires AscendingBy(prev, PositionIn(columns[..|columns|-1]))
    ensures AscendingBy(prev, PositionIn(columns))
    ensures forall i :: 0 <= i < |prev| ==> Position(columns, prev[i]) < |columns| - 1
  {
    var init := columns[..|columns|-1];
    forall i | 0 <= i < |prev|
      ensures Position(columns, prev[i]) == Position(init, prev[i]) < |columns| - 1
    {
      assert prev[i] in prev;
      FirstIndexPrefix(columns, prev[i]);
    }
  }

  lemma AppendLast(columns: seq<ColumnId>, prev: seq<ColumnId>, r: seq<ColumnId>)
    requires |columns| > 0 && columns[|columns|-1] !in columns[..|columns|-1]
    requires r == prev + [columns[|columns|-1]]
    requires AscendingBy(prev, PositionIn(columns))
    requires forall i :: 0 <= i < |prev| ==> Position(columns, prev[i]) < |columns| - 1
    ensures AscendingBy(r, PositionIn(columns))
  {
    var last := columns[|columns|-1];
    assert Position(columns, last) == |columns| - 1 by {
      var k := FirstIndex(columns, last);
      assert forall j :: 0 <= j < |columns| - 1 ==> columns[j] == columns[..|columns|-1][j];
    }
    forall i, j | 0 <= i < j < |r| ensures Position(columns, r[i]) < Position(columns, r[j]) {
      if j == |prev| {
        assert r[i] == prev[i];
      } else {
        assert r[i] == prev[i] && r[j] == prev[j];
      }
    }
  }

  /** What `toggleColumn` produces: the new selection, the record it stores
      and the ids it reports through `onChange`. */
  datatype Toggled = Toggled(selection: set<ColumnId>, visibility: map<ColumnId, bool>, reported: seq<ColumnId>)

  function Selected(selection: set<ColumnId>): ColumnId -> bool {
    (id: ColumnId) => id in selection
  }

  /** `ids.filter(keep)`: the kept ids, order kept. */
  function FilterIds(ids: seq<ColumnId>, keep: ColumnId -> bool, rank: ColumnId -> int): (r: seq<ColumnId>)
    ensures forall id :: id in r <==> id in ids && keep(id)
    ensures AscendingBy(ids, rank) ==> AscendingBy(r, rank)
  {
    if |ids| == 0 then []
    else
      var rest := FilterIds(ids[1..], keep, rank);
      if keep(ids[0]) then
        FilterIdsFront(ids, rest, rank);
        [ids[0]] + rest
      else
        FilterIdsTail(ids, rank);
        rest
  }

  lemma FilterIdsTail(ids: seq<ColumnId>, rank: ColumnId -> int)
    requires |ids| > 0
    ensures AscendingBy(ids, rank) ==> AscendingBy(ids[1..], rank)
  {
    if AscendingBy(ids, rank) {
      forall i, j | 0 <= i < j < |ids[1..]| ensures rank(ids[1..][i]) < rank(ids[1..][j]) {
        assert ids[1..][i] == ids[i + 1] && ids[1..][j] == ids[j + 1];
      }
    }
  }

  lemma FilterIdsFront(ids: seq<ColumnId>, rest: seq<ColumnId>, rank: ColumnId -> int)
    requires |ids| > 0
    requires forall id :: id in rest ==> id in ids[1..]
    requires AscendingBy(ids[1..], rank) ==> AscendingBy(rest, rank)
    ensures AscendingBy(ids, rank) ==> AscendingBy([ids[0]] + rest, rank)
  {
    if AscendingBy(ids, rank) {
      FilterIdsTail(ids, rank);
      var r := [ids[0]] + rest;
      forall i, j | 0 <= i < j < |r| ensures rank(r[i]) < rank(r[j]) {
        assert r[j] == rest[j - 1];
        if i == 0 {
          assert rest[j - 1] in ids[1..];
          var q :| 0 <= q < |ids[1..]| && ids[1..][q] == rest[j - 1];
          assert ids[q + 1] == rest[j - 1];
        } else {
          assert r[i] == rest[i - 1];
        }
      }
    }
  }

  /** `toggleColumn(id)`: the selection flips `id`; the record has one key
      per column valued by the new selection; the reported ids are the
      selected columns, each once, in column order. */
  function ToggleColumn(columns: seq<ColumnId>, selection: set<ColumnId>, id: ColumnId): (r: Toggled)
    ensures r.selection == Toggle(selection, id)
    ensures forall c :: c in r.visibility <==> c in columns
    ensures forall c :: c in r.visibility ==> (r.visibility[c] <==> c in r.selection)
    ensures forall c :: c in r.reported <==> c in columns && c in r.selection
    ensures AscendingBy(r.reported, PositionIn(columns))
  {
    var next := Toggle(selection, id);
    var visibility := Visibility(columns, next);
    var keys := Keys(columns);
    var reported := FilterIds(keys, Selected(next), PositionIn(columns));
    Toggled(next, visibility, reported)
  }

  /** Each reported id appears once. */
  lemma ReportedOnce(columns: seq<ColumnId>, selection: set<ColumnId>, id: ColumnId)
    ensures forall i, j :: 0 <= i < j < |ToggleColumn(columns, selection, id).reported| ==>
      ToggleColumn(columns, selection, id).reported[i] != ToggleColumn(columns, selection, id).reported[j]
  {
  }

  /** The stored record read back gives the selection that wrote it, as far
      as the listed columns go. */
  lemma StoredRoundTrip(columns: seq<ColumnId>, selection: set<ColumnId>, id: ColumnId)
    ensures forall c :: c in columns ==>
      (c in Initial(columns, Some(ToggleColumn(columns, selection, id).visibility)) <==> c in ToggleColumn(columns, selection, id).selection)
    ensures forall c :: c in Initial(columns, Some(ToggleColumn(columns, selection, id).visibility)) ==> c in columns
  {
  }
}
