/** The desktop table every list page renders its filtered records with: a
    header row of column labels and an "Action" cell, then one row per
    record, each holding one cell per column and an edit and a delete
    button. */
module DataTable {
  import opened Wrappers
  import opened Seqs
  import opened Collection
  import opened Badges

  /** A column of the page's `columns` configuration. The table reads only
      its `key` and its `label`, here `caption`. */
  datatype Column = Column(key: string, caption: string)

  /** What a body cell shows, chosen by the column key. */
  datatype Cell =
    | StatusCell(text: Option<string>, badge: StatusBadge)
    | RoleCell(text: Option<string>, role: RoleBadge)
    | DateCell(date: Option<string>, time: Option<string>)
    | TextCell(text: Option<string>)

  /** A body row: its React key, its cells, and what the edit and the delete
      buttons pass to the page's handlers. */
  datatype Row = Row(key: Option<string>, cells: seq<Cell>, editArg: Entity, deleteArg: Option<string>)

  datatype Table = Table(header: seq<string>, rows: seq<Row>)

  const ActionLabel := "Action"

  /** The cell for column `key` of `row`: a status badge, a role badge, the
      date with the time under it, or the raw value. A missing value shows
      nothing. */
  function RenderCell(ct: ContentType, row: Entity, key: string): (c: Cell)
    ensures CellValue(c) == Get(row, key)
    ensures c.StatusCell? ==> c.badge == StatusBadgeFor(ct, CellValue(c))
    ensures c.RoleCell? ==> c.role == RoleBadgeFor(CellValue(c))
  {
    if key == "status" then StatusCell(Get(row, key), StatusBadgeFor(ct, Get(row, key)))
    else if key == "role" then RoleCell(Get(row, key), RoleBadgeFor(Get(row, key)))
    else if key == "date" then DateCell(Get(row, "date"), Get(row, "time"))
    else TextCell(Get(row, key))
  }

  /** The value a cell shows first (the date of a date cell). */
  function CellValue(c: Cell): Option<string> {
    match c
    case StatusCell(t, _) => t
    case RoleCell(t, _) => t
    case DateCell(d, _) => d
    case TextCell(t) => t
  }

  /** The column labels in column order, then "Action". */
  function Header(columns: seq<Column>): (h: seq<string>)
    ensures |h| == |columns| + 1 && h[|columns|] == ActionLabel
    ensures forall j :: 0 <= j < |columns| ==> h[j] == columns[j].caption
  {
    MapSeq(columns, (c: Column) => c.caption) + [ActionLabel]
  }

  /** One cell per column, showing that column's attribute; the edit
      button passes the record and the delete button its id. */
  function RenderRow(ct: ContentType, columns: seq<Column>, row: Entity): (r: Row)
    ensures r.key == KeyOf(row) && r.editArg == row && r.deleteArg == KeyOf(row)
    ensures |r.cells| == |columns|
    ensures forall j :: 0 <= j < |columns| ==> CellValue(r.cells[j]) == Get(row, columns[j].key)
  {
    Row(KeyOf(row), MapSeq(columns, (c: Column) => RenderCell(ct, row, c.key)), row, KeyOf(row))
  }

  /** The table for `data` under the `columns` configuration. */
  function Render(ct: ContentType, columns: seq<Column>, data: seq<Entity>): (t: Table)
    ensures t.header == Header(columns)
    ensures |t.rows| == |data|
    ensures forall i :: 0 <= i < |data| ==> t.rows[i] == RenderRow(ct, columns, data[i])
  {
    Table(Header(columns), MapSeq(data, row => RenderRow(ct, columns, row)))
  }

  /** The layout of the table: the header is the column labels in column
      order and then "Action"; there is one row per record in list order;
      cell `j` of row `i` shows attribute `columns[j].key` of record `i`;
      edit receives the record and delete its id. */
  lemma TableLayout(ct: ContentType, columns: seq<Column>, data: seq<Entity>, i: nat, j: nat)
    requires i < |data| && j < |columns|
    ensures var t := Render(ct, columns, data);
      && |t.header| == |columns| + 1
      && t.header[j] == columns[j].caption && t.header[|columns|] == ActionLabel
      && |t.rows| == |data|
      && |t.rows[i].cells| == |columns|
      && CellValue(t.rows[i].cells[j]) == Get(data[i], columns[j].key)
      && t.rows[i].editArg == data[i]
      && t.rows[i].deleteArg == KeyOf(data[i])
  {
    var t := Render(ct, columns, data);
    assert t.rows[i] == RenderRow(ct, columns, data[i]);
    assert t.rows[i].cells[j] == RenderCell(ct, data[i], columns[j].key);
  }

  /** Each column key shows its own kind of cell: only "status" a status
      badge, coloured by the content type's rule; only "role" a role
      badge; only "date" the date and the record's time; every other key
      the raw value. */
  lemma CellKinds(ct: ContentType, row: Entity, key: string)
    ensures var c := RenderCell(ct, row, key);
      && CellValue(c) == Get(row, key)
      && (c.StatusCell? <==> key == "status")
      && (c.StatusCell? ==> c.badge == StatusBadgeFor(ct, Get(row, "status")))
      && (c.RoleCell? <==> key == "role")
      && (c.RoleCell? ==> c.role == RoleBadgeFor(Get(row, "role")))
      && (c.DateCell? <==> key == "date")
      && (c.DateCell? ==> c.time == Get(row, "time"))
      && (c.TextCell? <==> key !in {"status", "role", "date"})
  {
  }

  /** The table of a search result shows some of the rows of the full table,
      in the same order. */
  lemma FilteredTableRows(ct: ContentType, columns: seq<Column>, filtered: seq<Entity>, data: seq<Entity>)
    requires IsSubsequence(filtered, data)
    ensures IsSubsequence(Render(ct, columns, filtered).rows, Render(ct, columns, data).rows)
  {
    MapPreservesSubsequence(filtered, data, row => RenderRow(ct, columns, row));
  }

  /** With distinct ids, deleting through the delete button of row `i`
      removes record `i` and no other. */
  lemma DeleteButtonRemovesItsRow(ct: ContentType, columns: seq<Column>, data: seq<Entity>, i: nat)
    requires i < |data| && DistinctKeys(data)
    ensures RemoveKey(data, Render(ct, columns, data).rows[i].deleteArg) == data[..i] + data[i + 1..]
  {
    RemoveRowKey(data, i);
  }
}
