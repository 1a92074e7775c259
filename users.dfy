/** The admin-users list page. Like the point page its list on screen is
    derived from `data` and the search query on every render; its update
    lays the edited draft over the record whose id is the id of the
    selected record, so attributes the draft lacks keep their values. The
    table and the cards use the users status classification. */
module Users {
  import opened Wrappers
  import opened Seqs
  import opened Collection
  import opened Search
  import opened Text
  import opened DataTable
  import DataCard
  import EditModal

  /** There is no id column, so the edit dialog offers every column. */
  const Columns: seq<Column> := [
    Column("name", "Nama"), Column("email", "Email"), Column("number", "Nomor Telepon"),
    Column("addres", "Alamat"), Column("role", "Role"), Column("status", "Status")]

  const CardSections: seq<DataCard.SectionSpec> := [
    DataCard.SectionSpec("Personal Info", [
      DataCard.FieldSpec("name", "Nama"), DataCard.FieldSpec("email", "Email"),
      DataCard.FieldSpec("number", "Nomor Telepon"), DataCard.FieldSpec("addres", "Alamat"),
      DataCard.FieldSpec("role", "Role")])]

  function SampleUser(id: string, name: string, email: string): Entity {
    map["id" := id, "name" := name, "email" := email, "number" := "085312345678",
        "addres" := "Jl Melati No. 12 Komplek", "role" := "Admin", "status" := "Aktif"]
  }

  const InitialData: seq<Entity> := [
    SampleUser("1", "Agus Santoso sip", "agussantos@gmail.com"),
    SampleUser("2", "Agus Santoso", "agussantos@gmail.com"),
    SampleUser("3", "ahmad Agus Santoso", "agussantos@gmail.com"),
    SampleUser("4", "kepin yoga", "kepin@gmail.com")]

  class Page {
    var data: seq<Entity>
    var selected: Option<Entity>
    var editOpen: bool

    constructor()
      ensures data == InitialData && selected == None && !editOpen
    {
      data := InitialData;
      selected := None;
      editOpen := false;
    }

    /** `filteredData`, recomputed from `data` and the search query on
        every render. */
    function Filtered(searchQuery: string): (r: seq<Entity>)
      reads this
      ensures IsSubsequence(r, data)
      ensures forall e :: e in r <==> e in data && MatchesAny(e, Lower(searchQuery))
      ensures forall e :: multiset(r)[e] == if MatchesAny(e, Lower(searchQuery)) then multiset(data)[e] else 0
    {
      FilterAnyField(data, searchQuery)
    }

    method HandleEdit(row: Entity)
      modifies this`selected, this`editOpen
      ensures selected == Some(row) && editOpen
    {
      selected := Some(row);
      editOpen := true;
    }

    method HandleDelete(id: Option<string>, confirmed: bool)
      modifies this`data
      ensures confirmed ==> data == RemoveKey(old(data), id)
      ensures !confirmed ==> data == old(data)
    {
      if confirmed {
        data := RemoveKey(data, id);
      }
    }

    /** The dialog's `onUpdate`, which exists only while a record is
        selected: `updated` is laid over every record whose id is the
        selected record's, the dialog closes and the selection is cleared. */
    method HandleUpdate(updated: Entity)
      requires selected.Some?
      modifies this`data, this`editOpen, this`selected
      ensures data == MergeByKey(old(data), KeyOf(old(selected).value), updated)
      ensures !editOpen && selected == None
    {
      data := MergeByKey(data, KeyOf(selected.value), updated);
      editOpen := false;
      selected := None;
    }

    method CloseEditor()
      modifies this`editOpen, this`selected
      ensures !editOpen && selected == None
    {
      editOpen := false;
      selected := None;
    }
  }

  /** An edit made through the dialog changes only the selected record and
      keeps every id: with distinct ids, merging the draft the dialog built
      from the selected record is replacing that record by the draft. */
  lemma EditThroughDialogIsReplace(data: seq<Entity>, selected: Entity, columns: seq<Column>,
                                   changes: seq<(string, string)>)
    requires DistinctKeys(data) && selected in data
    requires forall i :: 0 <= i < |changes| ==> changes[i].0 in EditModal.KeysOf(EditModal.EditFields(columns))
    ensures var edited := EditModal.ApplyChanges(selected, changes);
      && MergeByKey(data, KeyOf(selected), edited) == ReplaceByKey(data, edited)
      && Keys(MergeByKey(data, KeyOf(selected), edited)) == Keys(data)
  {
    var edited := EditModal.ApplyChanges(selected, changes);
    EditModal.EditKeepsId(selected, columns, changes);
    EditModal.ChangesKeepAttributes(selected, changes);
    forall e | e in data && KeyOf(e) == KeyOf(edited) ensures e.Keys <= edited.Keys {
      var i :| 0 <= i < |data| && data[i] == e;
      var j :| 0 <= j < |data| && data[j] == selected;
      assert i == j;
    }
    MergeOfCompleteDraftIsReplace(data, edited);
    ReplaceKeepsKeys(data, edited);
  }

  /** The sample users have distinct ids. */
  lemma SampleIdsDistinct()
    ensures DistinctKeys(InitialData)
  {
    forall i, j | 0 <= i < j < |InitialData| ensures KeyOf(InitialData[i]) != KeyOf(InitialData[j]) {
      assert KeyOf(InitialData[i]) == Some(["1234"[i]]);
      assert KeyOf(InitialData[j]) == Some(["1234"[j]]);
    }
  }

  /** With no id column, the dialog offers every column, the status among
      them; and every status it offers is grey under the users
      classification. */
  lemma EditFieldsAreAllColumns()
    ensures EditModal.EditFields(Columns) == Columns
    ensures forall o :: o in EditModal.StatusOptions ==> Badges.StatusBadgeFor(Badges.Users, Some(o)) == Badges.Neutral
  {
    assert forall j :: 0 <= j < |Columns| ==> Columns[j].key != IdKey;
    FilterKeepsAll(Columns, (c: Column) => c.key != IdKey);
    EditModal.StatusOptionsColours();
  }
}
