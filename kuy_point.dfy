/** The point-redemption list page. Unlike the shared list page it keeps
    no filtered list of its own: the list on screen is derived from `data`
    and the navbar's search query on every render. Its update replaces the
    record with the same id wholesale. */
module KuyPoint {
  import opened Wrappers
  import opened Seqs
  import opened Collection
  import opened Search
  import opened Text
  import opened DataTable
  import DataCard
  import EditModal

  const Columns: seq<Column> := [
    Column("id", "ID Penukaran"), Column("name", "Nama"), Column("wallet", "E-Wallet"),
    Column("number", "Nomor E-Wallet"), Column("point", "Poin"), Column("give", "Hadiah"),
    Column("status", "Status")]

  const CardSections: seq<DataCard.SectionSpec> := [
    DataCard.SectionSpec("Personal Info", [
      DataCard.FieldSpec("name", "Nama"), DataCard.FieldSpec("wallet", "E-Wallet"),
      DataCard.FieldSpec("number", "Nomor E-Wallet")]),
    DataCard.SectionSpec("Pickup Details", [
      DataCard.FieldSpec("id", "ID Penukaran"), DataCard.FieldSpec("point", "Poin"),
      DataCard.FieldSpec("give", "Hadiah")])]

  const InitialData: seq<Entity> := [
    map["id" := "KP-20241027-0001", "name" := "Agus Santoso", "wallet" := "Dana",
        "number" := "085312345678", "point" := "40.000", "give" := "Rp.100.000", "status" := "Berhasil"],
    map["id" := "KP-20241027-0002", "name" := "Budi Utomo", "wallet" := "Ovo",
        "number" := "085312345679", "point" := "15.000", "give" := "Rp.40.000", "status" := "Berhasil"]]

  class Page {
    var data: seq<Entity>
    var selected: Option<Entity>
    var editOpen: bool

    constructor()
      ensures data == InitialData && selected == None && !editOpen
    {
      data := InitialData;
      selected := None;
      editOpen := false;
    }

    /** `filteredData`, recomputed from `data` and the search query on
        every render. */
    function Filtered(searchQuery: string): (r: seq<Entity>)
      reads this
      ensures IsSubsequence(r, data)
      ensures forall e :: e in r <==> e in data && MatchesAny(e, Lower(searchQuery))
      ensures forall e :: multiset(r)[e] == if MatchesAny(e, Lower(searchQuery)) then multiset(data)[e] else 0
    {
      FilterAnyField(data, searchQuery)
    }

    method HandleEdit(row: Entity)
      modifies this`selected, this`editOpen
      ensures selected == Some(row) && editOpen
    {
      selected := Some(row);
      editOpen := true;
    }

    /** When confirmed, the records with id `id` leave `data`; otherwise
        nothing changes. */
    method HandleDelete(id: Option<string>, confirmed: bool)
      modifies this`data
      ensures confirmed ==> data == RemoveKey(old(data), id)
      ensures !confirmed ==> data == old(data)
    {
      if confirmed {
        data := RemoveKey(data, id);
      }
    }

    /** The record with the same id is replaced by `updated`, without a
        merge; the dialog closes and the selection is cleared. */
    method HandleUpdate(updated: Entity)
      modifies this`data, this`editOpen, this`selected
      ensures data == ReplaceByKey(old(data), updated)
      ensures !editOpen && selected == None
    {
      data := ReplaceByKey(data, updated);
      editOpen := false;
      selected := None;
    }

    method CloseEditor()
      modifies this`editOpen, this`selected
      ensures !editOpen && selected == None
    {
      editOpen := false;
      selected := None;
    }
  }

  /** Because the list on screen is derived, a delete keeps the search: the
      new screen is the old screen without the deleted records. */
  lemma DeleteKeepsSearch(data: seq<Entity>, query: string, id: Option<string>)
    ensures FilterAnyField(RemoveKey(data, id), query) == RemoveKey(FilterAnyField(data, query), id)
  {
    FilterCommute(data, e => KeyOf(e) != id, e => Keeps(e, AllFields, Lower(query)));
  }

  /** The sample records have distinct ids. */
  lemma SampleIdsDistinct()
    ensures DistinctKeys(InitialData)
  {
    assert KeyOf(InitialData[0]) == Some("KP-20241027-0001");
    assert KeyOf(InitialData[1]) == Some("KP-20241027-0002");
    assert "KP-20241027-0001"[15] != "KP-20241027-0002"[15];
  }

  /** The edit dialog offers every column but the id, in column order. */
  lemma EditFieldsAreNonIdColumns()
    ensures EditModal.EditFields(Columns) == Columns[1..]
  {
    assert Columns[0].key == IdKey;
    assert forall j :: 1 <= j < |Columns| ==> Columns[j].key != IdKey;
    EditModal.IdColumnFirst(Columns);
  }
}
