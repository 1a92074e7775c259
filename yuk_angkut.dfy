/** The waste-pickup list page, whose handlers are those of the shared
    list page (`SharedContent.Page`); what is its own is its configuration
    and its sample pickups. */
module YukAngkut {
  import opened Wrappers
  import opened Collection
  import opened DataTable
  import DataCard
  import EditModal
  import SharedContent

  const Columns: seq<Column> := [
    Column("id", "Pickup ID"), Column("name", "Nama"), Column("location", "Lokasi"),
    Column("driver", "Driver"), Column("type", "Jenis"), Column("amount", "Jumlah(Kg)"),
    Column("date", "Tanggal & Jam"), Column("status", "Status")]

  const CardSections: seq<DataCard.SectionSpec> := [
    DataCard.SectionSpec("Personal Info", [
      DataCard.FieldSpec("name", "Nama"), DataCard.FieldSpec("location", "Lokasi"),
      DataCard.FieldSpec("driver", "Driver")]),
    DataCard.SectionSpec("Pickup Details", [
      DataCard.FieldSpec("type", "Jenis"), DataCard.FieldSpec("amount", "Jumlah"),
      DataCard.FieldSpec("date", "Waktu")])]

  function SamplePickup(id: string): Entity {
    map["id" := id, "name" := "Agus Santoso", "location" := "Jl Melati No. 12 Komplek",
        "driver" := "Fauzi Witowo", "type" := "Alumunium", "amount" := "30 Kg",
        "date" := "Oct 27, 2024", "time" := "08:00", "status" := "Berhasil"]
  }

  const InitialData: seq<Entity> := [SamplePickup("YK-20241027-0001"), SamplePickup("YK-20241027-0002")]

  /** The page as it first renders. */
  method Open() returns (page: SharedContent.Page)
    ensures fresh(page) && page.Valid()
    ensures page.columns == Columns && page.data == InitialData && page.filtered == InitialData
    ensures page.selected == None && !page.editOpen
  {
    page := new SharedContent.Page(Columns, CardSections, InitialData);
  }

  /** The edit dialog offers every column but the pickup id, in column
      order. */
  lemma EditFieldsAreNonIdColumns()
    ensures EditModal.EditFields(Columns) == Columns[1..]
  {
    assert Columns[0].key == IdKey;
    assert forall j :: 1 <= j < |Columns| ==> Columns[j].key != IdKey;
    EditModal.IdColumnFirst(Columns);
  }

  /** The two sample pickups differ only in their ids, and a confirmed
      delete of the first leaves the second. */
  lemma DeleteFirstPickup()
    ensures InitialData[0] - {IdKey} == InitialData[1] - {IdKey}
    ensures RemoveKey(InitialData, Some("YK-20241027-0001")) == [InitialData[1]]
  {
    var a, b := InitialData[0], InitialData[1];
    assert KeyOf(a) == Some("YK-20241027-0001");
    assert KeyOf(b) == Some("YK-20241027-0002");
    assert "YK-20241027-0001"[15] != "YK-20241027-0002"[15];
    SharedContent.DeleteFirstOfTwo(a, b);
  }
}
