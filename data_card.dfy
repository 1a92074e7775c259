/** The card the list pages render each filtered record with on small
    screens: a header with the id and the status badge, then the page's
    `cardSections`, each a title and labelled fields, then an edit and a
    delete button. */
module DataCard {
  import opened Wrappers
  import opened Seqs
  import opened Collection
  import opened Badges
  import DataTable

  /** A field of a card section configuration. */
  datatype FieldSpec = FieldSpec(key: string, caption: string)

  datatype SectionSpec = SectionSpec(title: string, fields: seq<FieldSpec>)

  /** A rendered field: its label, the record's value, and the role badge
      when the field is the role. */
  datatype FieldView = FieldView(caption: string, value: Option<string>, role: Option<RoleBadge>)

  datatype SectionView = SectionView(title: string, fields: seq<FieldView>)

  datatype Card = Card(
    id: Option<string>,
    status: Option<string>,
    badge: StatusBadge,
    sections: seq<SectionView>,
    editArg: Entity,
    deleteArg: Option<string>)

  /** Only the field keyed "role" gets the role styling. */
  function RenderField(data: Entity, f: FieldSpec): (v: FieldView)
    ensures v.caption == f.caption && v.value == Get(data, f.key)
    ensures v.role.Some? <==> f.key == "role"
    ensures v.role.Some? ==> v.role.value == RoleBadgeFor(v.value)
  {
    FieldView(f.caption, Get(data, f.key),
      if f.key == "role" then Some(RoleBadgeFor(Get(data, f.key))) else None)
  }

  /** The section's title, then its fields in declared order. */
  function RenderSection(data: Entity, s: SectionSpec): (v: SectionView)
    ensures v.title == s.title && |v.fields| == |s.fields|
    ensures forall k :: 0 <= k < |s.fields| ==> v.fields[k] == RenderField(data, s.fields[k])
  {
    SectionView(s.title, MapSeq(s.fields, f => RenderField(data, f)))
  }

  /** The card for record `data`. */
  function RenderCard(ct: ContentType, data: Entity, sections: seq<SectionSpec>): (c: Card)
    ensures c.id == KeyOf(data) && c.status == Get(data, "status")
    ensures c.badge == StatusBadgeFor(ct, c.status)
    ensures c.editArg == data && c.deleteArg == c.id
    ensures |c.sections| == |sections|
    ensures forall i :: 0 <= i < |sections| ==> c.sections[i] == RenderSection(data, sections[i])
  {
    Card(KeyOf(data), Get(data, "status"), StatusBadgeFor(ct, Get(data, "status")),
      MapSeq(sections, s => RenderSection(data, s)), data, KeyOf(data))
  }

  /** The sections and their fields appear in declared order, each field
      shows the record's attribute for its key, and only the role field is
      styled. */
  lemma CardLayout(ct: ContentType, data: Entity, sections: seq<SectionSpec>, i: nat, j: nat)
    requires i < |sections| && j < |sections[i].fields|
    ensures var c := RenderCard(ct, data, sections);
      var f := sections[i].fields[j];
      && |c.sections| == |sections|
      && c.sections[i].title == sections[i].title
      && |c.sections[i].fields| == |sections[i].fields|
      && c.sections[i].fields[j].caption == f.caption
      && c.sections[i].fields[j].value == Get(data, f.key)
      && (c.sections[i].fields[j].role.Some? <==> f.key == "role")
  {
    var c := RenderCard(ct, data, sections);
    assert c.sections[i] == RenderSection(data, sections[i]);
    assert c.sections[i].fields[j] == RenderField(data, sections[i].fields[j]);
  }

  /** The header shows the id and the status badge whatever the sections
      are, and the buttons pass the record and its id. */
  lemma CardHeaderIgnoresSections(ct: ContentType, data: Entity, s1: seq<SectionSpec>, s2: seq<SectionSpec>)
    ensures var c1, c2 := RenderCard(ct, data, s1), RenderCard(ct, data, s2);
      && c1.id == c2.id == KeyOf(data)
      && c1.badge == c2.badge == StatusBadgeFor(ct, Get(data, "status"))
      && c1.editArg == data && c1.deleteArg == KeyOf(data)
  {
  }

  /** The card and the table row of the same record agree: the card's badge
      is the table's status badge, a card field and a table column with the
      same key show the same value, and a role field gets the same badge in
      both. */
  lemma CardAgreesWithTable(ct: ContentType, columns: seq<DataTable.Column>, data: seq<Entity>,
                            sections: seq<SectionSpec>, r: nat, j: nat, i: nat, k: nat)
    requires r < |data| && j < |columns| && i < |sections| && k < |sections[i].fields|
    requires columns[j].key == sections[i].fields[k].key
    ensures var row := DataTable.Render(ct, columns, data).rows[r];
      var card := RenderCard(ct, data[r], sections);
      && DataTable.CellValue(row.cells[j]) == card.sections[i].fields[k].value
      && (columns[j].key == "status" ==> row.cells[j] == DataTable.StatusCell(card.status, card.badge))
      && (columns[j].key == "role" ==> row.cells[j].RoleCell? && card.sections[i].fields[k].role == Some(row.cells[j].role))
      && row.editArg == card.editArg && row.deleteArg == card.deleteArg
  {
    DataTable.TableLayout(ct, columns, data, r, j);
    CardLayout(ct, data[r], sections, i, k);
    var row := DataTable.Render(ct, columns, data).rows[r];
    assert row.cells[j] == DataTable.RenderCell(ct, data[r], columns[j].key);
  }
}
