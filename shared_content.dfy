/** The list page controller of `SharedContent`, which
    `YukAngkutContent` repeats handler for handler: the page keeps the full
    list `data` and the list on screen `filteredData`, the record chosen for
    editing and whether the edit dialog is open. The confirmation dialog is
    the `confirmed` parameter of the delete handler. */
module SharedContent {
  import opened Wrappers
  import opened Seqs
  import opened Collection
  import opened Search
  import opened DataTable
  import DataCard

  class Page {
    const columns: seq<Column>
    const cardSections: seq<DataCard.SectionSpec>
    var data: seq<Entity>
    /** `filteredData`, the list the table and the cards show. */
    var filtered: seq<Entity>
    /** `selectedData`; `None` is `null`. */
    var selected: Option<Entity>
    var editOpen: bool

    /** What the page keeps true: the list on screen is the full list with
        some records left out. */
    ghost predicate Valid()
      reads this
    {
      IsSubsequence(filtered, data)
    }

    constructor(columns: seq<Column>, cardSections: seq<DataCard.SectionSpec>, initialData: seq<Entity>)
      ensures Valid()
      ensures this.columns == columns && this.cardSections == cardSections
      ensures data == initialData && filtered == initialData
      ensures selected == None && !editOpen
    {
      this.columns := columns;
      this.cardSections := cardSections;
      data := initialData;
      filtered := initialData;
      selected := None;
      editOpen := false;
      SubsequenceReflexive(initialData);
    }

    /** The search bar's `onSearch`. A single-field search over a record
        without that field throws before the list is set, so the old list
        stays on screen. */
    method HandleSearch(text: string, field: string)
      requires Valid()
      modifies this`filtered
      ensures Valid()
      ensures Search.HandleSearch(data, text, field).Some? ==> filtered == Search.HandleSearch(data, text, field).value
      ensures Search.HandleSearch(data, text, field).None? ==> filtered == old(filtered)
    {
      var r := Search.HandleSearch(data, text, field);
      if r.Some? {
        filtered := r.value;
      }
    }

    /** The edit button: select exactly the clicked record and open the
        dialog. */
    method HandleEdit(row: Entity)
      modifies this`selected, this`editOpen
      ensures selected == Some(row) && editOpen
    {
      selected := Some(row);
      editOpen := true;
    }

    /** The delete button. When confirmed, both lists become `data` without
        the records whose id is `id`; otherwise nothing changes. */
    method HandleDelete(id: Option<string>, confirmed: bool)
      requires Valid()
      modifies this`data, this`filtered
      ensures Valid()
      ensures confirmed ==> data == RemoveKey(old(data), id) && filtered == data
      ensures !confirmed ==> data == old(data) && filtered == old(filtered)
    {
      if confirmed {
        var newData := RemoveKey(data, id);
        data := newData;
        filtered := newData;
        SubsequenceReflexive(newData);
      }
    }

    /** The dialog's `onUpdate`: the record with the same id is replaced
        wholesale, both lists become the new list, the dialog closes and the
        selection is cleared. */
    method HandleUpdate(updated: Entity)
      modifies this`data, this`filtered, this`editOpen, this`selected
      ensures Valid()
      ensures data == ReplaceByKey(old(data), updated) && filtered == data
      ensures !editOpen && selected == None
    {
      var newData := ReplaceByKey(data, updated);
      data := newData;
      filtered := newData;
      editOpen := false;
      selected := None;
      SubsequenceReflexive(newData);
    }

    /** The dialog's `onClose`. */
    method CloseEditor()
      modifies this`editOpen, this`selected
      ensures !editOpen && selected == None
    {
      editOpen := false;
      selected := None;
    }

    /** The effect that runs whenever `data` changes: the list on screen is
        reset to the full list. */
    method DataChanged()
      modifies this`filtered
      ensures Valid() && filtered == data
    {
      filtered := data;
      SubsequenceReflexive(data);
    }
  }

  /** A confirmed delete of the first of two records leaves the second in
      both lists. */
  lemma DeleteFirstOfTwo(a: Entity, b: Entity)
    requires KeyOf(a) != KeyOf(b)
    ensures RemoveKey([a, b], KeyOf(a)) == [b]
  {
    assert DistinctKeys([a, b]);
    RemoveRowKey([a, b], 0);
    assert [a, b][1..] == [b];
  }
}
