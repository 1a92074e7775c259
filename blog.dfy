/** The blog page. Its list comes from the server; its search bar trims
    the search text and always searches the full list; an add or a delete
    takes effect only when the server confirms it, and resets the list on
    screen to the full list; an update patches the full list and the list
    on screen separately with the post the server returns. */
module Blog {
  import opened Wrappers
  import opened Seqs
  import opened Collection
  import opened Search
  import opened DataTable
  import Badges
  import EditModal

  /** The table's columns; there is no id column, so the edit dialog
      offers every one of them. */
  const Columns: seq<Column> := [
    Column("judul", "Judul"), Column("isiBlog", "Isi Blog"), Column("penulis", "Penulis"),
    Column("tanggalPublikasi", "Tanggal Publikasi"), Column("banner", "Banner"),
    Column("status", "Status")]

  /** The statuses a post is created with. */
  const BlogStatuses: seq<string> := ["Dipublikasikan", "Draft"]

  /** The number of characters a collapsed post body shows. */
  const PreviewLength := 150

  /** A JavaScript value used as a condition: a string is true unless it
      is empty, and a missing value is false. */
  predicate Truthy(v: Option<string>) {
    v.Some? && v.value != ""
  }

  /** `updatedData.id || selectedData?.id`: the id the update is sent
      under, or `None` when neither holds one and the update is
      abandoned. */
  function ResolveUpdateId(updated: Entity, selected: Option<Entity>): (r: Option<string>)
    ensures r.Some? ==> r.value != ""
    ensures Truthy(KeyOf(updated)) ==> r == KeyOf(updated)
    ensures !Truthy(KeyOf(updated)) && selected.Some? && Truthy(KeyOf(selected.value)) ==>
      r == KeyOf(selected.value)
    ensures r.None? <==> !Truthy(KeyOf(updated)) && (selected.None? || !Truthy(KeyOf(selected.value)))
  {
    if Truthy(KeyOf(updated)) then KeyOf(updated)
    else if selected.Some? && Truthy(KeyOf(selected.value)) then KeyOf(selected.value)
    else None
  }

  /** `toggleFullText`: the post shown in full, after a click on the
      button of post `id`. */
  function Toggle(showFullText: Option<string>, id: string): (r: Option<string>)
    ensures r == None || r == Some(id)
  {
    if showFullText == Some(id) then None else Some(id)
  }

  /** The post `row` is shown in full. */
  predicate Expanded(showFullText: Option<string>, row: Entity) {
    showFullText.Some? && KeyOf(row) == showFullText
  }

  /** The body text of a post as shown: whole when expanded, otherwise its
      first 150 characters followed by "...", even when it is shorter. */
  function Preview(text: string, expanded: bool): (r: string)
    ensures expanded ==> r == text
    ensures !expanded ==> 3 <= |r| <= PreviewLength + 3 && r[|r| - 3..] == "..."
  {
    if expanded then text
    else text[..if |text| < PreviewLength then |text| else PreviewLength] + "..."
  }

  /** A click on a post's button shows that post in full unless it already
      is, in which case no post is; every other post is then collapsed. */
  lemma ToggleExpandsOne(showFullText: Option<string>, id: string, row: Entity)
    ensures Expanded(Toggle(showFullText, id), row) <==>
      showFullText != Some(id) && KeyOf(row) == Some(id)
  {
  }

  /** Clicking the same button twice restores what was shown exactly when
      no post, or that post, was shown in full before. */
  lemma ToggleTwice(showFullText: Option<string>, id: string)
    ensures Toggle(Toggle(showFullText, id), id) == showFullText <==>
      showFullText == None || showFullText == Some(id)
  {
  }

  /** A collapsed body is a prefix of the text of at most 150 characters,
      and all of a text of at most 150 characters, followed by "...". */
  lemma PreviewIsPrefix(text: string)
    ensures var p := Preview(text, false);
      && |p| <= PreviewLength + 3
      && p[|p| - 3..] == "..."
      && p[..|p| - 3] <= text
      && (|text| <= PreviewLength ==> p == text + "...")
      && (|text| >= PreviewLength ==> |p| == PreviewLength + 3)
    ensures Preview(text, true) == text
  {
    var p := Preview(text, false);
    var n := if |text| < PreviewLength then |text| else PreviewLength;
    assert p == text[..n] + "...";
    assert p[..|p| - 3] == text[..n];
  }

  /** Blog statuses are not among the ones the table colours: the table
      classifies by the transaction rule, and both are grey. */
  lemma BlogStatusesAreGrey()
    ensures Badges.ContentTypeOf("blogs") == Badges.Transactions
    ensures forall s :: s in BlogStatuses ==>
      Badges.StatusBadgeFor(Badges.ContentTypeOf("blogs"), Some(s)) == Badges.Neutral
  {
    assert Badges.ContentTypeOf("blogs") == Badges.Transactions;
    assert BlogStatuses[0][0] == 'D' && BlogStatuses[1][0] == 'D';
    assert "Berhasil"[0] == 'B' && "Gagal"[0] == 'G' && "Proses"[0] == 'P';
  }

  /** The edit dialog offers every column, and a post edited through it
      keeps its id, so the update is sent under the id of the post the
      dialog was opened on. */
  lemma EditedPostKeepsRequestId(selected: Entity, changes: seq<(string, string)>)
    requires Truthy(KeyOf(selected))
    requires forall i :: 0 <= i < |changes| ==> changes[i].0 in EditModal.KeysOf(EditModal.EditFields(Columns))
    ensures EditModal.EditFields(Columns) == Columns
    ensures ResolveUpdateId(EditModal.ApplyChanges(selected, changes), Some(selected)) == KeyOf(selected)
  {
    assert forall j :: 0 <= j < |Columns| ==> Columns[j].key != IdKey;
    FilterKeepsAll(Columns, (c: Column) => c.key != IdKey);
    EditModal.EditKeepsId(selected, Columns, changes);
  }

  class Page {
    var data: seq<Entity>
    var filtered: seq<Entity>
    var selected: Option<Entity>
    var editOpen: bool
    var addOpen: bool
    var showFullText: Option<string>
    /** The search bar's own text and field. */
    var searchText: string
    var searchField: string

    /** The list on screen is drawn from the full list, in order. */
    ghost predicate Valid()
      reads this
    {
      IsSubsequence(filtered, data)
    }

    /** The page as it mounts, before the list arrives. */
    constructor()
      ensures Valid()
      ensures data == [] && filtered == [] && selected == None && !editOpen && !addOpen
      ensures showFullText == None && searchText == "" && searchField == AllFields
    {
      data := [];
      filtered := [];
      selected := None;
      editOpen := false;
      addOpen := false;
      showFullText := None;
      searchText := "";
      searchField := AllFields;
    }

    /** `fetchData`: the list the server sends, or `None` when the request
        failed and nothing changes. */
    method Load(response: Option<seq<Entity>>)
      requires Valid()
      modifies this`data, this`filtered
      ensures Valid()
      ensures response.Some? ==> data == response.value && filtered == response.value
      ensures response.None? ==> data == old(data) && filtered == old(filtered)
    {
      if response.Some? {
        data := response.value;
        filtered := response.value;
        SubsequenceReflexive(data);
      }
    }

    /** Typing in the search box: the text is kept, and the full list is
        searched with it and the current field. When the field is missing
        from some post the search throws after the text is kept, and the
        list on screen stays as it was. */
    method HandleInputChange(text: string)
      requires Valid()
      modifies this`searchText, this`filtered
      ensures Valid() && searchText == text
      ensures PerformSearch(data, text, searchField).Some? ==>
        filtered == PerformSearch(data, text, searchField).value
      ensures PerformSearch(data, text, searchField).None? ==> filtered == old(filtered)
    {
      searchText := text;
      var r := PerformSearch(data, text, searchField);
      if r.Some? {
        filtered := r.value;
      }
    }

    /** Choosing a search field: the same, with the current text. */
    method HandleFieldChange(field: string)
      requires Valid()
      modifies this`searchField, this`filtered
      ensures Valid() && searchField == field
      ensures PerformSearch(data, searchText, field).Some? ==>
        filtered == PerformSearch(data, searchText, field).value
      ensures PerformSearch(data, searchText, field).None? ==> filtered == old(filtered)
    {
      searchField := field;
      var r := PerformSearch(data, searchText, field);
      if r.Some? {
        filtered := r.value;
      }
    }

    /** The add button. */
    method OpenAdd()
      modifies this`addOpen
      ensures addOpen
    {
      addOpen := true;
    }

    method CloseAdd()
      modifies this`addOpen
      ensures !addOpen
    {
      addOpen := false;
    }

    /** `handleAdd`: `created` is the post the server returns, or `None`
        when the request failed and nothing changes. On success the post
        goes at the end, the list on screen becomes the full list while
        the search bar keeps its text, and the dialog closes. */
    method HandleAdd(created: Option<Entity>)
      requires Valid()
      modifies this`data, this`filtered, this`addOpen
      ensures Valid()
      ensures created.Some? ==>
        && data == Append(old(data), created.value)
        && filtered == data
        && !addOpen
      ensures created.None? ==>
        data == old(data) && filtered == old(filtered) && addOpen == old(addOpen)
    {
      if created.Some? {
        data := Append(data, created.value);
        filtered := data;
        addOpen := false;
        SubsequenceReflexive(data);
      }
    }

    method HandleEdit(row: Entity)
      modifies this`selected, this`editOpen
      ensures selected == Some(row) && editOpen
    {
      selected := Some(row);
      editOpen := true;
    }

    /** `handleDelete`: `status` is the status of the delete request, or
        `None` when it threw. Only a confirmed delete that the server
        answers with 200 removes the records with that id from the full
        list and shows the full list. */
    method HandleDelete(id: Option<string>, confirmed: bool, status: Option<int>)
      requires Valid()
      modifies this`data, this`filtered
      ensures Valid()
      ensures confirmed && status == Some(200) ==>
        data == RemoveKey(old(data), id) && filtered == data
      ensures !(confirmed && status == Some(200)) ==>
        data == old(data) && filtered == old(filtered)
    {
      if confirmed && status == Some(200) {
        data := RemoveKey(data, id);
        filtered := data;
        SubsequenceReflexive(data);
      }
    }

    /** `handleUpdate`: `requestId` is the id the update is sent under, or
        `None` when there is none and nothing is sent; `response` is the
        post the server returns, or `None` when the request failed. On
        success the post replaces the records with its id in the full list
        and in the list on screen, each on its own, and the dialog closes
        with the selection cleared. */
    method HandleUpdate(updated: Entity, response: Option<Entity>) returns (requestId: Option<string>)
      requires Valid()
      modifies this`data, this`filtered, this`editOpen, this`selected
      ensures Valid()
      ensures requestId == ResolveUpdateId(updated, old(selected))
      ensures requestId.Some? && response.Some? ==>
        && data == ReplaceByKey(old(data), response.value)
        && filtered == ReplaceByKey(old(filtered), response.value)
        && !editOpen && selected == None
      ensures requestId.None? || response.None? ==>
        && data == old(data) && filtered == old(filtered)
        && editOpen == old(editOpen) && selected == old(selected)
    {
      requestId := ResolveUpdateId(updated, selected);
      if requestId.None? || response.None? {
        return;
      }
      ReplaceKeepsSubsequence(filtered, data, response.value);
      data := ReplaceByKey(data, response.value);
      filtered := ReplaceByKey(filtered, response.value);
      editOpen := false;
      selected := None;
    }

    /** The edit dialog's close: it closes and the selection is cleared. */
    method CloseEditor()
      modifies this`editOpen, this`selected
      ensures !editOpen && selected == None
    {
      editOpen := false;
      selected := None;
    }

    method ToggleFullText(id: string)
      modifies this`showFullText
      ensures showFullText == Toggle(old(showFullText), id)
    {
      showFullText := Toggle(showFullText, id);
    }
  }
}
