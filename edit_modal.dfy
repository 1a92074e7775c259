/** The edit dialog every list page opens on a selected record: a draft
    copy of the record, one input per editable column, and the save and
    cancel buttons that report to the page through its callbacks. */
module EditModal {
  import opened Wrappers
  import opened Seqs
  import opened Collection
  import opened Badges
  import opened Text
  import opened DataTable

  /** The values the status select offers. */
  const StatusOptions := ["Berhasil", "Gagal", "Proses"]

  /** An input of the form: the select for the status, a text box for
      anything else; each shows the draft's value for its key. */
  datatype Input =
    | StatusSelect(key: string, caption: string, options: seq<string>, value: Option<string>)
    | TextInput(key: string, caption: string, value: Option<string>)

  /** A call the dialog makes to the page, in call order. */
  datatype Call = OnUpdate(record: Entity) | OnClose

  /** `columns.filter(col => col.key !== 'id')`: the columns every page
      hands to the dialog as its fields. */
  function EditFields(columns: seq<Column>): (r: seq<Column>)
    ensures forall c :: c in r <==> c in columns && c.key != IdKey
    ensures IsSubsequence(r, columns)
    ensures forall c :: multiset(r)[c] == if c.key != IdKey then multiset(columns)[c] else 0
  {
    FilterIsSubsequence(columns, (c: Column) => c.key != IdKey);
    FilterCounts(columns, (c: Column) => c.key != IdKey);
    Filter(columns, (c: Column) => c.key != IdKey)
  }

  function RenderInput(formData: Entity, field: Column): Input {
    if field.key == "status" then StatusSelect(field.key, field.caption, StatusOptions, Get(formData, field.key))
    else TextInput(field.key, field.caption, Get(formData, field.key))
  }

  /** The dialog's form: nothing while it is closed, otherwise one input per
      field in field order. */
  function Render(isOpen: bool, formData: Entity, fields: seq<Column>): (r: Option<seq<Input>>)
    ensures r.None? <==> !isOpen
    ensures r.Some? ==>
      && |r.value| == |fields|
      && forall i :: 0 <= i < |fields| ==>
        && r.value[i].key == fields[i].key
        && r.value[i].caption == fields[i].caption
        && r.value[i].value == Get(formData, fields[i].key)
        && (r.value[i].StatusSelect? <==> fields[i].key == "status")
        && (r.value[i].StatusSelect? ==> r.value[i].options == StatusOptions)
  {
    if isOpen then Some(MapSeq(fields, f => RenderInput(formData, f))) else None
  }

  /** A sequence of input changes applied to a draft, first to last. */
  function ApplyChanges(draft: Entity, changes: seq<(string, string)>): Entity
    decreases |changes|
  {
    if |changes| == 0 then draft
    else ApplyChanges(draft[changes[0].0 := changes[0].1], changes[1..])
  }

  class Modal {
    /** The record the dialog was opened on. */
    const data: Entity
    /** The draft the inputs edit. */
    var formData: Entity

    /** `useState(data)`: the draft starts as the record. */
    constructor(data: Entity)
      ensures this.data == data && formData == data
    {
      this.data := data;
      formData := data;
    }

    /** An input change sets the one named attribute of the draft. */
    method HandleChange(name: string, value: string)
      modifies this`formData
      ensures formData == old(formData)[name := value]
    {
      formData := formData[name := value];
    }

    /** Save: `onUpdate` with the draft, then `onClose`. */
    method HandleSubmit() returns (calls: seq<Call>)
      ensures calls == [OnUpdate(formData), OnClose]
    {
      calls := [OnUpdate(formData), OnClose];
    }

    /** Cancel, and the close button: `onClose` only. */
    method Cancel() returns (calls: seq<Call>)
      ensures calls == [OnClose]
    {
      calls := [OnClose];
    }
  }

  /** A change sets its own attribute and leaves every other attribute of
      the draft as it was. */
  lemma ChangeTouchesOneKey(draft: Entity, name: string, value: string, other: string)
    requires other != name
    ensures Get(draft[name := value], name) == Some(value)
    ensures Get(draft[name := value], other) == Get(draft, other)
  {
  }

  /** Changes to attributes other than `key` keep its value. */
  lemma {:induction false} ChangesKeepOtherKey(draft: Entity, changes: seq<(string, string)>, key: string)
    requires forall i :: 0 <= i < |changes| ==> changes[i].0 != key
    ensures Get(ApplyChanges(draft, changes), key) == Get(draft, key)
    decreases |changes|
  {
    if |changes| > 0 {
      ChangesKeepOtherKey(draft[changes[0].0 := changes[0].1], changes[1..], key);
    }
  }

  /** Changes only add or overwrite attributes: the edited draft still has
      every attribute the record had. */
  lemma {:induction false} ChangesKeepAttributes(draft: Entity, changes: seq<(string, string)>)
    ensures draft.Keys <= ApplyChanges(draft, changes).Keys
    decreases |changes|
  {
    if |changes| > 0 {
      ChangesKeepAttributes(draft[changes[0].0 := changes[0].1], changes[1..]);
    }
  }

  /** No input of the rendered form edits the id. */
  lemma FormHasNoIdInput(formData: Entity, columns: seq<Column>)
    ensures var form := Render(true, formData, EditFields(columns));
      form.Some? && forall i :: 0 <= i < |form.value| ==> form.value[i].key != IdKey
  {
    var fields := EditFields(columns);
    var form := Render(true, formData, fields).value;
    forall i | 0 <= i < |form| ensures form[i].key != IdKey {
      assert form[i] == RenderInput(formData, fields[i]);
      assert fields[i] in fields;
    }
  }

  /** A draft edited only through the form's inputs keeps the id of the
      record it was opened on, so the page's update finds that record. */
  lemma EditKeepsId(data: Entity, columns: seq<Column>, changes: seq<(string, string)>)
    requires forall i :: 0 <= i < |changes| ==> changes[i].0 in KeysOf(EditFields(columns))
    ensures KeyOf(ApplyChanges(data, changes)) == KeyOf(data)
  {
    var fields := EditFields(columns);
    forall i | 0 <= i < |changes| ensures changes[i].0 != IdKey {
      var j :| 0 <= j < |fields| && fields[j].key == changes[i].0;
      assert fields[j] in fields;
    }
    ChangesKeepOtherKey(data, changes, IdKey);
  }

  /** The edit fields of a column list whose only id column is the first
      are the other columns. */
  lemma IdColumnFirst(columns: seq<Column>)
    requires |columns| > 0 && columns[0].key == IdKey
    requires forall j :: 1 <= j < |columns| ==> columns[j].key != IdKey
    ensures EditFields(columns) == columns[1..]
  {
    var p := (c: Column) => c.key != IdKey;
    assert columns == [columns[0]] + columns[1..];
    FilterCons(columns[0], columns[1..], p);
    FilterKeepsAll(columns[1..], p);
  }

  /** The keys of a list of columns. */
  function KeysOf(columns: seq<Column>): set<string> {
    set j | 0 <= j < |columns| :: columns[j].key
  }

  /** Every status the select offers gets a colour under the transaction
      classification, and none does under the users classification. */
  lemma StatusOptionsColours()
    ensures forall o :: o in StatusOptions ==> StatusBadgeFor(Transactions, Some(o)) != Neutral
    ensures forall o :: o in StatusOptions ==> StatusBadgeFor(Users, Some(o)) == Neutral
  {
    forall o | o in StatusOptions ensures UsersStatusBadge(Some(o)) == Neutral {
      assert o == "Berhasil" || o == "Gagal" || o == "Proses";
      assert o[0] in {'B', 'G', 'P'};
      GreyForUsers(o);
    }
  }

  /** A status that does not start with an "a" or an "n", in either case,
      is grey under the users classification. */
  lemma GreyForUsers(s: string)
    requires |s| > 0 && s[0] !in {'a', 'A', 'n', 'N'}
    ensures UsersStatusBadge(Some(s)) == Neutral
  {
    assert Lower(s)[0] == LowerChar(s[0]);
    assert "aktif"[0] == 'a' && "nonaktif"[0] == 'n';
  }
}
