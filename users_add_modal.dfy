/** The dialog that adds an admin user: a draft of five text inputs over a
    template that also fixes the role and status, a submit that posts the
    new user and reports to the page only when the server accepts it, and a
    reset after every submit. */
module UsersAddModal {
  import opened Wrappers
  import opened Seqs
  import opened Collection
  import EditModal
  import Users

  /** The draft the dialog starts with and starts again with. */
  const Template: Entity := map[
    "firstName" := "", "lastName" := "", "address" := "", "email" := "",
    "number" := "", "role" := "Admin", "status" := "Aktif"]

  /** The names of the form's inputs, in form order; every one of them is
      marked required. */
  const InputNames: seq<string> := ["firstName", "lastName", "address", "email", "number"]

  /** The attributes the new user takes over from the draft unchanged. */
  const CopiedKeys: set<string> := {"email", "number", "address", "role", "status"}

  /** The outcome of the add request: an accepted user as the server
      returns it, a refusal, or a request or decoding that threw. */
  datatype Response = Ok(added: Entity) | NotOk | Threw

  /** The calls the dialog makes, in order. */
  datatype Call = OnAdd(user: Entity) | OnClose | Alert(message: string)

  const FailureMessage := "Failed to add admin"

  /** The draft holds every attribute of the template. */
  predicate HasTemplateKeys(d: Entity) {
    Template.Keys <= d.Keys
  }

  /** `newUser`: the full name joins the first and last names with one
      space; the other attributes are copied; the two name parts are not
      sent. */
  function NewUser(d: Entity): (r: Entity)
    requires HasTemplateKeys(d)
    ensures r.Keys == CopiedKeys + {"name"}
    ensures r["name"] == d["firstName"] + " " + d["lastName"]
    ensures forall k :: k in CopiedKeys ==> r[k] == d[k]
    ensures "firstName" !in r && "lastName" !in r
  {
    map["name" := d["firstName"] + " " + d["lastName"], "email" := d["email"],
        "number" := d["number"], "address" := d["address"], "role" := d["role"],
        "status" := d["status"]]
  }

  /** The browser submits the form only when every input holds
      something. */
  predicate RequiredFilled(d: Entity) {
    forall i :: 0 <= i < |InputNames| ==> Get(d, InputNames[i]) != Some("")
  }

  /** The dialog's form: nothing while it is closed, otherwise the five
      inputs with the values the draft holds. */
  function Render(isOpen: bool, formData: Entity): (r: Option<seq<(string, Option<string>)>>)
    ensures r.None? <==> !isOpen
    ensures r.Some? ==>
      && |r.value| == |InputNames|
      && forall i :: 0 <= i < |InputNames| ==> r.value[i] == (InputNames[i], Get(formData, InputNames[i]))
  {
    if isOpen then Some(MapSeq(InputNames, (n: string) => (n, Get(formData, n)))) else None
  }

  /** A first name without a space can be read back out of the full name:
      it is everything before the first space, and the last name is
      everything after it. */
  lemma FullNameSplits(d: Entity)
    requires HasTemplateKeys(d) && ' ' !in d["firstName"]
    ensures var name := NewUser(d)["name"]; var n := |d["firstName"]|;
      && n < |name| && name[n] == ' '
      && (forall i :: 0 <= i < n ==> name[i] != ' ')
      && name[..n] == d["firstName"] && name[n + 1..] == d["lastName"]
  {
    var name := NewUser(d)["name"];
    var n := |d["firstName"]|;
    assert name == d["firstName"] + " " + d["lastName"];
    forall i | 0 <= i < n ensures name[i] != ' ' {
      assert name[i] == d["firstName"][i];
    }
  }

  /** The form has no role or status input, so a user added through it is
      always an active admin. */
  lemma AddedUserIsActiveAdmin(changes: seq<(string, string)>)
    requires forall i :: 0 <= i < |changes| ==> changes[i].0 in InputNames
    ensures var d := EditModal.ApplyChanges(Template, changes);
      && HasTemplateKeys(d)
      && NewUser(d)["role"] == "Admin" && NewUser(d)["status"] == "Aktif"
  {
    RoleAndStatusAreNotInputs();
    var d := EditModal.ApplyChanges(Template, changes);
    EditModal.ChangesKeepAttributes(Template, changes);
    EditModal.ChangesKeepOtherKey(Template, changes, "role");
    EditModal.ChangesKeepOtherKey(Template, changes, "status");
    assert d["role"] == "Admin" && d["status"] == "Aktif";
  }

  /** The template fixes the role and the status, and no input edits
      them. */
  lemma RoleAndStatusAreNotInputs()
    ensures "role" !in InputNames && "status" !in InputNames
    ensures Get(Template, "role") == Some("Admin") && Get(Template, "status") == Some("Aktif")
  {
    assert "role"[0] == 'r' && "status"[0] == 's';
    assert InputNames[0][0] == 'f' && InputNames[1][0] == 'l' && InputNames[2][0] == 'a';
    assert InputNames[3][0] == 'e' && InputNames[4][0] == 'n';
  }

  /** The new user's address is sent as "address", while the users page
      shows the attribute "addres"; the users table therefore shows no
      address for such a user. */
  lemma AddressKeyMismatch(d: Entity)
    requires HasTemplateKeys(d)
    ensures "address" in NewUser(d) && "addres" !in NewUser(d)
    ensures exists j :: 0 <= j < |Users.Columns| && Users.Columns[j].key == "addres"
    ensures forall j :: 0 <= j < |Users.Columns| ==> Users.Columns[j].key != "address"
  {
    assert Users.Columns[3].key == "addres";
  }

  class Modal {
    var formData: Entity

    ghost predicate Valid()
      reads this
    {
      HasTemplateKeys(formData)
    }

    constructor()
      ensures Valid() && formData == Template
    {
      formData := Template;
    }

    /** `handleChange`: the named attribute takes the new value. */
    method HandleChange(name: string, value: string)
      requires Valid()
      modifies this`formData
      ensures Valid() && formData == old(formData)[name := value]
    {
      formData := formData[name := value];
    }

    /** A press of the submit button; `response` is what the add request
        gives. When an input is empty the browser stops the submit and
        nothing is sent. Otherwise the new user is sent; the page hears
        of it and the dialog closes only when the server accepts it, a
        refusal raises an alert, and in every case the draft starts
        again. */
    method Submit(response: Response) returns (sent: Option<Entity>, calls: seq<Call>)
      requires Valid()
      modifies this`formData
      ensures Valid()
      ensures !RequiredFilled(old(formData)) ==>
        sent == None && calls == [] && formData == old(formData)
      ensures RequiredFilled(old(formData)) ==>
        && sent == Some(NewUser(old(formData)))
        && formData == Template
        && calls == match response
             case Ok(added) => [OnAdd(added), OnClose]
             case NotOk => [Alert(FailureMessage)]
             case Threw => []
    {
      if !RequiredFilled(formData) {
        return None, [];
      }
      sent := Some(NewUser(formData));
      formData := Template;
      match response
      case Ok(added) => calls := [OnAdd(added), OnClose];
      case NotOk => calls := [Alert(FailureMessage)];
      case Threw => calls := [];
    }

    /** The cancel and close buttons only ask the page to close the
        dialog; the draft is kept. */
    method Cancel() returns (calls: seq<Call>)
      ensures calls == [OnClose]
    {
      calls := [OnClose];
    }
  }
}
