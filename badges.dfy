/** The status and role badges of the table and the cards. A badge is
    modelled by its colour category, not by its Tailwind class string:
    green is `Success`, red `Failure`, yellow `Pending`, grey `Neutral`. */
module Badges {
  import opened Wrappers
  import opened Text

  datatype StatusBadge = Success | Failure | Pending | Neutral

  /** `Highlighted` is the role class with the admin colour tokens added,
      `Plain` the bare `rounded-full text-xs`. */
  datatype RoleBadge = Highlighted | Plain

  /** The `contentType` prop: `'users'` selects the users classification,
      any other value (the default is `'default'`) the transaction one. */
  datatype ContentType = Users | Transactions

  function ContentTypeOf(prop: string): ContentType {
    if prop == "users" then Users else Transactions
  }

  /** The exact-case `switch (status)` of the pages' own
      `getStatusBadgeClass` and of the default branch of the table's and the
      card's. */
  function PageStatusBadge(status: string): (r: StatusBadge)
    ensures r != Neutral <==> status in {"Berhasil", "Gagal", "Proses"}
  {
    match status
    case "Berhasil" => Success
    case "Gagal" => Failure
    case "Proses" => Pending
    case _ => Neutral
  }

  /** The status text each non-neutral badge is given for. */
  function StatusText(b: StatusBadge): string
    requires b != Neutral
  {
    match b
    case Success => "Berhasil"
    case Failure => "Gagal"
    case Pending => "Proses"
  }

  /** The default branch applied to `row.status`, which may be missing:
      `switch (undefined)` falls to the default case. */
  function DefaultStatusBadge(status: Option<string>): (r: StatusBadge)
    ensures r != Neutral ==> status == Some(StatusText(r))
  {
    match status
    case None => Neutral
    case Some(s) => PageStatusBadge(s)
  }

  /** The users branch, `switch (status?.toLowerCase())`. */
  function UsersStatusBadge(status: Option<string>): (r: StatusBadge)
    ensures r != Pending
    ensures r == Success ==> status.Some? && Lower(status.value) == "aktif"
    ensures r == Failure ==> status.Some? && Lower(status.value) == "nonaktif"
  {
    match status
    case None => Neutral
    case Some(s) =>
      var l := Lower(s);
      if l == "aktif" then Success
      else if l == "nonaktif" then Failure
      else Neutral
  }

  /** `getStatusBadgeClass` of DataTable and DataCard. */
  function StatusBadgeFor(ct: ContentType, status: Option<string>): (r: StatusBadge)
    ensures status.None? ==> r == Neutral
    ensures ct == Users ==> r != Pending
    ensures ct == Transactions && r != Neutral ==> status == Some(StatusText(r))
  {
    if ct == Users then UsersStatusBadge(status) else DefaultStatusBadge(status)
  }

  /** `getRoleBadgeClass` of DataTable and DataCard:
      `role?.toLowerCase() === 'admin'` adds the highlight tokens. */
  function RoleBadgeFor(role: Option<string>): (r: RoleBadge)
    ensures role.None? ==> r == Plain
    ensures r == Highlighted ==>
      && role.Some? && |role.value| == 5
      && forall i :: 0 <= i < 5 ==> role.value[i] == "admin"[i] || role.value[i] == "ADMIN"[i]
  {
    if role.Some? && Lower(role.value) == "admin" then Highlighted else Plain
  }

  /** The exact-case switch gives each of its three words its own colour
      and nothing else a colour: it and `StatusText` are inverse. */
  lemma PageStatusBadgeInverse(status: string, b: StatusBadge)
    ensures b != Neutral ==> PageStatusBadge(StatusText(b)) == b
    ensures PageStatusBadge(status) != Neutral ==> StatusText(PageStatusBadge(status)) == status
  {
  }

  /** The default branch is case-sensitive: no lower-cased text gets a
      colour, so "berhasil" is grey where "Berhasil" is green. */
  lemma PageStatusBadgeCaseSensitive(status: string)
    ensures PageStatusBadge(Lower(status)) == Neutral
  {
    var l := Lower(status);
    LowerIsLower(status);
    if |l| > 0 {
      assert !IsUpper(l[0]);
    }
  }

  /** A record without a status shows a grey badge in either branch. */
  lemma MissingStatusIsNeutral(ct: ContentType)
    ensures StatusBadgeFor(ct, None) == Neutral
  {
  }

  /** The users branch ignores case: lower-casing the status first changes
      nothing. */
  lemma UsersStatusBadgeIgnoresCase(status: string)
    ensures UsersStatusBadge(Some(status)) == UsersStatusBadge(Some(Lower(status)))
  {
    LowerIsLower(status);
  }

  /** The users branch is green exactly for "aktif" and red exactly for
      "nonaktif", in any case, and is never yellow. */
  lemma UsersStatusBadgeIff(status: Option<string>)
    ensures UsersStatusBadge(status) == Success <==> status.Some? && Lower(status.value) == "aktif"
    ensures UsersStatusBadge(status) == Failure <==> status.Some? && Lower(status.value) == "nonaktif"
    ensures UsersStatusBadge(status) != Pending
  {
  }

  /** The role badge is highlighted exactly for "admin" in any case. */
  lemma RoleBadgeIgnoresCase(role: string)
    ensures RoleBadgeFor(Some(role)) == RoleBadgeFor(Some(Lower(role)))
    ensures RoleBadgeFor(Some(role)) == Highlighted <==> Lower(role) == "admin"
  {
    LowerIsLower(role);
  }

  /** The users and the transaction classifications disagree on both
      vocabularies: "Aktif" is green only for users, and "Berhasil" is
      green only for transactions. The Users page's own switch, which the
      table does not read, would have shown "Aktif" grey. */
  lemma ContentTypeMatters()
    ensures StatusBadgeFor(Users, Some("Aktif")) == Success
    ensures StatusBadgeFor(Transactions, Some("Aktif")) == Neutral
    ensures PageStatusBadge("Aktif") == Neutral
    ensures StatusBadgeFor(Users, Some("Berhasil")) == Neutral
    ensures StatusBadgeFor(Transactions, Some("Berhasil")) == Success
  {
    assert Lower("Aktif") == "aktif";
    assert Lower("Berhasil") == "berhasil";
  }
}
