/** The dialog that drafts a new blog post: five text fields edited one
    at a time, a banner set by an image upload, and a submit that hands the
    finished post to the page and starts a fresh draft. */
module BlogAddModal {
  import opened Wrappers

  /** An uploaded banner: the address the server stored it under, and the
      local preview address. */
  datatype Banner = Banner(file: string, preview: string)

  /** The dialog's `formData`. */
  datatype Draft = Draft(judul: string, isiBlog: string, penulis: string,
                         tanggalPublikasi: string, banner: Option<Banner>, status: string)

  /** The draft's text fields: the title, author, date and status inputs,
      and the rich-text editor for the body. */
  datatype TextField = Judul | IsiBlog | Penulis | TanggalPublikasi | Status

  /** The post handed to `onAdd`. */
  datatype NewBlog = NewBlog(id: string, judul: string, isiBlog: string, penulis: string,
                             tanggalPublikasi: string, banner: Option<string>, status: string)

  /** The outcome of the upload request: the stored address and the local
      preview, or a failure (a refused or thrown request). */
  datatype Upload = Uploaded(imageUrl: string, preview: string) | Failed

  /** The callbacks the dialog makes, in order. */
  datatype Call = OnAdd(blog: NewBlog) | OnClose

  /** The draft the dialog starts with. */
  const InitialDraft := Draft("", "", "", "", None, "Dipublikasikan")

  /** The draft the dialog starts again with after a submit. */
  const ResetDraft := Draft("", "", "", "", None, "Draft")

  /** The choices of the status select. */
  const StatusOptions: seq<string> := ["Dipublikasikan", "Draft"]

  function Field(d: Draft, f: TextField): string {
    match f
    case Judul => d.judul
    case IsiBlog => d.isiBlog
    case Penulis => d.penulis
    case TanggalPublikasi => d.tanggalPublikasi
    case Status => d.status
  }

  /** One change event: the named field takes the new value; every other
      field and the banner keep theirs. */
  function SetField(d: Draft, f: TextField, value: string): (r: Draft)
    ensures Field(r, f) == value
    ensures forall g :: g != f ==> Field(r, g) == Field(d, g)
    ensures r.banner == d.banner
  {
    match f
    case Judul => d.(judul := value)
    case IsiBlog => d.(isiBlog := value)
    case Penulis => d.(penulis := value)
    case TanggalPublikasi => d.(tanggalPublikasi := value)
    case Status => d.(status := value)
  }

  /** A draft is determined by its text fields and its banner. */
  lemma DraftExtensionality(d: Draft, e: Draft)
    requires forall f :: Field(d, f) == Field(e, f)
    requires d.banner == e.banner
    ensures d == e
  {
    assert Field(d, Judul) == Field(e, Judul);
    assert Field(d, IsiBlog) == Field(e, IsiBlog);
    assert Field(d, Penulis) == Field(e, Penulis);
    assert Field(d, TanggalPublikasi) == Field(e, TanggalPublikasi);
    assert Field(d, Status) == Field(e, Status);
  }

  /** Writing back what a field holds changes nothing, and of two writes
      to one field only the later one counts. */
  lemma SetFieldLaws(d: Draft, f: TextField, v: string, w: string)
    ensures SetField(d, f, Field(d, f)) == d
    ensures SetField(SetField(d, f, v), f, w) == SetField(d, f, w)
  {
    DraftExtensionality(SetField(d, f, Field(d, f)), d);
    DraftExtensionality(SetField(SetField(d, f, v), f, w), SetField(d, f, w));
  }

  /** Writes to two different fields can be made in either order. */
  lemma SetFieldCommutes(d: Draft, f: TextField, g: TextField, v: string, w: string)
    requires f != g
    ensures SetField(SetField(d, f, v), g, w) == SetField(SetField(d, g, w), f, v)
  {
    DraftExtensionality(SetField(SetField(d, f, v), g, w), SetField(SetField(d, g, w), f, v));
  }

  /** The draft after the upload request answers: a stored image becomes
      the banner; a failure leaves the draft as it was. */
  function AfterUpload(d: Draft, upload: Upload): (r: Draft)
    ensures forall f :: Field(r, f) == Field(d, f)
    ensures upload.Failed? ==> r == d
    ensures upload.Uploaded? ==> r.banner == Some(Banner(upload.imageUrl, upload.preview))
  {
    if upload.Uploaded? then d.(banner := Some(Banner(upload.imageUrl, upload.preview))) else d
  }

  /** `newBlog`: the draft's text fields under the given id, with the
      stored banner address when a banner is set. */
  function BuildNewBlog(d: Draft, id: string): (r: NewBlog)
    ensures r.id == id
    ensures r.judul == d.judul && r.isiBlog == d.isiBlog && r.penulis == d.penulis
    ensures r.tanggalPublikasi == d.tanggalPublikasi && r.status == d.status
    ensures r.banner.Some? <==> d.banner.Some?
    ensures d.banner.Some? ==> r.banner.value == d.banner.value.file
  {
    NewBlog(id, d.judul, d.isiBlog, d.penulis, d.tanggalPublikasi,
            if d.banner.Some? then Some(d.banner.value.file) else None, d.status)
  }

  /** The title, author and date inputs are marked required, so the browser
      submits the form only when each of them holds something. */
  predicate RequiredFilled(d: Draft) {
    d.judul != "" && d.penulis != "" && d.tanggalPublikasi != ""
  }

  /** A post built after an upload carries the stored address, not the
      local preview, and whatever text the draft had. */
  lemma UploadThenSubmit(d: Draft, url: string, preview: string, id: string)
    ensures BuildNewBlog(AfterUpload(d, Uploaded(url, preview)), id)
         == BuildNewBlog(d, id).(banner := Some(url))
  {
  }

  /** The dialog starts with "Dipublikasikan" selected but starts again
      with "Draft": the two empty drafts differ in their status only. */
  lemma ResetDiffersFromInitial()
    ensures InitialDraft != ResetDraft
    ensures forall f :: f != Status ==> Field(InitialDraft, f) == Field(ResetDraft, f)
    ensures InitialDraft.banner == ResetDraft.banner
    ensures InitialDraft.status in StatusOptions && ResetDraft.status in StatusOptions
  {
  }

  class Modal {
    var formData: Draft

    constructor()
      ensures formData == InitialDraft
    {
      formData := InitialDraft;
    }

    /** `handleChange` for the named inputs, and the editor's change
        handler for the body. */
    method HandleChange(f: TextField, value: string)
      modifies this`formData
      ensures formData == SetField(old(formData), f, value)
    {
      formData := SetField(formData, f, value);
    }

    /** `handleFileChange`: `upload` is `None` when no file was chosen, and
        then nothing is sent and nothing changes. */
    method HandleFileChange(upload: Option<Upload>)
      modifies this`formData
      ensures upload.None? ==> formData == old(formData)
      ensures upload.Some? ==> formData == AfterUpload(old(formData), upload.value)
    {
      if upload.Some? {
        formData := AfterUpload(formData, upload.value);
      }
    }

    /** A press of the submit button. `id` stands for the time-stamp id.
        When a required input is empty the browser stops the submit;
        otherwise the post is handed to `onAdd`, the dialog is closed and
        the draft starts again. */
    method Submit(id: string) returns (calls: seq<Call>)
      modifies this`formData
      ensures !RequiredFilled(old(formData)) ==> calls == [] && formData == old(formData)
      ensures RequiredFilled(old(formData)) ==>
        && calls == [OnAdd(BuildNewBlog(old(formData), id)), OnClose]
        && formData == ResetDraft
    {
      if !RequiredFilled(formData) {
        return [];
      }
      calls := [OnAdd(BuildNewBlog(formData, id)), OnClose];
      formData := ResetDraft;
    }

    /** The cancel and close buttons only ask the page to close the
        dialog; the draft is kept. */
    method Cancel() returns (calls: seq<Call>)
      ensures calls == [OnClose]
    {
      calls := [OnClose];
    }
  }
}
