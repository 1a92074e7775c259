# Admin dashboard list views — a Dafny model

This project models the data-binding logic of a React admin dashboard for a
waste-collection service. The dashboard has these pages:

- pickups ("Yuk Angkut");
- point redemptions ("Kuy Point");
- admin users;
- blog posts;
- an overview dashboard.

It also has the shared components those pages render with.

A record is a `map<string, string>` (`Collection.Entity`). A missing
attribute is an absent key, and the record key is the attribute `"id"`.

What is modelled:

- **The search engines.** The filter is a case-insensitive substring filter.
  It tests every attribute or one named attribute. Three variants exist:
  - the shared `handleSearch`, which returns the list unchanged for empty
    text;
  - the blog's `performSearch`, which trims the text;
  - the `filteredData` that KuyPoint and Users derive on every render.
- **The collection mutations keyed by id.** These are:
  - delete;
  - update, which either replaces the record or merges the draft over it;
  - append after a server add.
- **The page controllers.** Each page is a class with fields for `data`,
  `filteredData`, `selectedData` and the dialog flags. Its handlers change
  those fields, and they are gated by a confirmation flag or a server
  answer, passed in as parameters.
- **The status and role badges.** A badge is modelled by its colour
  category, not by its CSS class string.
- **The table and card layouts.**
- **The drafts of the edit dialog and the two add dialogs.**
- **The dashboard's chart pagination.**
- **The route ↔ menu mapping.**

JavaScript's `toLowerCase`, `includes` and `trim` are modelled in `Text`.
`toLowerCase` covers ASCII letters only. `trim` removes the full white-space
set of ECMA-262. A single-field search reads `item[field].toString()` on
every record, so it throws on a record that lacks the field. The model
gives `None` in that case, and the page keeps the list it showed before.

Where the code does not do what its props, names or comments suggest, the
model follows the code:

- The pages hand `getStatusBadgeClass` and column `render` functions to the
  table, and the blog page also hands it `renderIsiBlog`. `DataTable`
  reads none of them (src/component/common/DataTable.jsx:12). The table
  classifies statuses with its own rule, chosen by `contentType`. It shows
  raw values.
- `DataCard` ignores a field's `render` in the same way. So the blog's
  150-character collapsed body (`Blog.Preview`) and its expand button are
  never displayed, and neither are its date formatting and banner image.
  A missing value shows as nothing, not as "N/A".
- The edit dialog validates nothing. Its status select always offers
  Berhasil/Gagal/Proses, also on the users and blog pages, whose statuses
  are different words.
- The users add dialog sends the attribute `address`, while the users page
  displays `addres` (`UsersAddModal.AddressKeyMismatch`). The users page
  does not mount that dialog.
- The mobile chart's next button can set the page to -1. This is recorded
  under Findings by `Dashboard.NextPageAsWritten`. `Dashboard.Page` uses the
  corrected `Dashboard.NextPage`.

## Model

| member | source | states |
|---|---|---|
| Text.Lower | src/shared-content.jsx:67 | lower-casing keeps the length and maps each character through the ASCII rule |
| Text.LowerIsLower | src/shared-content.jsx:67 | no upper-case letter survives lower-casing, and lower-casing is idempotent |
| Text.ContainsIff | src/shared-content.jsx:67 | `includes` holds exactly when some index of the string starts an occurrence of the term |
| Text.ContainsEmpty | src/pages/KuyPoint/KuyPoint.jsx:98-102 | every string includes the empty string |
| Text.Contains | src/shared-content.jsx:67 | a string includes a term only when the term is no longer than it, and always when the term is a prefix of it |
| Text.TrimStart | src/pages/Blog/Blog.jsx:20 | only leading white space is removed, and the result does not start with white space |
| Text.TrimEnd | src/pages/Blog/Blog.jsx:20 | only trailing white space is removed, and the result does not end with white space |
| Text.Trim | src/pages/Blog/Blog.jsx:20 | the trimmed text is no longer than the input, and neither starts nor ends with white space |
| Text.TrimSpec | src/pages/Blog/Blog.jsx:20 | the trimmed text is the part of the input between leading and trailing white space, with no white space at either edge |
| Text.TrimIdempotent | src/pages/Blog/Blog.jsx:20 | trimming twice is trimming once |
| Text.TrimEmptyIff | src/pages/Blog/Blog.jsx:20 | a text trims to empty exactly when it is all white space |
| Collection.RemoveKey | src/shared-content.jsx:97 | a record survives a delete exactly when its id differs from the argument; every copy of a survivor is kept and no copy of a removed record; the survivors keep their order |
| Collection.ReplaceByKey | src/shared-content.jsx:104-106 | same length; every record with the updated id becomes the update; every other record is kept in place |
| Collection.MergeByKey | src/pages/Users/Users.jsx:100-111 | same length; a record with the selected id gets the draft's attributes over its own, so attributes the draft lacks keep their values; the others are untouched |
| Collection.Append | src/pages/Blog/Blog.jsx:251 | the old list is kept as a prefix, and the created record is last |
| Seqs.FilterCounts | src/shared-content.jsx:97 | `filter` keeps every copy of an element it accepts and none of one it rejects |
| Collection.ReplaceKeepsKeys | src/shared-content.jsx:104-106 | an update never changes the list of ids |
| Collection.MergeKeepsKeys | src/pages/Users/Users.jsx:103-107 | a merge whose draft keeps the id never changes the list of ids |
| Collection.ReplaceKeepsDistinct | src/shared-content.jsx:104-106 | an update keeps ids distinct |
| Collection.RemoveKeepsDistinct | src/shared-content.jsx:97 | a delete keeps ids distinct |
| Collection.AppendKeepsDistinct | src/pages/Blog/Blog.jsx:251 | after an add, ids are distinct exactly when they were and the new id is fresh |
| Collection.RemoveAfterReplace | src/shared-content.jsx:95-111 | deleting an id after updating it is deleting it directly |
| Collection.ReplaceIdempotent | src/shared-content.jsx:104-106 | the same update applied twice is applied once |
| Collection.ReplaceKeepsSubsequence | src/pages/Blog/Blog.jsx:353-354 | patching the full list and the list on screen separately keeps the second drawn from the first |
| Collection.RemoveRowKey | src/shared-content.jsx:95-101 | with distinct ids, deleting the id of record `i` removes exactly that record |
| Collection.RemoveAbsentKey | src/shared-content.jsx:97 | deleting an id no record has changes nothing |
| Collection.MergeOfCompleteDraftIsReplace | src/pages/Users/Users.jsx:103-107 | merging a draft that has every attribute of the matching records is replacing them by it |
| Search.Matching | src/shared-content.jsx:64-72 | a record is kept exactly when the all-field or single-field rule accepts it, with all its copies; the result is an order-preserving subsequence |
| Search.HandleSearch | src/shared-content.jsx:58-75 | empty text gives the whole list; otherwise the search succeeds exactly when the field can be read on every record, and it keeps exactly the records whose attribute, lower-cased, includes the lower-cased, untrimmed text, every copy of them, in order |
| Search.PerformSearch | src/pages/Blog/Blog.jsx:19-32 | no empty-text shortcut; the text is lower-cased and trimmed; the same success condition, membership rule and copy counts apply, in order |
| Search.FilterAnyField | src/pages/KuyPoint/KuyPoint.jsx:98-102 | keeps exactly the records with some attribute that includes the lower-cased query, every copy of them, in order |
| Search.MatchingKeepsAll | src/shared-content.jsx:64-72 | a filter that accepts every record returns the list unchanged |
| Search.CanSearchSubsequence | src/shared-content.jsx:69-71 | a single-field search that can read a list can read any list drawn from it |
| Search.HandleSearchIdempotent | src/shared-content.jsx:64-74 | searching a search result again with the same text and field changes nothing |
| Search.PerformSearchIdempotent | src/pages/Blog/Blog.jsx:19-32 | the same for the blog search |
| Search.EmptyQueryKeepsNonEmptyRecords | src/pages/KuyPoint/KuyPoint.jsx:98-102 | an empty query keeps exactly the records with at least one attribute |
| Search.HandleSearchIgnoresCase | src/shared-content.jsx:67-70 | texts equal up to case give the same result |
| Search.OnlyBlogSearchTrims | src/pages/Blog/Blog.jsx:20 | " agus" finds a record named "Agus" on the blog page, and the shared search misses it |
| Search.OnlySharedSearchHasShortcut | src/shared-content.jsx:59-62 | empty text returns a record with no attributes in the shared search, and the blog search drops it |
| Search.SearchTwoRecords | src/shared-content.jsx:64-68 | "agus" over every field finds Agus and not Budi |
| Badges.PageStatusBadge | src/shared-content.jsx:77-88 | exactly "Berhasil", "Gagal" and "Proses" get a colour |
| Badges.DefaultStatusBadge | src/component/common/DataTable.jsx:25-34 | a coloured badge means the record has exactly the status text of that colour |
| Badges.UsersStatusBadge | src/component/common/DataTable.jsx:15-24 | never yellow; green only for "aktif" and red only for "nonaktif", in any case |
| Badges.StatusBadgeFor | src/component/common/DataTable.jsx:14-35 | a missing status is grey; the users rule is never yellow; a colour under the default rule means the exact status text of that colour |
| Badges.RoleBadgeFor | src/component/common/DataTable.jsx:38-48 | a missing role is plain; a highlighted role is "admin" letter by letter in either case |
| Badges.PageStatusBadgeInverse | src/shared-content.jsx:77-88 | the exact-case switch gives Berhasil, Gagal and Proses their own colours and every other text grey |
| Badges.PageStatusBadgeCaseSensitive | src/component/common/DataTable.jsx:25-34 | no lower-cased text gets a colour in the default branch |
| Badges.MissingStatusIsNeutral | src/component/common/DataTable.jsx:14-35 | a missing status is grey in both branches |
| Badges.UsersStatusBadgeIgnoresCase | src/component/common/DataTable.jsx:15-24 | the users branch is insensitive to case |
| Badges.UsersStatusBadgeIff | src/component/common/DataTable.jsx:15-24 | users: green exactly for "aktif", red exactly for "nonaktif" in any case, never yellow |
| Badges.RoleBadgeIgnoresCase | src/component/common/DataTable.jsx:38-48 | the role is highlighted exactly when it lower-cases to "admin" |
| Badges.ContentTypeMatters | src/component/common/DataCard.jsx:14-35 | the two branches disagree: "Aktif" is green only for users, and "Berhasil" only for the default branch |
| DataTable.RenderCell | src/component/common/DataTable.jsx:71-89 | a cell shows the record's value for its key; a status cell's badge and a role cell's badge are the ones for that value |
| DataTable.Header | src/component/common/DataTable.jsx:56-65 | the column labels in column order, then "Action" |
| DataTable.RenderRow | src/component/common/DataTable.jsx:68-106 | keyed by the record's id; one cell per column with that column's attribute; edit gets the record, delete its id |
| DataTable.Render | src/component/common/DataTable.jsx:50-106 | the header of the columns, and one row per record in list order |
| DataTable.TableLayout | src/component/common/DataTable.jsx:58-101 | the header is the labels in column order plus "Action"; one row per record in order; cell `j` of row `i` shows attribute `columns[j].key`; edit gets the record, delete its id |
| DataTable.CellKinds | src/component/common/DataTable.jsx:72-88 | only "status" gets the status badge, only "role" the role badge, only "date" the date and time; every other key shows the raw value |
| DataTable.FilteredTableRows | src/component/common/DataTable.jsx:68 | the table of a search result shows some rows of the full table, in order |
| DataTable.DeleteButtonRemovesItsRow | src/component/common/DataTable.jsx:101 | with distinct ids, row `i`'s delete button removes record `i` and no other |
| DataCard.RenderField | src/component/common/DataCard.jsx:70-76 | the field's label and the record's value; only the field keyed "role" gets the role badge, the one for that value |
| DataCard.RenderSection | src/component/common/DataCard.jsx:66-80 | the section's title, then its fields in declared order |
| DataCard.RenderCard | src/component/common/DataCard.jsx:50-98 | the header shows the id and the status with its badge; the sections in declared order; edit gets the record, delete its id |
| DataCard.CardLayout | src/component/common/DataCard.jsx:66-80 | sections and fields appear in declared order with the record's values, and only the field keyed "role" is styled |
| DataCard.CardHeaderIgnoresSections | src/component/common/DataCard.jsx:55-61 | the header shows the id and the status badge whatever the sections are; edit gets the record, delete its id |
| DataCard.CardAgreesWithTable | src/component/common/DataCard.jsx:12-93 | a card and the table row of the same record show the same values, badges and button arguments |
| EditModal.EditFields | src/shared-content.jsx:157 | the dialog's fields are exactly the non-id columns, every copy of them, in column order |
| EditModal.Render | src/component/common/EditModal.jsx:7-64 | nothing while closed; otherwise one input per field, in order, holding the draft's value; only "status" is a select, offering Berhasil/Gagal/Proses |
| EditModal.Modal.HandleChange | src/component/common/EditModal.jsx:15-21 | the draft gets the one named attribute set |
| EditModal.Modal.HandleSubmit | src/component/common/EditModal.jsx:9-13 | `onUpdate` with the draft, then `onClose` |
| EditModal.Modal.Cancel | src/component/common/EditModal.jsx:67-72 | `onClose` only |
| EditModal.ChangeTouchesOneKey | src/component/common/EditModal.jsx:15-21 | a change sets its attribute and leaves every other one as it was |
| EditModal.ChangesKeepOtherKey | src/component/common/EditModal.jsx:15-21 | a run of changes to other attributes leaves an attribute as it was |
| EditModal.ChangesKeepAttributes | src/component/common/EditModal.jsx:15-21 | edits never remove an attribute |
| EditModal.FormHasNoIdInput | src/component/common/EditModal.jsx:40-64 | no rendered input edits the id |
| EditModal.EditKeepsId | src/component/common/EditModal.jsx:15-21 | a draft edited through the form keeps its record's id |
| EditModal.IdColumnFirst | src/pages/YukAngkut/YukAngkutContent.jsx:221 | with the id column first and only there, the fields are the remaining columns |
| EditModal.StatusOptionsColours | src/component/common/EditModal.jsx:50-52 | each offered status is coloured by the default rule and grey under the users rule |
| SharedContent.Page.HandleSearch | src/shared-content.jsx:58-75 | the list on screen becomes the search result, or stays as it was when the search throws; it stays drawn from `data` |
| SharedContent.Page.HandleEdit | src/shared-content.jsx:90-93 | selects exactly the clicked record and opens the dialog |
| SharedContent.Page.HandleDelete | src/shared-content.jsx:95-101 | when confirmed, both lists become `data` without that id; otherwise nothing changes |
| SharedContent.Page.HandleUpdate | src/shared-content.jsx:103-111 | replace by id; both lists become the new list; the dialog closes and the selection clears |
| SharedContent.Page.CloseEditor | src/shared-content.jsx:152-155 | closes the dialog and clears the selection |
| SharedContent.Page.DataChanged | src/shared-content.jsx:113-115 | the list on screen is reset to `data` |
| SharedContent.DeleteFirstOfTwo | src/shared-content.jsx:95-101 | deleting the first of two records with different ids leaves the second |
| YukAngkut.Open | src/pages/YukAngkut/YukAngkutContent.jsx:78-94 | the page opens on the two sample pickups, both lists equal, nothing selected |
| YukAngkut.EditFieldsAreNonIdColumns | src/pages/YukAngkut/YukAngkutContent.jsx:221 | the dialog offers every column but the pickup id, in order |
| YukAngkut.DeleteFirstPickup | src/pages/YukAngkut/YukAngkutContent.jsx:153-159 | the sample pickups differ only in id, and deleting the first leaves the second |
| KuyPoint.Page.Filtered | src/pages/KuyPoint/KuyPoint.jsx:98-102 | the records shown are exactly those of `data` that some attribute matches, with as many copies as `data` has, in order |
| KuyPoint.Page.HandleEdit | src/pages/KuyPoint/KuyPoint.jsx:77-80 | selects the clicked record and opens the dialog |
| KuyPoint.Page.HandleDelete | src/pages/KuyPoint/KuyPoint.jsx:82-86 | when confirmed, `data` loses that id; otherwise nothing changes |
| KuyPoint.Page.HandleUpdate | src/pages/KuyPoint/KuyPoint.jsx:88-96 | wholesale replace by id; the dialog closes and the selection clears |
| KuyPoint.Page.CloseEditor | src/pages/KuyPoint/KuyPoint.jsx:138-141 | closes the dialog and clears the selection |
| KuyPoint.DeleteKeepsSearch | src/pages/KuyPoint/KuyPoint.jsx:82-102 | since the list on screen is derived, a delete keeps the search: the new screen is the old one without that id |
| KuyPoint.SampleIdsDistinct | src/pages/KuyPoint/KuyPoint.jsx:7-26 | the sample records have distinct ids |
| KuyPoint.EditFieldsAreNonIdColumns | src/pages/KuyPoint/KuyPoint.jsx:143 | the dialog offers every column but the id |
| Users.Page.Filtered | src/pages/Users/Users.jsx:117-121 | the records shown are exactly those of `data` that some attribute matches, with as many copies as `data` has, in order |
| Users.Page.HandleEdit | src/pages/Users/Users.jsx:87-90 | selects the clicked record and opens the dialog |
| Users.Page.HandleDelete | src/pages/Users/Users.jsx:92-96 | when confirmed, `data` loses that id; otherwise nothing changes |
| Users.Page.HandleUpdate | src/pages/Users/Users.jsx:99-115 | the draft is merged over the records with the selected record's id; the dialog closes and the selection clears |
| Users.Page.CloseEditor | src/pages/Users/Users.jsx:155-158 | closes the dialog and clears the selection |
| Users.EditThroughDialogIsReplace | src/pages/Users/Users.jsx:99-111 | with distinct ids, merging a draft edited in the dialog is replacing the selected record by it, and the ids are kept |
| Users.SampleIdsDistinct | src/pages/Users/Users.jsx:7-44 | the sample users have distinct ids |
| Users.EditFieldsAreAllColumns | src/pages/Users/Users.jsx:160 | with no id column, the dialog offers every column, and every status it offers is grey for users |
| Blog.ResolveUpdateId | src/pages/Blog/Blog.jsx:320-325 | the update's own non-empty id wins, else the selected record's; none when neither is non-empty |
| Blog.Toggle | src/pages/Blog/Blog.jsx:391-393 | afterwards no post, or exactly the clicked one, is shown in full |
| Blog.ToggleExpandsOne | src/pages/Blog/Blog.jsx:391-393 | a post is shown in full after the click exactly when it is the clicked one and it was not already expanded |
| Blog.ToggleTwice | src/pages/Blog/Blog.jsx:391-393 | two clicks restore the state exactly when nothing, or that post, was expanded |
| Blog.Preview | src/pages/Blog/Blog.jsx:116 | an expanded body is the whole text; a collapsed one ends in "..." and has at most 153 characters |
| Blog.PreviewIsPrefix | src/pages/Blog/Blog.jsx:116 | a collapsed body is a prefix of at most 150 characters followed by "..."; an expanded one is the whole text |
| Blog.BlogStatusesAreGrey | src/pages/Blog/Blog.jsx:165 | the table colours neither "Dipublikasikan" nor "Draft" |
| Blog.EditedPostKeepsRequestId | src/pages/Blog/Blog.jsx:487 | the dialog offers every column, and an edited post is sent under its own id |
| Blog.Page.Load | src/pages/Blog/Blog.jsx:238-246 | a fetched list sets both lists; a failed fetch changes nothing |
| Blog.Page.HandleInputChange | src/pages/Blog/Blog.jsx:34-39 | the text is kept and the full list is searched with the current field |
| Blog.Page.HandleFieldChange | src/pages/Blog/Blog.jsx:41-46 | the field is kept and the full list is searched with the current text |
| Blog.Page.OpenAdd | src/pages/Blog/Blog.jsx:408 | the add dialog opens |
| Blog.Page.CloseAdd | src/pages/Blog/Blog.jsx:495 | the add dialog closes |
| Blog.Page.HandleAdd | src/pages/Blog/Blog.jsx:248-266 | a created post goes last, the list on screen becomes the full list, and the dialog closes; a failure changes nothing |
| Blog.Page.HandleEdit | src/pages/Blog/Blog.jsx:268-271 | selects the clicked post and opens the dialog |
| Blog.Page.HandleDelete | src/pages/Blog/Blog.jsx:273-315 | only a confirmed delete answered with 200 removes the id and shows the full list; anything else changes nothing |
| Blog.Page.HandleUpdate | src/pages/Blog/Blog.jsx:318-380 | sent under the resolved id; on success both lists are patched independently, the dialog closes and the selection clears; with no id or a failed request nothing changes |
| Blog.Page.CloseEditor | src/pages/Blog/Blog.jsx:482-485 | the edit dialog closes and the selection is cleared |
| Blog.Page.ToggleFullText | src/pages/Blog/Blog.jsx:391-393 | applies `Toggle` |
| BlogAddModal.SetField | src/pages/Blog/Addmodal.jsx:17-23 | a change sets its field and leaves every other field and the banner unchanged |
| BlogAddModal.SetFieldLaws | src/pages/Blog/Addmodal.jsx:17-23 | writing back a field's value changes nothing; of two writes to one field only the later counts |
| BlogAddModal.SetFieldCommutes | src/pages/Blog/Addmodal.jsx:17-23 | changes to different fields commute |
| BlogAddModal.AfterUpload | src/pages/Blog/Addmodal.jsx:38-52 | a stored upload becomes the banner, with the text kept; a failure leaves the draft as it was |
| BlogAddModal.BuildNewBlog | src/pages/Blog/Addmodal.jsx:59-67 | the post copies the draft's text fields under the given id; it has a banner exactly when the draft has one, and then the stored address |
| BlogAddModal.UploadThenSubmit | src/pages/Blog/Addmodal.jsx:38-67 | a post built after an upload carries the stored address, not the preview |
| BlogAddModal.ResetDiffersFromInitial | src/pages/Blog/Addmodal.jsx:7-14 | the starting and the reset drafts differ only in status: "Dipublikasikan" against "Draft" |
| BlogAddModal.Modal.HandleChange | src/pages/Blog/Addmodal.jsx:17-23 | the draft gets the one field set |
| BlogAddModal.Modal.HandleFileChange | src/pages/Blog/Addmodal.jsx:25-54 | no file changes nothing; otherwise the draft is updated by the upload result |
| BlogAddModal.Modal.Submit | src/pages/Blog/Addmodal.jsx:57-81 | with the required inputs filled: `onAdd` with the built post, then `onClose`, then the reset draft; otherwise nothing |
| BlogAddModal.Modal.Cancel | src/pages/Blog/Addmodal.jsx:209-213 | `onClose` only; the draft is kept |
| UsersAddModal.NewUser | src/pages/Users/Addmodal.jsx:26-33 | the name is first name, one space, last name; email, number, address, role and status are copied; the name parts are not sent |
| UsersAddModal.Render | src/pages/Users/Addmodal.jsx:68 | nothing while closed; otherwise the five inputs with the draft's values |
| UsersAddModal.FullNameSplits | src/pages/Users/Addmodal.jsx:27 | a first name without a space is read back as the text before the first space, and the last name as the text after it |
| UsersAddModal.AddedUserIsActiveAdmin | src/pages/Users/Addmodal.jsx:5-13 | the form has no role or status input, so an added user is always an active admin |
| UsersAddModal.RoleAndStatusAreNotInputs | src/pages/Users/Addmodal.jsx:5-13 | the template fixes role "Admin" and status "Aktif", and neither is an input name |
| UsersAddModal.AddressKeyMismatch | src/pages/Users/Addmodal.jsx:31 | the new user carries "address", and the users page shows "addres" |
| UsersAddModal.Modal.HandleChange | src/pages/Users/Addmodal.jsx:15-21 | the draft gets the one named attribute set |
| UsersAddModal.Modal.Submit | src/pages/Users/Addmodal.jsx:23-66 | with every input filled, the new user is sent; `onAdd` and `onClose` only on an ok answer, an alert on refusal, nothing on an exception; the draft is reset every time |
| UsersAddModal.Modal.Cancel | src/pages/Users/Addmodal.jsx:75 | `onClose` only |
| Dashboard.TotalPages | src/pages/Dashboard/Dashboard.jsx:109 | the page count is the ceiling of the length over six; zero exactly for an empty chart |
| Dashboard.NextPageAsWritten | src/pages/Dashboard/Dashboard.jsx:115-117 | as written, next never passes the last page, but on an empty chart it gives -1 |
| Dashboard.NextPage | src/pages/Dashboard/Dashboard.jsx:115-117 | corrected, next always lands on a page of the chart, page 0 for an empty chart |
| Dashboard.JsSlice | src/pages/Dashboard/Dashboard.jsx:106 | `slice` never grows the list; with non-negative bounds it is the run between them, clamped to the list; an end of 0 gives nothing; negative bounds count from the end |
| Dashboard.PrevPage | src/pages/Dashboard/Dashboard.jsx:111-113 | one page back, but never below 0 |
| Dashboard.CurrentData | src/pages/Dashboard/Dashboard.jsx:101-107 | a wide screen shows the whole chart; a narrow one at most six bars; page -1 shows none, whatever the chart |
| Dashboard.MobilePage | src/pages/Dashboard/Dashboard.jsx:105-106 | a narrow page has at most six bars, starting at six times the page number, and is not empty while bars remain |
| Dashboard.EveryBarOnItsPage | src/pages/Dashboard/Dashboard.jsx:103-109 | bar `i` is bar `i % 6` of page `i / 6`, which is below the page count |
| Dashboard.PagingStaysInRange | src/pages/Dashboard/Dashboard.jsx:111-117 | previous and (corrected) next keep the page within the chart |
| Dashboard.NextPageAdvances | src/pages/Dashboard/Dashboard.jsx:115-117 | next moves one page on until the last page, where it stays |
| Dashboard.NextPageAgreesOnNonEmptyChart | src/pages/Dashboard/Dashboard.jsx:115-117 | the code as written and the corrected next page agree on every non-negative page when the chart has a bar |
| Dashboard.NextPageOnEmptyChart | src/pages/Dashboard/Dashboard.jsx:115-117 | as written, next on an empty chart gives page -1, which shows no bars of any chart that later loads, while the corrected page 0 shows its first bars |
| Dashboard.Page.LoadDashboard | src/pages/Dashboard/Dashboard.jsx:76-99 | transactions that are not an array empty both lists; otherwise both lists get them; a present overview replaces the chart; a failed request changes nothing |
| Dashboard.Page.HandleSearch | src/pages/Dashboard/Dashboard.jsx:127-144 | the transactions on screen become the shared search's result, or stay when it throws |
| Dashboard.Page.HandlePrevPage | src/pages/Dashboard/Dashboard.jsx:111-113 | the page goes back one, never below 0 |
| Dashboard.Page.HandleNextPage | src/pages/Dashboard/Dashboard.jsx:115-117 | the corrected next: on one page, never past the last page and never below 0; on a chart with bars, the same as the code |
| Dashboard.Page.Bars | src/pages/Dashboard/Dashboard.jsx:101-107 | below a width of 768 at most six bars, those of the current page in order and some while bars remain; the whole chart otherwise; none on page -1 |
| DashboardLayout.RoundTrip | src/component/layout/DashboardLayout.jsx:12-40 | each of the six items navigates to its route, and that route highlights it |
| DashboardLayout.NavigationIff | src/component/layout/DashboardLayout.jsx:32-46 | an item navigates exactly when it is one of the six, to a route that highlights it |
| DashboardLayout.ActiveItemIsAnItem | src/component/layout/DashboardLayout.jsx:12-29 | every route highlights one of the six items; an unknown route highlights "Dashboard"; a known one navigates back to itself |
| DashboardLayout.SidebarNavigation | src/component/layout/Sidebar.jsx:13-20 | "Settings" triggers no navigation; every other sidebar item navigates to a route that highlights it |
| DashboardLayout.ActiveItem | src/component/layout/DashboardLayout.jsx:12-29 | every route highlights one of the six items |
| DashboardLayout.Navigation | src/component/layout/DashboardLayout.jsx:32-46 | a click navigates only to one of the six routes (`pathMap`) |

## Left out

- Network calls, `localStorage` and the auth token are left out. Every server answer, status code and failure is a method parameter (`Option`, `Response`).
- Confirmation dialogs and SweetAlert messages are left out. Confirmation is the `confirmed` parameter; success and error pop-ups are not modelled.
- JSX layout, Tailwind class strings, icons and ReactQuill rendering are left out. A badge is its colour category.
- The date formatting, the `parseFloat` totals and `toLocaleString` of the dashboard are left out. They are floating point and locale output. The dashboard's `setData(result)` totals are display only.
- `Date.now()` ids and `URL.createObjectURL` previews are opaque string parameters.
- Attribute values are strings. JavaScript's `toString` on numbers, and on `null`/`undefined` values (which throws), is not modelled. Lower-casing is ASCII only. Strings are sequences of Unicode code points, not of UTF-16 code units, so lengths and cuts (the 150-character `Blog.Preview`) differ from JavaScript's on characters outside the Basic Multilingual Plane, such as emoji.
- React lifecycle and async ordering are left out. Each handler is one atomic state change. The effect that resets the list is a method the page runs after a change of `data`. The window width is read once; there is no resize listener.
- The search bar components are left out. This covers the field/text state of the shared and pickup search bars and the navbar's query. The search handlers take the text and field as parameters. The blog search bar's own text and field are kept in `Blog.Page`.
- The blog search bar's field options (`Object.keys(data[0] || {})`) are left out. Map keys have no order.
- Blog's `handleBannerImageClick`, the image viewer, and the `handleFileChange` the blog page declares but never uses are left out. They are display only.
- The blog update request's multipart body is left out. Only the id it is sent under is modelled.
- `pathMap` lookups of inherited object keys (such as "toString") are not modelled. `pathMap` is a plain map.
- The browser's checks of `type="email"` and `type="date"` inputs are left out. Only the `required` emptiness check gates submit.
- Dashboard.Page.HandleNextPage: applies the corrected next page. On an empty chart the code moves to page -1 (`Dashboard.NextPageAsWritten`, see Findings), and this method keeps page 0. On a chart with bars the two agree, as its contract states.
- Blog.Toggle: the id of the clicked post is a string. A post without an id is not modelled.
- Blog.Preview: it is never shown, because the table and cards ignore `render` and `renderIsiBlog`. It is stated as intended.
- Users.Page.HandleUpdate: requires a selected record. Without one the code throws, and the dialog it comes from is mounted only while a record is selected.
- UsersAddModal.NewUser: requires the template's attributes in the draft. Every draft the dialog holds has them (`UsersAddModal.Modal.Valid`).
- The other files are not part of this model: the navbar, the sidebar's rendering, the settings, login and profile pages, the user context, the input and button elements, the router and the build configuration. They are presentational, or session and network I/O.

## Findings

| source | as written | input that shows it | evidently intended | confidence | as-written member | corrected member |
|---|---|---|---|---|---|---|
| src/pages/Dashboard/Dashboard.jsx:115-117 | `Math.min(totalPages - 1, prev + 1)` with the button disabled only at `currentPage === totalPages - 1` | an empty chart (0 bars, so `totalPages` is 0) on page 0: next is enabled and sets the page to -1. Once twelve bars load, page -1 is `slice(-6, 0)`, which is empty, and the indicator reads "0 / 2" | the page never goes below 0 | not executed | Dashboard.NextPageAsWritten | Dashboard.NextPage |
