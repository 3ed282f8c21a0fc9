# Lead intake: a Dafny model

This project models the logic of a small lead-intake web application. It has five parts:

- **Leads endpoint.** `POST` turns a multipart submission into one stored lead, saving each non-empty upload under `/uploads/<uuid><extension>` first. `GET` lists every lead newest first.
- **Admin lead table.** It holds the fetched leads and fills in a missing status with `PENDING` on load. A status change is written optimistically and flipped back when the request fails. The table's columns, such as Name, Status, Website, Visa Categories and the pagination range, are computed from each lead.
- **"Mark as Reached Out" button.** A status and a busy flag around one request.
- **Public lead form.** Its default values and validation rules, the multipart body its `onSubmit` builds (booleans sent as `"true"`/`"false"`, one `files` entry per selected file), and its submit state.
- **Older lead form.** It edits one state record field by field, collects the visas picked in a multiple select, keeps one résumé file, and posts the record with the visas as a JSON array.

Effects become parameters:
- a `SaveOutcome` per attempted file save;
- a `CreateOutcome` for the database insert;
- a `QueryOutcome` for the list query;
- the `ok` flag or outcome of each client request.

Files:
- `leads.dfy` holds the shared data model.
- `multipart.dfy` models `FormData.get`/`getAll`.
- `strings.dfy` has `join`/`split` and index search.
- `json.dfy` writes JSON strings and string arrays and reads them back.
- `submission.dfy` connects the forms' bodies to the endpoint and the website check to the table cell.

## Model

| member | source | states |
|---|---|---|
| Leads.StatusName | src/components/ActionButtons/StatusUpdateButton.tsx:8 | `PENDING` and `REACHED_OUT` each name exactly one of the two statuses |
| Leads.Flip | src/components/ActionButtons/StatusUpdateButton.tsx:16 | the requested status always differs from the current one |
| Leads.FlipInvolutive | src/components/LeadList/LeadList.tsx:69 | flipping a status twice gives it back |
| Strings.SplitJoin | src/components/LeadList/LeadList.tsx:155 | `join` is undone by splitting at the separator when no item is empty or holds the separator's first character |
| Multipart.GetSpec | src/app/api/leads/route.ts:59-69 | `get` is null exactly when no entry has the key; otherwise it is the value of the first entry with that key |
| Multipart.GetAt | src/app/api/leads/route.ts:59-69 | the first entry under a key decides `get`, whatever follows it |
| Multipart.GetAllFrom | src/app/api/leads/route.ts:41 | every value `getAll` returns was submitted under that key |
| Multipart.GetAllAppend | src/app/api/leads/route.ts:41 | `getAll` keeps entry order: on two bodies in a row it is the first body's values, then the second's |
| Multipart.GetAllAbsent | src/app/api/leads/route.ts:41 | `getAll` of a key no entry has is empty |
| ApiLeads.TrimTrailingSlashes | src/app/api/leads/route.ts:16 | the result is a prefix of the path that does not end in `/`; only `/` characters were removed |
| ApiLeads.LastSegment | src/app/api/leads/route.ts:16 | the last segment ends the path, contains no `/`, and is either the whole path or comes right after a `/` |
| ApiLeads.SegmentExt | src/app/api/leads/route.ts:16 | a segment's extension is empty or one `.` followed by no other `.`, and it ends the segment; it is non-empty exactly when the segment is not `..` and has a `.` after its first character |
| ApiLeads.ExtName | src/app/api/leads/route.ts:16 | `path.extname` is empty or one `.` and what follows it, has no `/`, and ends the path once trailing slashes are dropped |
| ApiLeads.ExtNameOfPath | src/app/api/leads/route.ts:16 | a directory in front of a file name does not change its extension |
| ApiLeads.ExtNameOfDottedName | src/app/api/leads/route.ts:16 | `stem.ext` (non-empty stem, no `/`, no `.` in `ext`) has extension `.ext`; a name ending in `.` has extension `.`, except `..` |
| ApiLeads.ExtNameWithoutDot | src/app/api/leads/route.ts:16 | a name without `.` has no extension |
| ApiLeads.ExtNameOfHiddenFile | src/app/api/leads/route.ts:16 | a name whose only `.` is its first character, such as `.env`, has no extension |
| ApiLeads.StoragePath | src/app/api/leads/route.ts:15-30 | the public path is `/uploads/`, then the uuid, then the original name's extension |
| ApiLeads.StoragePathKeepsExtension | src/app/api/leads/route.ts:15-30 | for a uuid without `/` or `.`, `path.extname` of the public path is the original name's extension |
| ApiLeads.StoragePathsDistinct | src/app/api/leads/route.ts:17 | two different ids of one length never give the same path, whatever the names |
| ApiLeads.SaveFile | src/app/api/leads/route.ts:7-31 | a descriptor exactly when the write succeeded, holding the original name and the public path built from that write's uuid |
| ApiLeads.CollectFiles | src/app/api/leads/route.ts:41-55 | the loop's `fileData` is `Descriptors`: for each non-empty file in order, its descriptor when the save succeeded |
| ApiLeads.DescriptorsAppend | src/app/api/leads/route.ts:44-55 | submission order is kept: descriptors of two runs of entries are the first run's, then the second's |
| ApiLeads.DescriptorsBound | src/app/api/leads/route.ts:44-55 | there are at most as many descriptors as non-empty files, and exactly as many when every save succeeds |
| ApiLeads.DescriptorsProvenance | src/app/api/leads/route.ts:46-49 | every descriptor comes from a non-empty file whose save succeeded, with that file's name and the path built from that save's uuid |
| ApiLeads.DescriptorNamesWhenAllSaved | src/app/api/leads/route.ts:44-55 | when every save succeeds, the descriptors' names are the non-empty files' names, in order |
| ApiLeads.BuildLeadData | src/app/api/leads/route.ts:58-71 | the lead data read from the body; its values are stated by `ApiLeads.HandlePost` (items 3 to 8 below) and, for the public form's body, by `Submission.FormLeadData` |
| ApiLeads.PostStatusCode | src/app/api/leads/route.ts:78-85 | 201 exactly for a created lead, 500 exactly for a failure |
| ApiLeads.HandlePost | src/app/api/leads/route.ts:34-87 | covers all of the following: (1) an unreadable body or a failed insert is an error; (2) a created lead carries the database's id and time and status `PENDING`; (3) its names, email and website are the submitted text; (4) a first name that is missing or not text fails; (5) each visa flag is true iff its field is exactly `"true"`; (6) country is null iff the field is missing or empty, and is the text otherwise; (7) message is `''` iff the field is missing or empty; (8) files is null iff no descriptor was collected, and is the descriptors otherwise |
| ApiLeads.PostStoresRecord | src/app/api/leads/route.ts:58-78 | a body whose data has the column types is stored, and the stored row is the answer |
| ApiLeads.Post | src/app/api/leads/route.ts:34-87 | the handler with its file loop answers as `HandlePost` |
| ApiLeads.InsertByCreatedAt | src/app/api/leads/route.ts:93-96 | inserting adds exactly the one lead: a permutation of the list plus it |
| ApiLeads.InsertKeepsOrder | src/app/api/leads/route.ts:93-96 | inserting into a newest-first list keeps it newest first |
| ApiLeads.SortNewestFirst | src/app/api/leads/route.ts:93-96 | the query returns exactly the stored leads (a permutation) |
| ApiLeads.SortIsNewestFirst | src/app/api/leads/route.ts:93-96 | the query's rows are ordered by `createdAt`, newest first |
| ApiLeads.ListStatusCode | src/app/api/leads/route.ts:115-126 | 200 exactly for a listing, 500 exactly for a failure |
| ApiLeads.HandleGet | src/app/api/leads/route.ts:89-128 | a listing happens iff the query succeeds; it holds every stored lead newest first; a failure carries the query's error |
| JsonText.EscapeChar | src/components/leads/LeadForm.jsx:61 | each character is written either as itself or as an escape that starts with a backslash |
| JsonText.EscapeCharParses | src/components/leads/LeadForm.jsx:61 | each written character is read back as itself, whatever follows it |
| JsonText.UnicodeEscapeParses | src/components/leads/LeadForm.jsx:61 | a control character written `\u00XX` is read back from its digits |
| JsonText.ParseEscaped | src/components/leads/LeadForm.jsx:61 | the escaped text of a string, then a quote, reads back as that string and the rest |
| JsonText.QuoteRoundTrip | src/components/leads/LeadForm.jsx:61 | `JSON.stringify` of a string starts with a quote and reads back as the string |
| JsonText.ParseQuotedItems | src/components/leads/LeadForm.jsx:61 | the comma-joined literals of a non-empty list, then `]`, read back as the list |
| JsonText.StringArray | src/components/leads/LeadForm.jsx:61 | `JSON.stringify` of a string array; its meaning is stated by `JsonText.StringArrayRoundTrip` |
| JsonText.StringArrayRoundTrip | src/components/leads/LeadForm.jsx:61 | reading `JSON.stringify` of any string array gives the array back |
| JsonText.EscapePlain | src/components/leads/LeadForm.jsx:61 | text without quotes, backslashes or control characters is written unchanged |
| ActionButtons.InitialStatus | src/components/ActionButtons/StatusUpdateButton.tsx:11-12 | the status starts as `currentStatus`, or `PENDING` when none is given |
| ActionButtons.AfterClick | src/components/ActionButtons/StatusUpdateButton.tsx:15-39 | the status changes on a successful request and only then |
| ActionButtons.ClicksOnlyReachOut | src/components/ActionButtons/StatusUpdateButton.tsx:15-44 | from `PENDING`, any series of clicks ends in `REACHED_OUT` iff some request succeeded, else in `PENDING` |
| ActionButtons.ReachedOutIsFinal | src/components/ActionButtons/StatusUpdateButton.tsx:42-44 | once `REACHED_OUT`, nothing changes it |
| ActionButtons.StatusUpdateButton.constructor | src/components/ActionButtons/StatusUpdateButton.tsx:11-13 | the initial status as above, not busy |
| ActionButtons.StatusUpdateButton.Caption | src/components/ActionButtons/StatusUpdateButton.tsx:54 | `Updating...` exactly while busy, `Mark as Reached Out` otherwise |
| ActionButtons.StatusUpdateButton.BeginUpdate | src/components/ActionButtons/StatusUpdateButton.tsx:16-17 | the requested status is the flip of the current one; the button becomes busy; the status is unchanged |
| ActionButtons.StatusUpdateButton.FinishUpdate | src/components/ActionButtons/StatusUpdateButton.tsx:26-38 | the requested status is adopted only on success, and the button is never left busy |
| ActionButtons.StatusUpdateButton.Click | src/components/ActionButtons/StatusUpdateButton.tsx:15-52 | a click on the shown, enabled button ends in `REACHED_OUT` on success and `PENDING` on failure, not busy; the button stays shown iff the request failed |
| LeadList.WithDefaultStatus | src/components/LeadList/LeadList.tsx:226-229 | same length; every lead has a status afterwards; a present status is kept, a missing one becomes `PENDING`; no other field changes |
| LeadList.StatusCell | src/components/LeadList/LeadList.tsx:103-113 | the badge reads `Reached Out` iff the status is `REACHED_OUT`, else `Pending`; the row is busy iff it is the one being updated |
| LeadList.DefaultingIsInvisible | src/components/LeadList/LeadList.tsx:226-229 | defaulting on load changes no status cell |
| LeadList.SetStatus | src/components/LeadList/LeadList.tsx:49-53 | same length; leads with the id get the new status; every other lead, and every other field, is unchanged |
| LeadList.FlipStatus | src/components/LeadList/LeadList.tsx:67-71 | same length; leads with the id get `REACHED_OUT` if they were `PENDING`, else `PENDING`; everything else is unchanged |
| LeadList.RevertRestoresDisplayedStatus | src/components/LeadList/LeadList.tsx:49-71 | optimistic write then revert gives each lead back the status it showed, provided the request asked for a different status |
| LeadList.RevertRestoresList | src/components/LeadList/LeadList.tsx:49-71 | when each matching lead held the other status, write then revert gives back the list exactly |
| LeadList.RevertAfterSameStatusFlips | src/components/LeadList/LeadList.tsx:66-71 | a failed request for the status a lead already shows leaves that lead flipped |
| LeadList.FullName | src/components/LeadList/LeadList.tsx:80 | the Name column; what it holds is stated by `LeadList.FullNameSplits` |
| LeadList.FullNameSplits | src/components/LeadList/LeadList.tsx:80 | the Name column splits at its first space into first and last name when the first name has no space |
| LeadList.VisaCategories | src/components/LeadList/LeadList.tsx:149-154 | at most four categories, each one of the four labels |
| LeadList.VisaCategoriesListFlags | src/components/LeadList/LeadList.tsx:150-154 | each label is listed iff its flag is set |
| LeadList.VisaCategoriesOrdered | src/components/LeadList/LeadList.tsx:150-154 | the labels come in the fixed order O-1, EB-1A, EB-2 NIW, Unknown, each at most once |
| LeadList.VisaLabel | src/components/LeadList/LeadList.tsx:149-155 | the column is empty iff no flag is set |
| LeadList.VisaLabelRoundTrip | src/components/LeadList/LeadList.tsx:155 | splitting the column at `", "` gives back the listed categories |
| LeadList.VisaLabelsPlain | src/components/LeadList/LeadList.tsx:150-154 | the four labels are non-empty and contain no comma |
| LeadList.VisaLabelDeterminesFlags | src/components/LeadList/LeadList.tsx:149-155 | two rows with the same column text have the same four flags |
| LeadList.StripScheme | src/components/LeadList/LeadList.tsx:136 | the text is the website itself or it without one leading `http://` or `https://`; such a scheme is always removed |
| LeadList.WebsiteCellOf | src/components/LeadList/LeadList.tsx:133-138 | a dash iff the website is empty, otherwise a link to the website whose text has the scheme stripped |
| LeadList.StripSchemeOnce | src/components/LeadList/LeadList.tsx:136 | only one scheme is removed |
| LeadList.ShowingRange | src/components/LeadList/LeadList.tsx:346-352 | first is pageIndex·pageSize + 1; last is at most the total; 1 ≤ first ≤ last when the page starts inside the list |
| LeadList.ShowingRangeMatchesPage | src/components/LeadList/LeadList.tsx:346-352 | the range counts the rows of the page, and its ends are the page's first and last rows |
| LeadList.FetchError | src/components/LeadList/LeadList.tsx:219-233 | a failed load always shows a non-empty error: the thrown message when there is one |
| LeadList.LeadListView.constructor | src/components/LeadList/LeadList.tsx:39-43 | no leads, loading, no error, no row busy |
| LeadList.LeadListView.FetchLeads | src/components/LeadList/LeadList.tsx:215-237 | loading ends; a successful load stores the defaulted list; a failed one keeps the list and records the error |
| LeadList.LeadListView.BeginStatusUpdate | src/components/LeadList/LeadList.tsx:45-53 | the row becomes busy and the list takes the optimistic status |
| LeadList.LeadListView.EndStatusUpdate | src/components/LeadList/LeadList.tsx:61-76 | on failure the matching leads are flipped back; the busy marker is cleared either way |
| LeadList.LeadListView.UpdateLeadStatus | src/components/LeadList/LeadList.tsx:45-77 | (1) no row stays busy; (2) only matching leads' statuses change; (3) on success they hold the new status; (4) on failure each lead shows its old status, when the request asked for a different one |
| LeadForm.ValidEmailHasOneAt | src/components/LeadForm/LeadForm.tsx:171 | an accepted email has exactly one `@` |
| LeadForm.ValidEmail | src/components/LeadForm/LeadForm.tsx:171 | the email pattern under the `i` flag; what it accepts is stated by the four lemmas around it |
| LeadForm.EmailFromParts | src/components/LeadForm/LeadForm.tsx:171 | any non-empty local part, `@`, non-empty domain, `.` and two or more letters, each from its character class, is accepted |
| LeadForm.EmailWithoutDotAfterAt | src/components/LeadForm/LeadForm.tsx:171 | an `@` with no `.` anywhere after it is refused |
| LeadForm.EmailShortTopLevelDomain | src/components/LeadForm/LeadForm.tsx:171 | fewer than two characters after the last `.`, or a non-letter among them, is refused |
| LeadForm.ValidWebsite | src/components/LeadForm/LeadForm.tsx:208 | the website pattern; what it accepts is stated by the two lemmas below and `Submission.WebsiteRestHasNoColon` |
| LeadForm.WebsiteFromParts | src/components/LeadForm/LeadForm.tsx:208 | any host, `.`, two to six top-level characters and path, each from its character class, is accepted bare, after `http://` and after `https://` |
| LeadForm.WebsiteWithoutDot | src/components/LeadForm/LeadForm.tsx:208 | text without a `.` is refused |
| LeadForm.RequiredRule | src/components/LeadForm/LeadForm.tsx:126 | no error iff the value is non-empty, otherwise exactly the required message |
| LeadForm.PatternRule | src/components/LeadForm/LeadForm.tsx:168-173 | no error iff non-empty and matching; the required message when empty; the pattern message when non-empty and not matching |
| LeadForm.Validate | src/components/LeadForm/LeadForm.tsx:125-210 | no error iff both names are non-empty and email and website match; at most four errors |
| LeadForm.ValidateNameMessages | src/components/LeadForm/LeadForm.tsx:125-148 | each name's message is shown iff that name is empty |
| LeadForm.ValidateEmailMessages | src/components/LeadForm/LeadForm.tsx:168-173 | `Email is required` iff empty; `Invalid email address` iff non-empty and not matching |
| LeadForm.ValidateWebsiteMessages | src/components/LeadForm/LeadForm.tsx:205-210 | the required message iff empty; `Please enter a valid URL` iff non-empty and not matching |
| LeadForm.DefaultsFailRequired | src/components/LeadForm/LeadForm.tsx:42-53 | the untouched form fails exactly the four required rules, in form order |
| LeadForm.UnruledFieldsNeverFail | src/components/LeadForm/LeadForm.tsx:191-198 | country, message, the visa flags and the files never change validation |
| LeadForm.BoolText | src/components/LeadForm/LeadForm.tsx:72-73 | a flag is written `"true"` iff set and `"false"` iff not |
| LeadForm.EntryPartsOrigin | src/components/LeadForm/LeadForm.tsx:67-77 | every entry the field loop appends is text, not under `files`, and from a pair whose value is neither null nor undefined |
| LeadForm.FileUploads | src/components/LeadForm/LeadForm.tsx:80-84 | one `files` entry per file, in list order |
| LeadForm.AppendFields | src/components/LeadForm/LeadForm.tsx:67-77 | the `forEach` appends exactly `EntryParts` of the pairs |
| LeadForm.AppendFiles | src/components/LeadForm/LeadForm.tsx:80-84 | the file loop appends exactly one `files` entry per file, in order, after what was there |
| LeadForm.BuildPayload | src/components/LeadForm/LeadForm.tsx:64-84 | the body built is `Payload` |
| LeadForm.FieldStep | src/components/LeadForm/LeadForm.tsx:67-77 | each field pair appends its own entry: text as typed, a flag as `"true"`/`"false"` |
| LeadForm.PayloadShape | src/components/LeadForm/LeadForm.tsx:64-84 | the body is the ten fields in form order, then the files when a selection was made |
| LeadForm.GetAllFileUploads | src/components/LeadForm/LeadForm.tsx:80-84 | `getAll('files')` on the file entries yields the files in order |
| LeadForm.PayloadGet | src/components/LeadForm/LeadForm.tsx:67-77 | `get` on the body finds each field's own entry |
| LeadForm.PayloadTextFields | src/components/LeadForm/LeadForm.tsx:75 | `get` reads back each text field as typed |
| LeadForm.PayloadFlags | src/components/LeadForm/LeadForm.tsx:72-73 | `get` reads back each flag as `"true"`/`"false"` |
| LeadForm.PayloadFiles | src/components/LeadForm/LeadForm.tsx:80-84 | `getAll('files')` yields exactly the selected files, in order (so as many as were selected) |
| LeadForm.SubmitError | src/components/LeadForm/LeadForm.tsx:91-100 | a failure always shows a non-empty message: the response's `error`, else the fixed message; or the thrown message, else the retry message |
| LeadForm.LeadFormView.constructor | src/components/LeadForm/LeadForm.tsx:32-33 | not submitting, no server error, no navigation |
| LeadForm.LeadFormView.SubmitCaption | src/components/LeadForm/LeadForm.tsx:293-296 | `Submitting...` exactly while submitting |
| LeadForm.LeadFormView.BeginSubmit | src/components/LeadForm/LeadForm.tsx:60-84 | submitting, error cleared, the body is `Payload` |
| LeadForm.LeadFormView.FinishSubmit | src/components/LeadForm/LeadForm.tsx:91-103 | never left submitting; success navigates to `/thank-you`; failure records the error |
| LeadForm.LeadFormView.Submit | src/components/LeadForm/LeadForm.tsx:59-104 | (1) invalid values send nothing and change nothing; (2) valid values send `Payload`; (3) success navigates with no error; (4) failure shows a non-empty error; (5) never left submitting |
| LegacyLeadForm.HandleChange | src/components/leads/LeadForm.jsx:30-33 | the named field takes the value; every other field is kept |
| LegacyLeadForm.ChangesCompose | src/components/leads/LeadForm.jsx:30-33 | a later edit of a field replaces an earlier one; edits of different fields commute |
| LegacyLeadForm.SelectedValues | src/components/leads/LeadForm.jsx:38-42 | every value kept is a selected option's value; there are no more values than options |
| LegacyLeadForm.SelectedValuesComplete | src/components/leads/LeadForm.jsx:38-42 | every selected option's value is kept |
| LegacyLeadForm.SelectedValuesAppend | src/components/leads/LeadForm.jsx:38-42 | option order is kept |
| LegacyLeadForm.SelectedValuesCount | src/components/leads/LeadForm.jsx:38-42 | as many values as selected options |
| LegacyLeadForm.HandleVisaChange | src/components/leads/LeadForm.jsx:35-44 | the visas become the selected values; every other field is kept |
| LegacyLeadForm.HandleFileChange | src/components/leads/LeadForm.jsx:46-48 | the résumé is the first chosen file, or none when none was chosen; nothing else changes |
| LegacyLeadForm.BuildPayload | src/components/leads/LeadForm.jsx:56-67 | the body built is `Payload` |
| LegacyLeadForm.TextStep | src/components/leads/LeadForm.jsx:59-66 | the text fields are appended as typed, the visas as their JSON text |
| LegacyLeadForm.ResumeShape | src/components/leads/LeadForm.jsx:62-63 | the résumé entry is appended only when a file was chosen |
| LegacyLeadForm.PayloadShape | src/components/leads/LeadForm.jsx:59-67 | the body is the five text entries, the résumé if chosen, then the additional info |
| LegacyLeadForm.VisasRoundTrip | src/components/leads/LeadForm.jsx:61 | the `visasOfInterest` entry is text that decodes to the selection |
| LegacyLeadForm.PayloadKeys | src/components/leads/LeadForm.jsx:59-67 | the body has no `website`, no `visaCategoryO1` and no `files` entry |
| LegacyLeadForm.SubmitError | src/components/leads/LeadForm.jsx:74-82 | a failure always shows a non-empty message: the fixed one for a bad response, the thrown message or the retry message |
| LegacyLeadForm.LegacyLeadFormView.constructor | src/components/leads/LeadForm.jsx:17-28 | empty text fields, no visas, no résumé, not submitting, no error |
| LegacyLeadForm.LegacyLeadFormView.Change | src/components/leads/LeadForm.jsx:30-33 | the record takes `HandleChange`; nothing else changes |
| LegacyLeadForm.LegacyLeadFormView.VisaChange | src/components/leads/LeadForm.jsx:35-44 | the visas become the selected values; nothing else changes |
| LegacyLeadForm.LegacyLeadFormView.FileChange | src/components/leads/LeadForm.jsx:46-48 | the record takes `HandleFileChange`; nothing else changes |
| LegacyLeadForm.LegacyLeadFormView.BeginSubmit | src/components/leads/LeadForm.jsx:52-67 | submitting, error cleared, the body is `Payload` of the record |
| LegacyLeadForm.LegacyLeadFormView.FinishSubmit | src/components/leads/LeadForm.jsx:74-85 | never left submitting; success navigates to `/lead-form/thank-you`; failure records the error |
| LegacyLeadForm.LegacyLeadFormView.Submit | src/components/leads/LeadForm.jsx:50-86 | sends `Payload` of the record; success navigates with no error; failure shows a non-empty error; never left submitting |
| Submission.FormLeadData | src/app/api/leads/route.ts:58-71 | the public form's body yields these values: (1) the typed names, email and website; (2) country null iff left empty; (3) the message as typed; (4) each visa flag as ticked, so the boolean round trip holds; (5) status `PENDING` |
| Submission.FormStorable | src/app/api/leads/route.ts:58-76 | every body the public form posts passes the column type checks |
| Submission.FormPostCreated | src/app/api/leads/route.ts:74-78 | posting the public form's body with a successful insert answers with the stored row |
| Submission.FormPostRoundTrip | src/app/api/leads/route.ts:41-78 | posting the public form's body stores a lead with the typed fields, the ticked flags, status `PENDING`, and the saved files' descriptors (null when none was saved) |
| Submission.LegacyPostRejected | src/components/leads/LeadForm.jsx:59-72 | the older form's body never has a `website` entry; with `website` a required text column (the `ApiLeads.Storable` assumption), the endpoint refuses every such submission |
| Submission.WebsiteRestHasNoColon | src/components/LeadForm/LeadForm.tsx:208 | after its optional scheme, an accepted website has no `:` |
| Submission.AcceptedWebsiteCell | src/components/LeadList/LeadList.tsx:133-138 | an accepted website is listed as a link to itself whose text is the address without its scheme, with no scheme left |

## Notes on the code

- The admin list component has no search box and no status filter. When a status request fails, it does not restore the earlier status: it flips whatever status the lead holds (`src/components/LeadList/LeadList.tsx:66-70`). The earlier status comes back only when the request asked for the other status (`LeadList.RevertRestoresDisplayedStatus`). A request for the status the lead already shows ends with the lead flipped (`LeadList.RevertAfterSameStatusFlips`).
- `POST` saves the uploads (`saveFile`, `src/app/api/leads/route.ts:7-32`, called at line 48) before the insert (line 74). When the insert fails, the saved files stay in the uploads directory. The model has no file system, so this is not captured.

## Left out

- File system, uuid generation and byte copying in `saveFile`: each attempted save is a given `SaveOutcome`, either `Written(uuid)` or `WriteFailed`.
- The ORM and its client: the insert is a `CreateOutcome`, the list query a `QueryOutcome`. The column type check is modelled as `Storable`. The ORM's own error text is the placeholder `InvalidDataDetails`.
- `JSON.stringify(fileData)` on the server: a stored lead holds the descriptor list itself rather than its JSON text.
- ApiLeads.SortNewestFirst: the database's order among leads with equal `createdAt` is not specified by the code. The contract states only the newest-first order and the permutation.
- The status endpoint that both status controls call is not part of this model: its answer is the `ok` flag of the request.
- LeadList.LeadListView.UpdateLeadStatus: composes the two halves with nothing else happening in between. Interleaved loads or updates while a request is in flight are not modelled.
- The admin table's rendering, the session redirect, the sorting and paging internals of the table library, the date formatting of the Submitted column, the email and message cells, and the files cell's regular expression with `JSON.parse` are left out. Only the displayed values listed above are modelled.
- The public form's `CountryInput`, the rendering of the file input's "Clear" button (the empty selection it produces is modelled as `Cleared`), the touched/blur timing of react-hook-form, and all rendering are left out.
- The older form's browser-side `required` and `type="email"` checks are left out. They are native constraint validation, outside the component's code.
- JavaScript strings may hold lone UTF-16 surrogates; Dafny strings here are sequences of Unicode scalar values, so such strings are not modelled. The JSON reader refuses a `\u` escape of a lone surrogate.
- `console`, `alert`, `fetch` and router calls are events without content in the model: only their outcome or target page is kept.
- ApiLeads.Storable: the database schema is not part of the code. `firstName`, `lastName`, `email`, `website` and `message` are assumed to be required text columns and `country` optional text. The admin detail page types `website` as `string | null` (`src/app/dashboard/leads/[id]/page.tsx:15`), so `website` may in fact be nullable; then a body without `website` would be stored, and `Submission.LegacyPostRejected` would not hold.
- The running time of the website pattern is not modelled. Its nested repetition `([/\w .-]*)*` can backtrack for a very long time on a long run of path characters that does not match. The model states only which strings match.
- Strings.Split is a reference inverse of `join`, not a model of any code: it cuts at the separator's first character and skips as many characters as the separator has without checking them. It is used only under `Strings.SplitJoin`'s preconditions.
