# InkWell post persistence, modelled in Dafny

InkWell is a blogging front end. Its posts live in a remote database, and the browser's
localStorage entry `"posts"` stands in whenever the remote call fails. Two pages hold the logic
that writes and reads posts:

- **The editor** (`src/pages/Write.tsx`):
  - it parses the comma-separated tag field with `split(",")` and `trim`;
  - it picks the id, which is the `edit` query parameter or the clock reading;
  - it builds the saved record and sends it to the remote database;
  - on failure it rewrites the local list: in edit mode by replacing entries whose
    `id.toString()` matches, in create mode by prepending the new post;
  - when a post is opened for editing, it fills the form from the remote row or, failing that,
    from the first local post with that id.
- **The dashboard** (`src/pages/Dashboard.tsx`):
  - it lists the remote rows when the query succeeded with at least one row, and the local list
    otherwise;
  - every listed post with a missing or empty status reads as published;
  - it deletes by strict id comparison, from the listing always and from the local list only
    when the remote delete failed;
  - it filters the listing by status tab and shows three counters.

The project has six modules:

- `Seqs` (seqs.dfy): general facts about sequences that the other proofs use.
- `Text` (text.dfy): the ECMAScript string operations the editor relies on. These are `trim`
  over the WhiteSpace and LineTerminator code points, `split` on a one-character separator,
  `join`, and the decimal rendering of a non-negative integer.
- `Posts` (posts.dfy): the post record, ids, the two statuses, the local store as a class with
  a `posts` field, and the order-preserving filter and count.
- `WritePage` (write_page.dfy): tag parsing and rendering, id choice, the saved record, the
  local fallback update, the edit lookup, and the `Editor` class with its form fields, busy
  flags, `LoadForEdit` and `Save`.
- `DashboardPage` (dashboard_page.dfy): status normalisation, source selection, delete, tabs and
  counters, and the `Dashboard` class with `Fetch` and `Delete`.
- `Scenarios` (scenarios.dfy): properties that span both pages through the shared local list.

How the outside world is represented:

- A remote call is an input. A write is a success flag; a read is `Remote<T>`, which is either
  `Failed` or `Ok(data)`.
- Whether the editor's local fallback completes is a flag as well. It fails when
  `id.toString()` meets a stored record without an id, or when localStorage is full.
- The clock is passed as parameters. `savePost` reads it twice, once for the remote payload and
  once for the local record, so the model takes two readings. `new Date().toISOString()` is an
  opaque string.
- The current user's id is an `Option<string>`.

## Model

| member | source | states |
|---|---|---|
| Text.TrimStart | src/pages/Write.tsx:103 | The result is no longer than the input and does not start with whitespace. |
| Text.TrimEnd | src/pages/Write.tsx:103 | The result is no longer than the input and does not end with whitespace. |
| Text.TrimStartIsSuffix | src/pages/Write.tsx:103 | Trimming the start keeps a suffix and drops only whitespace in front of it. |
| Text.TrimEndIsPrefix | src/pages/Write.tsx:103 | Trimming the end keeps a prefix and drops only whitespace behind it. |
| Text.Trim | src/pages/Write.tsx:103 | `t.trim()`: the result neither starts nor ends with whitespace. |
| Text.TrimRemovesOnlyEdgeSpace | src/pages/Write.tsx:103 | The trimmed string is a contiguous slice of the input, and everything cut on either side is whitespace. |
| Text.TrimKeepsNoComma | src/pages/Write.tsx:103 | Trimming never introduces a comma. |
| Text.TrimmedIsFixed | src/pages/Write.tsx:103 | A string with no whitespace at either end is its own trim. |
| Text.TrimIdempotent | src/pages/Write.tsx:103 | Trimming twice equals trimming once. |
| Text.TrimSkipsLeadingSpace | src/pages/Write.tsx:103 | A whitespace character put in front does not change the trimmed result. |
| Text.Occurrences | src/pages/Write.tsx:103 | The comma count is at most the length, and it is zero exactly when the string has no comma. |
| Text.Split | src/pages/Write.tsx:103 | `split(",")` gives one piece more than there are commas. |
| Text.SplitPiecesHaveNoComma | src/pages/Write.tsx:103 | No piece of a split contains the separator. |
| Text.Join | src/pages/Write.tsx:53 | `join(sep)` of a one-element list is that element. |
| Text.JoinCons | src/pages/Write.tsx:53 | Joining two or more pieces gives the first piece, the separator, then the rest joined. |
| Text.SplitThenJoin | src/pages/Write.tsx:103 | Joining the pieces of a split with "," gives back the original text. |
| Text.SplitWithoutComma | src/pages/Write.tsx:103 | Text with no comma splits into a single piece, itself. |
| Text.SplitCommaCons | src/pages/Write.tsx:103 | A leading comma opens an empty first piece. |
| Text.SplitNonCommaCons | src/pages/Write.tsx:103 | A leading non-comma character joins the first piece. |
| Text.SplitAtCommaStep | src/pages/Write.tsx:103 | One more character in front keeps the split distributing over a comma. |
| Text.SplitAtComma | src/pages/Write.tsx:103 | Splitting `a + "," + b` gives the pieces of `a` followed by the pieces of `b`. |
| Text.NatToString | src/pages/Write.tsx:98 | `Date.now().toString()` is a non-empty run of decimal digits whose last digit is the number mod 10, one digit long exactly below 10. |
| Text.NatToStringInjective | src/pages/Write.tsx:98 | Different clock readings give different id strings. |
| Posts.IdString | src/pages/Write.tsx:62 | `id.toString()` is the string itself for a string id, and a non-empty digit string for a numeric id. |
| Posts.StatusName | src/pages/Write.tsx:85-93 | Publish saves "published" and Save Draft saves "draft". Neither name is empty or "all". |
| Posts.LocalStore.constructor | src/pages/Write.tsx:152 | The local store holds the parsed `"posts"` list. |
| Posts.Filter | src/pages/Dashboard.tsx:107 | `filter` keeps exactly the elements the test accepts and never grows the list. |
| Posts.FilterAppend | src/pages/Dashboard.tsx:107 | Filtering a concatenation filters each part and keeps them in order. |
| Posts.FilterKeepsAll | src/pages/Dashboard.tsx:107 | When the test accepts every element, the list comes back unchanged. |
| Posts.FilterIdempotent | src/pages/Dashboard.tsx:107 | Filtering twice with one test equals filtering once. |
| Posts.CountWhere | src/pages/Dashboard.tsx:179 | A count is at most the length, and it equals the length exactly when every element passes. |
| Posts.CountWhereIsFilterLength | src/pages/Dashboard.tsx:179 | The count is the length of the filtered list. |
| WritePage.EditMode | src/pages/Write.tsx:34 | `if (editId)` is truthiness: a missing or empty `edit` parameter means create mode, and edit mode implies a parameter is present. |
| WritePage.ChooseId | src/pages/Write.tsx:98 | In edit mode, meaning a non-empty `edit` parameter, the id is that parameter. Otherwise it is the decimal clock reading. |
| WritePage.CreatedIdsAreDistinct | src/pages/Write.tsx:98 | Creating at two different clock readings gives two different non-empty digit ids. |
| WritePage.TrimEach | src/pages/Write.tsx:103 | `map(t => t.trim())` keeps the number of parts. |
| WritePage.TrimEachAt | src/pages/Write.tsx:103 | Each part is trimmed in place. |
| WritePage.TrimEachCons | src/pages/Write.tsx:103 | Trimming a list with a part in front gives that part trimmed in front of the rest trimmed. |
| WritePage.TrimEachSameHead | src/pages/Write.tsx:103 | Two first parts that trim alike give the same trimmed list. |
| WritePage.TrimEachSpaceHead | src/pages/Write.tsx:103 | Whitespace in front of the first part does not change the trimmed list. |
| WritePage.ParseTags | src/pages/Write.tsx:103 | The tag field gives one tag more than it has commas. The empty field gives `[""]`, not `[]`. |
| WritePage.ParseTagsPieces | src/pages/Write.tsx:145 | Every parsed tag has no whitespace at either end and no comma. |
| WritePage.JoinTags | src/pages/Write.tsx:53 | `tags.join(", ")` of no tags is "", and of one tag is that tag. |
| WritePage.SplitJoinedTags | src/pages/Write.tsx:69 | Joined tags split into the first tag, then the rest with a space before the second tag. |
| WritePage.TagsRoundTripStep | src/pages/Write.tsx:69 | The inductive step of the round trip: one more clean tag in front. |
| WritePage.TagsRoundTrip | src/pages/Write.tsx:53 | Take a non-empty list of trimmed, comma-free tags. Showing it in the tag field and parsing it again gives the list back. |
| WritePage.SplitTwo | src/pages/Write.tsx:103 | Two comma-free pieces with one comma between them split into those two pieces. |
| WritePage.SplitExample | src/pages/Write.tsx:103 | "a, b ,c" splits into "a", " b " and "c". |
| WritePage.TrimExample | src/pages/Write.tsx:103 | " b " trims to "b". |
| WritePage.ParseTagsExample | src/pages/Write.tsx:103 | "a, b ,c" parses into the tags a, b and c. |
| WritePage.EmptyTagsComeBackAsOneEmptyTag | src/pages/Write.tsx:69 | The empty tag list is shown as "" and parsed back as `[""]`. |
| WritePage.TagsStableAcrossResave | src/pages/Write.tsx:69 | Whatever the tag field held, loading the saved tags and saving again writes the same tags. |
| WritePage.Record | src/pages/Write.tsx:97-109 | The saved record carries: the chosen id; the form's text fields and image; `ParseTags` of the tag field, one more tag than the commas; the save time as `created_at`, also on update; the requested status; and the given user id. |
| WritePage.FormOf | src/pages/Write.tsx:64-71 | A loaded post fills the form: missing tags give "", and an empty image string gives no image. |
| WritePage.SavedRecordReloads | src/pages/Write.tsx:49-55 | Reloading a saved record gives back the whole form it was saved from, all seven fields, with two exceptions. The tag text comes back in its parsed-and-joined spelling, and an empty image string comes back as no image. Re-parsing the tags gives the same tags. |
| WritePage.CanPublish | src/pages/Write.tsx:215 | Publish is enabled only with a non-empty title and content, and never while a publish is in flight. |
| WritePage.CanSaveDraft | src/pages/Write.tsx:205 | Save Draft is disabled while a save is in flight. |
| WritePage.EmptyFormGuards | src/pages/Write.tsx:205-215 | On an empty form with nothing in flight, Save Draft is enabled and Publish is not. |
| WritePage.ReplaceById | src/pages/Write.tsx:157-159 | The edit-mode `map` keeps the local list's length. |
| WritePage.ReplaceByIdAt | src/pages/Write.tsx:157-159 | Every entry whose `id.toString()` is the edit id becomes the new record. Every other entry stays unchanged at its position. |
| WritePage.ReplaceWithoutMatch | src/pages/Write.tsx:157-159 | When no entry has the edit id, the list is unchanged. |
| WritePage.Fallback | src/pages/Write.tsx:152-163 | In edit mode the local list keeps its length. In create mode it grows by one: the new record at index 0, the old list as the tail. |
| WritePage.FirstMatch | src/pages/Write.tsx:62 | The index of the first post whose `id.toString()` is the key, or none when no post has it. |
| WritePage.Find | src/pages/Write.tsx:62 | `find` returns a post of the list whose id string is the key. It finds nothing exactly when no post has that id string. |
| WritePage.FallbackSaveIsFound | src/pages/Write.tsx:139-165 | After a local fallback save, looking up the saved id finds the new record: always in create mode, and in edit mode when the list held the post. Otherwise the list is unchanged and the lookup finds nothing. |
| WritePage.Loaded | src/pages/Write.tsx:33-74 | Outside edit mode the form is untouched. With a remote answer the form is that row, or unchanged when there is none. After a remote error the form is the first local match, or unchanged when nothing matches. |
| WritePage.OfflineEditThenReload | src/pages/Write.tsx:33-174 | An edit saved while the remote is down reloads, while the remote is still down, as the saved form. This holds when the local list held the edited post. |
| WritePage.Editor.constructor | src/pages/Write.tsx:21-30 | A new editor has every text field empty, no image, and both busy flags false. |
| WritePage.Editor.SetFields | src/pages/Write.tsx:283 | The input handlers set the form fields to what was typed. |
| WritePage.Editor.LoadForEdit | src/pages/Write.tsx:33-74 | The form becomes `Loaded` of the old form. Outside edit mode, or after a remote error with no local match, the form is unchanged. |
| WritePage.Editor.Save | src/pages/Write.tsx:95-174 | The form is unchanged. The payload is the record with the user id at the first clock reading. A successful remote save leaves the local list untouched. A failed one writes the fallback list with a record that has no user id, at the second clock reading. Both busy flags end false. When the fallback throws too, nothing is written and both flags keep their values. |
| WritePage.Editor.Publish | src/pages/Write.tsx:213-216 | The button runs `handlePublish` (lines 85-88). It is only callable with a title, a content and no publish in flight, and it saves with status "published". When both stores fail, `isPublishing` stays true. |
| WritePage.Editor.SaveDraft | src/pages/Write.tsx:205 | The button runs `handleSaveDraft` (lines 90-93). It is callable whenever no save is in flight, even with an empty form, and it saves with status "draft". When both stores fail, `isSaving` stays true. |
| WritePage.Editor.RemoveImage | src/pages/Write.tsx:188-191 | Only the image is cleared. |
| DashboardPage.Normalize | src/pages/Dashboard.tsx:71-74 | A missing or empty status becomes "published". A present status is kept. No other field changes. |
| DashboardPage.NormalizeIdempotent | src/pages/Dashboard.tsx:78-81 | Normalising twice equals normalising once. |
| DashboardPage.NormalizeAll | src/pages/Dashboard.tsx:86-90 | `map(normalize)` normalises each post in place. |
| DashboardPage.NormalizeAllIdempotent | src/pages/Dashboard.tsx:86-90 | Normalising a whole list twice equals normalising it once. |
| DashboardPage.UsesRemote | src/pages/Dashboard.tsx:70 | The remote rows are used only after a successful query. A failed query, or one with no rows, does not use them. |
| DashboardPage.Select | src/pages/Dashboard.tsx:68-90 | The listing is the normalised remote rows when the query had no error and returned rows. Otherwise it is the normalised local list. The two are never merged. |
| DashboardPage.SelectedPostsAreNormalized | src/pages/Dashboard.tsx:70-90 | Every listed post has a non-empty status, and the listing is a fixed point of normalisation. |
| DashboardPage.KeepsOtherThan | src/pages/Dashboard.tsx:113 | `post.id !== id` drops every post with that id. Because the comparison is strict, it keeps every post whose id is a number when the deleted id is a string, and the reverse. |
| DashboardPage.Remove | src/pages/Dashboard.tsx:113 | A delete keeps exactly the posts whose id is not strictly equal to the deleted one. |
| DashboardPage.RemoveIdempotent | src/pages/Dashboard.tsx:107 | Deleting the same id twice equals deleting it once. |
| DashboardPage.RemovePreservesOrder | src/pages/Dashboard.tsx:117 | Survivors keep their relative order, because removal distributes over concatenation. |
| DashboardPage.RemoveAbsent | src/pages/Dashboard.tsx:113 | Deleting an id no post carries leaves the list unchanged. |
| DashboardPage.HasStatus | src/pages/Dashboard.tsx:123 | `post.status === tab` holds only for posts whose status is present and equal to the tab. A post with no status matches no tab. |
| DashboardPage.FilterTab | src/pages/Dashboard.tsx:121-123 | The "all" tab shows the listing unchanged. Any other tab shows exactly the posts with that status, never more than the listing. |
| DashboardPage.FilterTabPreservesOrder | src/pages/Dashboard.tsx:121-123 | A tab keeps the listing's order. |
| DashboardPage.CountStatus | src/pages/Dashboard.tsx:179 | A status counter never exceeds the total. |
| DashboardPage.CountIsTabLength | src/pages/Dashboard.tsx:179 | A status counter equals the length of that tab's list. |
| DashboardPage.CountsBounded | src/pages/Dashboard.tsx:165-193 | Two different status counters add up to at most the total. They equal the total exactly when every post has one of the two statuses. |
| DashboardPage.Dashboard.constructor | src/pages/Dashboard.tsx:28-30 | The dashboard starts with no posts, loading, on the "all" tab. |
| DashboardPage.Dashboard.StartFetch | src/pages/Dashboard.tsx:59 | Loading is on while a fetch is in flight. |
| DashboardPage.Dashboard.FinishFetch | src/pages/Dashboard.tsx:68-93 | The listing is `Select` of the remote answer and the local list, and loading is off whatever the outcome. |
| DashboardPage.Dashboard.Fetch | src/pages/Dashboard.tsx:58-94 | One whole `fetchPosts`: the listing comes from one store, and loading ends off. |
| DashboardPage.Dashboard.Delete | src/pages/Dashboard.tsx:96-119 | The listing always loses the posts with that id. The local list loses them only when the remote delete failed, and is otherwise untouched. |
| DashboardPage.Dashboard.SelectTab | src/pages/Dashboard.tsx:207 | Choosing a tab selects it. |
| DashboardPage.Dashboard.Shown | src/pages/Dashboard.tsx:121-123 | The shown rows come from the listing, and on "all" they are the whole listing. |
| DashboardPage.Dashboard.Total | src/pages/Dashboard.tsx:165 | Total Posts is the length of the list the "all" tab shows. |
| DashboardPage.Dashboard.PublishedCount | src/pages/Dashboard.tsx:179 | The Published card never exceeds the number of listed posts. |
| DashboardPage.Dashboard.DraftCount | src/pages/Dashboard.tsx:193 | The Drafts card never exceeds the number of listed posts. |
| DashboardPage.Dashboard.CountersConsistent | src/pages/Dashboard.tsx:165-193 | Published plus Drafts never exceeds Total Posts. Each of the two equals the length of its tab's list. |
| Scenarios.SavedRecordIsNormal | src/pages/Dashboard.tsx:71-74 | A record the editor saved is left unchanged by the dashboard's normalisation. |
| Scenarios.OfflineCreateHeadsListing | src/pages/Write.tsx:162 | A post created while the remote is down heads the next local listing, as saved, ahead of the older posts. |
| Scenarios.OfflineDeleteHidesPost | src/pages/Dashboard.tsx:113 | After a local delete of a string id, the editor's lookup of that id finds nothing. |
| Scenarios.StrictDeleteKeepsNumericId | src/pages/Dashboard.tsx:113 | A local record with numeric id n is found by the editor under n's decimal string. Deleting that string leaves the record in place. |
| Scenarios.CountersAddUp | src/pages/Dashboard.tsx:165-193 | Take stored statuses that are missing, empty, "published" or "draft". The Published and Drafts counters then add up to Total Posts. |
| Scenarios.OfflinePublishThenList | src/pages/Write.tsx:85-174 | Publishing a new post and opening the dashboard, with the remote down both times and the local write succeeding, lists the new post first with status "published" and no user id. Loading ends off. |

## Left out

- Rendering, styling, routing, `alert`, `navigate`, `toast`, the preview toggle and sign-out.
  They are presentation only.
- The remote database calls. Each is one input: a success flag for a write, or `Remote<T>` for a
  read. What the remote store holds is not modelled, and neither is its `user_id` filter or its
  `created_at` ordering.
- A remote list answer with `data` null is modelled as `Ok([])`. It takes the same branch, the
  local list.
- `JSON.parse` and `JSON.stringify` of localStorage. The store is the parsed list itself
  (`Posts.LocalStore`), and a faithful round trip is taken for granted.
- `Date.now()` is a `nat` parameter. `new Date().toISOString()` is an opaque string parameter.
- `handleImageUpload` (a browser FileReader callback). The image preview is an opaque optional
  string.
- The user-based default publisher name in the editor's effect (src/pages/Write.tsx:80-82).
  It belongs to React effect scheduling.
- React's re-render and effect-dependency semantics, and the asynchronous interleaving of state
  setters. Each handler is one atomic method.
- The dashboard fetching only when a user is signed in (src/pages/Dashboard.tsx:52-56).
- WritePage.Editor.SetFields: the individual `onChange` handlers (src/pages/Write.tsx:283, 295,
  357, 370, 388, 411) are modelled together as one method that sets every field.
- Posts.IdString: a numeric id in a legacy local record is a non-negative integer. Negative and
  fractional numbers, whose `toString` has a sign or a point, are not modelled. The digit
  rendering holds only for safe integers below 10^21. JavaScript prints larger numbers in
  exponent form, and `JSON.parse` rounds ids above 2^53.
- Posts.Id: a stored record with no id at all is not a value of `Id`. The effect of such a
  record, `id.toString()` throwing during an edit-mode fallback save, is covered by the
  `localOk` flag of `WritePage.Editor.Save`. The edit-load lookup (src/pages/Write.tsx:62)
  throwing on such a record is not modelled.
- Text.NatToString: the same bound applies to the clock reading. `Date.now()` is far below
  10^21.
- WritePage.Editor.Save: a failing local fallback is one flag, `localOk`. The model does not say
  which step failed: reading the list, `id.toString()`, or `setItem`. In the source none of those
  steps writes anything before it throws, so the model's "nothing written" holds.
- WritePage.Loaded: the remote lookup uses `.single()` (src/pages/Write.tsx:44), which reports a
  missing row as an error. That case is given as `Failed`, so the local list is consulted.
  `Ok(None)` stands only for the `if (data)` guard on a successful answer.
- Text fields missing from a stored record are modelled as "". That is the value the editor's
  `x || ""` gives them.
- Text.Trim: strings are sequences of Unicode scalar values, not UTF-16 code units.
