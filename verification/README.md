# Digital Vault, modelled in Dafny

Digital Vault lets a signed-in user keep encrypted notes and uploaded documents, and find both again with a keyword search. An optional "AI boost" asks a language model for extra search terms. The model has two halves.

**The FastAPI backend**
- `Auth`: registration and login.
- `AuthDeps`: the bearer-token dependency that resolves the current user.
- `Notes`: the notes router, including related notes by tag overlap and note summaries.
- `Documents`: the documents router, covering upload, listing, detail, download, delete and rescan.
- `Search`: the smart-search router, with candidate selection, token scoring, per-id deduplication and ranking.
- `Dashboard`: the dashboard statistics, meaning tag counts, recent items and weekly activity.
- `AiService`: the pure parts of the AI service. These are text cleaning, the summary input plan, and unwrapping the model's reply for query expansion.

The SQL tables are sequences of rows (`Tables`). Each router operation is either a function of those rows, or a method of a table class (`Notes.NotesTable`, `Documents.DocumentStore`, `Auth.UsersTable`) that changes them.

**The React client**
- `Api`: the axios layer, meaning the two interceptors and the endpoint table.
- `AuthStore`, `ThemeStore`: the two zustand stores, which write through to `localStorage`.
- `App`: the route guards and route table.
- `LoginPage`, `RegisterPage`, `NotesPage`, `SearchPage`: the four page components the vault's behaviour lives in.

The browser is a `Browser.Window` object holding `localStorage`, the current path and the `data-theme` attribute. Each asynchronous handler is split at its `await` into two methods, one before the request (`Submit`, `Start`) and one after the response (`Settle`, `Finish`).

Shared modules:
- `Wrappers`: `Option` and `Result`.
- `Text`: Python's `strip`, `split`, `lower`, `int()` and `str()` on strings.
- `Sequences`: slicing, filtering, `list(set(...))`, and the stable `sort(reverse=True)` that also models `ORDER BY ... DESC`.
- `Tables`: the three tables' rows, the tags column as `json.dumps` writes it (with its escapes), and the row dictionaries.
- `Keyed`: key-indexed row updates.

Similarity scores are exact `real`s.

Behaviour of the code worth knowing:
- With the AI boost on, a failed expansion searches for the stripped query alone (`search_terms = [query]`). With the boost off, the query's words are searched too. So a failed boost is not equivalent to no boost. `Search.FailedBoostNarrowsCandidates` and `Search.FailedBoostExample` exhibit a note that only the boost-off search finds.
- The 401 interceptor removes the stored token and user, but it does not reset the store's `user` and `token` fields, so storage and store diverge (`Api.ExpiredSession`).
- `expanded_terms` holds the query itself, deduplicated with the model's keywords through `list(set(...))` (`AiService.ExpandSearchQuery`).

## Model

| member | source | states |
|---|---|---|
| Tables.EscapeChar | backend/routers/notes.py:51 | json.dumps writes a character unchanged exactly when it is printable ASCII other than the quote and backslash, and always as printable ASCII |
| Tables.Escaped | backend/routers/notes.py:51 | a tag's string literal is printable ASCII, never shorter than the tag, and equal to it exactly when every character is written unchanged |
| Search.Tokenize | backend/routers/search.py:9-10 | every token is a non-empty run of word characters; empty text has no tokens |
| Search.ScoreMatch | backend/routers/search.py:12-20 | the score lies in [0, 1]; it is 0 for an empty token set; it is positive exactly when a query token hits the title, tags or summary; it is 1 when the title holds every query token |
| Search.SearchTerms | backend/routers/search.py:31-38 | the terms always include the query and have no duplicates; without the boost they are exactly the query and its words; with the boost they are the expansion |
| Search.NoteCandidates | backend/routers/search.py:45-56 | at most 20 rows, each the caller's and matching some term by ILIKE on title or on the tags column as json.dumps wrote it; ordered by updated_at descending; every match is fetched unless the limit is reached |
| Search.NonAsciiTermMissesTags | backend/routers/search.py:49 | a term holding a character outside printable ASCII never matches the tags column, whose every such character is a \uXXXX escape |
| Search.QuoteTermMissesTag | backend/routers/search.py:49 | the term a"b does not match the column of a note tagged a"b, which holds the escaped quote |
| Search.DocCandidates | backend/routers/search.py:71-82 | at most 10 rows, each the caller's and matching some term on name or summary; ordered by created_at descending; every match is fetched unless the limit is reached |
| Search.TruncateSummary | backend/routers/search.py:93 | a summary of at most 200 characters is kept whole; a longer one becomes its first 200 characters followed by an ellipsis |
| Search.NoteHitsSound | backend/routers/search.py:57-69 | every note hit comes from an unseen candidate with its fields, its parsed tags (a NULL or empty cell reads as `[]`) and its positive score; hit ids are distinct |
| Search.EmptyTagsCellHit | backend/routers/search.py:62-69 | a note whose tags cell is NULL or empty and that scores above zero is a hit with tags [] |
| Search.NoteHitsComplete | backend/routers/search.py:57-69 | the first row with a given id, if it scores above zero, yields a hit |
| Search.NoteHitsZeroScore | backend/routers/search.py:65 | when no row scores above zero there are no hits |
| Search.DocHitsSound | backend/routers/search.py:83-95 | every document hit comes from an unseen candidate with its name, truncated summary and positive score; ids are distinct |
| Search.DocHitsComplete | backend/routers/search.py:83-95 | the first row with a given id, if it scores above zero, yields a hit |
| Search.DocHitsZeroScore | backend/routers/search.py:90 | when no row scores above zero there are no hits |
| Search.CollectNoteHits | backend/routers/search.py:57-69 | the seen_ids loop yields exactly the hits of the specification; it fails with 500 only when some row's tags cell is neither NULL, empty nor a JSON list |
| Search.CollectDocHits | backend/routers/search.py:83-95 | the seen_ids loop yields exactly the hits of the specification |
| Search.RankedNotes | backend/routers/search.py:45-69 | note results are sorted by similarity descending, have distinct ids, and each comes from a matching row of the caller |
| Search.RankedNotesComplete | backend/routers/search.py:57-69 | every first-seen candidate with a positive score appears in the ranked notes |
| Search.RankedDocs | backend/routers/search.py:71-95 | document results are sorted by similarity descending, have distinct ids, and each comes from a matching row of the caller |
| Search.RankedDocsComplete | backend/routers/search.py:83-95 | every first-seen candidate with a positive score appears in the ranked documents |
| Search.SearchSpec | backend/routers/search.py:22-102 | an empty q is refused with 422; otherwise the result echoes the stripped query and the boost flag; total is the sum of the two list lengths; expanded_terms are the terms exactly when boosted; a disabled kind is empty; both lists are sorted and id-distinct; every hit belongs to the caller and is scored on the query's own tokens |
| Search.SmartSearch | backend/routers/search.py:22-102 | the imperative search returns exactly SearchSpec's result |
| Search.BlankQueryFindsNothing | backend/routers/search.py:13-14 | a query without word characters finds no notes and no documents |
| Search.NoHitsWithoutTokens | backend/routers/search.py:40 | with an empty token set both ranked lists are empty |
| Search.EmptyQueryScoresZero | backend/routers/search.py:13-14 | every note and document scores zero for an empty token set |
| Search.RankedNotesZeroScore | backend/routers/search.py:65 | a scorer that is never positive yields no ranked notes |
| Search.RankedDocsZeroScore | backend/routers/search.py:90 | a scorer that is never positive yields no ranked documents |
| Search.ExpansionKeepsQueryMatches | backend/routers/search.py:31-38 | any row the bare query matches is also matched by the search terms, with or without the boost |
| Search.ScoreIgnoresTerms | backend/routers/search.py:40-64 | a note's similarity depends only on the tokens of the stripped query, never on the expanded terms |
| Search.FailedBoostNarrowsCandidates | backend/routers/search.py:31-38 | a note matching only one word of the query is found without the boost and missed when the boost fails |
| Search.FailedBoostExample | backend/routers/search.py:31-38 | "react hooks" and a note titled "hooks tips" meet the premises of the previous lemma |
| Notes.NoteDict | backend/routers/notes.py:23-34 | the row dict drops encrypted_content and embedding; it parses tags, turns is_pinned into a bool, and adds the decrypted content when asked; other columns are copied; a bad tags cell is a server error |
| Notes.NoteToDict | backend/routers/notes.py:23-34 | the step-by-step dict building gives NoteDict's result |
| Notes.ContentRoundTrip | backend/routers/notes.py:27-31 | content that was encrypted comes back from the detail dict unchanged |
| Notes.Find | backend/routers/notes.py:68-72 | finds a row with that id owned by that user, or reports that none exists |
| Notes.ListOrderSpec | backend/routers/notes.py:41 | the listing is a permutation of the caller's notes, ordered by is_pinned then updated_at, both descending |
| Notes.ListOrderOwned | backend/routers/notes.py:41 | the listing has one entry per note of the caller and no other user's note |
| Notes.ListDict | backend/routers/notes.py:46 | a listed dict carries the owner's id and never the content or the ciphertext |
| Notes.ListDicts | backend/routers/notes.py:46 | the same holds for every dict of a listing |
| Notes.Dicts | backend/routers/notes.py:46 | the list comprehension succeeds exactly when every row converts, and then converts each row in place |
| Notes.SetListApplied | backend/routers/notes.py:83-100 | the SET list is empty exactly when no field is supplied; applying it and the timestamp gives the updated row |
| Notes.SetListStaged | backend/routers/notes.py:83-94 | applying the SET list assigns exactly the supplied fields |
| Notes.SetListRun | backend/routers/notes.py:83-100 | applying the SET list and then updated_at gives the updated row |
| Notes.CollectAssignments | backend/routers/notes.py:83-94 | the update loop builds exactly the SET list |
| Notes.EmptyUpdateIsNoop | backend/routers/notes.py:97 | an update with no field supplied leaves the row unchanged |
| Notes.UpdateIdempotent | backend/routers/notes.py:85-100 | applying the same update twice equals applying it once |
| Notes.UpdateKeepsIdentity | backend/routers/notes.py:85-100 | id, owner, creation time and embedding never change; is_pinned is 0, 1 or what it was |
| Notes.SimilarityBounds | backend/routers/notes.py:141-146 | a related note with overlapping tags has similarity in (0, 1] |
| Notes.RelatedOf | backend/routers/notes.py:136-147 | fails only on an unparseable tags cell; every entry is the entry of one of the other notes: its id, title, parsed non-empty tags sharing a tag with the note's, updated_at, and similarity overlap / max(len, len) in (0, 1] |
| Notes.RelatedOfComplete | backend/routers/notes.py:136-147 | every other note whose tags parse, are non-empty and share a tag with the note's has its entry among the candidates |
| Notes.CollectRelated | backend/routers/notes.py:136-147 | the loop over the other notes yields exactly RelatedOf |
| Notes.RelatedSpec | backend/routers/notes.py:118-149 | 404 exactly when the note is not the caller's; at most 5 results, sorted by similarity; none is the note itself and all are the caller's; a note without tags has no related notes |
| Notes.NewRowDict | backend/routers/notes.py:59-62 | a freshly inserted note lists with its id, its tags and is_pinned false |
| Notes.NotesTable.constructor | backend/database.py:38-50 | the notes table starts empty |
| Notes.NotesTable.ListNotes | backend/routers/notes.py:36-46 | one dict per note of the caller, in list order, each with the owner's id and no content |
| Notes.NotesTable.CreateNote | backend/routers/notes.py:48-62 | appends the encrypted row with the next id, unpinned and stamped now, and returns its dict |
| Notes.NotesTable.GetNote | backend/routers/notes.py:64-73 | 404 exactly when the note is not the caller's; otherwise NoteDict of that row with decryption, so the detail dict with that id and owner, no ciphertext, and the content ContentRoundTrip fixes |
| Notes.NotesTable.UpdateNote | backend/routers/notes.py:75-104 | 404 leaves the table alone; otherwise exactly that row becomes the updated row and its detail dict is returned |
| Notes.NotesTable.DeleteNote | backend/routers/notes.py:106-116 | 404 leaves the table alone; otherwise exactly that row is removed |
| Notes.RelatedSpecSound | backend/routers/notes.py:126-149 | each related note shown is the entry of another note of the caller that shares a tag, with its similarity |
| Notes.RelatedSpecTop | backend/routers/notes.py:136-149 | a note of the caller sharing a tag is shown unless five are shown, each at least as similar; with fewer than five shown, every such note is shown |
| Notes.NotesTable.RelatedNotes | backend/routers/notes.py:118-149 | returns RelatedSpec's result |
| Notes.NotesTable.SummarizeNote | backend/routers/notes.py:151-162 | 404 exactly when the note is not the caller's; short content is summarised as it is; longer content goes to the model, and a failure there is a server error |
| Documents.Extension | backend/routers/documents.py:48 | os.path.splitext: the extension is empty or a dot followed by no other dot, and is a suffix of the file name |
| Documents.BaseName | backend/routers/documents.py:48 | the last path component, a suffix without '/' |
| Documents.ExtensionOfSuffix | backend/routers/documents.py:48 | a name made of a non-dot stem and an extension has exactly that extension |
| Documents.HiddenFileRefused | backend/routers/documents.py:46-50 | a bare dot-file such as ".pdf" has no extension and is refused |
| Documents.StoredNameExtension | backend/routers/documents.py:46-52 | the stored uuid name keeps the lower-cased extension, so it is still allowed |
| Documents.AllowedNameSuffix | backend/routers/documents.py:46-50 | a name is accepted exactly when its lower-cased extension is .pdf, .docx or .txt |
| Documents.UploadPath | backend/routers/documents.py:53 | os.path.join(UPLOAD_DIR, name), which keeps an absolute name as it is |
| Documents.DocToDict | backend/routers/documents.py:25-29 | the selected columns without embedding and extracted_text, each copied from the row |
| Documents.DetailDict | backend/routers/documents.py:83-85 | every column except embedding, including extracted_text |
| Documents.ListDictFields | backend/routers/documents.py:31-38 | a listed dict holds exactly the listed columns with the row's values |
| Documents.ListDocOrderSpec | backend/routers/documents.py:34-35 | the listing is a permutation of the caller's documents, newest first |
| Documents.Listing | backend/routers/documents.py:31-38 | one dict per listed row, in order |
| Documents.ListingOwned | backend/routers/documents.py:31-38 | every listed dict carries the caller's id and no embedding or text |
| Documents.ListingNewestFirst | backend/routers/documents.py:34-35 | listed created_at values are non-increasing |
| Documents.UploadResponse | backend/routers/documents.py:52-75 | the upload response reports the size, the /uploads URL of the uuid name, the original name, no summary and the owner |
| Documents.DocumentStore.constructor | backend/database.py:52-64 | no rows, files or pending tasks |
| Documents.DocumentStore.Find | backend/routers/documents.py:80 | finds the caller's document with that id, or reports that none exists |
| Documents.DocumentStore.ListDocuments | backend/routers/documents.py:31-38 | one dict per document of the caller, with the owner's id, no embedding or text, newest first |
| Documents.DocumentStore.UploadDocument | backend/routers/documents.py:40-75 | a disallowed type is refused with 400 and nothing changes; otherwise the file is written, the row appended, the processing task queued and the row's dict returned |
| Documents.DocumentStore.GetDocument | backend/routers/documents.py:77-85 | 404 exactly when the document is not the caller's; otherwise the detail dict with that id and owner |
| Documents.DocumentStore.DownloadDocument | backend/routers/documents.py:87-106 | 404 for a missing row; a separate 404 for a missing file; otherwise the stored path under the original name as an octet stream |
| Documents.DocumentStore.DeleteDocument | backend/routers/documents.py:108-120 | 404 changes nothing; otherwise exactly that row and its file are removed |
| Documents.DocumentStore.RescanDocument | backend/routers/documents.py:122-131 | 404 queues nothing; otherwise one processing task for that document is queued and rows and files are untouched |
| AiService.CleanExtractedText | backend/services/ai_service.py:16-52 | an empty text stays empty; the result is stripped and has no three newlines in a row; its non-blank lines are exactly the stripped input lines that survive the filters, in input order |
| AiService.CleanFromNonBlank | backend/services/ai_service.py:24-45 | the loop's non-blank lines are exactly the surviving stripped lines, in order; blank lines only separate them |
| AiService.CollectLines | backend/services/ai_service.py:24-45 | the line loop yields exactly the left-fold specification |
| AiService.CleanFromShape | backend/services/ai_service.py:24-45 | the loop keeps the cleaned shape: no leading blank line, no two blank lines in a row, and no newline inside a line; every kept line is collected |
| AiService.ShapeStep | backend/services/ai_service.py:24-45 | one loop step keeps that shape and keeps what was collected |
| AiService.CleanedLinesJoined | backend/services/ai_service.py:47-52 | joining, collapsing and stripping cleaned lines yields no triple newline, every line of the result is blank or a kept line, and every collected non-blank line is in the result |
| AiService.CleanedLinesNonBlank | backend/services/ai_service.py:47-52 | the result's non-blank lines are exactly the collected non-blank lines, in order |
| AiService.CollapseNoop | backend/services/ai_service.py:50 | the blank-run collapse changes nothing in a text without triple newlines |
| AiService.SampleLong | backend/services/ai_service.py:112-119 | three 3500-character chunks: the beginning, the middle window (after the first chunk and before the last), and the end |
| AiService.SummaryInput | backend/services/ai_service.py:99-125 | empty text gives "No content available."; short text gives its first 200 characters; up to 12000 characters the stripped text goes to the model; beyond that the three-chunk sample does |
| AiService.AfterFirstNewline | backend/services/ai_service.py:198 | the text after the first newline, or the whole text when there is none |
| AiService.LastFence | backend/services/ai_service.py:198 | rsplit's split point: the start of a "```" with no other "```" starting after it, or none when the text holds no "```" |
| AiService.FencedReplyUnwrapped | backend/services/ai_service.py:197-198 | a reply wrapped in a code fence with an info line yields its stripped body |
| AiService.ExpandSearchQuery | backend/services/ai_service.py:171-204 | the terms always contain the query and have no duplicates; a failed call or a reply that is not a JSON list gives [query]; otherwise exactly the query and the keywords |
| Dashboard.BumpSpec | backend/routers/dashboard.py:57 | counting a tag adds one to it and leaves every other count alone |
| Dashboard.AddAllSpec | backend/routers/dashboard.py:57 | counting a tag list adds its multiplicities |
| Dashboard.CountedSpec | backend/routers/dashboard.py:53-59 | counting rows adds the multiplicities of their parsed tags |
| Dashboard.CountTags | backend/routers/dashboard.py:53-59 | the Counter loop gives each tag its exact number of occurrences over the rows, with distinct keys, in first-seen order |
| Dashboard.UnparseableIgnored | backend/routers/dashboard.py:55-59 | rows whose tags fail to parse contribute nothing |
| Dashboard.TopTagsSpec | backend/routers/dashboard.py:60 | most_common(8): at most 8 entries, all of them when there are fewer, sorted by count, each with its true count |
| Dashboard.TopTagsAreTop | backend/routers/dashboard.py:60 | a tag left out counts no more than any tag shown |
| Dashboard.TopTagsComplete | backend/routers/dashboard.py:60 | a counted tag missing from most_common(8) means eight entries are listed, each counted at least as often |
| Dashboard.MostCommonOfRows | backend/routers/dashboard.py:53-60 | over the tag rows: a tag that occurs and is not listed means eight tags are listed, each occurring at least as often |
| Dashboard.WellFormedDistinct | backend/routers/dashboard.py:53-60 | a counter has distinct tags and positive counts |
| Dashboard.BuildActivity | backend/routers/dashboard.py:68-80 | eight weeks, oldest first, each slot holding that week's counts |
| Dashboard.EmptyWeekIsZero | backend/routers/dashboard.py:65-79 | a week absent from both maps shows zero notes and zero documents |
| Dashboard.ByWeek | backend/routers/dashboard.py:31-47 | the GROUP BY gives only positive counts |
| Dashboard.WeekCount | backend/routers/dashboard.py:31-47 | a week's count is positive exactly when some item after the cutoff falls in it |
| Dashboard.ByWeekCount | backend/routers/dashboard.py:65-66 | the dict lookup with default 0 gives the week's count |
| Dashboard.RecentNotesSpec | backend/routers/dashboard.py:18-21 | five notes, or all of them if fewer, by updated_at descending |
| Dashboard.RecentNotesOwned | backend/routers/dashboard.py:18-21 | each entry is the id, title and updated_at of one of the caller's notes |
| Dashboard.RecentNotesTop | backend/routers/dashboard.py:18-21 | a note of the caller that is not listed means five are listed, none updated earlier |
| Dashboard.RecentDocsSpec | backend/routers/dashboard.py:22-25 | five documents, or all of them if fewer, by created_at descending |
| Dashboard.RecentDocsOwned | backend/routers/dashboard.py:22-25 | each entry is the id, original name and created_at of one of the caller's documents |
| Dashboard.RecentDocsTop | backend/routers/dashboard.py:22-25 | a document of the caller that is not listed means five are listed, none created earlier |
| Dashboard.GetStats | backend/routers/dashboard.py:7-92 | the counts of notes, documents and summaries and the storage total are the caller's; top tags are most_common(8) of the Counter over the tagged notes, so true counts, sorted, at most 8; recent lists and eight weeks of activity come from the caller's items |
| Auth.PublicUser | backend/routers/auth.py:34-46 | the user object exposes id, name and email and never the hash |
| Auth.SessionFor | backend/routers/auth.py:33-46 | the token signs str(user id); the type is bearer; the user object is the public one |
| Auth.FindByEmail | backend/routers/auth.py:40-43 | finds a row with that email, or reports that none exists |
| Auth.Login | backend/routers/auth.py:36-46 | 401 exactly when the email is unknown or the password does not verify; otherwise the session of that user |
| Auth.LoginFailuresAlike | backend/routers/auth.py:43-44 | an unknown email and a wrong password give identical answers |
| Auth.GetMe | backend/routers/auth.py:48-50 | the public form of the resolved user, with the dependency's error otherwise |
| Auth.UsersTable.constructor | backend/database.py:29-35 | no users |
| Auth.UsersTable.Register | backend/routers/auth.py:18-34 | a taken email gives 400 and nothing changes; otherwise one row with the next id and the hash is appended, and its session is returned |
| Auth.AppendEmail | backend/routers/auth.py:22-25 | registration keeps emails unique |
| Auth.RegisterThenLogin | backend/routers/auth.py:18-46 | after registering, logging in with the same password yields the same session |
| Auth.SessionTokenResolves | backend/routers/auth.py:33-46 | an issued token resolves to its user, and /me returns the user object of the login response |
| AuthDeps.SubjectId | backend/utils/auth_deps.py:13-14 | int() of the sub claim: a string is parsed, an integer is kept, a boolean is 0 or 1; a missing claim, null or a list gives none |
| AuthDeps.FindUser | backend/utils/auth_deps.py:20-24 | finds a row with that id, or reports that none exists |
| AuthDeps.GetCurrentUser | backend/utils/auth_deps.py:9-29 | 401 exactly for an undecodable token or a bad subject; 404 exactly for a subject with no row; otherwise that user |
| AuthDeps.IssuedTokenResolves | backend/utils/auth_deps.py:20-29 | a token whose sub is str(id) of an existing user resolves to that user |
| AuthDeps.DeletedUserIsNotFound | backend/utils/auth_deps.py:26-27 | a valid token for an id with no row gives 404 |
| Api.OnRequest | frontend/src/utils/api.js:14-18 | Authorization is "Bearer " plus the stored token exactly when one is stored; otherwise the headers are unchanged |
| Api.OnResponse | frontend/src/utils/api.js:23-33 | every outcome passes through unchanged; a 401 first clears both session keys and goes to /login; nothing else is touched |
| Api.ExpiredSession | frontend/src/utils/api.js:26-30 | after a 401 the store keeps its token and user while the client is no longer authenticated and is at /login |
| Api.Route | frontend/src/utils/api.js:38-96 | each wrapper's verb and absolute path; only search sends query parameters, namely q and the three flags |
| Api.SearchDefaults | frontend/src/utils/api.js:80-88 | a search given only a query sends both kinds and no boost |
| Api.IdPathsDiffer | frontend/src/utils/api.js:49-73 | calls on different ids go to different paths |
| Api.NatToStringInjective | frontend/src/utils/api.js:49 | distinct ids give distinct path segments |
| Browser.GetOr | frontend/src/store/authStore.js:4-5 | the stored value when it is present and non-empty, otherwise the fallback |
| Browser.ClearSession | frontend/src/utils/api.js:27-28 | removes exactly the token and user keys and keeps every other entry |
| Browser.ClearSessionIdempotent | frontend/src/utils/api.js:27-28 | clearing twice equals clearing once |
| AuthStore.StoredToken | frontend/src/store/authStore.js:5 | the stored token when non-empty, else none |
| AuthStore.StoredUser | frontend/src/store/authStore.js:4 | JSON.parse of the stored user, or of "null" |
| AuthStore.Store.constructor | frontend/src/store/authStore.js:3-5 | the store starts from what storage holds |
| AuthStore.Store.SetAuth | frontend/src/store/authStore.js:7-11 | both keys are written, both fields set, and the client is authenticated for a non-empty token |
| AuthStore.Store.Logout | frontend/src/store/authStore.js:13-17 | both keys are removed, both fields cleared, and the client is no longer authenticated |
| AuthStore.ReloadAfterSetAuth | frontend/src/store/authStore.js:4-11 | a reload after setAuth restores the same token and user |
| AuthStore.ReloadAfterLogout | frontend/src/store/authStore.js:4-17 | a reload after logout finds no session |
| AuthStore.EmptyTokenNotAuthenticated | frontend/src/store/authStore.js:19 | an empty token never counts as authenticated |
| ThemeStore.SavedTheme | frontend/src/store/themeStore.js:4 | the saved theme, dark by default |
| ThemeStore.NextTheme | frontend/src/store/themeStore.js:7 | light exactly after dark, dark otherwise |
| ThemeStore.ToggleTwice | frontend/src/store/themeStore.js:7 | toggling twice returns to the start exactly for dark or light; anything else ends at light |
| ThemeStore.Store.constructor | frontend/src/store/themeStore.js:4 | the store starts from the saved theme |
| ThemeStore.Store.ToggleTheme | frontend/src/store/themeStore.js:5-11 | the theme flips, is saved, and is set on the document |
| ThemeStore.Store.InitTheme | frontend/src/store/themeStore.js:12-16 | the saved theme is applied to the document and storage is untouched |
| ThemeStore.ReloadAfterToggle | frontend/src/store/themeStore.js:4-8 | a reload after toggling restores the new theme |
| App.Protected | frontend/src/App.jsx:21-24 | the page when a token is stored, otherwise a redirect to /login |
| App.Public | frontend/src/App.jsx:26-29 | the page when no token is stored, otherwise a redirect to /dashboard |
| App.ExactlyOneGuardAdmits | frontend/src/App.jsx:21-29 | for any storage exactly one of the two guards shows its page |
| App.Resolve | frontend/src/App.jsx:38-48 | paths are compared ignoring ASCII case and trailing slashes; "/" is the protected redirect to /dashboard, "/notes" the protected notes page; unknown paths redirect to /dashboard |
| App.TrailingSlashSameRoute | frontend/src/App.jsx:38-48 | a path with one more trailing slash reaches the same route ("/notes/" is "/notes") |
| App.RouteIgnoresCase | frontend/src/App.jsx:38-48 | a path and its lower-cased form reach the same route |
| App.RedirectsSettle | frontend/src/App.jsx:21-48 | every path reaches a page within two redirects; the page is private exactly when a token is stored |
| LoginPage.ErrorToast | frontend/src/pages/LoginPage.jsx:30 | the server's detail when present and non-empty, otherwise the fallback |
| LoginPage.LoginBody | frontend/src/pages/LoginPage.jsx:25 | the trimmed non-empty email and the password as typed |
| LoginPage.ApplyOutcome | frontend/src/pages/LoginPage.jsx:26-28 | success sets both keys and fields and goes to /dashboard; a 401 clears storage and goes to /login; other failures change nothing; the theme is never touched |
| LoginPage.LoginForm.Submit | frontend/src/pages/LoginPage.jsx:20-25 | a blank field gives the fill-in toast and sends nothing; otherwise the login body is sent with loading on |
| LoginPage.LoginForm.Settle | frontend/src/pages/LoginPage.jsx:24-31 | loading ends; success stores the session in the store and in localStorage and goes to /dashboard with a welcome; a 401 keeps the store but clears storage and goes to /login; any other failure changes neither storage nor path; every failure shows the error toast; the theme is kept |
| RegisterPage.RegisterBody | frontend/src/pages/RegisterPage.jsx:26 | trimmed name and email, and the password as typed |
| RegisterPage.BlankPasswordMayRegister | frontend/src/pages/RegisterPage.jsx:23 | eight spaces pass the length check although they strip to nothing |
| RegisterPage.RegisterForm.Submit | frontend/src/pages/RegisterPage.jsx:21-26 | a password shorter than 8 gives the toast and sends nothing; otherwise the body is sent with loading on |
| RegisterPage.RegisterForm.Settle | frontend/src/pages/RegisterPage.jsx:25-32 | loading ends; success stores the session in the store and in localStorage and goes to /dashboard; a 401 keeps the store but clears storage and goes to /login; any other failure changes neither storage nor path; every failure shows the error toast; the theme is kept |
| NotesPage.ParseTags | frontend/src/pages/NotesPage.jsx:34 | every parsed tag is non-empty, trimmed and comma-free |
| NotesPage.TagsRoundTrip | frontend/src/pages/NotesPage.jsx:22-34 | joining tags with ", " and parsing them back gives the same tags |
| NotesPage.SaveBody | frontend/src/pages/NotesPage.jsx:35 | the title is trimmed, and non-empty when one was given; the content is as typed |
| NotesPage.OpenEditor | frontend/src/pages/NotesPage.jsx:20-23 | the editor opens idle; a new note opens with empty fields |
| NotesPage.FailedSaveLocksEditor | frontend/src/pages/NotesPage.jsx:31-37 | as written, a rejected save leaves loading on, so the save button stays disabled until the editor is closed |
| NotesPage.Settle | frontend/src/pages/NotesPage.jsx:31-37 | after any save the button is enabled again and the fields are kept |
| NotesPage.Editor.constructor | frontend/src/pages/NotesPage.jsx:20-23 | the editor's state is OpenEditor's |
| NotesPage.Editor.Submit | frontend/src/pages/NotesPage.jsx:31-35 | a blank title gives the toast and sends nothing; otherwise the save body is sent with loading on |
| NotesPage.Editor.Finish | frontend/src/pages/NotesPage.jsx:36 | the corrected step: loading is off after any save and the fields are kept (the as-written step is SettleAsWritten) |
| NotesPage.Request | frontend/src/pages/NotesPage.jsx:204-219 | each mutation's endpoint and body; a pin toggle sends the negated flag |
| NotesPage.Invalidates | frontend/src/pages/NotesPage.jsx:204-219 | every mutation invalidates the notes list; the dashboard stats are invalidated exactly by create and delete |
| NotesPage.SaveMutation | frontend/src/pages/NotesPage.jsx:221-224 | editing a note with an id updates it; anything else creates |
| NotesPage.PinTogglesFlag | frontend/src/pages/NotesPage.jsx:217 | a pin toggle flips the flag, and a second toggle flips it back |
| NotesPage.Page.Settle | frontend/src/pages/NotesPage.jsx:204-219 | a success appends exactly the mutation's invalidations and toasts and closes the editor for a save; a failure changes nothing |
| NotesPage.Page.Save | frontend/src/pages/NotesPage.jsx:221-224 | picks the mutation from the modal; a success invalidates its keys, shows its toast and closes the modal; a failure changes none of them; the filter is kept |
| NotesPage.SaveInvalidation | frontend/src/pages/NotesPage.jsx:204-224 | a save refreshes the dashboard stats exactly when it creates a note |
| NotesPage.Filtered | frontend/src/pages/NotesPage.jsx:226-229 | keeps exactly the notes whose title or a tag contains the filter, ignoring case |
| NotesPage.EmptyFilterKeepsAll | frontend/src/pages/NotesPage.jsx:227 | an empty filter keeps every note in order |
| NotesPage.FilterIgnoresCase | frontend/src/pages/NotesPage.jsx:226-229 | a lower-cased filter keeps the same notes |
| SearchPage.SearchRequest | frontend/src/pages/SearchPage.jsx:45 | the trimmed query, both kinds, and the current boost |
| SearchPage.ShownTerms | frontend/src/pages/SearchPage.jsx:162 | the first five expanded terms, in order |
| SearchPage.ResultLabel | frontend/src/pages/SearchPage.jsx:157 | "result" exactly for one result, "results" otherwise |
| SearchPage.Shown | frontend/src/pages/SearchPage.jsx:138-248 | the spinner while loading, otherwise the results when present (marked empty exactly when total is 0), otherwise the welcome panel |
| SearchPage.Page.constructor | frontend/src/pages/SearchPage.jsx:36-39 | empty query, no results, idle, boost off |
| SearchPage.Page.Start | frontend/src/pages/SearchPage.jsx:41-43 | a blank query sends nothing; otherwise the request is sent with loading on; the other fields are kept |
| SearchPage.Page.Finish | frontend/src/pages/SearchPage.jsx:44-49 | loading ends; success replaces the results; failure keeps them and shows the toast |
| SearchPage.Page.TryExample | frontend/src/pages/SearchPage.jsx:102-105 | the query becomes the example, which is then searched |
| SearchPage.Page.ToggleBoost | frontend/src/pages/SearchPage.jsx:120-121 | the boost flips and nothing else changes |
| SearchPage.ExamplesAreNotBlank | frontend/src/pages/SearchPage.jsx:16 | every example query is non-blank, so a chip always searches |

## Left out

- Cryptography and identity: JWT signing and decoding, bcrypt hashing and verification, and Fernet encryption are parameters of the operations that use them. Only the properties the code relies on are assumed, such as decrypting what was encrypted.
- The language model (Groq chat completions) is a parameter. `ModelReply` is either a failed call or a reply text, and JSON decoding of the reply is a parameter too.
- Text extraction from PDF and DOCX files and the background document processing are left out. An upload or rescan only records the queued task (`BgTask`).
- Clocks: `CURRENT_TIMESTAMP`, `datetime.now`, the 56-day cutoff and the `%Y-%W` week keys and labels are parameters. Timestamps are natural numbers.
- Search.ScoreMatch: does not model `round(..., 2)`; the score is the exact ratio of the weighted hits.
- Dashboard.GetStats: does not model storage in megabytes or its rounding; the model reports the byte total.
- Floating-point and `Math.round` displays on the client are left out.
- Notes.SimilarityBounds: the related-notes similarity is an exact ratio; `round(..., 2)` is not modelled.
- Documents.Extension: models `os.path.splitext` for POSIX names only.
- Documents.UploadDocument: the 400 detail lists the extensions as ".pdf, .docx, .txt"; Python's set iteration order is not modelled.
- Email validation and normalisation by Pydantic's `EmailStr` are left out; emails are compared as given.
- AuthDeps.SubjectId: Python's `int()` is modelled for optional sign, surrounding whitespace and ASCII digits; underscores and non-ASCII digits are not.
- Lower-casing, `strip` and the regex class `\w` are modelled for ASCII only. `\w` is letters, digits and underscore. `Text.IsSpace` is the whitespace that Python's `str.strip` and JavaScript's `trim` share, so Python's stripping of the ASCII separators \x1c-\x1f is not modelled.
- ILIKE is a case-insensitive substring test. The SQL escaping of `%` and `_` inside terms is left out.
- AuthStore.Store.constructor: requires the stored user to parse; the page crash `JSON.parse` causes on a corrupt entry is not modelled.
- Concurrency and request interleavings are left out. Each handler runs its two halves in order.
- React rendering, react-query caching, staleness and retries are not modelled beyond the invalidation keys and the `App.QueryRetry`/`App.QueryStaleTimeMs` constants.
- `navigate(...)` and `window.location.href = ...` both set `Window.path`; the full page reload of the latter is not distinguished.
- NotesPage.Page.Settle: the 401 teardown of the axios interceptor is not threaded through the notes page's mutations; `Api.OnResponse` states it once for every call.
- Api.Route: the round trip from path back to endpoint is proved only for the id segment (`Api.NatToStringInjective`), not for whole paths.
- Dashboard.CountTags, Search.CollectNoteHits, Notes.NoteDict and Notes.RelatedOf: a tags cell that holds valid JSON other than a list is treated as unparseable, where `json.loads` would return that value. The handlers only ever write `json.dumps` of a list, so such a cell does not arise from the application itself.
- Trailing-slash redirects between `/notes` and `/notes/` in FastAPI are left out; routes are matched exactly.
- The NoteModal effect that fetches a note's content when it opens without one (NotesPage.jsx lines 25-29) is left out.
- The database is PostgreSQL through psycopg2 (backend/database.py:1-23). backend/routers/dashboard.py and backend/routers/documents.py call `conn.execute` with `?` placeholders and SQLite's `strftime`/`date`, which that driver does not accept. The model gives every query its intended meaning.
- `list(set(...))` is modelled as `Sequences.Dedup`, which keeps first occurrences in order. Python's set order is not modelled, so the order of `expanded_terms` and which five terms `SearchPage.ShownTerms` shows may differ from the source's.
- NotesPage.Editor.Finish: models the corrected editor, which turns loading off after a failed save as well. The code as written is `NotesPage.SettleAsWritten`, and `NotesPage.FailedSaveLocksEditor` shows its consequence (see Findings).
- The forms' HTML constraint validation (`required`, `type="email"`, `minLength`) runs in the browser before `handleSubmit` and is not modelled; the handlers' own checks are.
- App.Resolve: React Router also percent-decodes the location before matching; the model matches the path as given.
- A 422 from FastAPI carries a list as its detail; `LoginPage.ErrorToast` models the detail as a string or absent.
- Notes.RelatedSpec, Notes.ListOrderSpec, Search.NoteCandidates, Search.DocCandidates, Dashboard.RecentNotesSpec, Dashboard.RecentDocsSpec and Documents.ListDocOrderSpec: where a query has no ORDER BY, or its ORDER BY keys tie, the database chooses the order (and, under LIMIT, which tied rows are kept); the model uses table order in every such case.
- Search.ScoreMatch and Notes.Similarity are exact ratios, so two consequences of `round(..., 2)` are not modelled. A note or document whose only hit is one summary token against 67 or more query tokens scores below 0.005; the source rounds that to 0.0 and drops it, while the model keeps it. Two scores that round to the same value keep their relative order in the source's stable sort, while the model may order them by their exact values.
- DocumentsPage, DashboardPage and Layout are presentation only and are not modelled.

## Findings

| source | as written | input that shows it | evidently intended | confidence | as-written member | corrected member |
|---|---|---|---|---|---|---|
| frontend/src/pages/NotesPage.jsx:31-37 | `handleSave` awaits `onSave` without try/finally, so when the mutation rejects, `setLoading(false)` never runs and the Save button (line 96) stays disabled with "Saving…" until the modal is closed | editing a note while the server answers 500 (the mutation rejects) | loading is reset whether the save succeeds or fails | not executed | NotesPage.SettleAsWritten, NotesPage.FailedSaveLocksEditor | NotesPage.Settle |
