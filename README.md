# WorldWeaver core logic in Dafny

WorldWeaver is a web application for building fictional worlds. A signed-in
user owns **worlds**. A world holds **cards** (characters, places, items …).
Cards are described by user-defined **card types**, each an ordered schema of
fields. Cards are grouped into a **folder** hierarchy. The application also
has a filterable card search, transient **toast** notifications, a sidebar
whose entries highlight according to the current path, and a typed error
layer over the hosted database.

This project models the local decision logic of the components and library
functions behind those features, and proves what they promise:

| module (file) | part of the application |
|---|---|
| `Text` (text.dfy) | the JavaScript string operations the components rely on: `trim`, `\s`, ASCII `toLowerCase`, `includes`, `startsWith`, decimal printing, `s \|\| null` |
| `Seqs` (seqs.dfy) | `Array.prototype.filter` and facts about it (order kept, idempotent, length) |
| `Entities` (entities.dfy) | folders, worlds, cards and card-type fields; the "root level" folder filter; parent chains |
| `ErrorHandling` (error_handling.dfy) | the error classes, `parseSupabaseError`, `validateField`, `validateSchema` |
| `CardService` (card_service.dfy) | the card slug, the query plan and page summary of `getCards`, and `getWorld`'s "not found" mapping |
| `FieldKeys` (field_keys.dfy) | `generateFieldKey` and the options text area of the card-type editor |
| `CardTypeEditor` (card_type_editor.dfy) | the card-type editor dialog: add, edit, remove and move fields, templates, submit and close |
| `FolderDialog` (folder_dialog.dfy) | the folder dialog: excluding a folder and its descendants from the parent choices, open-time reset, submit |
| `FolderTree` (folder_tree.dfy) | the folder sidebar: `buildFolderTree`, what is drawn of the tree, and the list updates after create, edit and delete |
| `WorldWizard` (world_wizard.dfy) | the four-step world creation wizard |
| `WorldsPage` (worlds_page.dfy) | the worlds page: search, statistics, prepend on create, delete |
| `CardForms` (card_forms.dfy) | the create-card and edit-card dialogs |
| `SearchFilterPanel` (search_filters.dfy) | the search filter panel: toggles, tag chips, clear, badge, sort order |
| `Toasts` (toasts.dfy) | the toast notification store and its helpers |
| `Navigation` (navigation.dfy) | which sidebar entries are highlighted for a path |

Pure expression chains are Dafny functions with lemmas about them. React state
that handlers update step by step is a Dafny class whose fields are the state
variables and whose methods are the handlers, each specified against the pure
functions. A remote call is modelled by its outcome only: a `bool` parameter
that says whether it succeeded, or the row or error it returned. Random ids and
colours are parameters too.

## Model

| member | source | states |
|---|---|---|
| `Text.Trim` | src/components/cards/create-card-modal.tsx:57 | `trim()` gives a string that neither starts nor ends with white space, and gives '' exactly for an all-white-space input |
| `Text.TrimIsInfix` | src/components/cards/create-card-modal.tsx:57 | the trimmed string is the infix of the input that starts where the leading white space ends |
| `Text.TrimDropsOnlySpace` | src/components/cards/create-card-modal.tsx:57 | everything before and after that infix is white space |
| `Text.TrimKeepsTrimmed` | src/components/worlds/create-world-modal.tsx:150 | trimming a string with no white space at either end changes nothing, and such a string is not blank |
| `Text.TrimmedOrNull` | src/components/cards/create-card-modal.tsx:77 | `s.trim() \|\| null` is null exactly for a white-space-only string; otherwise it is the non-empty trimmed string |
| `Text.EmptyToNull` | src/components/cards/create-card-modal.tsx:78 | `s \|\| null` is null exactly for '' and otherwise is `s` |
| `Text.StringOr` | src/components/folders/create-folder-modal.tsx:54 | `s \|\| fallback` takes the fallback for null and for '', and keeps any other string |
| `Text.Lower` | src/app/dashboard/worlds/page.tsx:68 | `toLowerCase` keeps the length and maps each character on its own, leaving no upper-case ASCII letter |
| `Text.ContainsIffOccurs` | src/app/dashboard/worlds/page.tsx:68-69 | `includes` holds exactly when the needle occurs at some offset |
| `Text.ContainsEmpty` | src/app/dashboard/worlds/page.tsx:68 | every string includes '' |
| `Text.NatToString` | src/lib/error-handling.ts:159-164 | a number printed in a template string is a non-empty run of digits without a leading zero |
| `Text.NatToStringValue` | src/lib/error-handling.ts:159-164 | the printed digits, read back as a decimal number, give the number |
| `Text.NatToStringInjective` | src/lib/error-handling.ts:159-164 | different numbers print differently |
| `Seqs.Filter` | src/components/search/search-interface.tsx:72 | `filter` keeps exactly the elements that pass, and never lengthens the list |
| `Seqs.FilterCount` | src/components/search/search-interface.tsx:72 | `filter` keeps every copy of a value that passes and no copy of one that fails |
| `Seqs.FilterCounts` | src/components/search/search-interface.tsx:72 | the same copy count, for every value of the list at once |
| `Seqs.FilterIsSubsequence` | src/components/search/search-interface.tsx:72 | `filter` keeps the order of what it keeps |
| `Seqs.FilterIdempotent` | src/contexts/toast-context.tsx:38 | filtering twice with the same test is filtering once |
| `Seqs.FilterLengthIffAllPass` | src/app/dashboard/worlds/page.tsx:157 | a filter keeps the whole list exactly when every element passes |
| `Seqs.Count` | src/components/folders/folder-sidebar.tsx:206 | the number of occurrences is 0 exactly when the value is absent |
| `Entities.RootLevelFolders` | src/components/cards/create-card-modal.tsx:165-166 | `folders.filter(f => !f.parent_id)` keeps exactly the folders without a parent (null or ''), every copy of each, in order |
| `ErrorHandling.ValidationError` | src/lib/error-handling.ts:17-22 | a validation error carries VALIDATION_ERROR and status 400 and the given message |
| `ErrorHandling.AuthenticationError` | src/lib/error-handling.ts:24-29 | an authentication error carries AUTH_ERROR and status 401 |
| `ErrorHandling.AuthorizationError` | src/lib/error-handling.ts:31-36 | an authorisation error carries AUTHORIZATION_ERROR and status 403 |
| `ErrorHandling.NotFoundError` | src/lib/error-handling.ts:38-43 | a not-found error carries NOT_FOUND, status 404 and the message "<resource> not found" |
| `ErrorHandling.ConflictError` | src/lib/error-handling.ts:45-50 | a conflict error carries CONFLICT and status 409 |
| `ErrorHandling.RateLimitError` | src/lib/error-handling.ts:52-57 | a rate-limit error carries RATE_LIMIT and status 429 |
| `ErrorHandling.StatusIdentifiesClass` | src/lib/error-handling.ts:17-57 | no two subclasses share a status or a code |
| `ErrorHandling.ParseSupabaseError` | src/lib/error-handling.ts:60-101 | a missing error gives 'Unknown error occurred'; each known code gives its class and its fixed message (23505 conflict 'A record with this information already exists', 23503 validation 'Referenced record does not exist', 23502 validation 'Required field is missing', PGRST116 not found 'Resource not found', 42501 forbidden 'Access denied'); without a code, 'Invalid login credentials' gives 'Invalid email or password', 'Email not confirmed' gives 'Please confirm your email address', 'User not found' keeps its text, a `fetch` message gives the network message, and anything else keeps its message or 'An unexpected error occurred'; an unknown code is kept with the message or 'Database error'; a rate-limit error is never produced |
| `ErrorHandling.CodeDecides` | src/lib/error-handling.ts:64-79 | when a known code is present the code alone decides the result, whatever the message |
| `ErrorHandling.AuthBeforeNetwork` | src/lib/error-handling.ts:82-100 | without a code, a sign-in failure message wins over a message that mentions `fetch` |
| `ErrorHandling.FetchIsNetworkError` | src/lib/error-handling.ts:95-97 | without a code or a sign-in fragment, a message mentioning `fetch` becomes the network error |
| `ErrorHandling.ValidateField` | src/lib/error-handling.ts:152-176 | a failed `required` gives 'This field is required'; otherwise a non-empty string shorter than minLength gives 'Must be at least N characters', else one longer than maxLength gives 'Must be no more than N characters', else one failing the pattern gives 'Invalid format'; otherwise the custom rule's answer, or null |
| `ErrorHandling.RequiredWins` | src/lib/error-handling.ts:153-155 | a failed `required` hides every other rule |
| `ErrorHandling.FalsyIsMissing` | src/lib/error-handling.ts:153-155 | 0, false and a blank string all fail `required` |
| `ErrorHandling.MinLengthBeforeMaxAndPattern` | src/lib/error-handling.ts:157-169 | a too-short value is reported as too short whatever the later rules say |
| `ErrorHandling.ZeroBoundIsAbsent` | src/lib/error-handling.ts:158-164 | a length bound of 0 behaves exactly like a missing bound |
| `ErrorHandling.FieldError` | src/lib/error-handling.ts:182-185 | a field is reported with `validateField`'s message when that message is non-empty, and not at all otherwise |
| `ErrorHandling.ValidateSchema` | src/lib/error-handling.ts:178-189 | the errors record has an entry for exactly the failing schema fields, each holding that field's message |
| `ErrorHandling.OnlySchemaFieldsReported` | src/lib/error-handling.ts:178-189 | a data key that is not a schema field is never reported |
| `CardService.CollapseRuns` | src/lib/supabase/service.ts:391 | every maximal run outside [a-z0-9] becomes one dash: the output uses [a-z0-9-] only, has no "--", and starts with a dash exactly when the input starts outside [a-z0-9] |
| `CardService.Slug` | src/lib/supabase/service.ts:389-392 | the slug uses only [a-z0-9-], has no "--" and neither starts nor ends with '-' |
| `CardService.SlugOfCleanSlug` | src/lib/supabase/service.ts:389-392 | a string already in slug form is its own slug |
| `CardService.SlugIdempotent` | src/lib/supabase/service.ts:389-392 | slugging a slug changes nothing |
| `CardService.SymbolOnlySlug` | src/lib/supabase/service.ts:389-392 | a name with no letter or digit gets the empty slug |
| `CardService.SlugKeepsLettersAndDigits` | src/lib/supabase/service.ts:389-392 | the non-dash characters of the slug are exactly the [a-z0-9] characters of the lower-cased name, in order |
| `CardService.CollapseKeepsSlugChars` | src/lib/supabase/service.ts:391 | collapsing runs keeps exactly the [a-z0-9] characters, in order |
| `CardService.MaximalRunBecomesOneDash` | src/lib/supabase/service.ts:391 | a maximal run of characters outside [a-z0-9] between two parts becomes exactly one '-', and the parts are collapsed on their own |
| `CardService.StripEdgeKeepsSlugChars` | src/lib/supabase/service.ts:392 | removing a leading and a trailing dash keeps every [a-z0-9] character, in order |
| `CardService.NumberOr` | src/lib/supabase/service.ts:343-344 | `n \|\| fallback` takes the fallback for a missing number and for 0 |
| `CardService.PlanQuery` | src/lib/supabase/service.ts:325-348 | filters only for non-empty id lists and a non-empty query; updated_at descending by default and ascending exactly for 'asc'; page 1 and limit 20 by default; the inclusive range starts at (page-1)·limit and covers exactly `limit` rows |
| `CardService.DefaultPlan` | src/lib/supabase/service.ts:338-348 | without parameters the listing asks for rows 0 to 19, most recently updated first, unfiltered |
| `CardService.PagesTile` | src/lib/supabase/service.ts:345-348 | page n+1 starts right after page n ends |
| `CardService.Summarize` | src/lib/supabase/service.ts:354-359 | `total` is the count or 0, and `has_more` holds exactly when the total exceeds page·limit |
| `CardService.HasMoreIffNextPageStarts` | src/lib/supabase/service.ts:345-359 | there are more rows exactly when the next page's first row exists |
| `CardService.GetWorld` | src/lib/supabase/service.ts:95-101 | PGRST116 or a 'No rows' message becomes "no world"; any other error is rethrown unchanged; a row is returned as is |
| `CardService.AbsentAgreesWithParser` | src/lib/supabase/service.ts:97-99 | the code `getWorld` reads as "no world" is the one the error parser classifies as not found |
| `FieldKeys.StripDisallowed` | src/components/card-types/create-card-type-modal.tsx:241 | only lower-case letters, digits and white space survive |
| `FieldKeys.UnderscoreSpacesChars` | src/components/card-types/create-card-type-modal.tsx:242 | every character of the result is '_' or a character of the input that is not white space |
| `FieldKeys.UnderscoreSpacesNoDouble` | src/components/card-types/create-card-type-modal.tsx:242 | on an input without '_', as the stripped label is, the result never holds "__" |
| `FieldKeys.UnderscoreSpacesKeepsWords` | src/components/card-types/create-card-type-modal.tsx:242 | dropping the underscores from the result gives exactly the non-white-space characters of the input, in order |
| `FieldKeys.MaximalRunBecomesOneUnderscore` | src/components/card-types/create-card-type-modal.tsx:242 | a maximal white-space run between two parts is replaced by exactly one '_', and the parts are replaced on their own |
| `FieldKeys.Take50` | src/components/card-types/create-card-type-modal.tsx:243 | `substring(0, 50)` is a prefix of at most 50 characters, the whole string when it is short enough |
| `FieldKeys.GenerateFieldKey` | src/components/card-types/create-card-type-modal.tsx:238-244 | a key has at most 50 characters, all in [a-z0-9_], with no "__"; it is the first 50 characters of the lower-cased, stripped, underscored label, or all of it when shorter |
| `FieldKeys.FullNameExample` | src/components/card-types/create-card-type-modal.tsx:238-244 | the label "Full Name!" gets the key "full_name" |
| `FieldKeys.KeyOfTwoWords` | src/components/card-types/create-card-type-modal.tsx:238-244 | two words of [a-z0-9] separated by a white-space run, 50 characters or fewer once joined, get the key `first_second` |
| `FieldKeys.LetterFirstGivesValidKey` | src/components/card-types/create-card-type-modal.tsx:488 | a label starting with a letter gets a key that matches `^[a-z][a-z0-9_]*$` |
| `FieldKeys.MayBreakKeyPattern` | src/components/card-types/create-card-type-modal.tsx:488 | a label starting with a digit or white space gets a key that fails that pattern |
| `FieldKeys.KeyFirstChar` | src/components/card-types/create-card-type-modal.tsx:238-244 | a label whose lower-cased first character is a letter, a digit or white space gets a key starting with that character, white space becoming '_' |
| `FieldKeys.SymbolOnlyLabel` | src/components/card-types/create-card-type-modal.tsx:238-244 | a label of symbols only gets the empty key |
| `FieldKeys.NotIdempotent` | src/components/card-types/create-card-type-modal.tsx:241 | a key with an underscore is not its own key, because underscores are stripped |
| `FieldKeys.Split` | src/components/card-types/create-card-type-modal.tsx:537 | `split` gives at least one line and no line holds the separator |
| `FieldKeys.JoinSplit` | src/components/card-types/create-card-type-modal.tsx:535-537 | splitting the text and joining it again gives the text back |
| `FieldKeys.SplitJoin` | src/components/card-types/create-card-type-modal.tsx:535-537 | joining separator-free lines and splitting again gives the lines back |
| `FieldKeys.ParseOptions` | src/components/card-types/create-card-type-modal.tsx:536-538 | the options are exactly the non-blank lines of the text, each as many times as it occurs |
| `FieldKeys.ParseKeepsOrder` | src/components/card-types/create-card-type-modal.tsx:536-538 | the options keep the order of the lines |
| `FieldKeys.OptionsRoundTrip` | src/components/card-types/create-card-type-modal.tsx:535-538 | showing non-blank single-line options in the text area and parsing it gives the same options |
| `CardTypeEditor.MergeNothing` | src/components/card-types/create-card-type-modal.tsx:213 | an update that supplies nothing changes nothing |
| `CardTypeEditor.MergeIdempotent` | src/components/card-types/create-card-type-modal.tsx:213 | applying the same update twice is applying it once |
| `CardTypeEditor.MergeKeyOnly` | src/components/card-types/create-card-type-modal.tsx:213 | an update of the key alone changes only the key |
| `CardTypeEditor.UpdatedAt` | src/components/card-types/create-card-type-modal.tsx:211-215 | only entry i changes, by the update; the length and every other entry are kept; an index out of range changes nothing |
| `CardTypeEditor.UpdatesCommute` | src/components/card-types/create-card-type-modal.tsx:211-215 | updates of two different entries commute |
| `CardTypeEditor.RemovedAt` | src/components/card-types/create-card-type-modal.tsx:220 | exactly entry i is dropped and the rest keep their order; an index out of range changes nothing |
| `CardTypeEditor.Moved` | src/components/card-types/create-card-type-modal.tsx:225-236 | a move swaps entry i with its neighbour when that neighbour exists and changes nothing otherwise; length and multiset are kept |
| `CardTypeEditor.UpThenDownRestores` | src/components/card-types/create-card-type-modal.tsx:225-236 | moving an entry up and back down restores the list |
| `CardTypeEditor.DownThenUpRestores` | src/components/card-types/create-card-type-modal.tsx:225-236 | moving an entry down and back up restores the list |
| `CardTypeEditor.LabelEditKeepsKey` | src/components/card-types/create-card-type-modal.tsx:471-476 | typing a label sets the label; it derives the key only when the key is empty and otherwise leaves the key alone |
| `CardTypeEditor.KeyStableUnderLabelEdits` | src/components/card-types/create-card-type-modal.tsx:471-476 | once the first label edit has set a key, later label edits never change it |
| `CardTypeEditor.CardTypeForm.constructor` | src/components/card-types/create-card-type-modal.tsx:80-99 | a new editor holds the edited type's values, or '' / '' / the source's four-character icon literal U+00F0 U+0178 U+201C U+201E / a fresh colour / the single required `name` field |
| `CardTypeEditor.CardTypeForm.AddField` | src/components/card-types/create-card-type-modal.tsx:201-209 | exactly one blank text field is appended, the existing entries and all other state are unchanged |
| `CardTypeEditor.CardTypeForm.UpdateField` | src/components/card-types/create-card-type-modal.tsx:211-215 | the list becomes `UpdatedAt` of the old list; nothing else changes |
| `CardTypeEditor.CardTypeForm.EditLabel` | src/components/card-types/create-card-type-modal.tsx:471-476 | the entry's label is the typed text and a key already there is kept |
| `CardTypeEditor.CardTypeForm.EditOptions` | src/components/card-types/create-card-type-modal.tsx:536-538 | the entry's options become the non-blank lines of the text |
| `CardTypeEditor.CardTypeForm.RemoveField` | src/components/card-types/create-card-type-modal.tsx:217-223 | with one field or none it reports 'At least one field is required' and keeps the list; otherwise it drops entry i; a non-empty list stays non-empty |
| `CardTypeEditor.CardTypeForm.MoveField` | src/components/card-types/create-card-type-modal.tsx:225-236 | the list becomes `Moved` of the old list; the swap happens in a copy |
| `CardTypeEditor.CardTypeForm.ApplyTemplate` | src/components/card-types/create-card-type-modal.tsx:125-133 | the template's name, description (or ''), icon, colour and schema are copied and the template list is hidden |
| `CardTypeEditor.CardTypeForm.StartFromScratch` | src/components/card-types/create-card-type-modal.tsx:135-139 | the template choice is cleared and every typed value is kept |
| `CardTypeEditor.CardTypeForm.HandleClose` | src/components/card-types/create-card-type-modal.tsx:184-199 | the dialog closes and resets exactly when no request is running; otherwise nothing changes |
| `CardTypeEditor.CardTypeForm.ResetForm` | src/components/card-types/create-card-type-modal.tsx:186-196 | the values go back to '' / '' / the source's four-character icon literal U+00F0 U+0178 U+201C U+201E / a fresh colour / the single required `name` field |
| `CardTypeEditor.CardTypeForm.Submission` | src/components/card-types/create-card-type-modal.tsx:141-165 | nothing without a user; a blank name, then an empty field list, are refused with their messages; otherwise a create (new type) or an update (edited type) with the trimmed name, description trimmed or null, and the fields verbatim |
| `CardTypeEditor.CardTypeForm.Submit` | src/components/card-types/create-card-type-modal.tsx:141-182 | the browser's constraint check comes first: an empty name, an empty label, a key outside `^[a-z][a-z0-9_]*$` or a text field's Max Length outside 1-10000 blocks the submit and changes nothing; otherwise the request sent is `Submission`'s; the form resets after a successful save and is otherwise kept; the loading flag is cleared at the end |
| `CardTypeEditor.NameRefusedOnlyWhenWhiteSpace` | src/components/card-types/create-card-type-modal.tsx:141-148 | once the `required` name input (line 363) has let the submit through, the 'Card type name is required' refusal happens exactly for a signed-in user with a non-empty, all-white-space name |
| `CardTypeEditor.SentSchemaIsValid` | src/components/card-types/create-card-type-modal.tsx:471-491 | a schema that is sent has a filled label and a key matching `^[a-z][a-z0-9_]*$` in every row |
| `CardTypeEditor.DerivedKeyBlocksSave` | src/components/card-types/create-card-type-modal.tsx:471-491 | a key derived from a label that starts with a digit or white space fails the key input's pattern, so the form cannot be saved until the key is edited |
| `FolderDialog.DescendantThroughChild` | src/components/folders/create-folder-modal.tsx:111-118 | a chain below a child of p lies below p |
| `FolderDialog.ClosedHoldsDescendants` | src/components/folders/create-folder-modal.tsx:108-120 | a set closed under "child of a member" that holds the excluded folder holds all its descendants |
| `FolderDialog.FindDescendants` | src/components/folders/create-folder-modal.tsx:111-118 | the walk only adds ids of listed folders, adds every child of the folder and of everything it adds, and adds only folders below it; it ends even on parent cycles |
| `FolderDialog.BuildParentOptions` | src/components/folders/create-folder-modal.tsx:105-123 | without an id to exclude the list is returned as is; otherwise exactly the folders that are neither that folder nor below it are kept, every copy of each, in order |
| `FolderDialog.ChildNotOffered` | src/components/folders/create-folder-modal.tsx:108-120 | a folder's own child is below it, so it is never offered as its parent |
| `FolderDialog.ParentChoices` | src/components/folders/create-folder-modal.tsx:190-203 | the parent selector is absent for an empty list and otherwise offers exactly the root-level folders, in order |
| `FolderDialog.FailureMessage` | src/components/folders/create-folder-modal.tsx:97 | the failure toast says update or create according to the mode |
| `FolderDialog.FolderForm.Open` | src/components/folders/create-folder-modal.tsx:50-63 | opening on a folder copies its name and parent and defaults description to '' and colour to 'blue'; opening for a new folder resets to '', '', 'blue', no parent |
| `FolderDialog.FolderForm.constructor` | src/components/folders/create-folder-modal.tsx:42-45 | the dialog starts with '' / '' / 'blue' and no parent |
| `FolderDialog.FolderForm.Submission` | src/components/folders/create-folder-modal.tsx:66-93 | a blank name is refused; otherwise an update or a create with the trimmed name, description trimmed or null, colour and parent; a new folder is sent with position 0 |
| `FolderDialog.ReopenedFolderResubmits` | src/components/folders/create-folder-modal.tsx:50-93 | opening on a folder in trimmed form and saving unchanged sends that folder's own values back |
| `FolderTree.SortPermutes` | src/components/folders/folder-sidebar.tsx:196 | the sibling sort keeps exactly the same folders, with multiplicity |
| `FolderTree.SortSorted` | src/components/folders/folder-sidebar.tsx:196 | siblings come out in non-decreasing position |
| `FolderTree.SortStable` | src/components/folders/folder-sidebar.tsx:196 | folders with equal positions keep their input order |
| `FolderTree.SortByPosition` | src/components/folders/folder-sidebar.tsx:196 | the sort keeps the number of folders |
| `FolderTree.ForestLevel` | src/components/folders/folder-sidebar.tsx:193-200 | each level holds exactly the folders whose parent is the level's parent, in position order, and each node's children are the level built for its id |
| `FolderTree.TopLevelIsRoots` | src/components/folders/folder-sidebar.tsx:193-196 | the top level of the tree is exactly the folders whose parent is null, in position order |
| `FolderTree.RootChainBounded` | src/components/folders/folder-sidebar.tsx:193-201 | with distinct ids, a path down from the top never visits a folder twice, so it is no longer than the list |
| `FolderTree.MoreFuelSameTree` | src/components/folders/folder-sidebar.tsx:193-201 | with distinct ids, the depth bound of the model never cuts the tree: more depth builds the same tree |
| `FolderTree.ChainTo` | src/components/folders/folder-sidebar.tsx:197-200 | every folder in the tree is reached from the top by a chain of parent links |
| `FolderTree.DanglingNeverShown` | src/components/folders/folder-sidebar.tsx:193-201 | a folder whose parent id names no listed folder never appears in the tree |
| `FolderTree.CycleNeverShown` | src/components/folders/folder-sidebar.tsx:193-201 | with distinct ids, a folder on a parent cycle never appears in the tree |
| `FolderTree.DrawnChildren` | src/components/folders/folder-sidebar.tsx:240-242 | each drawn node is given the top-level folders whose parent is that node |
| `FolderTree.OnlyRootsDrawn` | src/components/folders/folder-sidebar.tsx:240-242 | those children are always empty, so the sidebar draws exactly the top level |
| `FolderTree.NestedNeverDrawn` | src/components/folders/folder-sidebar.tsx:141 | a folder that has a parent is never drawn |
| `FolderTree.WithoutFolder` | src/components/folders/folder-sidebar.tsx:225 | every entry with the deleted id goes, every copy of the others stays, in order |
| `FolderTree.AppendDuplicates` | src/components/folders/folder-sidebar.tsx:205-206 | appending a saved folder whose id is already listed leaves that id listed twice |
| `FolderTree.DeletedFolderGone` | src/components/folders/folder-sidebar.tsx:225 | after the delete the folder appears nowhere in the tree |
| `FolderTree.FolderSidebar.FolderCreated` | src/components/folders/folder-sidebar.tsx:205-211 | the saved folder is appended (even after an edit); the dialog closes; the toast says updated or created |
| `FolderTree.FolderSidebar.constructor` | src/components/folders/folder-sidebar.tsx:161-164 | the sidebar starts with the loaded folders, nothing being edited and the dialog closed |
| `FolderTree.FolderSidebar.FolderEdit` | src/components/folders/folder-sidebar.tsx:213-216 | the folder becomes the edited one and the dialog opens |
| `FolderTree.FolderSidebar.CloseModal` | src/components/folders/folder-sidebar.tsx:321-324 | the dialog closes and the edited folder is cleared |
| `FolderTree.FolderSidebar.FolderDelete` | src/components/folders/folder-sidebar.tsx:218-237 | without confirmation nothing happens; after a successful delete every entry with that id goes and the selection is cleared exactly when it was that folder; after a failure the list is kept and the failure is reported |
| `FolderTree.FolderSidebar.DialogParents` | src/components/folders/folder-sidebar.tsx:328 | the dialog's parent list is the folder list without the folder being edited, every copy of the others kept, in order |
| `WorldWizard.Next` | src/components/worlds/create-world-modal.tsx:382-393 | Next moves one step forward and stays on the last step |
| `WorldWizard.Prev` | src/components/worlds/create-world-modal.tsx:395-406 | Back moves one step back and stays on the first step |
| `WorldWizard.BackUndoesNext` | src/components/worlds/create-world-modal.tsx:382-406 | Back undoes Next except on the last step, and Next undoes Back except on the first |
| `WorldWizard.ThreeStepsToTheEnd` | src/components/worlds/create-world-modal.tsx:382-393 | three presses of Next lead from the welcome page to the visibility step |
| `WorldWizard.CompletedAreThoseBefore` | src/components/worlds/create-world-modal.tsx:431-444 | the progress indicator draws as completed exactly the steps listed before the current one, and never the current one |
| `WorldWizard.NextCompletesStep` | src/components/worlds/create-world-modal.tsx:431-444 | after Next the step just left is drawn as completed, except on the last step |
| `WorldWizard.TemplateTitlesAreNotBlank` | src/components/worlds/create-world-modal.tsx:39-120 | every built-in template's example title lets the details step go on |
| `WorldWizard.DetailsGateAgreesWithSubmit` | src/components/worlds/create-world-modal.tsx:408-420 | for a signed-in user, the details step lets the wizard go on exactly when the final submit would send a request |
| `WorldWizard.WorldRequest` | src/components/worlds/create-world-modal.tsx:143-154 | nothing without a user or with a blank title; otherwise the trimmed title, summary trimmed or null, genre '' as null, and the chosen visibility |
| `WorldWizard.Wizard.constructor` | src/components/worlds/create-world-modal.tsx:123-129 | a new wizard is on the welcome step with nothing chosen and private visibility |
| `WorldWizard.Wizard.ResetForm` | src/components/worlds/create-world-modal.tsx:171-178 | back to welcome, no template, '' / '' / '' and private |
| `WorldWizard.Wizard.HandleClose` | src/components/worlds/create-world-modal.tsx:180-185 | the wizard resets and closes exactly when no request is running |
| `WorldWizard.Wizard.SelectTemplate` | src/components/worlds/create-world-modal.tsx:135-141 | the template's title, summary and genre (or '') are filled in and the wizard jumps to the details step |
| `WorldWizard.Wizard.PressBack` | src/components/worlds/create-world-modal.tsx:455-467 | disabled while loading; on welcome it closes and resets; elsewhere it moves to the previous step |
| `WorldWizard.Wizard.PressNext` | src/components/worlds/create-world-modal.tsx:469-480 | disabled while loading or while the step cannot proceed; moves to the next step, or on the last step sends `WorldRequest` and resets after a successful create; with no signed-in user (or a blank title) the last step sends nothing and changes nothing |
| `WorldsPage.FilteredWorlds` | src/app/dashboard/worlds/page.tsx:67-70 | exactly the worlds whose title or summary contains the query, ignoring ASCII case, every copy of each, in order |
| `WorldsPage.EmptyQueryKeepsAll` | src/app/dashboard/worlds/page.tsx:67-70 | an empty search keeps every world |
| `WorldsPage.SearchIgnoresCase` | src/app/dashboard/worlds/page.tsx:67-70 | a query and its lower-cased form select the same worlds |
| `WorldsPage.PublicCount` | src/app/dashboard/worlds/page.tsx:100-105 | the public count is at most the total, and equal to it exactly when every world is public |
| `WorldsPage.TotalCards` | src/app/dashboard/worlds/page.tsx:111 | the card total is 0 when no world reports a count |
| `WorldsPage.TotalCardsConcat` | src/app/dashboard/worlds/page.tsx:111 | the card total of two lists joined is the sum of their totals |
| `WorldsPage.MissingCountAddsNothing` | src/app/dashboard/worlds/page.tsx:111 | a world without a card count adds nothing to the total, first or last |
| `WorldsPage.ClearSearchIffSomeHidden` | src/app/dashboard/worlds/page.tsx:157 | the toolbar's 'Clear search' is shown exactly when there is a query and some world fails it |
| `WorldsPage.EmptyResultsClearSearch` | src/app/dashboard/worlds/page.tsx:170-185 | the empty-results 'Clear search' appears exactly when there is a query and no world matches it; with some world listed, the toolbar button appears too |
| `WorldsPage.WithoutWorld` | src/app/dashboard/worlds/page.tsx:58 | every entry with the deleted id goes and every copy of the others stays, in order |
| `WorldsPage.CreatedWorldCounts` | src/app/dashboard/worlds/page.tsx:46 | a prepended world adds its card count and, if public, one public world to the statistics |
| `WorldsPage.WorldList.WorldCreated` | src/app/dashboard/worlds/page.tsx:45-48 | the new world is put first |
| `WorldsPage.WorldList.DeleteWorld` | src/app/dashboard/worlds/page.tsx:51-64 | the list shrinks by that id only after a confirmed, successful delete; cancelling or a failure keeps it |
| `WorldsPage.WorldList.constructor` | src/app/dashboard/worlds/page.tsx:17 | the page starts with the loaded worlds |
| `CardForms.CheckFields` | src/components/cards/create-card-modal.tsx:57-65 | a blank name gives 'Card name is required' before the type is looked at; then an empty type gives 'Please select a card type' |
| `CardForms.DisabledIffRefusedOrBusy` | src/components/cards/create-card-modal.tsx:236 | the submit button is disabled exactly when a submit would be refused or a request is running |
| `CardForms.CreateSubmission` | src/components/cards/create-card-modal.tsx:54-80 | blocked by the browser exactly when the cover is a non-empty value the URL check rejects; otherwise refused with the check's message, or a create with the trimmed name, summary trimmed or null, cover '' as null, and position 0 |
| `CardForms.EditSubmission` | src/components/cards/edit-card-modal.tsx:56-80 | nothing without a card; blocked by the browser exactly when the cover is a non-empty value the URL check rejects; otherwise refused with the check's message; or an update with the trimmed name, summary trimmed or null, cover '' as null, type and folder |
| `CardForms.CreateAndEditAgree` | src/components/cards/edit-card-modal.tsx:61-69 | both dialogs block the same inputs and refuse the same inputs with the same message |
| `CardForms.CreateFailureMessage` | src/components/cards/create-card-modal.tsx:89-96 | the failure text appends the thrown message for an Error, an object with a message or a string, and is the bare 'Failed to create card' otherwise |
| `CardForms.UnchangedEditRoundTrip` | src/components/cards/edit-card-modal.tsx:41-80 | opening a card in trimmed form, with a cover the URL check accepts, and saving unchanged sends that card's own values back |
| `CardForms.CoverRoundTrip` | src/components/cards/edit-card-modal.tsx:46 | a cover URL loaded as `url \|\| ''` and sent as `url \|\| null` comes back unchanged |
| `CardForms.OptionalTextRoundTrip` | src/components/cards/edit-card-modal.tsx:43 | a trimmed summary loaded and sent back is unchanged |
| `CardForms.CoverRejected` | src/components/cards/create-card-modal.tsx:196-204 | the `type="url"` input stops the submit exactly for a non-empty value that is not a URL |
| `CardForms.ClearedCoverSentAsNull` | src/components/cards/create-card-modal.tsx:205-212 | after the preview clears a cover that failed to load, neither dialog is blocked by the cover and a sent card has a null cover |
| `CardForms.CreateCardForm.CoverLoadFailed` | src/components/cards/create-card-modal.tsx:211 | the preview's error handler empties the cover and changes nothing else |
| `CardForms.EditCardForm.CoverLoadFailed` | src/components/cards/edit-card-modal.tsx:198 | the preview's error handler empties the cover and changes nothing else |
| `CardForms.CreateCardForm.Open` | src/components/cards/create-card-modal.tsx:43-52 | opening clears the texts, picks the first card type or '', and takes the selected folder or null |
| `CardForms.CreateCardForm.constructor` | src/components/cards/create-card-modal.tsx:33-36 | the dialog starts blank, with the selected folder, or none for a missing or '' id |
| `CardForms.EditCardForm.constructor` | src/components/cards/edit-card-modal.tsx:31-35 | the dialog starts with every field blank |
| `CardForms.EditCardForm.Sync` | src/components/cards/edit-card-modal.tsx:40-53 | opening with a card loads its values, null text as ''; closing clears every field; open with no card keeps the fields |
| `SearchFilterPanel.UpdateFilters` | src/components/search/search-interface.tsx:61-63 | only the supplied fields change |
| `SearchFilterPanel.EmptyUpdateIsIdentity` | src/components/search/search-interface.tsx:61-63 | an update that supplies nothing changes nothing |
| `SearchFilterPanel.Toggle` | src/components/search/search-interface.tsx:69-83 | the toggled id's membership flips and every other id's is unchanged; an absent id is appended at the end; a present one is removed wherever it occurs, every copy of the rest kept, in order |
| `SearchFilterPanel.ToggleTwiceRestores` | src/components/search/search-interface.tsx:69-75 | toggling an absent id twice restores the selection |
| `SearchFilterPanel.ToggleCardType` | src/components/search/search-interface.tsx:69-75 | the card-type toggle changes only the card-type list |
| `SearchFilterPanel.ToggleFolder` | src/components/search/search-interface.tsx:77-83 | the folder toggle changes only the folder list |
| `SearchFilterPanel.RemoveTag` | src/components/search/search-interface.tsx:194-196 | every tag equal to the chip goes, every copy of the others stays, in order, nothing else changes |
| `SearchFilterPanel.FlipSortOrder` | src/components/search/search-interface.tsx:278-280 | the sort order changes and nothing else does |
| `SearchFilterPanel.FlipTwiceRestores` | src/components/search/search-interface.tsx:278-280 | two presses restore the original order |
| `SearchFilterPanel.ClearAllFilters` | src/components/search/search-interface.tsx:85-94 | the cleared filters have no date range, sort by updated_at descending and count as inactive |
| `SearchFilterPanel.NotActiveIffCleared` | src/components/search/search-interface.tsx:85-103 | filters are inactive exactly when they equal the cleared filters |
| `SearchFilterPanel.AdvancedIffBadgeOrSort` | src/components/search/search-interface.tsx:96-134 | advanced filters are set exactly when the badge counts something or the sort differs from updated_at descending |
| `SearchFilterPanel.BadgeCount` | src/components/search/search-interface.tsx:129-134 | the badge is 0 exactly when no type, folder, tag or date range is chosen |
| `SearchFilterPanel.BadgeZeroWhileActive` | src/components/search/search-interface.tsx:129-134 | the badge reads 0 while a query or an ascending sort keeps the filters active |
| `SearchFilterPanel.ToggleMovesBadgeByOne` | src/components/search/search-interface.tsx:69-75 | toggling one card type moves the badge by exactly one, and back |
| `Toasts.StoredDuration` | src/contexts/toast-context.tsx:20 | a missing or zero duration becomes 5000, so 0 is never stored |
| `Toasts.MakeToast` | src/contexts/toast-context.tsx:20-25 | the stored toast is the request with the new id and the stored duration |
| `Toasts.ExpiresUnlessNegative` | src/contexts/toast-context.tsx:20-30 | a stored toast gets a removal timer exactly when its requested duration is missing or not negative |
| `Toasts.WithoutId` | src/contexts/toast-context.tsx:38 | every toast with the id goes, every copy of the others stays, in order |
| `Toasts.RemoveAbsentIsNoOp` | src/contexts/toast-context.tsx:37-39 | removing an id that is not there changes nothing |
| `Toasts.RemoveTwiceIsRemoveOnce` | src/contexts/toast-context.tsx:37-39 | removing twice is removing once |
| `Toasts.AddThenRemoveRestores` | src/contexts/toast-context.tsx:27-38 | adding a toast with a fresh id and removing that id gives back the list before |
| `Toasts.ToastStore.AddToast` | src/contexts/toast-context.tsx:18-34 | exactly one toast is appended at the end; a removal is scheduled exactly for a positive duration |
| `Toasts.ToastStore.RemoveToast` | src/contexts/toast-context.tsx:37-39 | the list becomes the old list without that id |
| `Toasts.ToastStore.ClearToasts` | src/contexts/toast-context.tsx:41-43 | the list is emptied |
| `Toasts.ToastStore.constructor` | src/contexts/toast-context.tsx:15 | the store starts with no toasts |
| `Toasts.SuccessToast` | src/contexts/toast-context.tsx:64-66 | a success toast with the default duration |
| `Toasts.ErrorToast` | src/contexts/toast-context.tsx:68-70 | an error toast with 7000 ms |
| `Toasts.WarningToast` | src/contexts/toast-context.tsx:72-74 | a warning toast with the default duration |
| `Toasts.InfoToast` | src/contexts/toast-context.tsx:76-78 | an info toast with the default duration |
| `Navigation.IsActiveIffBelow` | src/components/layout/app-sidebar.tsx:38-40 | an entry is active exactly when the path is its own path or its path followed by '/' and more |
| `Navigation.SiblingNotActive` | src/components/layout/app-sidebar.tsx:38-40 | '/dashboard/worldsX' does not activate '/dashboard/worlds' |
| `Navigation.ActiveAgreesWithPath` | src/components/layout/app-sidebar.tsx:38-40 | an active path agrees with the entry's path on every position of it |
| `Navigation.MainNavItems` | src/components/layout/app-sidebar.tsx:42-55 | Dashboard is active only on exactly '/dashboard'; Worlds is active below '/dashboard/worlds' only when no world is open |
| `Navigation.WorldNavItems` | src/components/layout/app-sidebar.tsx:57-76 | world entries exist exactly when a world is open; Overview matches exactly, Cards and Card Types by prefix |
| `Navigation.BottomNavItems` | src/components/layout/app-sidebar.tsx:78-90 | Profile and Settings match by prefix |
| `Navigation.CardsAndCardTypesExclusive` | src/components/layout/app-sidebar.tsx:64-75 | Cards and Card Types are never highlighted together |
| `Navigation.WorldsDimInsideWorld` | src/components/layout/app-sidebar.tsx:53 | inside a world the Worlds entry is never highlighted |

## Left out

- Remote calls (queries, inserts, updates, deletes, sign-in) are not modelled; a handler that branches on one takes its outcome as a parameter. The query builder plumbing of `getCards` is reduced to the plan it would send.
- React rendering, hooks, effects' scheduling, portals and DOM events are not modelled; an effect is a method called with the values it depends on.
- CardForms.CreateSubmission: the browser's URL parser behind the `type="url"` cover input is a parameter, `urlValid`; the value sanitisation a browser applies to such an input (dropping line breaks and edge white space) is not modelled. The same holds for CardForms.EditSubmission.
- CardForms.EditSubmission: takes the URL check as a parameter, as `CreateSubmission` does; whether an image loads is outside the model, and its failure is the explicit `CoverLoadFailed`.
- Seqs.Filter: its own contract states which values are kept and that the list never grows; the number of copies kept is stated by `FilterCount`, because counting needs equality on the element type, which `Filter` itself does not ask of its elements.
- CardTypeEditor.CardTypeForm.Submit: of the browser's form checks, the `required` name, label and key inputs, the key pattern and the Max Length range are modelled; the `maxLength` caps (lines 362, 374, 391 and 406) are not, because a browser applies them only to what the user types, and values the dialog sets itself (an edited type, a template) may exceed them.
- Toast timers and random ids: the id is a parameter, and expiry is an explicit `RemoveToast`. The random colour of a new card type is a parameter too.
- `parseFloat`/`parseInt` bounds of number fields are floating point and are not modelled; field bounds are integers here.
- Regular-expression `pattern` rules and `custom` callbacks of `validateField` are opaque functions supplied by the caller.
- `toLowerCase` is modelled for ASCII letters only; other letters keep their case.
- Template loading in the card-type editor (src/components/card-types/create-card-type-modal.tsx:106-123) is I/O and is not modelled. As written it cannot run: the effect's dependency list at line 110 reads `loadTemplates` before its `const` declaration at line 112, a temporal-dead-zone error, and that declaration calls `useCallback`, which the import at line 3 does not bring in. So the dialog fails to build or to render, and no template path of the editor runs as written; the model describes what the handlers would do.
- `types/database.ts` is not part of this model. Its `FieldKind` values disagree with `types/entities.ts`; the editor uses the latter, which is what the model follows.
- Bulk actions (src/components/cards/bulk-actions-modal.tsx) and the dashboard page are not part of this model: they fan out remote calls and compose pages.
- `handleError` and the toast it shows after a failed world or card-type save are not modelled beyond "the save failed".
- FieldSchema keeps only the attributes the editor reads and writes; validation bounds and the other optional attributes are carried as given.
- `useState` initial values are taken once, at construction; a later change of the props that seeded them is not re-read, as in the source.
- FolderTree.BuildFolderTree: the recursion is bounded by the list length. With distinct ids the bound never cuts (`MoreFuelSameTree`). With a duplicated id, which `handleFolderCreated` produces after an edit, the source can recurse without end on a cycle and the model's bound is where it stops. The agreement with an unbounded recursion (`MoreFuelSameTree`) is proved only for distinct ids; a list with a duplicated id but no cycle, where the source also terminates, is not covered by it.
- FolderTree.SortByPosition: its own contract states only the length; sortedness, permutation and stability are the lemmas `SortSorted`, `SortPermutes` and `SortStable`.
- CardTypeEditor.CardTypeForm.MoveField requires an index in range, as every rendered row passes; the source would otherwise write to a "-1" property of the copied array.
- CardTypeEditor.CardTypeForm.EditLabel requires an index in range, because the label box exists only for a listed field.
- ErrorHandling.ValidateSchema: an empty message from a custom rule is dropped, as the source's `if (error)` does; the contract follows that code.
- WorldsPage.TotalCards states only the empty case on its own; how it sums is stated by `CreatedWorldCounts`.
- Tree expansion and selection state of the sidebar are presentation and are not modelled, apart from clearing the selection after a delete.
- String lengths: JavaScript's `length` counts UTF-16 code units, while a Dafny string's length counts characters, so a minLength or maxLength check differs for characters outside the Basic Multilingual Plane.
- ErrorHandling.ValidateField: minLength and maxLength are `Option<nat>`, so a negative bound, which the source would accept and compare against, cannot be expressed.
- ErrorHandling.ValidateField: a number value is an integer here, so NaN, which `required` treats as falsy, cannot be passed.
- ErrorHandling.AuthorizationError and ErrorHandling.RateLimitError take no message: the model always uses their defaults, 'Access denied' and 'Rate limit exceeded', and the optional message parameter of their constructors is not modelled.
- ErrorHandling.ValidationError drops its optional `field` argument; no modelled caller passes one.
- Toasts.MakeToast: the optional `action` of a notification (a label and an `onClick` callback) is carried by the source untouched and is not modelled.
