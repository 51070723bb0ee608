# Formify page logic, modelled in Dafny

Formify is a form-builder web app. Users create form templates, edit them, search public
templates, and administrators manage users. The pages are React views over a hosted backend.
This project models the editing logic that runs in memory before or after the backend calls:

- the template editor's tag list and question list, in its two variants:
  - `CreateTemplate` caps each question type at four;
  - `EditTemplate` has no such cap and starts from a loaded template;
- the submit check of both editors;
- the search page's tag selection, its search guard and its "no results" condition;
- the admin dashboard's user join, its local updates and its access rules;
- the responses count and the delete of the MyTemplates page;
- the home page greeting.

Layout, one module per file:

- `Common`: `Option`, `Result` and `Response` (a backend call's `{ data, error }`), the
  `x || ''` and `x || null` defaults, and `Id`.
- `Seqs`: `Array.prototype.filter`, `findIndex` and the drag library's `arrayMove`,
  written out as "remove at `from`, insert at `to`". Their lemmas are about order,
  multiplicity and inverses.
- `Text`: JavaScript's `trim` and `split('@')[0]`. `trim` serves as a blankness test, and
  it also cleans a typed tag name before the name is added.
- `TemplateEditor`: the pure transforms of both editor pages. `Variant` (`Create` or
  `Edit`) selects the one place where they differ.
- `TemplateEditorPage`: class `Editor`, which holds the editor page's state variables. Each
  method is one event handler. It changes only the fields named in its `modifies` clause,
  and its `ensures` ties the new state to the transform.
- `AdminDashboard`, `Search`, `MyTemplates`: the pure logic of each page, plus a class for
  its component state.
- `Home`: the greeting.

Inputs the program gets from outside become parameters:

- `new Date().getHours()` is `hour: nat`.
- `crypto.randomUUID()` is an id the caller supplies. The class method requires it to be
  fresh for the list.
- `window.confirm(...)` is a `confirmed: bool`.
- A backend call's outcome is a parameter, such as `saved`, `deleted` or a `Response`.
- The drag library's drop event is the active id and an optional over id. The library
  reports only ids of listed questions, because the sortable items are the question ids
  (CreateTemplate.tsx line 524).

## Model

| member | source | states |
|---|---|---|
| `Seqs.Filter` | project/src/pages/CreateTemplate.tsx:221 | `filter` keeps exactly the elements satisfying the predicate, and never lengthens the list |
| `Seqs.FilterAppend` | project/src/pages/CreateTemplate.tsx:221 | filtering a concatenation filters each part, so survivors keep their relative order |
| `Seqs.FilterMultiplicity` | project/src/pages/CreateTemplate.tsx:191 | a kept value occurs as often as before; a dropped value does not occur at all |
| `Seqs.FilterKeepsAll` | project/src/pages/CreateTemplate.tsx:191 | when nothing matches the removal, `filter` returns the list unchanged |
| `Seqs.FilterIdempotent` | project/src/pages/CreateTemplate.tsx:221 | removing twice with the same predicate is the same as removing once |
| `Seqs.FindIndex` | project/src/pages/CreateTemplate.tsx:229-230 | `findIndex` gives the first index whose element matches, or -1 exactly when none matches |
| `Seqs.ArrayMove` | project/src/pages/CreateTemplate.tsx:232 | `arrayMove` keeps the length and the multiset of elements, and puts the moved element at `to` |
| `Seqs.ArrayMoveAt` | project/src/pages/CreateTemplate.tsx:232 | where each element ends up: elements between the two positions shift by one, the rest stay |
| `Seqs.ArrayMoveSame` | project/src/pages/CreateTemplate.tsx:232 | a move onto the same position is the identity |
| `Seqs.ArrayMoveInverse` | project/src/pages/EditTemplate.tsx:263 | moving back from `to` to `from` undoes the move |
| `Text.BlankIffAllWhitespace` | project/src/pages/CreateTemplate.tsx:247 | `!s.trim()` holds exactly when every character of `s` is JavaScript whitespace |
| `Text.Trim` | project/src/pages/CreateTemplate.tsx:451-452 | `trim` never lengthens the string, and a non-empty result starts and ends on a non-whitespace character |
| `Text.TrimIdempotent` | project/src/pages/EditTemplate.tsx:532-533 | trimming a trimmed tag name changes nothing |
| `Text.BeforeFirst` | project/src/pages/Search.tsx:183 | `split('@')[0]` is the prefix before the first `@`, contains no `@`, and is the whole string when there is no `@` |
| `TemplateEditor.AddTag` | project/src/pages/CreateTemplate.tsx:177-188 | refused exactly at five or more tags; otherwise contains the name, has length at most 5, and is unchanged if the name was present or else has the name appended |
| `TemplateEditor.RemoveTag` | project/src/pages/CreateTemplate.tsx:190-192 | the name no longer occurs; every other tag keeps its number of occurrences; nothing new appears; the list never grows |
| `TemplateEditor.RemoveTagKeepsOrder` | project/src/pages/EditTemplate.tsx:228-230 | removal distributes over concatenation, so the remaining tags keep their order |
| `TemplateEditor.AddTagThenRemove` | project/src/pages/EditTemplate.tsx:215-230 | removing a newly added tag restores the tag list |
| `TemplateEditor.AddTagKeepsTagsValid` | project/src/pages/EditTemplate.tsx:215-226 | `addTag` keeps the list within the cap and without duplicates |
| `TemplateEditor.RemoveTagKeepsTagsValid` | project/src/pages/CreateTemplate.tsx:190-192 | `removeTag` keeps the list within the cap and without duplicates |
| `TemplateEditor.CountOfTypeAppend` | project/src/pages/CreateTemplate.tsx:195 | appending a question raises only its own type's count, and by one |
| `TemplateEditor.AddQuestion` | project/src/pages/CreateTemplate.tsx:194-212 | Create refuses exactly when four of that type exist; an accepted add keeps the old list as a prefix and appends one blank question with the given id and type, `showInTable` false and `orderIndex` equal to the old length |
| `TemplateEditor.EditAddQuestionAlwaysAccepts` | project/src/pages/EditTemplate.tsx:232-243 | on the Edit page `addQuestion` is never refused |
| `TemplateEditor.CreateAddQuestionKeepsTypeCaps` | project/src/pages/CreateTemplate.tsx:195-200 | on the Create page no type ever exceeds four questions through `addQuestion` |
| `TemplateEditor.UpdateQuestion` | project/src/pages/CreateTemplate.tsx:214-218 | length kept; questions with another id are identical; those with the id get the patch's fields over their own |
| `TemplateEditor.UpdateQuestionIdempotent` | project/src/pages/EditTemplate.tsx:245-249 | repeating an update that keeps the id changes nothing more |
| `TemplateEditor.UpdateQuestionKeepsTypeCounts` | project/src/pages/CreateTemplate.tsx:74-101 | the patches the page sends (title, description, showInTable) keep every type count |
| `TemplateEditor.Ids` | project/src/pages/CreateTemplate.tsx:524 | the sortable items are the question ids, in order |
| `TemplateEditor.RemoveQuestion` | project/src/pages/CreateTemplate.tsx:220-222 | no survivor has the id; every other question survives unchanged, with its old `orderIndex` |
| `TemplateEditor.RemoveQuestionKeepsOrder` | project/src/pages/EditTemplate.tsx:251-253 | survivors keep their relative order |
| `TemplateEditor.AddQuestionThenRemove` | project/src/pages/CreateTemplate.tsx:202-222 | removing a question just added with a fresh id restores the list |
| `TemplateEditor.RemoveQuestionKeepsTypeCaps` | project/src/pages/CreateTemplate.tsx:220-222 | removal never raises a type count |
| `TemplateEditor.RemoveThenAddCanRepeatOrderIndex` | project/src/pages/CreateTemplate.tsx:208-222 | a removal then an add can give two questions the same `orderIndex`, because removal does not renumber |
| `TemplateEditor.Renumber` | project/src/pages/CreateTemplate.tsx:232-237 | each question's `orderIndex` becomes its position, every other field stays |
| `TemplateEditor.Unnumbered` | project/src/pages/CreateTemplate.tsx:232-237 | the list with every `orderIndex` erased, so lists can be compared regardless of numbering |
| `TemplateEditor.UnnumberedArrayMove` | project/src/pages/CreateTemplate.tsx:232 | erasing the numbering commutes with the move |
| `TemplateEditor.FoundIndex` | project/src/pages/CreateTemplate.tsx:229-230 | a listed id has a real index |
| `TemplateEditor.MoveAndRenumber` | project/src/pages/EditTemplate.tsx:263-268 | move plus renumber gives `orderIndex == position`, the same questions regardless of numbering, and the moved question at the target |
| `TemplateEditor.DragEnd` | project/src/pages/CreateTemplate.tsx:224-242 | identity when active = over; with no drop target, a failure that leaves the list unchanged; otherwise a permutation regardless of numbering, numbered by position, with the dragged question at the over question's old index |
| `TemplateEditor.ArrayMoveKeepsCount` | project/src/pages/CreateTemplate.tsx:232 | a move keeps every type count |
| `TemplateEditor.DragEndKeepsTypeCounts` | project/src/pages/EditTemplate.tsx:255-271 | reordering keeps every type count, so it keeps the Create page's cap |
| `TemplateEditor.ValidateSubmit` | project/src/pages/CreateTemplate.tsx:247-255 | submit proceeds exactly when the trimmed title is non-empty and a topic is chosen; an all-whitespace title is reported first, then a missing topic |
| `TemplateEditor.LinkedTagNames` | project/src/pages/EditTemplate.tsx:168 | one name per `template_tags` link row, in order, each the linked tag's name |
| `TemplateEditor.LoadQuestions` | project/src/pages/EditTemplate.tsx:157-165 | one question per row, in order, every field copied and a null description becoming `''` |
| `TemplateEditorPage.Editor.constructor` | project/src/pages/CreateTemplate.tsx:119-129 | the initial state is empty, public, with no topic, and valid |
| `TemplateEditorPage.Editor.LoadTemplate` | project/src/pages/EditTemplate.tsx:140-178 | a successful load installs the title, the `\|\| ''` defaults, the transformed questions and `LinkedTagNames` of the link rows; a failed load changes nothing and leaves the page; loading ends |
| `TemplateEditorPage.Editor.TagSearch` | project/src/pages/EditTemplate.tsx:195-213 | blank input clears the suggestions; otherwise the returned rows (or none) replace them, and an error keeps them |
| `TemplateEditorPage.Editor.EditTagInput` | project/src/pages/CreateTemplate.tsx:444-447 | typing sets the input and runs the tag search on the typed value |
| `TemplateEditorPage.Editor.EnterTagInput` | project/src/pages/CreateTemplate.tsx:448-455 | Enter on a blank input changes nothing; otherwise it behaves as `addTag` of the trimmed input, and a stored name is non-blank with no whitespace at either end; the Create invariant is kept |
| `TemplateEditorPage.Editor.AddTag` | project/src/pages/CreateTemplate.tsx:177-188 | at the cap an error and no change at all; otherwise the tags become `AddTag`'s and the input and suggestions clear; the Create invariant is kept |
| `TemplateEditorPage.Editor.RemoveTag` | project/src/pages/EditTemplate.tsx:228-230 | the tags become `RemoveTag`'s; only `tags` changes |
| `TemplateEditorPage.Editor.AddQuestion` | project/src/pages/EditTemplate.tsx:232-243 | refused only on the Create page at four of the type, with no change; otherwise the questions become `AddQuestion`'s |
| `TemplateEditorPage.Editor.UpdateQuestion` | project/src/pages/EditTemplate.tsx:245-249 | the questions become `UpdateQuestion`'s; the invariant is kept when the patch leaves the type alone |
| `TemplateEditorPage.Editor.RemoveQuestion` | project/src/pages/CreateTemplate.tsx:220-222 | the questions become `RemoveQuestion`'s; the invariant is kept |
| `TemplateEditorPage.Editor.HandleDragEnd` | project/src/pages/EditTemplate.tsx:255-271 | the questions become `DragEnd`'s result, or stay without a drop target; the invariant is kept |
| `TemplateEditorPage.Editor.SetTitle` | project/src/pages/CreateTemplate.tsx:360 | the title input sets the title |
| `TemplateEditorPage.Editor.SelectTopic` | project/src/pages/EditTemplate.tsx:453 | the topic select sets the topic |
| `TemplateEditorPage.Editor.Submit` | project/src/pages/EditTemplate.tsx:276-284 | the submit goes on exactly when the title is not blank and a topic is chosen |
| `AdminDashboard.FindAuthUser` | project/src/pages/AdminDashboard.tsx:43 | `find` returns the first auth user with the id, or nothing exactly when no auth user has it |
| `Common.OrEmpty` | project/src/pages/AdminDashboard.tsx:46 | `x \|\| ''` is the string itself when present, `''` otherwise |
| `Common.OrNull` | project/src/pages/AdminDashboard.tsx:49 | `x \|\| null` is present exactly when the string is present and non-empty |
| `AdminDashboard.CombineUsers` | project/src/pages/AdminDashboard.tsx:42-51 | one row per profile in profile order; id, admin flag and creation time from the profile; email and last sign-in from the first matching auth user, or `''` and `null` without one |
| `AdminDashboard.CombineUsersUniqueAuth` | project/src/pages/AdminDashboard.tsx:43-49 | with unique auth ids, a profile's email and last sign-in come from its own auth user |
| `AdminDashboard.FlipAdmin` | project/src/pages/AdminDashboard.tsx:71-73 | rows with the id get `is_admin = !isAdmin`; every other row is identical |
| `AdminDashboard.FlipAdminTwice` | project/src/pages/AdminDashboard.tsx:187 | pressing the button twice, each time with the flag the row shows, restores the table |
| `AdminDashboard.RemoveUser` | project/src/pages/AdminDashboard.tsx:109 | the rows with the id go; every other row stays |
| `AdminDashboard.RemoveUserKeepsOrder` | project/src/pages/AdminDashboard.tsx:109 | the remaining rows keep their order |
| `AdminDashboard.MayOpen` | project/src/pages/AdminDashboard.tsx:23 | only a signed-in administrator may stay on the dashboard |
| `AdminDashboard.ActionsEnabled` | project/src/pages/AdminDashboard.tsx:193 | a row's buttons are enabled exactly when it is not the current user's row |
| `AdminDashboard.NoActionOnOwnRow` | project/src/pages/AdminDashboard.tsx:193-207 | no toggle, block or delete is enabled on the current user's row |
| `AdminDashboard.Dashboard.constructor` | project/src/pages/AdminDashboard.tsx:17-18 | an empty table, loading |
| `AdminDashboard.Dashboard.LoadUsers` | project/src/pages/AdminDashboard.tsx:30-60 | the table becomes the join when both calls succeed and stays otherwise; loading ends |
| `AdminDashboard.Dashboard.Mount` | project/src/pages/AdminDashboard.tsx:22-28 | a visitor who is not a signed-in admin is redirected and nothing is loaded; for an admin the table becomes the join when both calls succeed and is kept otherwise, and loading ends |
| `AdminDashboard.Dashboard.ToggleAdmin` | project/src/pages/AdminDashboard.tsx:62-80 | after a saved update the table is `FlipAdmin`'s; after an error it is unchanged |
| `AdminDashboard.Dashboard.ToggleBlock` | project/src/pages/AdminDashboard.tsx:82-97 | after a successful ban the table is reloaded: it becomes the join when both calls succeed and is kept otherwise; without a ban nothing changes |
| `AdminDashboard.Dashboard.DeleteUser` | project/src/pages/AdminDashboard.tsx:99-115 | the table changes only after confirmation and a successful delete, and then is `RemoveUser`'s |
| `Search.ToggleSelection` | project/src/pages/Search.tsx:85-91 | a selected tag is removed everywhere, as `filter` does, and every other tag keeps its number of occurrences; an unselected one is appended |
| `Search.DeselectKeepsOrder` | project/src/pages/Search.tsx:88 | deselecting distributes over concatenation, so the remaining tags keep their order |
| `Search.ToggleSelectionTwice` | project/src/pages/Search.tsx:86-90 | toggling an unselected tag twice restores the selection |
| `Search.ToggleSelectionKeepsDistinct` | project/src/pages/Search.tsx:86-90 | toggling keeps the selection free of duplicates |
| `Search.ShouldSearch` | project/src/pages/Search.tsx:49-51 | the `handleSearch` guard: a search runs exactly when a tag is selected or the query has a non-whitespace character |
| `Search.ShowNoResults` | project/src/pages/Search.tsx:194 | "No results found" shows exactly when there are no results and the raw query is non-empty or a tag is selected |
| `Search.Request` | project/src/pages/Search.tsx:56-70 | the raw query is sent; the tag-containment filter is added exactly when some tag is selected, and carries the selection |
| `Search.BlankQueryShowsNoResultsWithoutSearching` | project/src/pages/Search.tsx:49-51 | a non-empty, whitespace-only query with no tags sends nothing, yet "No results found" is shown |
| `Search.SingleSpaceIsBlank` | project/src/pages/Search.tsx:49 | a single space is such a query: non-empty and blank |
| `Search.AuthorLabel` | project/src/pages/Search.tsx:183 | the author shown is the email part before the first `@`, the whole email without `@`, nothing without an author |
| `Search.SearchPage.constructor` | project/src/pages/Search.tsx:23-26 | empty query, results and selection; not loading |
| `Search.SearchPage.SetQuery` | project/src/pages/Search.tsx:107 | the input sets the query |
| `Search.SearchPage.ToggleTag` | project/src/pages/Search.tsx:85-91 | the selection becomes `ToggleSelection`'s |
| `Search.SearchPage.HandleSearch` | project/src/pages/Search.tsx:48-83 | nothing is sent and nothing changes exactly when the query is blank and no tag is selected; otherwise the request is sent, results become `data \|\| []` or stay on error, and loading ends |
| `Search.SearchPage.NoResultsShown` | project/src/pages/Search.tsx:146-202 | "No results found" is shown exactly when there are no results and the raw query is non-empty or a tag is selected |
| `MyTemplates.CountOrZero` | project/src/pages/MyTemplates.tsx:37 | `n \|\| 0` is the count when present, 0 otherwise |
| `MyTemplates.FormsCountAsWritten` | project/src/pages/MyTemplates.tsx:37 | `template.forms?.count \|\| 0` reads only an object's own count; any other shape gives 0 |
| `MyTemplates.FormsCount` | project/src/pages/MyTemplates.tsx:29-38 | the count of the object or of the single embedded aggregate row; 0 when there is none |
| `MyTemplates.AsWrittenIgnoresEmbeddedCount` | project/src/pages/MyTemplates.tsx:29-38 | for the array shape the backend sends, the code as written shows 0 whatever the count |
| `MyTemplates.FormsCountAgreesOffRows` | project/src/pages/MyTemplates.tsx:37 | the corrected reading agrees with the written one on every non-array shape |
| `MyTemplates.WithCounts` | project/src/pages/MyTemplates.tsx:35-38 | one card per row, in order, each row kept and carrying its responses count (the corrected count, see "## Findings") |
| `MyTemplates.MissingCountIsZero` | project/src/pages/MyTemplates.tsx:37 | a row without a count shows 0 responses |
| `MyTemplates.RemoveTemplate` | project/src/pages/MyTemplates.tsx:62 | the cards with the id go; every other card stays |
| `MyTemplates.RemoveTemplateKeepsOrder` | project/src/pages/MyTemplates.tsx:62 | the remaining cards keep their order |
| `MyTemplates.MyTemplatesPage.constructor` | project/src/pages/MyTemplates.tsx:18-19 | no templates, loading |
| `MyTemplates.MyTemplatesPage.LoadTemplates` | project/src/pages/MyTemplates.tsx:25-47 | on success the cards are `WithCounts` of `data \|\| []` (the corrected count, see "## Findings"); on error they stay; loading ends |
| `MyTemplates.MyTemplatesPage.DeleteTemplate` | project/src/pages/MyTemplates.tsx:49-68 | nothing changes unless confirmed and deleted, and then the list is `RemoveTemplate`'s |
| `MyTemplates.MyTemplatesPage.EmptyStateShown` | project/src/pages/MyTemplates.tsx:70-90 | the empty state is shown exactly when loading is over and there are no templates; while loading only the spinner shows |
| `Home.Greeting` | project/src/pages/Home.tsx:5-10 | "Good morning" exactly before 12, "Good afternoon" exactly from 12 to before 17, "Good evening" exactly from 17 |
| `Home.GreetingIsOneOfThree` | project/src/pages/Home.tsx:5-10 | every hour gets one of the three greetings |
| `Home.GreetingMonotone` | project/src/pages/Home.tsx:7-9 | as the hour grows the greeting never goes back to an earlier one |

## Left out

- All backend calls are left out: selects, inserts, updates, deletes, the search RPC, and the
  auth admin calls. Their effects on the hosted service are foreign I/O. Only their outcome
  enters the model, as a parameter.
- The persistence steps of `handleSubmit` are left out: the template insert or update, the
  question delete-then-reinsert, and the find-or-create tag loop (CreateTemplate.tsx lines
  257-331, EditTemplate.tsx lines 286-375). Only the validation before them is modelled.
- The tag-suggestion query (`ilike ... limit(5)`) is left out. `Editor.TagSearch` takes its
  answer as a parameter. Races between out-of-order answers are concurrency and are not
  modelled.
- `TemplateEditorPage.Editor.Valid` promises the Create page's invariants: tags within the cap
  and distinct, and at most four questions per type. It promises nothing for the Edit page,
  because that page loads whatever the backend holds.
- `TemplateEditorPage.Editor.UpdateQuestion` keeps `Valid` only for patches that leave
  `questionType` alone. `updateQuestion` accepts any `Partial<Question>`, but the page's
  inputs only send title, description and `showInTable`.
- `TemplateEditor.DragEnd` requires both ids to be question ids. The drag library never
  reports anything else. What `findIndex`'s -1 would do inside `arrayMove` is not modelled.
- `Editor.LoadTemplate` keeps a null `topic_id` as `""`. Both are falsy, so the submit check
  treats them the same.
- `AdminDashboard.Dashboard.ToggleAdmin`, `AdminDashboard.Dashboard.DeleteUser`: modelled as atomic steps
  on the current table. In the source each handler awaits the backend and then maps or filters
  the array it captured at click time (AdminDashboard.tsx lines 64-71 and 105-109). Two
  overlapping calls can therefore lose one update; for example, a user deleted first can
  reappear. The model does not capture this interleaving.
- `MyTemplates.MyTemplatesPage.DeleteTemplate`: modelled as an atomic step, for the same reason.
  Its filter runs over the list captured before the awaited delete (MyTemplates.tsx lines
  55-62), so overlapping deletes can lose one removal.
- `Search.SearchPage.HandleSearch`: modelled as one atomic step. In the source, Enter in the
  query input (Search.tsx line 108) ignores `loading`; only the button is disabled (line 116).
  Two searches can therefore overlap. The later answer wins `setResults`, and the first
  `finally` clears `loading` early. The model does not capture this interleaving.
- Loading the search page's available tags (`loadTags`) is a select plus a name projection.
  It is not modelled.
- Toasts, navigation targets, `toLocaleDateString` formatting, images, Markdown preview,
  dnd-kit sensors, transforms and collision detection are rendering only.
- `project/src/lib/auth.ts`, `project/src/stores/authStore.ts`, `project/src/components/Layout.tsx`
  and `project/src/App.tsx` are not part of this model. They forward SDK results, or hold
  rendering and the route table.
- `Text.Trim`: the contract states that `trim` never lengthens the string and that the
  result has no whitespace at either end. It does not state that the result is a contiguous
  piece of the input. `Text.BlankIffAllWhitespace` covers the blank case exactly.
- `Home.Greeting` takes any `nat`. `getHours` only yields 0 to 23, and the contract holds for
  every hour.

## Findings

| source | as written | input that shows it | evidently intended | confidence | as-written member | corrected member |
|---|---|---|---|---|---|---|
| project/src/pages/MyTemplates.tsx:29-38 | `forms_count: template.forms?.count \|\| 0` reads `count` off the embedded `forms` field | The backend embeds the one-to-many `forms(count)` as an array, e.g. `forms: [{ count: 3 }]`. An array has no `count` property, so the card shows "0 responses". | Read the aggregate row's count, as in `template.forms?.[0]?.count \|\| 0` | medium: depends on the backend's embedding shape; not executed | `MyTemplates.FormsCountAsWritten`, `MyTemplates.AsWrittenIgnoresEmbeddedCount` | `MyTemplates.FormsCount`, used by `MyTemplates.WithCounts` |
