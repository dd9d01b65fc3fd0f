# Task dashboard: the task table's view pipeline and its forms

A model in Dafny of the client-side core of a React task dashboard:

- the task table (`PostTable.tsx`) derives what it shows from the fetched task list and its view state. It keeps the tasks whose lower-cased title includes the lower-cased search term, sorts them by a chosen field with a comparator that never answers 0, and cuts out one page with `slice`. Its event handlers update that view state and run the delete confirmation.
- the create form (`CreatePost.tsx`) refuses empty inputs, sends `{title, body, userId: 1}`, clears its inputs and, once the server answers, appends the new record to the cached list under a synthesised id.
- the edit form (`UpdatePost.tsx`) builds its form from a task (the date cut at `T`, the assignee replaced by its id) and changes one field per input event. It sends the whole form with a PUT and calls `onUpdate` and then `onClose` only when the PUT succeeds.

Modules, one file each:

| module | file | models |
|---|---|---|
| `Wrappers` | wrappers.dfy | `Option`, for `undefined` data |
| `Text` | text.dfy | ASCII `toLowerCase`, `includes`, string `<`/`>`, `split(c)[0]` |
| `Json` | json.dfy | `JSON.stringify` of a string, and a reader that undoes it |
| `Tasks` | tasks.dfy | the task record, its keys, the comparator's key of each field |
| `ListView` | list_view.dfy | `filteredPosts`, `totalPages`, `paginatedPosts` as pure functions |
| `ListViewExamples` | list_view_examples.dfy | worked cases on concrete tasks |
| `PostTable` | post_table.dfy | class `PostTableView`: the `useState` slots and the handlers |
| `CreatePost` | create_post.dfy | payload check, class `CreatePostForm`, the cache updater |
| `UpdatePost` | update_post.dfy | the initial form, field edits, class `UpdatePostForm` |

The network calls are parameters. `PostTableView.ConfirmDelete` takes whether the DELETE resolved and the list the refetch returns. `UpdatePostForm.HandleSubmit` takes whether the PUT succeeded and returns the request, if the browser lets the form be submitted, and the callbacks it runs. `CreatePostForm.HandleCreatePost` returns the payload it sends.

Behaviour of the code worth knowing:

- `totalPages` is `Math.ceil(n / size)`, so it is 0, not 1, when no task matches (`TotalPagesZero`).
- The page is not kept within `1..totalPages`. With no tasks, Next is enabled on page 1 (its test is `currentPage === totalPages`) and moves to page 0 (`Walkthrough`). A refetch can also shrink the list under the current page.
- Changing the sort field or the order does not reset the page; only the search box, the page-size menu and `resetFilters` do.
- Nothing is updated optimistically and nothing is rolled back. Deletes and edits refetch after success; create appends to the cache after success.
- The sort is not stable and equal keys have no specified order. The comparator answers -1 both ways round for equal keys (`CompareTie`).

## Model

| member | source | states |
|---|---|---|
| `Text.ToLower` | src/components/PostTable.tsx:98 | lower-casing keeps the length and leaves no upper-case letter |
| `Text.ToLowerIdempotent` | src/components/PostTable.tsx:98 | lower-casing twice is lower-casing once |
| `Text.Includes` | src/components/PostTable.tsx:98 | `includes` is true exactly when the term occurs at some position of the title |
| `Text.IncludesEmpty` | src/components/PostTable.tsx:98 | every title includes the empty term |
| `Text.LessIrreflexive` | src/components/PostTable.tsx:111-117 | `Text.Less`, the string `<`/`>` of the comparator, lexicographic with a proper prefix first: no string is below itself |
| `Text.LessAsymmetric` | src/components/PostTable.tsx:111-117 | string `<` never holds both ways |
| `Text.LessTransitive` | src/components/PostTable.tsx:111-117 | string `<` is transitive |
| `Text.LessConnected` | src/components/PostTable.tsx:111-117 | two different strings are ordered one way or the other |
| `Text.BeforeFirst` | src/components/UpdatePost.tsx:21 | `split("T")[0]` is a prefix without `T`, followed in the input by `T` unless it is the whole input |
| `Text.BeforeFirstWithout` | src/components/UpdatePost.tsx:21 | a string without `T` is kept whole |
| `Text.BeforeFirstAt` | src/components/UpdatePost.tsx:21 | `day + "T" + time` gives `day` |
| `Json.DecodeEscapeChar` | src/components/PostTable.tsx:103 | `Json.EscapeChar`, the ECMA-262 QuoteJSONString escape of one character, decodes to that character |
| `Json.Quote` | src/components/PostTable.tsx:103 | `JSON.stringify` of a string is its escaped text between two double quotes |
| `Json.ReadEscaped` | src/components/PostTable.tsx:103 | escaped text reads back whole, and reading stops at the closing quote |
| `Json.ReadQuotedRoundTrip` | src/components/PostTable.tsx:103 | a JSON string literal reads back to its text and the rest of the input |
| `Tasks.AssigneeJsonRoundTrip` | src/components/PostTable.tsx:101-104 | `Tasks.AssigneeJson`, the `{"_id":…,"name":…,"email":…}` text of an assignee, parses back to that assignee |
| `Tasks.AssigneeJsonInjective` | src/components/PostTable.tsx:101-109 | two assignees with the same JSON text are equal |
| `Tasks.KeyTiesExactly` | src/components/PostTable.tsx:101-109 | `Tasks.Key`, the comparator's value of a field (the JSON text for the object-valued assignee, the string itself otherwise): two tasks tie on it exactly when they agree on that field, the object-valued assignee included |
| `ListView.Toggle` | src/components/PostTable.tsx:181 | the order button always changes the order |
| `ListView.ToggleInvolution` | src/components/PostTable.tsx:181 | toggling twice restores the order |
| `ListView.Filter` | src/components/PostTable.tsx:96-99 | with `ListView.Matches` the test that the lower-cased title includes the lower-cased term: keeps each matching task as often as the input has it and no other task |
| `ListView.FilterEmptyTerm` | src/components/PostTable.tsx:96-99 | an empty term keeps the whole list in order |
| `ListView.FilterIgnoresTermCase` | src/components/PostTable.tsx:98 | the result does not depend on the case of the term |
| `ListView.InOrderTotal` | src/components/PostTable.tsx:111-117 | any two keys are in order one way or the other, in either direction |
| `ListView.InOrderTransitive` | src/components/PostTable.tsx:111-117 | being in order is transitive, in either direction |
| `ListView.Compare` | src/components/PostTable.tsx:100-118 | the comparator answers only 1 or -1, and -1 exactly when the first key may precede the second in the chosen direction |
| `ListView.CompareTie` | src/components/PostTable.tsx:111-117 | on equal keys the comparator answers -1 both ways round |
| `ListView.Insert` | src/components/PostTable.tsx:100-118 | inserting into a sorted list gives a sorted list with one more occurrence of the task |
| `ListView.Sort` | src/components/PostTable.tsx:100-118 | the sorted list is a permutation of the input, non-decreasing by key for Asc and non-increasing for Desc |
| `ListView.FilteredPosts` | src/components/PostTable.tsx:93-119 | absent data gives `[]`; otherwise a sorted permutation of exactly the matching tasks |
| `ListView.TotalPages` | src/components/PostTable.tsx:121 | the least number of pages of the page size that holds every task |
| `ListView.TotalPagesZero` | src/components/PostTable.tsx:121 | the page count is 0 exactly when no task matches |
| `ListView.Slice` | src/components/PostTable.tsx:122-125 | for `0 <= start <= end`, `slice` gives `s[start..min(end, len)]`, or `[]` when `start >= len`; when `start < 0` exactly if `end <= 0`, never more than `max(0, end - start)` elements |
| `ListView.PageWindow` | src/components/PostTable.tsx:122-125 | a page never holds more than the page size |
| `ListView.PageBoundsSign` | src/components/PostTable.tsx:122-125 | a page's start is negative exactly when its end is not positive |
| `ListView.FullPage` | src/components/PostTable.tsx:121-125 | every page before the last is full and is `filtered[(p-1)*n .. p*n)` |
| `ListView.LastPage` | src/components/PostTable.tsx:121-125 | the last page holds the remaining 1 to n tasks |
| `ListView.PageOutOfRange` | src/components/PostTable.tsx:122-125 | page 0 and pages after the last are empty |
| `ListView.PagesPrefix` | src/components/PostTable.tsx:122-125 | pages 1..k together are the first `k*n` tasks |
| `ListView.PagesCoverList` | src/components/PostTable.tsx:121-125 | pages 1..totalPages together give back the filtered list |
| `ListViewExamples.SortByTitle` | src/components/PostTable.tsx:100-118 | "Buy milk" sorts before "Write spec" ascending, after it descending |
| `ListViewExamples.MilkMatches` | src/components/PostTable.tsx:97-99 | "milk" matches "Buy milk" and not "Write spec" |
| `ListViewExamples.SearchMilk` | src/components/PostTable.tsx:96-99 | searching "milk" keeps one of the two tasks, on one page |
| `ListViewExamples.SortByPriorityIsAlphabetic` | src/components/PostTable.tsx:175-177 | ascending by priority gives High, Low, Medium, not severity order |
| `ListViewExamples.TwentyFiveTasks` | src/components/PostTable.tsx:121-125 | 25 tasks at 10 per page make 3 pages, the last holding 5 |
| `PostTable.PostTableView.Total` | src/components/PostTable.tsx:121 | the page count of the filtered list holds every filtered task and is 0 exactly when none is left |
| `PostTable.PostTableView.Paginated` | src/components/PostTable.tsx:122-125 | at most `itemsPerPage` tasks; from page 1 on, the filtered tasks from index `(currentPage-1)*itemsPerPage`, cut at the end of the list |
| `PostTable.PrevPage` | src/components/PostTable.tsx:282 | the Prev updater never gives a page below 1, and steps back by one from page 2 up |
| `PostTable.NextPage` | src/components/PostTable.tsx:295 | the Next updater never gives a page above the page count, and steps forward by one below it |
| `PostTable.PostTableView.constructor` | src/components/PostTable.tsx:44-53 | the initial view state: no data, search "", title ascending, page 1 of 10, modals closed, nothing pending |
| `PostTable.PostTableView.LoadPosts` | src/components/PostTable.tsx:35-42 | the query's data replaces the cached list and nothing else |
| `PostTable.PostTableView.ResetFilters` | src/components/PostTable.tsx:85-91 | sets exactly search "", field title, order asc, page 1, size 10; nothing else changes |
| `PostTable.PostTableView.ChangeSearch` | src/components/PostTable.tsx:165-168 | sets the term and goes back to page 1 |
| `PostTable.PostTableView.ChangeSortField` | src/components/PostTable.tsx:172-173 | sets the field, keeps the page |
| `PostTable.PostTableView.ToggleSortOrder` | src/components/PostTable.tsx:181 | flips the order, keeps the page |
| `PostTable.PostTableView.ChangeItemsPerPage` | src/components/PostTable.tsx:206-209 | sets the page size and goes back to page 1 |
| `PostTable.PostTableView.ClickPrev` | src/components/PostTable.tsx:281-283 | a Prev disabled on page 1 (`PostTableView.PrevDisabled`) does nothing; afterwards the page is at least 1 |
| `PostTable.PostTableView.ClickNext` | src/components/PostTable.tsx:293-297 | a Next disabled at `currentPage == totalPages` (`PostTableView.NextDisabled`) does nothing; afterwards the page is at most the page count (0 when empty) |
| `PostTable.PostTableView.HandleDeleteClick` | src/components/PostTable.tsx:74-77 | remembers the id and opens the confirmation |
| `PostTable.PostTableView.ConfirmDelete` | src/components/PostTable.tsx:57-83 | a DELETE goes out only for a pending id; only a resolved DELETE refetches and closes the confirmation |
| `PostTable.PostTableView.CloseConfirm` | src/components/PostTable.tsx:144 | closes the confirmation |
| `PostTable.PostTableView.OpenEdit` | src/components/PostTable.tsx:253-256 | selects the row and opens the edit form |
| `PostTable.PostTableView.EditOnUpdate` | src/components/PostTable.tsx:134-136 | the edit form's `onUpdate` refetches the list |
| `PostTable.PostTableView.EditOnClose` | src/components/PostTable.tsx:133 | the edit form's `onClose` closes it |
| `PostTable.PostTableView.OpenCreate` | src/components/PostTable.tsx:187 | opens the create form |
| `PostTable.PostTableView.CloseCreate` | src/components/PostTable.tsx:140 | the create form's `onClose` closes it |
| `CreatePost.Payload` | src/components/CreatePost.tsx:51-57 | no payload exactly when an input is empty; otherwise `{title, body, userId: 1}` |
| `CreatePost.CreatePostForm.constructor` | src/components/CreatePost.tsx:33-34 | both inputs start empty |
| `CreatePost.CreatePostForm.ChangeTitle` | src/components/CreatePost.tsx:70 | sets the title input only |
| `CreatePost.CreatePostForm.ChangeBody` | src/components/CreatePost.tsx:77 | sets the body input only |
| `CreatePost.CreatePostForm.HandleCreatePost` | src/components/CreatePost.tsx:50-61 | an empty input sends nothing and keeps both inputs; otherwise sends the payload and clears both inputs |
| `CreatePost.UpdateCache` | src/components/CreatePost.tsx:41-45 | with a cache, appends one record with id `length + 1` and the server's other fields, earlier records unchanged; without one, `[data]` |
| `CreatePost.UpdateCacheKeepsNumbering` | src/components/CreatePost.tsx:43 | on a list numbered 1..n the result is numbered 1..n+1, so ids stay distinct |
| `CreatePost.UpdateCacheCanRepeatId` | src/components/CreatePost.tsx:43 | on a list not numbered 1..n the new id can repeat a cached one |
| `CreatePost.AbsentAndEmptyCacheDiffer` | src/components/CreatePost.tsx:42-44 | an empty cache renumbers the record to 1, an absent cache keeps the server's id |
| `UpdatePost.InitialForm` | src/components/UpdatePost.tsx:19-23 | other fields copied; the date is the part before the first `T` ("" if absent) and has no `T`; the assignee is its id ("" if absent) |
| `UpdatePost.InitialFormOfTask` | src/components/UpdatePost.tsx:19-23 | opened on a row of the table, the form shows the row's fields, the part of its date before the first `T`, and its assignee's id |
| `UpdatePost.InitialFormOfTimestamp` | src/components/UpdatePost.tsx:21 | a stored `day + "T" + time` opens the form on `day` |
| `UpdatePost.InitialFormOfDay` | src/components/UpdatePost.tsx:21 | a date without a time is kept whole |
| `UpdatePost.SetField` | src/components/UpdatePost.tsx:25-31 | the named field takes the value; every other field, id and assignee included, is unchanged |
| `UpdatePost.SetFieldTwice` | src/components/UpdatePost.tsx:25-31 | of two edits of one field the second wins |
| `UpdatePost.SetFieldCommutes` | src/components/UpdatePost.tsx:25-31 | edits of different fields commute |
| `UpdatePost.SetFieldSame` | src/components/UpdatePost.tsx:25-31 | writing a field's own value changes nothing |
| `UpdatePost.UpdatePostForm.constructor` | src/components/UpdatePost.tsx:19-23 | the form starts as the initial form of the task |
| `UpdatePost.UpdatePostForm.HandleChange` | src/components/UpdatePost.tsx:25-32 | changes only the named field and keeps the form's id |
| `UpdatePost.UpdatePostForm.ChangeAssignee` | src/components/UpdatePost.tsx:134-136 | changes only the assignee |
| `UpdatePost.UpdatePostForm.HandleSubmit` | src/components/UpdatePost.tsx:34-84 | no request and no callback while the `required` title or description is empty; otherwise the PUT goes to the task's path with the whole form, assignee id included, and `onUpdate` then `onClose` run only on success, neither on failure |

## Left out

- The HTTP calls (`fetch`, `axios`), `localStorage`, `alert` and `console.error` are not modelled. Their outcomes are method parameters.
- React Query itself (`useQuery`, `invalidateQueries`, memoisation, `isPending`) is not modelled. An invalidation is modelled as the refetched list arriving.
- The loading and error screens and all markup and styling are left out, except the edit form's `required` title and description, which gate `UpdatePostForm.HandleSubmit`. The date display through `toLocaleDateString` is left out too, because it depends on locale and date-library behaviour.
- Text.ToLower: folds only ASCII letters; JavaScript's `toLowerCase` folds all of Unicode.
- Text.Less: compares code points; JavaScript compares UTF-16 code units, which orders characters above U+FFFF differently.
- ListView.Sort: the engine's sorting algorithm is not modelled. An insertion sort driven by the same comparator stands in for it. Only the permutation and the key order are stated, not the order of equal keys.
- PostTable.PostTableView.ConfirmDelete: `resolved` means the DELETE's `fetch` resolved. The mutation does not check `res.ok`, so an HTTP error status still counts as success; that distinction is not modelled.
- Tasks.AssigneeJson: writes the keys `_id`, `name`, `email` in declaration order. Any further keys the server adds to the assignee object are not modelled.
- Tasks.Key: `typeof` is modelled per field as the record declares it. A `null` field value, which `typeof` reports as an object and so compares as the text `"null"`, and an absent field, which compares as `undefined`, are not modelled.
- UpdatePost.InitialForm: copies only the declared fields; extra fields of the server's task object, which the spread would carry into the PUT body, are not modelled.
- CreatePost.CachedPost: the create form's cache record (`id`, `title`, `body`, `userId`) and the task table's record (`_id`, …) share one cache key in the source but have different shapes. The model keeps each component on its own type and does not join the two.
- The login, register, dashboard and admin pages, routing, the confirmation modal's markup and the axios client modules are outside this model.
