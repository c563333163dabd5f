# Task manager: listing pipeline and owner-scoped task actions

A Dafny model of the core of a personal task-management web application. Each
user owns to-do items (`Task`): a title, an optional description, a due date, a
priority (High = 1, Medium = 2, Low = 3), a completion flag, and creation and
update timestamps. The model covers:

- the `Task` record and its field rules (`models.dfy`, module `Models`);
- the task listing `task_list`. It keeps the requesting user's tasks and narrows
  them, in a fixed order, by text search, completion status, priority and date
  window. It then orders them by the requested key and cuts out one page of ten.
  The filter and order stages are in `listing.dfy` (module `Listing`), the
  pagination convention in `paging.dfy` (module `Paging`), and the ASCII
  case-insensitive search and title order in `text.dfy` (module `Text`);
- the `login_required_403` guard, the listing as a whole, and the owner-scoped
  fetch, create, toggle and delete actions over the task table (`views.dfy`,
  module `Views`). The table is a class `TaskStore` holding a map from primary
  key to task.

The listing is modelled as pure functions over the sequence of table rows, because
the handler only chains queryset refinements. Toggle, delete and create change the
table, so they are methods of `TaskStore`.

Each filter stage is proved against `Listing.Admits`, a reference predicate
stated directly from the request parameters. The listing is proved to be a
permutation of the admitted rows, ordered by the requested key. The pages are
proved to reassemble the listing. Toggle and delete are proved to change only
the task they fetch. Create is proved to add one task under a fresh key and
change nothing else.

Conventions of the model:
- The requesting user is `None` for an unauthenticated request.
- The current moment is the parameter `now`. All timestamps are whole seconds since the epoch, in UTC.
- The calendar date of a timestamp is `ts / 86400`, which is floor division for a positive divisor.
- Query parameters are `Option<string>`: `None` when the parameter is absent.

## Model

| member | source | states |
|---|---|---|
| `Models.NewTask` | tasks/models.py:6-19 | a new task has the given owner and fields, priority 2 unless one is given, is not completed, and has creation and update times equal to the moment of creation; it is valid exactly when its title has 1 to 200 characters (the description may be empty) |
| `Models.Saved` | tasks/models.py:18-19 | a save sets `updated_at` to the moment of the save, keeps `created_at`, and changes no other field |
| `Models.SavesKeepCreation` | tasks/models.py:18-19 | after any number of saves `created_at` is still the creation time, `updated_at` is the moment of the last save, and no other field has changed |
| `Models.Str` | tasks/models.py:21-22 | the string form of a task is its title, of 1 to 200 characters for a valid task |
| `Text.Lower` | tasks/views.py:31 | lower-casing yields no ASCII upper-case letter; it maps `A`-`Z` to `a`-`z` and leaves every other character alone |
| `Text.LowerStr` | tasks/views.py:31 | a lower-cased string has the same length, and each character is lower-cased in place |
| `Text.Contains` | tasks/views.py:31 | the containment scan succeeds exactly when the needle occurs at some position of the text |
| `Text.IContains` | tasks/views.py:31 | `icontains` holds exactly when the lower-cased needle occurs in the lower-cased text |
| `Text.TitleLeTotal` | tasks/views.py:61-62 | any two titles are comparable in the title order |
| `Text.TitleLeTrans` | tasks/views.py:61-62 | the title order is transitive |
| `Text.TitleLeAntisymmetric` | tasks/views.py:61-62 | two titles that each precede the other are equal |
| `Paging.ParseInt` | tasks/views.py:67-69 | a page text converts exactly when it is an optional `+` or `-` followed by one or more ASCII digits; the value is the digits' decimal value, negated after `-` |
| `Paging.Decimal` | tasks/views.py:67-69 | the decimal text of a number is a non-empty string of digits |
| `Paging.DecimalRoundTrip` | tasks/views.py:67-69 | reading back the decimal text of a number gives the number |
| `Paging.ParseShowRoundTrip` | tasks/views.py:67-69 | converting the decimal text of any integer, with its sign, gives that integer |
| `Paging.NumPages` | tasks/views.py:68 | there is at least one page, and the page count is the least number of ten-item pages that holds all items |
| `Paging.PageNumber` | tasks/views.py:67-69 | the chosen page is always in range: page 1 when `page` is absent or not an integer; the requested page when in range; the last page when below 1 or beyond the last page |
| `Paging.PageItems` | tasks/views.py:68-69 | page n holds items (n-1)*10 up to n*10 of the listing; every page but the last is full, and no page holds more than 10 |
| `Paging.GetPage` | tasks/views.py:69 | the page returned is the one `PageNumber` picks for the `page` parameter. It holds at most 10 items, is the matching window of the listing, and draws its items from the listing. `has_next` holds exactly when items remain after it |
| `Paging.RequestedPage` | tasks/views.py:67-69 | requesting an in-range page number, written in decimal, gives exactly that page |
| `Paging.PagesUpToIsPrefix` | tasks/views.py:68-69 | pages 1 to k, concatenated, are the first min(10k, length) items of the listing |
| `Paging.AllPagesReassemble` | tasks/views.py:68-69 | concatenating every page from the first to the last reproduces the whole listing |
| `Paging.ElevenItems` | tasks/views.py:67-69 | with 11 items, page 1 holds the first 10 and has a next page; page 2 holds the eleventh and has none |
| `Listing.WeekLater` | tasks/views.py:49-51 | the date a week after `now` is the date of `now` plus seven |
| `Listing.Day` | tasks/views.py:48-51 | the date of a timestamp is the day whose 86400 seconds contain it (floor division) |
| `Listing.SearchClause` | tasks/views.py:28-31 | the search adds a restriction exactly when `q` is present and non-empty; a task then passes when its title or description contains `q` case-insensitively |
| `Listing.StatusClause` | tasks/views.py:33-38 | the status adds a restriction exactly for `completed` and `not_completed`; a task passes when its completion flag matches that value |
| `Listing.PriorityClause` | tasks/views.py:40-43 | the priority adds a restriction exactly for `1`, `2` and `3`; a task passes when its priority equals that value |
| `Listing.DateClause` | tasks/views.py:45-53 | the date filter adds a restriction exactly for `today`, `week` and `overdue`. A task passes `today` when due on today's date, and `week` when due between today and today + 7 inclusive. It passes `overdue` when due strictly before `now` and not completed |
| `Listing.Refine` | tasks/views.py:29-53 | a filter stage never adds a task and keeps only tasks of its input |
| `Listing.Selected` | tasks/views.py:26-53 | the filter chain, starting from the user's rows, yields no more tasks than the table holds, and each of them belongs to the user |
| `Listing.SortKeyOf` | tasks/views.py:55-64 | `due_date`, `priority` and `title` select their own keys, each exactly for that value; every other value, or none, selects the default ordering |
| `Listing.Before` | tasks/views.py:57-64 | the order each key imposes. Under the default key, an incomplete task precedes a completed one, and tasks with the same flag go by ascending due date. The due-date and priority keys compare ascending, and the title key by the title order |
| `Listing.Listed` | tasks/views.py:26-64 | the listing is a permutation of the filtered tasks, in ascending order of the requested key, and holds only the user's tasks |
| `Listing.Where` | tasks/views.py:26-53 | a filter keeps every task that meets its restriction, as often as the task occurs, and drops every other task |
| `Listing.RefineCounts` | tasks/views.py:29-53 | a stage without a restriction keeps its input; a stage with one filters by it |
| `Listing.StagesMeanAdmits` | tasks/views.py:26-53 | a task passes the owner, search, status, priority and date stages exactly when the reference predicate `Admits` holds of it |
| `Listing.SelectedSpec` | tasks/views.py:26-53 | after the filter stages, each table row the request admits is kept as often as it occurs, and nothing else is kept |
| `Listing.BeforeTotal` | tasks/views.py:55-64 | under every sort key, any two tasks are comparable |
| `Listing.BeforeTrans` | tasks/views.py:55-64 | every sort key's order is transitive |
| `Listing.Insert` | tasks/views.py:55-64 | inserting a task into an ordered sequence keeps it ordered and adds exactly that task |
| `Listing.OrderBy` | tasks/views.py:55-64 | ordering returns the same tasks (a permutation) in ascending order of the key |
| `Listing.ListedSpec` | tasks/views.py:26-64 | the listing is a permutation of the table rows the request admits, in ascending order of the requested key (the default key: incomplete first, then by due date) |
| `Listing.ListedMembers` | tasks/views.py:26-64 | a task is listed exactly when it is a table row that the request admits |
| `Listing.EveryOwnTaskListed` | tasks/views.py:26 | without parameters, a table row is listed exactly when it belongs to the requesting user |
| `Listing.OverdueOnlyOpenAndPast` | tasks/views.py:52-53 | an `overdue` listing shows only incomplete tasks due strictly before `now`; a completed past-due task is never listed |
| `Listing.DefaultOrderGroups` | tasks/views.py:63-64 | under the default ordering no completed task precedes an incomplete one, and tasks with the same completion flag run by ascending due date |
| `Listing.UnknownPriorityIgnored` | tasks/views.py:40-43 | a `priority` other than `1`, `2` or `3` gives exactly the listing of a request without it |
| `Listing.UnknownStatusIgnored` | tasks/views.py:33-38 | a `status` other than `completed` or `not_completed` gives exactly the listing of a request without it |
| `Listing.EmptySearchIgnored` | tasks/views.py:28-31 | an empty `q` gives exactly the listing of a request without it |
| `Views.LoginRequired` | tasks/views.py:16-21 | an unauthenticated request fails with PermissionDenied; an authenticated one proceeds with that user |
| `Views.TaskList` | tasks/views.py:24-69 | fails with PermissionDenied exactly when unauthenticated, whatever the table holds. Otherwise it returns the page that `get_page` picks for the `page` parameter: at most 10 table rows, each admitted by the request. The page is the matching window of the full listing, and `has_next` holds exactly when rows remain after it |
| `Views.PageShowsAdmitted` | tasks/views.py:26-69 | every task on the requested page is a table row that the request admits |
| `Views.ListingIsOwnerScoped` | tasks/views.py:26 | a user's listing never shows a task of another user |
| `Views.UnknownValuesIgnored` | tasks/views.py:33-43 | unrecognised `priority` and `status` values give the same result as leaving both out |
| `Views.ListingOfStore` | tasks/views.py:26 | listing a full read of the table shows only stored tasks of the requesting user; without parameters it shows every one of them |
| `Views.DeletedTaskNotListed` | tasks/views.py:127-129 | once a task is deleted, no listing of the table shows a task under its key |
| `Views.GetOwned` | tasks/views.py:114 | the fetch succeeds exactly when the key exists and belongs to the user, and then gives that task; every failure is NotFound |
| `Views.ForeignTaskLooksMissing` | tasks/views.py:127 | fetching another user's task gives the same NotFound as fetching a key that does not exist |
| `Views.Toggled` | tasks/views.py:137-138 | toggling negates the completion flag, refreshes the update time, keeps the creation time, and changes no other field |
| `Views.ToggleTwice` | tasks/views.py:137-138 | two toggles restore the completion flag; only the update time differs from the original |
| `Views.TaskStore.Fetch` | tasks/views.py:112-114 | the guarded fetch of edit, delete and toggle: PermissionDenied when unauthenticated, otherwise the owner-scoped fetch |
| `Views.TaskStore.Create` | tasks/views.py:98-109 | PermissionDenied exactly when unauthenticated. For an authenticated request, a title outside 1 to 200 characters gives Invalid and leaves the table unchanged. Otherwise one new task, owned by the requester and built with the field defaults, is stored under a fresh key |
| `Views.TaskStore.Toggle` | tasks/views.py:134-139 | after a failed fetch nothing changes. Otherwise only the fetched task is replaced, by its toggled form; every other task stays as it was |
| `Views.TaskStore.Delete` | tasks/views.py:125-131 | returns the fetch outcome. A confirmed delete of the user's task removes exactly that key, and fetching it afterwards is NotFound. An unconfirmed request or a failed fetch leaves the table unchanged |

## Left out

- Rendering is not modelled: the HTML page, the card fragment, the JSON response and the `X-Requested-With` switch (tasks/views.py:71-82). Both response shapes carry the same page and `has_next`, which `Views.TaskList` returns.
- The commented-out block at tasks/views.py:71-73 is dead code.
- `register` and the validation of `TaskForm`, whose source (tasks/forms.py) is not part of this model.
  - `Views.TaskStore.Create` receives the form's cleaned fields and checks only the title length, the rule the model field imposes. The priority choice is enforced by the type `Priority`.
  - The save performed by a valid edit form (tasks/views.py:115-122) is not modelled. Only the fetch of `task_edit` is.
- Views.TaskStore.Create: assumes the form supplies exactly the title, description, due date and priority. So a new task is never completed, by the field default. If the form also offered `is_completed`, `form.save(commit=False)` would take it from the request, and a task could be created already completed; the model does not cover that.
- The messages chosen by `error_view` and its four wrappers (tasks/views.py:142-173) are a lookup table. The model reports the error kind only: `PermissionDenied`, `NotFound` or `Invalid`.
- tasks/admin.py is declarative configuration.
- User accounts, and the deletion of a user's tasks when that user is deleted, are not modelled. A task's owner is a plain user id.
- Time zones: `Listing.Day` takes the UTC date on both sides of the date filters, so the model matches the source only when the current time zone is UTC.
  - In the source only the `due_date__date` side is converted to the current time zone (tasks/views.py:48, 50-51).
  - `now().date()` is the UTC date.
  - Under another time zone, `today` and `week` in the source compare a local due date with the UTC date of now. Between UTC midnight and local midnight this picks a different day than the model does.
- The `week` branch reads the clock twice (tasks/views.py:50 and 51). The model reads it once, as the single parameter `now`.
- Case folding is ASCII-only, with no locale rules.
- Title order compares code points, not the database collation.
- The database leaves the relative order of tasks with equal sort keys unspecified.
  - `Listing.Listed`, and with it `Views.TaskList`, fixes one tie order: a stable insertion.
  - `Listing.ListedSpec` and `Listing.OrderBy` claim only ascending order and permutation, which every tie order satisfies.
  - The page windows, and `Paging.AllPagesReassemble`, hold of that one fixed listing. In the source every page is a separate request with its own query. Pages reassemble the listing there only when ties break the same way on every request; otherwise, with equal keys, pages can repeat or skip a task.
- The listing reads the table as a sequence of rows (`rows`). `Views.Enumerates` states when such a sequence is a full read of a `TaskStore`'s map. The read itself is the storage layer's and is not modelled.
- Transactions, the storage engine, concurrent last-write-wins updates and HTTP routing are not modelled.
- `task_delete` distinguishes POST from GET; the model passes this as the flag `confirmed`. `task_toggle` does not check the request method, and neither does the model.
- Paging.ParseInt: accepts only an optional sign followed by ASCII digits. Python's `int()` also accepts surrounding whitespace, underscores between digits, and non-ASCII decimal digits; such page texts fall back to page 1 in the model. CPython's `int()` (3.11 on, and the 3.8-3.10 security releases) also rejects decimal text of more than 4300 digits, so `get_page` shows page 1 for such a page text. The model converts text of any length; such a number is out of range, so the model shows the last page instead.
- The page size and the paginator's defaults (no orphans, an empty first page allowed) are fixed, as the listing uses them.

A page number below 1 is out of range for `Paginator.get_page`, which returns the last page, and so does `Paging.PageNumber`.
