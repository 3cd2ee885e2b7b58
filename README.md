# Admin dashboard core, modelled in Dafny

This project models the logic of a Next.js admin dashboard template:

- the generic data table: row selection, select-all, the tri-state header
  checkbox, the single expanded row, the bulk-action toolbar, full-width
  column spans and the page count;
- its pagination control;
- the list-data hook: query state, fetch parameters and key, the loading flag,
  and how fetched data is retained;
- the application store slice: user, drawer, global loading count;
- the per-component loading hook;
- the authentication middleware;
- the navigation layout's route matching and header title;
- the account-setting field editor;
- the blob-storage file uploader.

Every entity the source mutates in place is a Dafny `class`: the table's
state, the hook's query state, the store slice, the loading hook's ref, the
field editor, the uploader. Their methods carry `modifies` frames and
contracts that give the whole new state. Pure logic is modelled as functions
with lemmas.

Each source file is one module:

- `Values`: JavaScript values and truthiness, shared by all modules
- `TableTypes`: `types.ts`
- `FancyPantsPagination`: `FancyPantsPagination.tsx`
- `FancyPantsTable`: the table component
- `TableData`: `useTableData.ts`, with the filter model
- `AppSlice`: `app-slice.ts` and `useGlobalLoading.ts`
- `UseLoading`: `useLoading.ts`
- `Middleware`: `middleware.ts`
- `NavRoutes`: the route logic of `PersistentDrawerLeft.tsx`
- `FieldEditor`: `FieldEditor.tsx`
- `FileUploader`: `FileUploader.tsx`

Two cell spans of the table do not always match its header, and the model
keeps them as the code computes them. The empty-state row always spans
`columns.length + 1` cells, plus one for the actions column
(src/components/FancyPantsTable/index.tsx:394), whether or not a select-all
column exists. `FancyPantsTable.EmptyStateColSpan`
models the code, and `FancyPantsTable.EmptyStateSpansHeaderIff` states when
that span matches the header. The expanded-content row
spans `columns.length` cells plus one for actions and one for the expand cell
(src/components/FancyPantsTable/index.tsx:348-349). It leaves out the
select-all cell, so with one it is one cell short of the header.
`FancyPantsTable.ExpandedRowColSpan` states this.

Selection, select-all and expansion work on rows as values. The source
compares rows by reference with `indexOf`/`includes`; here rows are compared
by value.

## Model

| member | source | states |
|---|---|---|
| `Values.Truthy` | src/components/FancyPantsTable/index.tsx:151 | definition of JavaScript truthiness (no contract): `undefined`, `null`, `false`, `0` and `""` are falsy, all else truthy; every gate and `if (data)` test goes through it |
| `Values.TruthyString` | src/middleware.ts:17 | definition (no contract) of the truthiness of an optional string: present and not empty; used for the token, the slug and the title |
| `TableTypes.Field` | src/components/FancyPantsTable/types.ts:29-31 | definition (no contract) of `row[name]`: `id` gives the row's id, a stored field its value, any other name `undefined`; what this means for gating is stated by `FancyPantsTable.MissingGateFieldSelectsNothing` |
| `TableTypes.HasGate` | src/components/FancyPantsTable/index.tsx:221 | definition (no contract) of `!!selectableGateFieldName`: a gate field is given and not empty |
| `TableTypes.IsGated` | src/components/FancyPantsTable/index.tsx:151 | definition (no contract) of `r[selectableGateFieldName]` being truthy |
| `FancyPantsTable.IndexOf` | src/components/FancyPantsTable/index.tsx:131 | the result is -1 exactly when the row is absent; otherwise it is a position holding the row, with no earlier position holding it |
| `FancyPantsTable.RemoveAt` | src/components/FancyPantsTable/index.tsx:136-142 | definition (no contract): the selection without one position, the rest in order; its properties are `TogglePresentRemovesFirst` and `DistinctRemoveAt` |
| `FancyPantsTable.Toggle` | src/components/FancyPantsTable/index.tsx:131-143 | definition (no contract) of the reference toggle that `NewSelection` is proved equal to; its properties are the `Toggle…` lemmas below |
| `FancyPantsTable.NewSelection` | src/components/FancyPantsTable/index.tsx:131-142 | the four-branch construction of `newSelected` (append; drop the first; drop the last; splice out the middle) always equals the reference toggle |
| `FancyPantsTable.ToggleAbsentAppends` | src/components/FancyPantsTable/index.tsx:134-135 | toggling an unselected row appends it at the end and keeps the existing selection as its prefix |
| `FancyPantsTable.TogglePresentRemovesFirst` | src/components/FancyPantsTable/index.tsx:136-142 | toggling a selected row removes exactly its first occurrence: length minus one, multiset minus that row, all other elements in order |
| `FancyPantsTable.ToggleTwiceRestores` | src/components/FancyPantsTable/index.tsx:131-143 | toggling an unselected row twice gives back the original selection |
| `FancyPantsTable.DistinctRemoveAt` | src/components/FancyPantsTable/index.tsx:136-142 | removing one position keeps a duplicate-free selection duplicate-free, and the removed row is gone |
| `FancyPantsTable.DistinctAppend` | src/components/FancyPantsTable/index.tsx:134-135 | appending an absent row keeps the selection duplicate-free |
| `FancyPantsTable.ToggleFlipsMembership` | src/components/FancyPantsTable/index.tsx:131-143 | on a duplicate-free selection a toggle flips the clicked row's membership, leaves all other rows' membership alone and keeps the selection duplicate-free |
| `FancyPantsTable.GatedRows` | src/components/FancyPantsTable/index.tsx:151 | the filter keeps a row iff its gate field is truthy; each kept row keeps its multiplicity, and no rows are added (its row order is `GatedRowsAppend`) |
| `FancyPantsTable.GatedRowsAppend` | src/components/FancyPantsTable/index.tsx:151 | filtering a concatenation filters each part, so the kept rows stay in row order |
| `FancyPantsTable.GatedRowsSingleton` | src/components/FancyPantsTable/index.tsx:151 | a single row is kept iff its gate field is truthy |
| `FancyPantsTable.MissingGateFieldSelectsNothing` | src/components/FancyPantsTable/index.tsx:151 | a gate field no row carries (other than `id`) reads as `undefined`: select-all selects nothing and no row shows a checkbox |
| `FancyPantsTable.SelectAllUpdate` | src/components/FancyPantsTable/index.tsx:148-161 | the three cases: checked with a gate and loaded rows selects the gated rows in order; checked with a gate but no rows changes nothing; otherwise the selection is emptied |
| `FancyPantsTable.SelectAllSelectsExactlyGated` | src/components/FancyPantsTable/index.tsx:150-154 | after select-all, a row is selected iff it is among the rows and gated |
| `FancyPantsTable.HeaderIndeterminate` | src/components/FancyPantsTable/index.tsx:225-229 | definition (no contract) of the header's `indeterminate` test; stated by `HeaderCheckbox` |
| `FancyPantsTable.HeaderChecked` | src/components/FancyPantsTable/index.tsx:230-234 | definition (no contract) of the header's `checked` test; stated by `HeaderCheckbox` and `HeaderCheckedIffAllGatedSelected` |
| `FancyPantsTable.HeaderCheckbox` | src/components/FancyPantsTable/index.tsx:221-241 | the header checkbox exists iff a gate field is given. It is indeterminate iff 0 < selected < gated rows, and checked iff 0 < gated rows == selected. It is never both |
| `FancyPantsTable.DistinctSetCard` | src/components/FancyPantsTable/index.tsx:225-234 | a duplicate-free list has as many distinct elements as positions (the bridge from counts to members) |
| `FancyPantsTable.SubsetSameCardEqual` | src/components/FancyPantsTable/index.tsx:230-234 | a subset as large as its superset equals it |
| `FancyPantsTable.DistinctFilter` | src/components/FancyPantsTable/index.tsx:151 | filtering a duplicate-free row list keeps it duplicate-free |
| `FancyPantsTable.HeaderCheckedIffAllGatedSelected` | src/components/FancyPantsTable/index.tsx:230-234 | for duplicate-free rows and a duplicate-free selection of gated rows, the count-based `checked` holds iff there are gated rows and every one of them is selected |
| `FancyPantsTable.HeaderCountsNotMembers` | src/components/FancyPantsTable/index.tsx:230-234 | without those conditions the header only compares counts: a selection of the right size that misses the gated row still shows checked |
| `FancyPantsTable.SelectAllThenHeader` | src/components/FancyPantsTable/index.tsx:148-234 | right after select-all the header is checked iff there are gated rows, and never indeterminate |
| `FancyPantsTable.SelectNoneThenHeader` | src/components/FancyPantsTable/index.tsx:158-234 | right after deselect-all the header is neither checked nor indeterminate |
| `FancyPantsTable.RowCheckbox` | src/components/FancyPantsTable/index.tsx:272-299 | definition (no contract) of a row's checkbox: rendered only with a gate field and a truthy gate value, checked iff selected; its behaviour under the selection operations is the three lemmas below |
| `FancyPantsTable.SelectAllChecksGatedRows` | src/components/FancyPantsTable/index.tsx:148-299 | after select-all every gated row shows a checked checkbox and every other row shows none |
| `FancyPantsTable.SelectNoneUnchecksRows` | src/components/FancyPantsTable/index.tsx:158-299 | after select-none every gated row shows an unchecked checkbox and every other row shows none |
| `FancyPantsTable.ClickFlipsRowCheckbox` | src/components/FancyPantsTable/index.tsx:129-299 | on a duplicate-free selection a click on a gated row flips its checkbox and leaves every other row's checkbox as it was |
| `FancyPantsTable.RowExpanded` | src/components/FancyPantsTable/index.tsx:345 | definition (no contract): a row shows its expanded content iff its id is the expanded one; stated by `ExpandedRowsShareOneId` |
| `FancyPantsTable.ExpandedRowsShareOneId` | src/components/FancyPantsTable/index.tsx:311-345 | all rows showing expanded content share the one expanded id, so at most one id is ever expanded |
| `FancyPantsTable.HeaderCellCount` | src/components/FancyPantsTable/index.tsx:220-257 | definition (no contract) of the header's cell count: expand cell, select-all cell, one per column, actions cell, each when present; the reference for the two spans below |
| `FancyPantsTable.EmptyStateColSpan` | src/components/FancyPantsTable/index.tsx:394 | the empty-state span equals the header cell count of a table with exactly one of the expand cell and the select-all cell |
| `FancyPantsTable.ExpandedRowColSpan` | src/components/FancyPantsTable/index.tsx:345-350 | the expanded-content span equals the header cell count iff there is no select-all cell; with one, it is one cell short |
| `FancyPantsTable.EmptyStateSpansHeaderIff` | src/components/FancyPantsTable/index.tsx:394 | the empty-state row spans the whole header iff exactly one of the expand and select-all cells is present |
| `FancyPantsTable.PageCount` | src/components/FancyPantsTable/index.tsx:366-368 | the table's page count is the least number of full pages holding all items: zero for no items |
| `FancyPantsTable.HandlePageChange` | src/components/FancyPantsTable/index.tsx:164-171 | definition (no contract): with pagination configured a page change is forwarded to `onPageChange` once, otherwise nothing is called; stated by `TablePaginationIsControl` |
| `FancyPantsTable.TablePaginationIsControl` | src/components/FancyPantsTable/index.tsx:164-371 | the table's inline pagination behaves like the standalone control with the same props: same page count, same selected page, and a page change forwarded the same way; without pagination props a page change calls nothing |
| `FancyPantsTable.ToolbarHeading` | src/components/FancyPantsTable/index.tsx:57-65 | definition (no contract) of the toolbar heading: the count when something is selected, else a non-empty title, else nothing; its behaviour is stated by the toolbar lemmas below |
| `FancyPantsTable.ToolbarButtons` | src/components/FancyPantsTable/index.tsx:66-73 | definition (no contract) of the offered actions: all of them while something is selected; stated by the toolbar lemmas below |
| `FancyPantsTable.SelectAllToolbar` | src/components/FancyPantsTable/index.tsx:57-161 | after select-all the toolbar shows the number of gated rows and offers every action when there is a gated row; with none it shows no count and offers nothing |
| `FancyPantsTable.SelectNoneToolbar` | src/components/FancyPantsTable/index.tsx:57-161 | after select-none no count and no action show, and the title shows iff it is a non-empty string |
| `FancyPantsTable.ClickToolbar` | src/components/FancyPantsTable/index.tsx:57-143 | clicking an unselected row raises the shown count by one and offers every action; clicking the one selected row hides count and actions |
| `FancyPantsTable.ToolbarAgreesWithHeader` | src/components/FancyPantsTable/index.tsx:57-234 | while no more rows are selected than are gated, the toolbar shows a count iff the header checkbox is checked or indeterminate |
| `FancyPantsTable.TableState.constructor` | src/components/FancyPantsTable/index.tsx:94-95 | a table starts with no row expanded and an empty internal selection |
| `FancyPantsTable.TableState.Selected` | src/components/FancyPantsTable/index.tsx:112 | definition (no contract) of `_selected`: the caller's selection when supplied, else the internal one |
| `FancyPantsTable.TableState.Transparent` | src/components/FancyPantsTable/index.tsx:112-113 | definition (no contract): both selection props supplied or neither, the case in which `SetSelected` shows what it writes |
| `FancyPantsTable.TableState.SetSelected` | src/components/FancyPantsTable/index.tsx:112-113 | `_setSelected` writes the caller's selection when the setter is supplied, else the internal one. The shown selection becomes the written value when both props are supplied or neither is; otherwise the write is invisible |
| `FancyPantsTable.TableState.ToggleExpandRow` | src/components/FancyPantsTable/index.tsx:115-120 | clicking the expanded row's icon collapses it; clicking any other row's icon makes it the expanded one |
| `FancyPantsTable.TableState.HandleClick` | src/components/FancyPantsTable/index.tsx:129-146 | a row click writes the toggle of the shown selection through `_setSelected`, changing nothing else |
| `FancyPantsTable.TableState.HandleSelectAllClick` | src/components/FancyPantsTable/index.tsx:148-161 | the select-all change writes `SelectAllUpdate` through `_setSelected`, or writes nothing when the rows are not loaded |
| `FancyPantsTable.TableState.ClickSelectAction` | src/components/FancyPantsTable/index.tsx:38-73 | a toolbar button calls its action with the whole shown selection, which is not empty |
| `FancyPantsPagination.TotalPages` | src/components/FancyPantsTable/FancyPantsPagination.tsx:17 | the page count is the ceiling of items over page size: enough pages for all items, one page fewer would not be, and zero for no items |
| `FancyPantsPagination.TotalPagesUnique` | src/components/FancyPantsTable/FancyPantsPagination.tsx:17 | any count meeting the ceiling bounds is the page count |
| `FancyPantsPagination.Render` | src/components/FancyPantsTable/FancyPantsPagination.tsx:17-28 | the control shows the ceiling page count (no pages for no items) and passes the current page through unclamped |
| `FancyPantsPagination.HandleChange` | src/components/FancyPantsTable/FancyPantsPagination.tsx:19-24 | definition (no contract): a page change is forwarded to `onPageChange` once with the chosen page; stated by `FancyPantsTable.TablePaginationIsControl` |
| `FancyPantsPagination.CurrentPageNotClamped` | src/components/FancyPantsTable/FancyPantsPagination.tsx:28 | page 7 of a one-page list is still shown as the selected page |
| `FancyPantsPagination.HundredAndOneItems` | src/components/FancyPantsTable/FancyPantsPagination.tsx:17 | 101 items at 25 per page give 5 pages |
| `TableData.OperatorName` | src/models/EFilterOperator.ts:2-13 | definition (no contract): each operator's wire name is its enum value; that the names are distinct is `OperatorNamesDistinct` |
| `TableData.OperatorNamesDistinct` | src/models/EFilterOperator.ts:1-14 | distinct operators have distinct wire names |
| `TableData.IsLoading` | src/hooks/useTableData.ts:84 | definition (no contract) of `!data && !error` on the fetch result; stated by `ErrorWithoutDataIsNotLoading`, `DefaultStateIsLoading` and `SetPageThenParams` |
| `TableData.Retain` | src/hooks/useTableData.ts:76-82 | a truthy fetch result replaces the table data; anything else keeps it |
| `TableData.RetainAll` | src/hooks/useTableData.ts:78-82 | definition (no contract): the retention effect run over a series of fetch results; stated by `RetainAllNoTruthy` and `RetainAllIsLatestTruthy` |
| `TableData.RetainAllNoTruthy` | src/hooks/useTableData.ts:76-82 | after results that are all undefined the table keeps its initial data |
| `TableData.RetainAllIsLatestTruthy` | src/hooks/useTableData.ts:76-82 | after any series of fetch results the table shows the latest truthy one |
| `TableData.ErrorWithoutDataIsNotLoading` | src/hooks/useTableData.ts:76-84 | an error without data ends loading and leaves the table data untouched |
| `TableData.TableDataHook.constructor` | src/hooks/useTableData.ts:47-62 | each omitted initial value falls back to its default: page 1, 25 per page, no filters, empty sort; the table data starts as the first result |
| `TableData.TableDataHook.Params` | src/hooks/useTableData.ts:64-70 | the fetch parameters carry the five query fields |
| `TableData.TableDataHook.Key` | src/hooks/useTableData.ts:72 | the fetch key is the fetcher's name with the parameters |
| `TableData.TableDataHook.SetPage` | src/hooks/useTableData.ts:56 | sets the page and nothing else |
| `TableData.TableDataHook.SetItemsPerPage` | src/hooks/useTableData.ts:57 | sets the page size and nothing else |
| `TableData.TableDataHook.SetAppliedFilters` | src/hooks/useTableData.ts:59 | sets the filters and nothing else |
| `TableData.TableDataHook.SetAppliedSortBy` | src/hooks/useTableData.ts:60 | sets the sort field and nothing else |
| `TableData.TableDataHook.SetAppliedSortOrder` | src/hooks/useTableData.ts:62 | sets the sort order and nothing else |
| `TableData.TableDataHook.ObserveData` | src/hooks/useTableData.ts:78-82 | the retention effect sets the table data to `Retain` of its old value and the result |
| `TableData.KeyDeterminesQuery` | src/hooks/useTableData.ts:64-72 | two states with one fetch key agree on all five query fields, so any query change changes the key |
| `TableData.DefaultStateIsLoading` | src/hooks/__tests__/useTableData.test.ts:37-47 | a fresh hook with neither fetch data nor an error shows page 1, limit 25, no filters, sort by name ascending, and is loading |
| `TableData.SetPageThenParams` | src/hooks/__tests__/useTableData.test.ts:49-79 | with fetch data present the hook is not loading; after `setPage(2)` the fetch parameters are page 2, limit 25, no filters, sort by name ascending |
| `TableData.ChangePageSizeKeepsData` | src/hooks/__tests__/useTableData.test.ts:81-101 | after `setItemsPerPage(50)` the parameters are page 1, limit 50; the shown data survives a result that is not yet there |
| `AppSlice.DecrementedCount` | src/redux/slices/app-slice.ts:25 | the decrement is one less, but never below zero |
| `AppSlice.IncrementThenDecrement` | src/redux/slices/app-slice.ts:21-26 | an increment followed by a decrement restores any non-negative count |
| `AppSlice.DecrementTimes` | src/redux/slices/app-slice.ts:24-26 | definition (no contract): `decrementLoading` applied n times; stated by `DecrementTimesClamps` |
| `AppSlice.DecrementTimesClamps` | src/redux/slices/app-slice.ts:24-26 | n decrements from a count give the count minus n, clamped at zero |
| `AppSlice.AppState.constructor` | src/redux/slices/app-slice.ts:11-15 | the store starts with the user `null`, the drawer open and nothing loading |
| `AppSlice.AppState.Valid` | src/redux/slices/app-slice.ts:25 | definition (no contract) of the invariant the clamped decrement keeps: the count is never negative; kept by every reducer method |
| `AppSlice.AppState.GlobalLoading` | src/hooks/useGlobalLoading.ts:5 | definition (no contract): the app is loading iff the count is positive; `IncrementLoading` ensures it |
| `AppSlice.AppState.IncrementLoading` | src/redux/slices/app-slice.ts:21-23 | adds one to the count and keeps it non-negative; the app is then globally loading |
| `AppSlice.AppState.DecrementLoading` | src/redux/slices/app-slice.ts:24-26 | subtracts one, clamped at zero, and keeps the count non-negative |
| `AppSlice.AppState.SetUser` | src/redux/slices/app-slice.ts:28-30 | stores the payload as the user, `null` included, and changes nothing else |
| `AppSlice.AppState.ClearUser` | src/redux/slices/app-slice.ts:31-33 | sets the user to `null`, the same state `setUser(null)` leaves |
| `AppSlice.AppState.SetDrawerOpen` | src/redux/slices/app-slice.ts:34-36 | sets the drawer flag to the payload |
| `UseLoading.LoadingTracker.constructor` | src/hooks/useLoading.ts:11 | the ref starts as not loading |
| `UseLoading.EffectDispatches` | src/hooks/useLoading.ts:14-18 | the effect body increments exactly on a false-to-true change of the flag, decrements exactly on true-to-false, and does nothing otherwise |
| `UseLoading.CleanupDispatches` | src/hooks/useLoading.ts:24-28 | the cleanup decrements exactly when the ref says loading |
| `UseLoading.LoadingTracker.RunEffect` | src/hooks/useLoading.ts:13-21 | one effect run dispatches `EffectDispatches` of the old ref and the flag, then records the flag in the ref |
| `UseLoading.LoadingTracker.Cleanup` | src/hooks/useLoading.ts:24-28 | the cleanup as written decrements when the ref says loading and leaves the ref unchanged |
| `UseLoading.LoadingTracker.CleanupResetting` | src/hooks/useLoading.ts:24-28 | the corrected cleanup makes the same dispatch and then clears the ref |
| `UseLoading.Step` | src/redux/slices/app-slice.ts:21-26 | definition (no contract): one dispatch applied to the count, an increment or the clamped decrement |
| `UseLoading.ApplyAll` | src/redux/slices/app-slice.ts:21-26 | definition (no contract): a dispatch sequence applied in order; stated by `ApplyAllAppend` |
| `UseLoading.ApplyAllAppend` | src/redux/slices/app-slice.ts:21-26 | applying two dispatch sequences one after the other is applying their concatenation |
| `UseLoading.Reruns` | src/hooks/useLoading.ts:13-28 | definition (no contract): each change of the flag as written (React re-runs only on a change), the old cleanup reading the unchanged ref and then the new body |
| `UseLoading.Lifecycle` | src/hooks/useLoading.ts:13-28 | definition (no contract): mount, re-runs and unmount as written; stated by `LifecycleLosesOtherCount` |
| `UseLoading.LifecycleLosesOtherCount` | src/hooks/useLoading.ts:11-28 | as written, a component that loads and then stops dispatches one increment and two decrements, wiping another component's count |
| `UseLoading.CorrectedReruns` | src/hooks/useLoading.ts:13-28 | definition (no contract): the re-runs with the resetting cleanup, each body seeing a cleared ref |
| `UseLoading.CorrectedLifecycle` | src/hooks/useLoading.ts:13-28 | definition (no contract): mount, corrected re-runs and unmount; stated by `CorrectedLifecycleBalanced` |
| `UseLoading.CorrectedRerunsTrack` | src/hooks/useLoading.ts:11-28 | with the resetting cleanup, after any series of re-runs the count holds exactly the component's own contribution on top of everyone else's |
| `UseLoading.CorrectedLifecycleBalanced` | src/hooks/useLoading.ts:11-28 | with the resetting cleanup, a component's whole life leaves the global count where it found it |
| `Middleware.StartsWith` | src/middleware.ts:10 | definition (no contract) of `startsWith`: the path begins with the prefix |
| `Middleware.Decide` | src/middleware.ts:7-26 | `/api` and `/public` paths pass. Otherwise a visitor without a truthy token is sent to `/admin/login` iff not on `/login`, and a visitor with a token is sent to `/` iff on `/login` |
| `Middleware.PassesThrough` | src/middleware.ts:17-26 | without a token the login page passes; with one every page but the login page passes |
| `Middleware.DependsOnlyOnTruthiness` | src/middleware.ts:14-22 | an absent token and an empty one lead to the same decision |
| `Middleware.LoginRedirectLoops` | src/middleware.ts:17-18 | as written, the no-token redirect target is itself redirected to the same target, forever |
| `Middleware.DecideCorrected` | src/middleware.ts:17-18 | the corrected gate redirects only to `/login` or `/` |
| `Middleware.CorrectedRedirectSettles` | src/middleware.ts:17-24 | with the corrected target every redirect lands on a page that passes |
| `Middleware.CorrectedAgreesElsewhere` | src/middleware.ts:10-26 | the correction changes nothing but the no-token redirect target |
| `NavRoutes.Includes` | src/connected-components/PersistentDrawerLeft.tsx:32 | definition (no contract) of `includes` as a scan; stated by `IncludesIffOccurs` |
| `NavRoutes.IncludesIffOccurs` | src/connected-components/PersistentDrawerLeft.tsx:32 | the scanning `includes` holds iff the route occurs in the path at some position |
| `NavRoutes.IncludesItself` | src/connected-components/PersistentDrawerLeft.tsx:32 | every path includes itself |
| `NavRoutes.SortedByLengthDesc` | src/connected-components/PersistentDrawerLeft.tsx:29 | definition (no contract) of the order the comparator asks for: each route at least as long as the next |
| `NavRoutes.SortedPairwise` | src/connected-components/PersistentDrawerLeft.tsx:29 | routes sorted pair by neighbouring pair are sorted pair by pair |
| `NavRoutes.Insert` | src/connected-components/PersistentDrawerLeft.tsx:29 | inserting adds exactly the one route, and the result starts with it or with the old first route |
| `NavRoutes.InsertSorted` | src/connected-components/PersistentDrawerLeft.tsx:29 | insertion keeps the routes sorted longest first |
| `NavRoutes.SortByLengthDesc` | src/connected-components/PersistentDrawerLeft.tsx:29 | the sort is a permutation of the routes (its order is `SortIsSorted`, its stability `SortIsStable`) |
| `NavRoutes.SortIsSorted` | src/connected-components/PersistentDrawerLeft.tsx:29 | the sorted routes run from longest to shortest |
| `NavRoutes.SortSortedIsIdentity` | src/connected-components/PersistentDrawerLeft.tsx:29 | sorting routes already in order, ties included, changes nothing |
| `NavRoutes.SortIdempotent` | src/connected-components/PersistentDrawerLeft.tsx:29 | sorting twice is sorting once |
| `NavRoutes.WithLength` | src/connected-components/PersistentDrawerLeft.tsx:29 | definition (no contract): the routes of one length, in order; the measure of stability |
| `NavRoutes.InsertWithLength` | src/connected-components/PersistentDrawerLeft.tsx:29 | insertion puts the route before every route of its own length and reorders no routes of any one length |
| `NavRoutes.SortIsStable` | src/connected-components/PersistentDrawerLeft.tsx:29 | the sort is stable: the routes of any one length keep their relative order, as the stable `Array.prototype.sort` does |
| `NavRoutes.FirstMatch` | src/connected-components/PersistentDrawerLeft.tsx:31-36 | the scan finds nothing iff no route is in the path; what it finds is a route in the path |
| `NavRoutes.FirstMatchIsLongest` | src/connected-components/PersistentDrawerLeft.tsx:29-36 | over sorted routes the first match is at least as long as any match |
| `NavRoutes.RouteMatch` | src/connected-components/PersistentDrawerLeft.tsx:28-37 | definition (no contract) of the match without its side effect: the first match after sorting; stated by `RouteMatchIsLongest` |
| `NavRoutes.RouteMatchIsLongest` | src/connected-components/PersistentDrawerLeft.tsx:28-37 | the match is undefined iff no route is in the path; otherwise it is one of the routes, is in the path, and no matching route is longer |
| `NavRoutes.CopyInto` | src/connected-components/PersistentDrawerLeft.tsx:29 | the array ends up holding the given sequence |
| `NavRoutes.FindFirstMatch` | src/connected-components/PersistentDrawerLeft.tsx:31-36 | the early-return loop over the array returns the first match |
| `NavRoutes.GetRouteMatch` | src/connected-components/PersistentDrawerLeft.tsx:28-37 | sorts the caller's array in place and returns the match of the old contents |
| `NavRoutes.Find` | src/connected-components/PersistentDrawerLeft.tsx:45 | the lookup finds a route iff it is in the array, and returns that route |
| `NavRoutes.RouteLabel` | src/connected-components/PersistentDrawerLeft.tsx:44-46 | definition (no contract): the matched route's text, or empty; `GetRouteLabel` is proved to return it |
| `NavRoutes.RouteLabelAfterSort` | src/connected-components/PersistentDrawerLeft.tsx:218-240 | the label depends only on the sorted order, so a second lookup on the sorted array gives the same label |
| `NavRoutes.GetRouteLabel` | src/connected-components/PersistentDrawerLeft.tsx:43-46 | returns the matched route's text, or empty when nothing matches, and leaves the array sorted |
| `NavRoutes.ShouldHighlightNavItem` | src/connected-components/PersistentDrawerLeft.tsx:39-41 | definition (no contract): exact path equality; stated by `HighlightedItemMatches` |
| `NavRoutes.HighlightedItemMatches` | src/connected-components/PersistentDrawerLeft.tsx:39-41 | a highlighted nav item's route is in the path, so the header finds a match at least as long |
| `NavRoutes.HeaderTitle` | src/connected-components/PersistentDrawerLeft.tsx:239-240 | the title always starts with "Default" and is exactly "Default" iff the label is empty |
| `NavRoutes.LabelOfTitle` | src/connected-components/PersistentDrawerLeft.tsx:239-240 | definition (no contract): the text after "Default \| ", the inverse used by `HeaderTitleRoundTrip` |
| `NavRoutes.HeaderTitleRoundTrip` | src/connected-components/PersistentDrawerLeft.tsx:239-240 | the label can be read back from the title |
| `NavRoutes.HeaderTitleOf` | src/connected-components/PersistentDrawerLeft.tsx:216-240 | the title built from the memoised label and a second lookup is `HeaderTitle` of the label |
| `NavRoutes.AdminNavSection` | src/connected-components/PersistentDrawerLeft.tsx:127-133 | definition (no contract): the admin section's one entry, Products at `/products` |
| `NavRoutes.AdminSectionTitles` | src/connected-components/PersistentDrawerLeft.tsx:127-133 | with the admin section, a product page's title is "Default \| Products" and the home page's is "Default" |
| `FieldEditor.FieldKey` | src/components/forms/FieldEditor.tsx:15 | definition (no contract): each field's key is its name, the key of the update request |
| `FieldEditor.UpdateRequest` | src/components/forms/FieldEditor.tsx:70 | definition (no contract) of `{[fieldName]: value}` |
| `FieldEditor.UpdateRequestIdentifiesField` | src/components/forms/FieldEditor.tsx:70 | an update request holds exactly the field's key with the value, and two requests are equal iff they are for the same field with the same value |
| `FieldEditor.MatchesSlugPattern` | src/components/forms/FieldEditor.tsx:29 | definition (no contract) of `^[a-z0-9-]+$`; stated by `SlugPatternIff` |
| `FieldEditor.SlugPatternIff` | src/components/forms/FieldEditor.tsx:29 | the slug pattern accepts exactly the non-empty strings of lower-case letters, digits and hyphens |
| `FieldEditor.IsValid` | src/components/forms/FieldEditor.tsx:25-31 | a value is valid iff it is non-empty and, for the slug, every character is a lower-case letter, digit or hyphen |
| `FieldEditor.ValidityExamples` | src/components/forms/FieldEditor.tsx:25-31 | "my-account-1" is a valid slug and "My Account" is not; an empty value is invalid for every field |
| `FieldEditor.IsCurrencyChar` | src/components/forms/FieldEditor.tsx:85 | definition (no contract) of the character class `[0-9.-]` |
| `FieldEditor.CurrencyFilter` | src/components/forms/FieldEditor.tsx:85 | the filtered text is no longer than the input and holds only digits, points and minus signs |
| `FieldEditor.CurrencyFilterCounts` | src/components/forms/FieldEditor.tsx:85 | each allowed character is kept as often as it occurs; every other character is dropped |
| `FieldEditor.CurrencyFilterAppend` | src/components/forms/FieldEditor.tsx:85 | filtering a concatenation filters each part |
| `FieldEditor.CurrencyFilterKeepsAllowed` | src/components/forms/FieldEditor.tsx:85 | text made only of allowed characters passes unchanged |
| `FieldEditor.CurrencyFilterIdempotent` | src/components/forms/FieldEditor.tsx:85 | filtering twice is filtering once |
| `FieldEditor.CurrencyFilterIsSubsequence` | src/components/forms/FieldEditor.tsx:85 | the filtered text is a subsequence of the input |
| `FieldEditor.CurrencyFilterExample` | src/components/forms/FieldEditor.tsx:85 | "$1,234.50" is filtered to "1234.50" |
| `FieldEditor.IsEditing` | src/components/forms/FieldEditor.tsx:44 | definition (no contract) of `editField === fieldName`; stated by `AtMostOneEditing` |
| `FieldEditor.AtMostOneEditing` | src/components/forms/FieldEditor.tsx:44 | the parent's single edit field puts at most one editor in edit mode |
| `FieldEditor.Editor.constructor` | src/components/forms/FieldEditor.tsx:59-62 | the form starts with the passed-in value and no error |
| `FieldEditor.Editor.Editing` | src/components/forms/FieldEditor.tsx:44 | definition (no contract): this editor is the one being edited |
| `FieldEditor.Editor.EditButtonVisible` | src/components/forms/FieldEditor.tsx:94 | definition (no contract): the edit button shows iff not editing; `ClickEdit` and `Cancel` ensure its value |
| `FieldEditor.Editor.ClickEdit` | src/components/forms/FieldEditor.tsx:94-98 | clicking edit sets the edit field to this field, which is then editing with the button hidden |
| `FieldEditor.Editor.ChangeText` | src/components/forms/FieldEditor.tsx:114-116 | typing sets the form value |
| `FieldEditor.Editor.CurrencyChange` | src/components/forms/FieldEditor.tsx:84-88 | typing in the currency field sets the form value to the filtered text |
| `FieldEditor.Editor.Cancel` | src/components/forms/FieldEditor.tsx:79-82 | cancel resets the form to the passed-in value and ends edit mode |
| `FieldEditor.Editor.Submit` | src/components/forms/FieldEditor.tsx:68-77 | an invalid value shows the error and calls nothing. A valid one sends the request `{[fieldName]: value}`; on success it then refreshes and ends edit mode, and on failure it leaves edit mode as it was |
| `FieldEditor.Editor.FieldValueChanged` | src/components/forms/FieldEditor.tsx:64-66 | a new passed-in value resets the form to it |
| `FieldEditor.EditThenSave` | src/components/forms/__tests__/FieldEditor.test.tsx:46-57 | edit, type, save: the update request is `{name: "Updated Account"}`, then refresh, then leave edit mode |
| `FieldEditor.EditThenCancel` | src/components/forms/__tests__/FieldEditor.test.tsx:59-67 | edit, type, cancel: the passed-in value is back and edit mode has ended |
| `FileUploader.PutTarget` | src/components/FileUploader.tsx:46 | definition (no contract) of the PUT target `url/slug?token` |
| `FileUploader.FileUrl` | src/components/FileUploader.tsx:53 | definition (no contract) of the reported URL `url/slug` |
| `FileUploader.UploadEffects` | src/components/FileUploader.tsx:32-61 | definition (no contract) of the whole handler's events; `HandleFileChange` is proved to produce them and the lemmas below state them |
| `FileUploader.FileUrlIsPutTargetWithoutToken` | src/components/FileUploader.tsx:46-53 | the PUT target is `url/slug?token`, and the reported URL is that target with `?token` removed from the end |
| `FileUploader.NothingWithoutTokenOrFile` | src/components/FileUploader.tsx:33-35 | without token data or without a file the handler does nothing, not even touch the busy flag |
| `FileUploader.UploadIsBracketed` | src/components/FileUploader.tsx:36-59 | once started, the handler sets the flag first and clears it last, touching it nowhere else. The event just before clearing is its single outcome, success or alert |
| `FileUploader.EmptySlugAlerts` | src/components/FileUploader.tsx:42-59 | an empty slug, or a slugifier that throws, raises the alert, with no PUT and no success callback |
| `FileUploader.PutOutcomes` | src/components/FileUploader.tsx:44-56 | with a slug, the file is PUT as a block blob of its own type to the token URL. Success reports the token-free URL; failure alerts and reports nothing |
| `FileUploader.Uploader.constructor` | src/components/FileUploader.tsx:24-27 | the control starts not uploading |
| `FileUploader.Uploader.InputDisabled` | src/components/FileUploader.tsx:70 | definition (no contract): the input is disabled while uploading or when the caller disables it |
| `FileUploader.Uploader.ShowsUploading` | src/components/FileUploader.tsx:73 | definition (no contract): "Uploading..." shows while uploading |
| `FileUploader.Uploader.Start` | src/components/FileUploader.tsx:32-51 | up to the awaited PUT: the guard, the flag, the slug and the request. A throwing slugifier or an empty slug ends the handler here with the flag cleared; otherwise the PUT is pending with the flag set, so the input is disabled and "Uploading..." shows |
| `FileUploader.Uploader.Finish` | src/components/FileUploader.tsx:53-59 | after the PUT settles: report or alert, then clear the flag |
| `FileUploader.Uploader.HandleFileChange` | src/components/FileUploader.tsx:32-61 | the whole handler produces `UploadEffects`, leaves the flag untouched when it does nothing, and leaves it cleared otherwise |
| `FileUploader.UploadExample` | src/components/__tests__/FIleUploader.test.tsx:48-71 | the worked upload of `test.png` PUTs to `…/slugified-test.png?sas-token` and reports `…/slugified-test.png` |
| `FileUploader.DisabledControl` | src/components/FileUploader.tsx:70 | a control created disabled has its input disabled |

## Left out

- React rendering and scheduling, MUI layout and styling, icons and tooltips are not modelled. Effects are explicit method calls, in the order React runs them.
- SWR, axios, yup and react-hook-form are libraries. Fetch results and the PUT outcome are inputs, and yup's rules are the predicates they encode.
- `src/utils/slugifyFileName.ts` is not part of this model. The slugifier is a function parameter that returns the slug, or `None` when it throws. A throw ends like an empty slug: the alert, then the flag cleared.
- `console.error` in the field editor's failure path is not modelled.
- Numbers are mathematical integers. `Math.ceil` on floating point becomes integer ceiling division, with a positive page size required. The source divides by zero when the page size is 0; that case is not modelled.
- Rows are compared by value. The source's `indexOf`/`includes` compare by reference, so two equal but distinct row objects behave differently there.
- A table cell's rendered text (`String(value)` or a custom renderer) is not modelled; a column only records whether it has a renderer.
- The middleware's `config.matcher` pattern and the cookie store are not modelled. The decision takes the path and an optional token.
- The navigation layout's delayed loader timer (`setTimeout`/`clearTimeout`), the drawer markup and the store dispatch wiring are timing and UI, and are left out.
- `useFetcher.ts`, the commented-out `FilterSortDrawer.tsx`, `swrKeyStore.ts` and the other DTO models hold no logic beyond calls and types.
- TableData.Retain: any falsy fetch result (`null`, `0`, `""`) is modelled as no result, like `undefined`.
- FancyPantsTable.TableState: whether `selected` and `setSelected` are supplied is fixed for the component's life.
- FileUploader.Uploader.HandleFileChange: the success callback is assumed to return normally; an exception thrown by it would also reach the alert.
- NavRoutes.SortByLengthDesc: a route's length is its number of Unicode scalar values, while JavaScript's `.length` (src/connected-components/PersistentDrawerLeft.tsx:29) counts UTF-16 code units; the two agree on the ASCII admin routes.
- The busy flag of the uploader feeds the loading hook (src/components/FileUploader.tsx:28). That edge is covered by the `UseLoading` model rather than composed here.

## Findings

| source | as written | input that shows it | evidently intended | confidence | as-written member | corrected member |
|---|---|---|---|---|---|---|
| src/middleware.ts:17-18 | a visitor without a token is redirected to `/admin/login`; but no base path is configured and the login page lives at `/login`, so `/admin/login` is itself gated | no cookie, any path other than `/login`, e.g. `/products`: redirect to `/admin/login`, which redirects to `/admin/login` again | redirect to `/login`, the one path the gate lets through without a token | not executed | `Middleware.LoginRedirectLoops` | `Middleware.CorrectedRedirectSettles` |
| src/hooks/useLoading.ts:24-28 | the cleanup decrements when the ref says loading but never clears the ref, so on a true-to-false change the cleanup and then the new body both decrement | a component whose flag goes true then false while another component is loading: count 1 → 2 → 1 → 0 | each increment paired with exactly one decrement | not executed | `UseLoading.LifecycleLosesOtherCount` | `UseLoading.CorrectedLifecycleBalanced` |
