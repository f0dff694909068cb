# Dashboard state model

A Dafny model of the state behind the widget dashboard in `src/Dashboard.js`:
an ordered list of categories, each holding an ordered list of widgets, plus
three pieces of drawer state (whether the drawer is open, which category is
expanded in it, and the text typed into each category's "add widget" field).
Every event handler of the component is modelled as a pure function from the
state before the user action to the state after it, and the widget body
renderer as a function to an abstract rendering (`FixedChart`, `WidgetChart`
or `Text`).

Modules:

- `Wrappers` (wrappers.dfy): `Option`, and map lookup where an absent key reads as `None`, like a missing object property.
- `Slug` (slug.dfy): the widget id derived from a typed name, `toLowerCase()` followed by replacing every `\s+` run with `-`. `\s` is the full ECMAScript whitespace and line-terminator set.
- `Decimal` (decimal.dfy): decimal numerals, for the numbers written into new category ids and names.
- `Model` (model.dfy): `Widget`, `Category`, and a `Json` value for seed chart payloads. The widget's `type` property is the field `kind`, because `type` is a Dafny keyword.
- `Categories` (categories.dfy): the two list rewrites the handlers use. `UpdateMatching` is the `map` that rewrites every category with a given id. `DropIndex` is the `filter` by position. This module also holds the new-category constructor and the id invariant.
- `Dashboard` (dashboard.dfy): the state, the six handlers, and lemmas relating them.
- `Render` (render.dfy): the first-match-wins widget renderer.
- `Scenarios` and `Literals` (scenarios.dfy): worked examples of derived ids and an end-to-end run of the handlers.

Two behaviours of the code are kept as written:

- The add-widget guard is JavaScript truthiness on the pending text. A whitespace-only name is therefore accepted. Its id is `-` (`Slug.SlugifyAllSpace`).
- Nothing makes category or widget ids unique. Every handler rewrites every category whose id matches.

Two properties one might expect do not hold of the code, and the model proves what does hold instead:

- A widget added through the drawer does not always render as text. Its id is derived from its name, so typing "Cloud Accounts" produces the id `cloud-accounts`, and that widget renders the hard-wired two-slice chart (`Scenarios.AddedCloudAccountsShowsChart`, `Render.AddedWidgetRendering`).
- Category ids are not unique at all times. Take a seed whose ids are unique. Every sequence of user actions keeps them unique exactly when no seed id is a generated id `category-<k>` with k greater than the seed's length (`Dashboard.IdsStayUniqueExactly`). If such an id is present, enough clicks on "Add New Category" generate it a second time (`Categories.FutureAutoIdCollides`, and the concrete case `Categories.GeneratedIdCanCollide`).

## Model

| member | source | states |
|---|---|---|
| Dashboard.Init | src/Dashboard.js:38-41 | on mount the categories are the seed, the drawer is closed, nothing is expanded and every field reads as empty |
| Dashboard.PendingText | src/Dashboard.js:210 | a field with no entry shows the empty string; otherwise it shows the stored text |
| Dashboard.DrawerToggle | src/Dashboard.js:43-45 | the drawer flag flips and nothing else in the state changes |
| Dashboard.DrawerToggleInvolutive | src/Dashboard.js:43-45 | toggling the drawer twice gives back the original state |
| Dashboard.CategoryToggle | src/Dashboard.js:47-49 | after a header click nothing is expanded exactly when that category was the expanded one; otherwise only the clicked id is expanded; the rest of the state is unchanged |
| Dashboard.ClicksExpandLast | src/Dashboard.js:47-49 | after any non-empty sequence of header clicks, either nothing is expanded or exactly the last-clicked id is; nothing else changes |
| Dashboard.CategoryToggleScenarios | src/Dashboard.js:47-49 | clicking a header twice collapses it unless it was already expanded; clicking one header then another always leaves the second expanded |
| Dashboard.InputChange | src/Dashboard.js:51-53 | typing sets the named field to the new text, adds only that key, and leaves every other entry and the rest of the state unchanged |
| Dashboard.NewWidget | src/Dashboard.js:62 | the added widget keeps the raw name, has empty content and no chart fields. Its id is the slug of the name (see the Slug rows), so it has no whitespace, no upper-case ASCII letter, and is empty only for an empty name |
| Dashboard.InputLastWriteWins | src/Dashboard.js:51-53 | typing into the same field twice leaves the state as if only the second text had been typed |
| Dashboard.TypeThenAdd | src/Dashboard.js:51-69 | typing a non-empty name and then adding appends the widget built from exactly that name to every category with the id, leaves other categories alone, and empties the field |
| Dashboard.ClearThenAddIsNoOp | src/Dashboard.js:51-69 | after the field is cleared, adding changes nothing |
| Dashboard.AddWidget | src/Dashboard.js:55-69 | an absent or empty entry leaves the whole state unchanged. Otherwise every category with that id gains exactly the new widget at the end, keeping its id, name and earlier widgets. Other categories, the list length and the flags are unchanged. The entry becomes the empty string even when no category matched, and other entries are untouched |
| Dashboard.AddWidgetTwice | src/Dashboard.js:55-69 | a second add on the same category adds nothing, because the first one emptied its field |
| Dashboard.AddWidgetTotal | src/Dashboard.js:58-66 | the number of widgets grows by exactly the number of categories carrying that id |
| Dashboard.RemoveWidget | src/Dashboard.js:71-78 | in every category with that id, exactly position i is removed and the other widgets keep their order. An out-of-range i leaves that list equal. Categories with other ids and the rest of the state are unchanged |
| Dashboard.AddThenRemoveRestores | src/Dashboard.js:55-78 | removing the just-appended position after an add restores the category list, when the matching categories had equal lengths |
| Dashboard.RemoveOutOfRangeIsNoOp | src/Dashboard.js:71-78 | a position outside every matching category's list leaves the state value-equal |
| Dashboard.UnknownCategoryIsNoOp | src/Dashboard.js:55-78 | an id no category carries leaves the category list unchanged under both add and remove |
| Dashboard.AddCategory | src/Dashboard.js:80-89 | the list grows by one and keeps its first n categories. The new last category has no widgets. Its id is "category-" followed by the decimal numeral of the new length, and its name is "New Category " followed by the same numeral. The number after each prefix reads back as the new length |
| Dashboard.ApplyKeepsWellFormed | src/Dashboard.js:43-89 | each of the six handlers keeps category ids unique and keeps every generated id `category-k` in the list at k no greater than the list length |
| Dashboard.RunKeepsIdsUnique | src/Dashboard.js:43-89 | from a well-formed seed, no sequence of user actions produces two categories with the same id |
| Dashboard.IdsStayUniqueExactly | src/Dashboard.js:43-89 | for a seed with unique ids, every action sequence keeps ids unique if and only if no seed id is a generated id numbered above the seed length; otherwise some number of "Add New Category" clicks produces a duplicate |
| Dashboard.RunAddCategories | src/Dashboard.js:80-89 | running m add-category clicks appends the m generated categories one after another |
| Categories.UpdateMatching | src/Dashboard.js:58-65 | mapping over the list preserves its length. A category with another id is unchanged. A matching category keeps its id and name and has its widget list rewritten |
| Categories.UpdateMatchingKeepsWellFormed | src/Dashboard.js:72-76 | rewriting widget lists leaves the sequence of category ids, and therefore the id invariant, unchanged |
| Categories.UpdateMatchingGrowsTotal | src/Dashboard.js:58-65 | a rewrite that lengthens each widget list by one adds one widget per matching category to the total |
| Categories.DropIndex | src/Dashboard.js:74 | filtering by index with an in-range i yields one fewer element. Elements before i stay in place and elements after i shift down by one. Any other i, negative or too large, returns the list unchanged |
| Categories.DropIndexSplit | src/Dashboard.js:74 | removing position i equals cutting the list into the part before i and the part after i |
| Categories.DropIndexMultiset | src/Dashboard.js:74 | removing position i takes out exactly one copy of that element, so nothing else is lost or gained |
| Categories.NewCategory | src/Dashboard.js:82-87 | the new category has no widgets. Its id is "category-" followed by the shortest decimal numeral of n + 1, and its name is "New Category " followed by the same numeral. The number after each prefix reads back as n + 1 |
| Categories.AutoIdFresh | src/Dashboard.js:82 | when no id is a generated id numbered above the list length, the id about to be generated is carried by no existing category |
| Categories.AppendNewKeepsWellFormed | src/Dashboard.js:82-88 | appending the generated category keeps ids unique and keeps every generated id numbered no higher than the new length |
| Categories.AppendNewTimesShape | src/Dashboard.js:82-88 | after m adds, the list has m more categories, its first categories are unchanged, and the last one added has id "category-" followed by the numeral of the new length |
| Categories.FutureAutoIdCollides | src/Dashboard.js:82-88 | a category carrying "category-k" with k above the list length is duplicated once the list has been grown to length k |
| Categories.GeneratedIdCanCollide | src/Dashboard.js:82-88 | a seed whose only category is "category-2" produces a duplicate id on the next add |
| Decimal.Show | src/Dashboard.js:82-85 | the numeral of a number is non-empty, all digits, with no leading zero except for 0 itself |
| Decimal.ParseShow | src/Dashboard.js:82-85 | reading back the numeral of n gives n |
| Decimal.ShowInjective | src/Dashboard.js:82-85 | two numbers have the same numeral exactly when they are equal, so generated ids differ for different lengths |
| Slug.IsSpaceTable | src/Dashboard.js:62 | the whitespace predicate used for `\s` accepts exactly the 25 ECMAScript WhiteSpace and LineTerminator code points, listed one by one |
| Slug.Lower | src/Dashboard.js:62 | lower-casing leaves no upper-case ASCII letter, maps each of A-Z to its lower-case letter, keeps every other character, and keeps a character whitespace exactly when it was whitespace |
| Slug.LowerAll | src/Dashboard.js:62 | `toLowerCase` on the whole name leaves no upper-case ASCII letter, keeps whitespace exactly at the positions where it was, and leaves a name already in lower case unchanged |
| Slug.DropSpaces | src/Dashboard.js:62 | skipping the leading whitespace run leaves something no longer than the input. It is empty or starts with a non-whitespace character, and it is strictly shorter when the input starts with whitespace |
| Slug.DropSpacesSplit | src/Dashboard.js:62 | the input is exactly the skipped part followed by what DropSpaces keeps, and every skipped character is whitespace |
| Slug.Slugify | src/Dashboard.js:62 | the id is no longer than the name and is empty exactly when the name is |
| Slug.SlugifyClean | src/Dashboard.js:62 | the id contains no whitespace character and no upper-case ASCII letter |
| Slug.SlugScan | src/Dashboard.js:62 | a left-to-right scan that emits '-' only for the first character of each whitespace run computes the same id as the run-by-run definition |
| Slug.SlugifyAllSpace | src/Dashboard.js:57-62 | any non-empty name made only of whitespace passes the guard's truthiness test and becomes the id "-" |
| Slug.SlugifyNoSpace | src/Dashboard.js:62 | a name without whitespace yields exactly its lower-case form |
| Slug.SlugifyIdempotent | src/Dashboard.js:62 | deriving an id from an id changes nothing |
| Slug.SlugifyAppend | src/Dashboard.js:62 | cutting a name at a point that does not split a whitespace run cuts its id at the matching point |
| Render.RenderWidget | src/Dashboard.js:91-158 | a widget whose id is in the table of hard-wired charts renders that chart. Otherwise a widget of type "donut" renders its own data and options. Anything else renders its content as text |
| Render.FixedChartIgnoresFields | src/Dashboard.js:92-148 | two widgets sharing a hard-wired id render identically whatever their other fields, and the chart has one value per label |
| Render.TextShowsContent | src/Dashboard.js:150-158 | a text rendering shows the content verbatim and happens only when the id is not hard-wired and the type is not "donut" |
| Render.AddedWidgetRendering | src/Dashboard.js:91-158 | a widget added through the drawer renders as empty text exactly when its derived id is not hard-wired; otherwise it renders that fixed chart |
| Scenarios.CloudAccountsSlug | src/Dashboard.js:62 | "Cloud Accounts" becomes "cloud-accounts" |
| Scenarios.MyWidgetSlug | src/Dashboard.js:62 | "My  Widget" becomes "my-widget": the two-space run collapses to one '-' |
| Scenarios.WordWidget | src/Dashboard.js:62 | "Widget" becomes "widget" |
| Scenarios.TestOneSlug | src/Dashboard.js:62 | "Test One" becomes "test-one" |
| Scenarios.NotTrimmed | src/Dashboard.js:62 | " a " becomes "-a-": leading and trailing whitespace is replaced, not trimmed |
| Scenarios.AddedCloudAccountsShowsChart | src/Dashboard.js:92-119 | a widget added under the name "Cloud Accounts" renders the hard-wired two-slice chart with values 2 and 2 |
| Scenarios.AddThenRemoveFirst | src/Dashboard.js:51-78 | seeded with one category "cloud", typing "Test One" then adding gives two widgets, the second with id "test-one" and empty content, and an empty field. Removing position 0 then leaves only the added widget, which renders as empty text |

## Left out

- Layout, MUI components, icons, the Drawer and Collapse animation, and the inert refresh button (src/Dashboard.js:161-271): presentation only.
- Chart.js registration, the doughnut drawing, colour palettes and options objects of the two hard-wired charts (src/Dashboard.js:25-35, 93-147): foreign library calls and styling. Only the chosen rendering, the labels and the values are modelled.
- The seed file `widgetsData.json` is not part of this model: the initial categories are an arbitrary input list.
- React `useState` and closure semantics: each handler is a pure function of the latest state. Batching of several updates in one event and stale closures are not modelled.
- src/Navabr..js: stateless markup whose search, notification and profile controls have no behaviour.
- Slug.Lower: lower-cases only the ASCII letters A-Z, while `toLowerCase` follows full Unicode case mapping. That mapping can also change a string's length. The Unicode case tables are outside this model.
- Chart payload numbers are integers, not IEEE doubles. The chart payload is passed through uninterpreted, so nothing depends on its numbers.
- The pending-text map is a plain map. A JavaScript object also inherits keys such as `constructor` from its prototype. A category with such an id would read a function there, not `undefined`, and the add handler would then throw. This is not modelled.
- A seed widget whose `content`, `id` or `type` is missing or not a string is not modelled: each is a string here, with `type` optional.
- The remove handler compares positions with strict inequality. It is only ever called with a numeric index, so the index is an integer here.
- A seed category without a `widgets` array is not modelled. The view guards against one (src/Dashboard.js:191, 230). Adding a widget to such a category throws while building the new list (src/Dashboard.js:62), so neither the categories nor the field change. Here every category holds a list.
- Category ids are strings here. In the source a non-string id and its string form share one field entry, because object keys are coerced to strings (src/Dashboard.js:52, 56). The category match uses strict equality (src/Dashboard.js:59) and still tells them apart. This is not modelled.
- Duplicate widget ids clash as React list keys; that is a rendering concern and is not modelled.
