# Random menu: a verified model of the recipe picker

The application is a single React component, `App` (App.tsx). It offers a
built-in catalog of 28 Chinese home-cooking recipes (data.ts) and the user's
own recipes, kept in local storage. Its screens:

- a "random" screen that spins through the merged catalog for 15 ticks and
  lands on one dish;
- a "filter" screen that searches the catalog by keywords (AND semantics,
  substring match on the lower-cased name and ingredients);
- an "explore" screen that asks a remote language model for dish ideas or
  cooking instructions.

A recipe on show can be expanded with AI-written cooking instructions. Users
can add recipes through a form, adopt an AI-suggested dish as a custom recipe,
and delete custom recipes after a confirmation dialog.

The model has six modules:

- `Types` (types.dfy): the `Recipe` record and the three modes.
- `Data` (data.dfy): the built-in catalog, constant by constant, written as its
  four category blocks (beef, pork, chicken, vegetables). The lemmas state its
  layout: ids, categories, block contiguity and id uniqueness.
- `Text` (text.dfy): the JavaScript string operations the component relies on.
  These are `toLowerCase`, `trim`, `includes`, `join`, `split(' ')`, and
  `split` on a regular expression that matches runs of separators (`/\s+/`,
  `/[，, ]+/`). Their properties are proved: the shape of the pieces; for
  `split(' ')`, that joining the pieces gives the text back; for a split on
  runs, that joining the pieces with one separator gives the text with every
  run squeezed to that separator, and that no other separator-free pieces do;
  and the substring characterisation of `includes`.
- `Catalog` (catalog.dfy): the views over the merged list. These are the merge,
  keyword search, grouping by category (a method with a loop, as the `reduce`
  is), the category icon, lookup by name, removal by id, ingredient parsing,
  and the two kinds of new custom recipe.
- `Session` (session.dfy): the component's state as one value (`State`, one
  field per `useState` slot) and every handler as a transition on it. The
  properties of the handlers are proved here.
- `Controller` (app.dfy): class `App` holds the same slots as fields, with one
  method per handler that updates the fields in place.
  - Each method's `modifies` clause names the slots the handler may set.
  - Its `ensures` ties the new fields to the `Session` transition of the same
    name.
  - The methods that add or delete recipes also keep the merged ids unique.

Calls to the remote model are taken as settled. A handler that sends a request
receives the reply it ends with as a parameter (`HelpReply`, `ExploreReply`).
The other values the source draws from outside are parameters too:
- the generated ids (`Date.now()` and `Math.random()`);
- the random indices of the spin;
- the stored text and key read at start-up;
- `JSON.parse`.

The model follows the code in these details, each of which can be misread:

- The code splits a query with `split(/\s+/)`. So a query with leading or
  trailing whitespace also yields an empty keyword, which every recipe
  contains (`SurroundingSpaceGivesEmptyKeyword`). That the results are then
  those of the trimmed query is not proved here.
- `confirmDelete` tests `if (recipeToDelete)`, so a pending empty id is
  treated as no pending id.
- The AI-suggestion lookup searches only the user list, so a built-in dish is
  adopted as a new custom copy (`SuggestionIgnoresBuiltIns`).
- `switchMode` clears the explore results on entering EXPLORE, not on leaving
  it (App.tsx:255-257, `Session.SwitchMode`).

## Model

| member | source | states |
|---|---|---|
| Data.IdLayout | data.ts:4-40 | the catalog has 28 entries, and the id at each position is the block letter (b, p, c, v) followed by the one-based position within the block |
| Data.CategoryLayout | data.ts:4-40 | the category at each position is the category of its block: beef 0-7, pork 8-13, chicken 14-18, vegetables 19-27 |
| Data.PepperBeef | data.ts:7 | entry b2 is 青椒炒牛肉, with ingredients 牛肉 and 青椒 |
| Data.MapoTofu | data.ts:38 | entry v8, at position 26, is 麻婆豆腐 |
| Data.DistinctIds | data.ts:4-40 | no two built-in recipes share an id |
| Data.IdShape | data.ts:4-40 | every built-in id is a block letter plus a digit 1-9, so none starts with the `user-` or `ai-` prefix of generated ids |
| Data.NoneCustom | data.ts:4-40 | no built-in recipe carries the custom flag, so none is offered for deletion |
| Data.NamesNonEmpty | data.ts:4-40 | every built-in recipe has a non-empty name |
| Data.TwoIngredients | data.ts:4-40 | every built-in recipe lists at least two ingredients |
| Data.KnownCategories | data.ts:4-40 | every built-in category is one of the four block categories |
| Data.BlockCategoriesDistinct | data.ts:5-30 | the four block categories are pairwise different |
| Data.Contiguous | data.ts:4-40 | the recipes of one category are contiguous in the catalog |
| Text.ToLower | App.tsx:128 | lower-casing keeps the length, maps each character independently, and leaves no capital letter |
| Text.ToLowerKeeps | App.tsx:128 | text without capitals is unchanged by lower-casing |
| Text.TrimEmptyIffBlank | App.tsx:124 | `!s.trim()` holds exactly when `s` consists of whitespace only |
| Text.TrimStart | App.tsx:124 | the leading whitespace is dropped: the result is a suffix that starts with no whitespace, and what was dropped is all whitespace |
| Text.TrimEnd | App.tsx:124 | the trailing whitespace is dropped: the result is a prefix that ends with no whitespace, and what was dropped is all whitespace |
| Text.ContainsIff | App.tsx:131 | `text.includes(word)` holds exactly when `word` occurs at some position of `text` |
| Text.ToLowerKeepsContains | App.tsx:130-131 | a word without capitals found in a text is still found in its lower-cased form |
| Text.ToLowerAddsNoChar | App.tsx:130 | lower-casing introduces no character other than a lower-case ASCII letter |
| Text.JoinContainsPart | App.tsx:130 | each joined piece occurs in the joined text |
| Text.JoinAddsNoChar | App.tsx:130 | the joined text holds no character found in neither the pieces nor the separator |
| Text.SplitOn | App.tsx:204 | `split(' ')` yields at least one piece, and no piece holds the separator |
| Text.JoinSplitOn | App.tsx:204 | joining the pieces of `split(c)` with `c` gives the text back |
| Text.SkipRun | App.tsx:128 | skipping a run of separators leaves a proper suffix that starts with no separator, and everything skipped is a separator |
| Text.SplitRuns | App.tsx:128 | splitting on runs of separators yields at least one piece |
| Text.SplitRunsShape | App.tsx:128 | splitting on runs: no piece holds a separator, middle pieces are non-empty, the first (last) piece is empty iff the text is empty or starts (ends) with a separator, and there is one piece iff the text has no separator |
| Text.SplitRunsPair | App.tsx:128 | two separator-free words around one separator split into exactly those two words |
| Text.SplitRunsNone | App.tsx:128 | a text without separators splits into itself alone |
| Text.SplitRunsKeeps | App.tsx:128 | the pieces, concatenated, are the text minus its separators: no character is lost or invented |
| Text.SplitRunsJoin | App.tsx:128 | joining the pieces with one separator character gives the text with every run of separators squeezed to that character |
| Text.SplitRunsUnique | App.tsx:128 | the pieces are the only list of separator-free pieces whose join with a separator character is the squeezed text, so with `Text.SplitRunsJoin` they are pinned exactly |
| Text.JoinInjective | App.tsx:130 | joining non-empty lists of pieces that do not hold the separator character is injective |
| Text.Contains | App.tsx:131 | no contract; `Text.ContainsIff` states what `includes` means |
| Text.Join | App.tsx:130 | no contract; see `Text.JoinContainsPart`, `Text.JoinAddsNoChar`, `Text.JoinSplitOn`, `Text.SplitRunsJoin` |
| Text.Trim | App.tsx:124 | no contract; see `Text.TrimStart`, `Text.TrimEnd`, `Text.TrimEmptyIffBlank` |
| Catalog.Filter | App.tsx:129 | `filter` keeps exactly the elements satisfying the predicate |
| Catalog.FilterCounts | App.tsx:129 | `filter` keeps each passing element as many times as the input has it, and no failing one |
| Catalog.FilterSublist | App.tsx:129 | `filter` keeps the input's order |
| Catalog.Merged | App.tsx:84-86 | the merged list is the built-in catalog followed by the user list |
| Catalog.MergedUnique | App.tsx:84-86 | the merged ids are unique iff the user ids are unique and none is a built-in id |
| Catalog.PrependFreshKeepsUnique | App.tsx:209 | putting a recipe with a fresh id in front of the user list keeps the merged ids unique |
| Catalog.SublistKeepsMergedUnique | App.tsx:239 | removing user entries keeps the merged ids unique |
| Catalog.SearchText | App.tsx:130 | no contract; the text that `Catalog.SearchResultsSpec` searches |
| Catalog.Keywords | App.tsx:128 | no contract; see `Catalog.KeywordsJoin`, `Catalog.KeywordsPair`, `Catalog.SurroundingSpaceGivesEmptyKeyword` |
| Catalog.KeywordsJoin | App.tsx:128 | joined with single spaces, the keywords give the lower-cased query with every whitespace run squeezed to one space, and no keyword holds whitespace |
| Catalog.SearchResults | App.tsx:129-132 | no contract; see `Catalog.SearchResultsSpec` |
| Catalog.SearchResultsSpec | App.tsx:128-132 | a recipe is found iff every keyword of the query is a substring of its lower-cased name and ingredients joined by spaces; the results keep the catalog's order and multiplicities |
| Catalog.SurroundingSpaceGivesEmptyKeyword | App.tsx:128 | a query with leading or trailing whitespace yields an empty keyword, which every recipe's text contains |
| Catalog.KeywordsPair | App.tsx:128 | two lower-case words around one space are exactly the two keywords |
| Catalog.FoundByTwoIngredients | App.tsx:128-132 | a query made of two of a recipe's own ingredients finds the recipe |
| Catalog.MissedByForeignWord | App.tsx:128-132 | any keyword of the query, at any position, that starts with a character other than a lower-case ASCII letter and whose first character occurs in neither the name nor any ingredient excludes the recipe |
| Catalog.MissedBySecondWord | App.tsx:128-132 | the case of a two-word query whose second word is foreign to the recipe |
| Catalog.SearchFindsExample | App.tsx:128-132 | "牛肉 青椒" finds 青椒炒牛肉, whatever the user's recipes |
| Catalog.SearchMissesExample | App.tsx:128-132 | "牛肉 土豆" does not find 青椒炒牛肉 |
| Catalog.CategoryOrder | App.tsx:89-95 | no contract; see `Catalog.CategoryOrderSpec`, `Catalog.GroupByCategory` |
| Catalog.InCategory | App.tsx:89-95 | no contract; see `Catalog.GroupByCategory`, `Catalog.GroupHoldsEachRecipeOnce` |
| Catalog.CategoryOrderSpec | App.tsx:89-95 | the group keys are exactly the categories present, each once |
| Catalog.GroupByCategory | App.tsx:89-95 | the `reduce` yields one group per category, in order of first appearance, each holding that category's recipes in catalog order |
| Catalog.GroupSizesSum | App.tsx:89-95 | the group sizes add up to the size of the catalog |
| Catalog.GroupHoldsEachRecipeOnce | App.tsx:89-95 | a recipe occurs in its own category's group as often as in the catalog, and in no other group |
| Catalog.BlockCategories | data.ts:5-30 | the four block categories, in catalog order |
| Catalog.BlockPrefixOrder | App.tsx:89-95 | for a list laid out in the four blocks, as the built-in catalog is, the group keys of any prefix are the block categories reached so far, in block order |
| Catalog.BuiltInGroups | App.tsx:89-95 | the built-in catalog alone groups into beef, pork, chicken and vegetables, in the order the add-recipe form offers them |
| Catalog.IconFor | App.tsx:97-103 | no contract; see `Catalog.IconPrecedence` |
| Catalog.MeatIcons | App.tsx:97-99 | the beef category gets the beef icon, the pork category the flame |
| Catalog.ChickenAndAiIcons | App.tsx:97-101 | the chicken category gets the drumstick, the AI category the sparkles |
| Catalog.DrumstickWithoutMeatChars | App.tsx:97-100 | a category starting with 鸡肉 and free of beef and pork markers gets the drumstick |
| Catalog.SparklesWithoutMeatChars | App.tsx:97-101 | a category starting with AI and free of the meat markers gets the sparkles |
| Catalog.EggWithoutMarkerChars | App.tsx:97-102 | a category containing no marker falls back to the egg |
| Catalog.FallbackIcon | App.tsx:102 | the vegetable category falls back to the egg |
| Catalog.IconPrecedence | App.tsx:97-102 | for every category, each icon as an iff: the icon is that of the first marker, in the order 牛肉, 猪肉, 鸡肉, AI, that occurs anywhere in the category, and the egg exactly when none occurs |
| Catalog.MixedMarkersExample | App.tsx:97-101 | a category naming both AI and beef gets the beef icon |
| Catalog.AiNotAFormCategory | App.tsx:205 | the AI category is none of the four categories the form offers |
| Catalog.FindByName | App.tsx:195 | `find` returns the first user recipe with the name, or nothing exactly when no user recipe has it |
| Catalog.RemoveId | App.tsx:239 | no contract; see `Catalog.RemoveIdSpec` |
| Catalog.RemoveIdSpec | App.tsx:239 | deleting an id drops exactly the entries with that id, and keeps every other entry in order with its multiplicity |
| Catalog.ParseIngredients | App.tsx:219 | no parsed ingredient is blank or holds a separator |
| Catalog.ParseIngredientsSpec | App.tsx:219 | an ingredient is exactly a non-blank piece of the split on separator runs, each kept as often as the split has it, in the pieces' order |
| Catalog.ParseIngredientsPair | App.tsx:219 | two words around one comma, full-width comma or space parse into exactly those two ingredients |
| Catalog.ParseIngredientsLeadingSeparator | App.tsx:219 | a leading separator adds no empty ingredient |
| Catalog.FormRecipe | App.tsx:216-222 | the form's recipe is custom and carries the given id, name and category, and the parsed ingredients |
| Catalog.SuggestedRecipe | App.tsx:201-207 | the adopted suggestion is custom, in the AI category, with the tag AI推荐 first, followed by space-free words that join back into the explore input with single spaces, so they are exactly its `split(' ')` pieces |
| Session.LoadUserRecipes | App.tsx:45-53 | a stored, non-empty, parsable text gives its list; a missing, empty or unparsable one gives the empty list |
| Session.Initial | App.tsx:36-76 | start-up: the stored key (or ""), the stored user list, RANDOM mode, no spin; the form holds the default category and an empty name and ingredient field; no dialog is open, nothing is selected, loading or pending, and the AI text, error, explore results, inputs, query and search results are empty |
| Session.Randomize | App.tsx:105-111 | a click during a spin changes nothing; otherwise, with a non-empty catalog, a spin starts over the merged list as it is, with AI text and error cleared and nothing else changed |
| Session.Tick | App.tsx:112-120 | a tick shows an entry of the spin's pool, counts itself, and ends the spin at the 15th tick |
| Session.Spin | App.tsx:112-120 | no contract; see `Session.SpinLength`, `Session.SpinShowsLastPick`, `Session.SpinFromStart` |
| Session.SpinLength | App.tsx:110-120 | a running spin stops exactly after its remaining ticks and counts only the ticks that took effect |
| Session.SpinShowsLastPick | App.tsx:112-114 | after the firings, the recipe on show is the last pick that took effect |
| Session.SpinFromStart | App.tsx:110-120 | a fresh spin runs exactly 15 ticks, each showing an entry of its pool, and leaves the user list alone |
| Session.RandomizeRunsFifteenTicks | App.tsx:105-121 | a click while no spin runs shows exactly 15 picks, all from the merged list as it was at the click |
| Session.Search | App.tsx:123-136 | no contract; see `Session.SearchSpec` |
| Session.SearchSpec | App.tsx:123-136 | a blank query only empties the results; otherwise the results are the matching merged recipes in order, each as often as the merged list has it, and the selection and AI text are cleared |
| Session.Select | App.tsx:138-144 | the recipe is shown, the AI text and error are cleared, the list closes, nothing else changes |
| Session.ErrorMessage | App.tsx:160 | the error text is never empty, and is the error's own message when it has one |
| Session.GetAiHelp | App.tsx:146-164 | with nothing selected nothing changes; without a key only the settings open; otherwise exactly one of content and error is set, and loading ends |
| Session.Explore | App.tsx:166-192 | no contract; see `Session.ExploreSpec` |
| Session.ExploreSpec | App.tsx:166-192 | a blank input changes nothing; without a key only the settings open and no request starts loading; otherwise the request settles as `Session.ExploreSettledSpec` states, with loading ended |
| Session.ExploreSettled | App.tsx:173-191 | no contract; see `Session.ExploreSettledSpec` |
| Session.ExploreSettledSpec | App.tsx:173-191 | results, AI text, error and selection are cleared; a list reply sets the results (none without items), an instruction reply the content, a failure a non-empty error; loading ends |
| Session.AddSuggestion | App.tsx:194-211 | no contract; see `Session.AddSuggestionSpec` |
| Session.AddSuggestionSpec | App.tsx:194-211 | an existing user recipe of that name is selected unchanged; otherwise a new AI recipe is put first and selected; either way the selected recipe has that name and is in the user list |
| Session.SuggestionIdempotent | App.tsx:194-211 | adopting the same suggestion twice adds at most one recipe |
| Session.SuggestionIgnoresBuiltIns | App.tsx:195 | only the user list is searched: 麻婆豆腐, a built-in, still gets a custom copy |
| Session.AddRecipe | App.tsx:213-227 | a blank name changes nothing; otherwise the form's recipe is put first in the user list, the name and ingredients are emptied, and the form closes |
| Session.FormRecipeCategory | App.tsx:220 | in a consistent state, a recipe from the form has one of the four form categories and never the AI one |
| Session.PromptDelete | App.tsx:230-234 | the id is remembered as awaiting confirmation, nothing else changes |
| Session.CancelDelete | App.tsx:621 | the pending id is forgotten, nothing else changes |
| Session.ConfirmDelete | App.tsx:237-248 | with no pending id, or an empty one, nothing changes; otherwise the deletion is carried out |
| Session.Deleted | App.tsx:239-247 | no contract; see `Session.DeletedSpec` |
| Session.DeletedSpec | App.tsx:239-247 | exactly the user entries with the id are removed, the others keep order and count, the selection and AI text are cleared only when the selected recipe has the id, and the pending id is forgotten |
| Session.PromptThenCancel | App.tsx:621 | prompting then cancelling leaves no deletion pending and removes nothing |
| Session.PromptThenConfirm | App.tsx:233-246 | prompting then confirming a non-empty id leaves no user recipe with that id, and keeps every other one |
| Session.SavedKeyRunsHelp | App.tsx:666-670 | after a non-empty key is saved, asking for help on a selected recipe runs the request instead of opening the settings |
| Session.AddRecipeKeepsIdsUnique | App.tsx:216-223 | fed a fresh id, adding a recipe keeps the merged ids unique |
| Session.AddSuggestionKeepsIdsUnique | App.tsx:201-209 | fed a fresh id, adopting a suggestion keeps the merged ids unique |
| Session.ConfirmDeleteKeepsIdsUnique | App.tsx:237-248 | deleting keeps the merged ids unique |
| Session.SwitchMode | App.tsx:250-258 | the mode is set, AI text, selection and error are cleared, and the explore results are cleared only on entering EXPLORE |
| Session.SaveApiKey | App.tsx:666-671 | the typed key is kept and the settings close |
| Controller.App.AllRecipes | App.tsx:84-86 | the fields' merged list |
| Controller.App.constructor | App.tsx:36-76 | the fields start as the initial state |
| Controller.App.Randomize | App.tsx:105-111 | performs `Session.Randomize` in place and keeps the spin invariant |
| Controller.App.Tick | App.tsx:112-120 | performs `Session.Tick` in place and keeps the spin invariant |
| Controller.App.Search | App.tsx:123-136 | performs `Session.Search` in place |
| Controller.App.SelectRecipe | App.tsx:138-144 | performs `Session.Select` in place |
| Controller.App.GetAiHelp | App.tsx:146-164 | performs `Session.GetAiHelp` in place |
| Controller.App.Explore | App.tsx:166-192 | performs `Session.Explore` in place; `Session.ExploreSpec` states its three branches |
| Controller.App.Settle | App.tsx:173-191 | performs `Session.ExploreSettled` in place |
| Controller.App.AddAiRecommendedRecipe | App.tsx:194-211 | performs `Session.AddSuggestion` in place; fed a fresh id, it keeps the merged ids unique |
| Controller.App.AddRecipe | App.tsx:213-227 | performs `Session.AddRecipe` in place; fed a fresh id, it keeps the merged ids unique |
| Controller.App.PromptDelete | App.tsx:230-234 | performs `Session.PromptDelete` in place |
| Controller.App.CancelDelete | App.tsx:621 | performs `Session.CancelDelete` in place |
| Controller.App.ConfirmDelete | App.tsx:237-248 | performs `Session.ConfirmDelete` in place and keeps the merged ids unique |
| Controller.App.Delete | App.tsx:239-247 | performs `Session.Deleted` in place |
| Controller.App.SwitchMode | App.tsx:250-258 | performs `Session.SwitchMode` in place |
| Controller.App.SaveApiKey | App.tsx:666-671 | performs `Session.SaveApiKey` in place |
| Controller.App.ClearSelection | App.tsx:334 | the close button of the recipe card clears the selection |
| Controller.App.SetShowRecipeList | App.tsx:272 | opens or closes the recipe list |
| Controller.App.SetShowSettings | App.tsx:279 | opens or closes the settings |
| Controller.App.SetShowAddRecipe | App.tsx:534 | opens or closes the add-recipe form |
| Controller.App.SetSearchQuery | App.tsx:392 | the search box's text |
| Controller.App.SetExploreInput | App.tsx:437 | the explore box's text |
| Controller.App.SetNewName | App.tsx:696 | the form's name field |
| Controller.App.SetNewIngredients | App.tsx:722 | the form's ingredient field |
| Controller.App.SetNewCategory | App.tsx:705-709 | picks one of the form's four categories and keeps the state consistent |

## Left out

- Rendering is not modelled: the JSX, the lucide icons as images, the `Typewriter` animation and `window.scrollTo`. The icon is modelled as a choice among five values.
- The remote model (services/aiService.ts) is not part of this model. Its replies enter as parameters.
- The loading state during a request is not modelled as a separate step. Each request handler is one transition from the click to the settled reply, so interleavings, such as a second click while a request is outstanding, are not modelled.
- The 100 ms timer is not modelled. Each firing of the interval is one call of `Tick`, and a firing after the spin has ended changes nothing, since the interval is cleared then.
- Randomness and the clock enter as parameters: the spin's indices, and the generated ids `user-…`/`ai-…`. The uniqueness of generated ids is a precondition (a fresh id), not a consequence of `Date.now()`.
- Local storage is not modelled: reading enters as parameters, and writing (the persistence effect, `JSON.stringify`, the key's `setItem`) is left out. `JSON.parse` is a parameter, and a stored value that parses to something other than a list of recipes is not modelled.
- Text.ToLower: lower-cases only the ASCII letters, where `toLowerCase` also maps other scripts. The catalog and the examples are Chinese, so this does not affect them.
- Types.Recipe: `isCustom` is optional in the source. The built-in recipes, which omit it, carry `false`.
- Session.ExploreReply: a reply of type `instruction` is assumed to have string `content`, and the list items are assumed to be strings. The source does not check either.
- Catalog.ParseIngredients: its own contract states only that no ingredient is blank or holds a separator. The exact ingredients are stated by `Catalog.ParseIngredientsSpec`, whose pieces `Text.SplitRunsJoin` and `Text.SplitRunsUnique` pin down.
- Catalog.GroupByCategory: the groups are an ordered list of (category, recipes) pairs, so categories are taken as ordinary property names. The source's object differs in two cases (App.tsx:90-94, 553). `Object.entries` lists integer-like keys such as "12" first, in ascending order. An inherited name such as `constructor`, `toString` or `__proto__` makes `acc[c]` already set, so `push` throws. The built-in, form and AI categories are none of these; a stored list could hold one.
- Session.Search, Session.Explore, Session.ExploreSettled, Session.AddSuggestion, Session.Deleted and Session.Spin: these functions have no contract of their own. `Session.SearchSpec`, `Session.ExploreSpec`, `Session.ExploreSettledSpec`, `Session.AddSuggestionSpec`, `Session.DeletedSpec` and the spin lemmas state what they do.
- The `preventDefault`/`stopPropagation` calls on the events carry no state and are left out.
