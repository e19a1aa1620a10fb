/**
 * The state the App component keeps in its `useState` slots, as one value, and
 * every handler of App.tsx as a transition from one such value to the next.
 * The class `Controller.App` performs the same transitions in place, field by
 * field; the properties of the handlers are proved here, on the values.
 *
 * Calls to the remote model are taken as settled: a handler that starts one
 * receives the reply it ends with as a parameter (`HelpReply`, `ExploreReply`).
 */
module Session {
  import opened Types
  import opened Text
  import Data
  import opened Catalog

  /** The number of picks one spin of the randomizer shows. */
  const TotalTicks: nat := 15

  /** The error shown when a cooking-instructions request fails without a message. */
  const AiHelpFallback: string := "获取 AI 指导失败，请检查网络或 API Key"

  /** The error shown when an explore request fails without a message. */
  const ExploreFallback: string := "AI 探索失败，请稍后重试"

  /** How a cooking-instructions request ends: with the text, or with an error whose message may be empty. */
  datatype HelpReply = Instructions(text: string) | HelpFailed(message: string)

  /**
   * How an explore request ends: with an object of type `list` (whose `items`
   * may be missing), one of type `instruction`, an object of any other type,
   * or an error whose message may be empty.
   */
  datatype ExploreReply =
    | ListReply(items: Option<seq<string>>)
    | InstructionReply(content: string)
    | OtherReply
    | ExploreFailed(message: string)

  /** The App component's state; `None` stands for `null`. */
  datatype State = State(
    apiKey: string,
    showSettings: bool,
    showRecipeList: bool,
    showAddRecipe: bool,
    recipeToDelete: Option<string>,
    userRecipes: seq<Recipe>,
    mode: AppMode,
    selectedRecipe: Option<Recipe>,
    isSpinning: bool,
    spinPool: seq<Recipe>,   // the merged list the running spin captured
    spinCounter: nat,        // the ticks the running spin has shown
    searchQuery: string,
    filteredRecipes: seq<Recipe>,
    exploreInput: string,
    exploreLoading: bool,
    exploreResults: seq<string>,
    aiContent: Option<string>,
    isAiLoading: bool,
    aiError: Option<string>,
    newName: string,
    newIngredients: string,
    newCategory: string)

  /**
   * What every reachable state satisfies: a running spin has a non-empty pool
   * and fewer than `TotalTicks` ticks behind it, and the form's category is one
   * of the four the form offers.
   */
  predicate Consistent(s: State)
  {
    && (s.isSpinning ==> |s.spinPool| > 0 && s.spinCounter < TotalTicks)
    && s.newCategory in FormCategories
  }

  // ---------------------------------------------------------------------------
  // Start-up
  // ---------------------------------------------------------------------------

  /**
   * The user list read at start-up from the stored text: a stored, non-empty
   * text that parses is taken as it is; a missing or empty text, or one that
   * does not parse, gives the empty list.
   */
  function LoadUserRecipes(saved: Option<string>, parse: string -> Option<seq<Recipe>>): (user: seq<Recipe>)
    ensures saved.Some? && saved.value != "" && parse(saved.value).Some? ==> user == parse(saved.value).value
    ensures user != [] ==> saved.Some? && saved.value != "" && parse(saved.value) == Some(user)
  {
    if saved.None? || saved.value == "" then []
    else match parse(saved.value)
      case Some(list) => list
      case None => []
  }

  /**
   * The first state: the stored key (or ""), the stored user list, the RANDOM
   * screen, the form on its default category, and nothing selected, open,
   * pending, loading or shown.
   */
  function Initial(saved: Option<string>, parse: string -> Option<seq<Recipe>>, storedKey: Option<string>): (s: State)
    ensures Consistent(s) && !s.isSpinning && s.mode == RANDOM
    ensures s.userRecipes == LoadUserRecipes(saved, parse)
    ensures s.apiKey == (if storedKey.Some? then storedKey.value else "")
    ensures s.newCategory == DefaultCategory && s.newName == "" && s.newIngredients == ""
    ensures !s.showSettings && !s.showRecipeList && !s.showAddRecipe && s.recipeToDelete.None?
    ensures s.selectedRecipe.None? && s.aiContent.None? && s.aiError.None?
    ensures !s.isAiLoading && !s.exploreLoading && s.exploreResults == [] && s.exploreInput == ""
    ensures s.searchQuery == "" && s.filteredRecipes == []
  {
    State(
      apiKey := if storedKey.Some? then storedKey.value else "",
      showSettings := false,
      showRecipeList := false,
      showAddRecipe := false,
      recipeToDelete := None,
      userRecipes := LoadUserRecipes(saved, parse),
      mode := RANDOM,
      selectedRecipe := None,
      isSpinning := false,
      spinPool := [],
      spinCounter := 0,
      searchQuery := "",
      filteredRecipes := [],
      exploreInput := "",
      exploreLoading := false,
      exploreResults := [],
      aiContent := None,
      isAiLoading := false,
      aiError := None,
      newName := "",
      newIngredients := "",
      newCategory := DefaultCategory)
  }

  // ---------------------------------------------------------------------------
  // The randomizer (`handleRandomize` and its interval)
  // ---------------------------------------------------------------------------

  /**
   * `handleRandomize`: unless a spin is running or the merged list is empty,
   * start a spin over the merged list as it is now and clear the AI text and error.
   */
  function Randomize(s: State): (t: State)
    ensures s.isSpinning ==> t == s
    ensures !s.isSpinning ==>
      && t.isSpinning && t.spinCounter == 0 && t.spinPool == Merged(s.userRecipes)
      && t.aiContent.None? && t.aiError.None?
      && t.(isSpinning := false, spinPool := s.spinPool, spinCounter := s.spinCounter,
            aiContent := s.aiContent, aiError := s.aiError) == s
  {
    if s.isSpinning || |Merged(s.userRecipes)| == 0 then s
    else s.(isSpinning := true, aiContent := None, aiError := None, spinPool := Merged(s.userRecipes), spinCounter := 0)
  }

  /**
   * One firing of the spin's interval with the random index `index`: show that
   * entry of the captured pool, count the tick, and end the spin at the
   * `TotalTicks`-th tick.
   */
  function Tick(s: State, index: nat): (t: State)
    requires s.isSpinning && index < |s.spinPool|
    ensures t.selectedRecipe.Some? && t.selectedRecipe.value in s.spinPool
    ensures t.spinCounter == s.spinCounter + 1 && (t.isSpinning <==> t.spinCounter < TotalTicks)
    ensures t.(selectedRecipe := s.selectedRecipe, spinCounter := s.spinCounter, isSpinning := true) == s
  {
    var counter := s.spinCounter + 1;
    var shown := s.(selectedRecipe := Some(s.spinPool[index]), spinCounter := counter);
    if counter >= TotalTicks then shown.(isSpinning := false) else shown
  }

  /**
   * The state after the interval has fired once per entry of `picks`: a firing
   * after the spin ended does nothing, because the interval is cleared then.
   */
  function Spin(s: State, picks: seq<nat>): State
    requires forall k :: 0 <= k < |picks| ==> picks[k] < |s.spinPool|
    decreases |picks|
  {
    if picks == [] || !s.isSpinning then s
    else Spin(Tick(s, picks[0]), picks[1..])
  }

  function Min(a: int, b: int): int
  {
    if a <= b then a else b
  }

  /**
   * A running spin with `c` ticks behind it shows exactly `TotalTicks - c` more
   * picks: after the firings `picks` it is still running iff fewer than that
   * many fired, it has counted the ones that took effect, and nothing but the
   * spin's fields and the selection changed.
   */
  lemma {:induction false} SpinLength(s: State, picks: seq<nat>)
    requires s.isSpinning && s.spinCounter < TotalTicks
    requires forall k :: 0 <= k < |picks| ==> picks[k] < |s.spinPool|
    ensures var t := Spin(s, picks);
      && (t.isSpinning <==> s.spinCounter + |picks| < TotalTicks)
      && t.spinCounter == Min(s.spinCounter + |picks|, TotalTicks)
      && t.(selectedRecipe := s.selectedRecipe, spinCounter := s.spinCounter, isSpinning := true) == s
    decreases |picks|
  {
    if picks != [] {
      var u := Tick(s, picks[0]);
      if u.isSpinning {
        SpinLength(u, picks[1..]);
      }
    }
  }

  /** After the firings `picks` of a running spin, the pick on show is the last one that took effect. */
  lemma {:induction false} SpinShowsLastPick(s: State, picks: seq<nat>)
    requires s.isSpinning && s.spinCounter < TotalTicks
    requires forall k :: 0 <= k < |picks| ==> picks[k] < |s.spinPool|
    requires picks != []
    ensures Spin(s, picks).selectedRecipe == Some(s.spinPool[picks[Min(|picks|, TotalTicks - s.spinCounter) - 1]])
    decreases |picks|
  {
    var u := Tick(s, picks[0]);
    if u.isSpinning && |picks| > 1 {
      SpinShowsLastPick(u, picks[1..]);
      assert picks[1..][Min(|picks| - 1, TotalTicks - u.spinCounter) - 1]
          == picks[Min(|picks|, TotalTicks - s.spinCounter) - 1];
    }
  }

  /**
   * A spin that starts afresh on the pool `s.spinPool` runs for exactly
   * `TotalTicks` firings, every one of them showing an entry of that pool, and
   * leaves the user list alone.
   */
  lemma SpinFromStart(s: State, picks: seq<nat>)
    requires s.isSpinning && s.spinCounter == 0
    requires forall k :: 0 <= k < |picks| ==> picks[k] < |s.spinPool|
    ensures var t := Spin(s, picks);
      && (t.isSpinning <==> |picks| < TotalTicks)
      && (picks != [] ==> t.selectedRecipe.Some? && t.selectedRecipe.value in s.spinPool)
      && t.userRecipes == s.userRecipes
  {
    SpinLength(s, picks);
    if picks != [] {
      SpinShowsLastPick(s, picks);
    }
  }

  /**
   * A click on the randomizer while no spin runs starts one that runs for
   * exactly `TotalTicks` firings, every one of them showing an entry of the
   * merged list as it was at the click.
   */
  lemma RandomizeRunsFifteenTicks(s: State, picks: seq<nat>)
    requires !s.isSpinning
    requires forall k :: 0 <= k < |picks| ==> picks[k] < |Merged(s.userRecipes)|
    ensures var t := Spin(Randomize(s), picks);
      && (t.isSpinning <==> |picks| < TotalTicks)
      && (picks != [] ==> t.selectedRecipe.Some? && t.selectedRecipe.value in Merged(s.userRecipes))
      && t.userRecipes == s.userRecipes
  {
    SpinFromStart(Randomize(s), picks);
  }

  // ---------------------------------------------------------------------------
  // Search and selection
  // ---------------------------------------------------------------------------

  /** `handleSearch`; `SearchSpec` states what it does. */
  function Search(s: State): State
  {
    if IsBlank(s.searchQuery) then s.(filteredRecipes := [])
    else s.(filteredRecipes := SearchResults(Merged(s.userRecipes), s.searchQuery),
            selectedRecipe := None, aiContent := None)
  }

  /**
   * A blank query empties the results and changes nothing else. Otherwise the
   * results are the merged recipes, in merged order, whose text holds every
   * keyword of the query, and the selection and the AI text are cleared while
   * the AI error and everything else stay.
   */
  lemma SearchSpec(s: State)
    ensures var t := Search(s);
      && (IsBlank(s.searchQuery) ==> t == s.(filteredRecipes := []))
      && (!IsBlank(s.searchQuery) ==>
            && (forall r :: r in t.filteredRecipes <==>
                  r in Merged(s.userRecipes) && OccursEvery(SearchText(r), Keywords(s.searchQuery)))
            && Sublist(t.filteredRecipes, Merged(s.userRecipes))
            && (forall r :: multiset(t.filteredRecipes)[r] ==
                  if MatchesAll(r, Keywords(s.searchQuery)) then multiset(Merged(s.userRecipes))[r] else 0)
            && t.selectedRecipe.None? && t.aiContent.None? && t.aiError == s.aiError
            && t.(filteredRecipes := s.filteredRecipes, selectedRecipe := s.selectedRecipe,
                  aiContent := s.aiContent) == s)
  {
    SearchResultsSpec(Merged(s.userRecipes), s.searchQuery);
  }

  /** `handleRecipeSelect`: show `r`, clear the AI text and error, close the recipe list. */
  function Select(s: State, r: Recipe): (t: State)
    ensures t.selectedRecipe == Some(r) && t.aiContent.None? && t.aiError.None? && !t.showRecipeList
    ensures t.(selectedRecipe := s.selectedRecipe, aiContent := s.aiContent, aiError := s.aiError,
               showRecipeList := s.showRecipeList) == s
  {
    s.(selectedRecipe := Some(r), aiContent := None, aiError := None, showRecipeList := false)
  }

  // ---------------------------------------------------------------------------
  // Requests to the remote model (`handleGetAiHelp`, `handleExplore`)
  // ---------------------------------------------------------------------------

  /** `err.message || fallback`: the error's own message, or the fallback when it is empty. */
  function ErrorMessage(message: string, fallback: string): (m: string)
    requires fallback != []
    ensures m != [] && (message != [] ==> m == message) && (message == [] ==> m == fallback)
  {
    if message != [] then message else fallback
  }

  /**
   * `handleGetAiHelp`: with nothing selected nothing changes; without a key
   * only the settings open. Otherwise the request runs: its text becomes the
   * AI content, or its failure the (never empty) AI error, exactly one of the
   * two is set, and loading has ended.
   */
  function GetAiHelp(s: State, reply: HelpReply): (t: State)
    ensures s.selectedRecipe.None? ==> t == s
    ensures s.selectedRecipe.Some? && s.apiKey == "" ==> t == s.(showSettings := true)
    ensures s.selectedRecipe.Some? && s.apiKey != "" ==>
      && !t.isAiLoading
      && (reply.Instructions? ==> t.aiContent == Some(reply.text) && t.aiError.None?)
      && (reply.HelpFailed? ==>
            t.aiContent.None? && t.aiError.Some? && t.aiError.value != ""
            && (reply.message != "" ==> t.aiError.value == reply.message))
      && t.(isAiLoading := s.isAiLoading, aiContent := s.aiContent, aiError := s.aiError) == s
  {
    if s.selectedRecipe.None? then s
    else if s.apiKey == "" then s.(showSettings := true)
    else
      var asked := s.(isAiLoading := true, aiError := None, aiContent := None);
      var answered := match reply
        case Instructions(text) => asked.(aiContent := Some(text))
        case HelpFailed(message) => asked.(aiError := Some(ErrorMessage(message, AiHelpFallback)));
      answered.(isAiLoading := false)
  }

  /**
   * `handleExplore`: with a blank input nothing changes; without a key only the
   * settings open; otherwise the request is sent and settles as `ExploreSettled` says.
   */
  function Explore(s: State, reply: ExploreReply): State
  {
    if IsBlank(s.exploreInput) then s
    else if s.apiKey == "" then s.(showSettings := true)
    else ExploreSettled(s, reply)
  }

  /**
   * A blank explore input changes nothing; without a key only the settings
   * open, and no request starts loading; otherwise the request settles.
   */
  lemma ExploreSpec(s: State, reply: ExploreReply)
    ensures IsBlank(s.exploreInput) ==> Explore(s, reply) == s
    ensures !IsBlank(s.exploreInput) && s.apiKey == "" ==>
      Explore(s, reply) == s.(showSettings := true)
    ensures !IsBlank(s.exploreInput) && s.apiKey != "" ==>
      Explore(s, reply) == ExploreSettled(s, reply) && !Explore(s, reply).exploreLoading
  {
    ExploreSettledSpec(s, reply);
  }

  /** An explore request sent from `s`, once settled; `ExploreSettledSpec` states what it does. */
  function ExploreSettled(s: State, reply: ExploreReply): State
  {
    var results := if reply.ListReply? && reply.items.Some? then reply.items.value else [];
    var content := if reply.InstructionReply? then Some(reply.content) else None;
    var error := if reply.ExploreFailed? then Some(ErrorMessage(reply.message, ExploreFallback)) else None;
    s.(exploreLoading := false, exploreResults := results, aiContent := content, aiError := error,
       selectedRecipe := None)
  }

  /**
   * The old results, AI text, AI error and selection are cleared; a `list`
   * reply sets the results (none when it has no items), an `instruction` reply
   * sets the AI content, a failure sets the (never empty) AI error, loading has
   * ended, and nothing else changes.
   */
  lemma ExploreSettledSpec(s: State, reply: ExploreReply)
    ensures var t := ExploreSettled(s, reply);
      && !t.exploreLoading && t.selectedRecipe.None?
      && t.exploreResults == (if reply.ListReply? && reply.items.Some? then reply.items.value else [])
      && t.aiContent == (if reply.InstructionReply? then Some(reply.content) else None)
      && (t.aiError.Some? <==> reply.ExploreFailed?)
      && (reply.ExploreFailed? ==>
            t.aiError.value != "" && (reply.message != "" ==> t.aiError.value == reply.message))
      && t.(exploreLoading := s.exploreLoading, exploreResults := s.exploreResults, aiContent := s.aiContent,
            aiError := s.aiError, selectedRecipe := s.selectedRecipe) == s
  {
  }

  // ---------------------------------------------------------------------------
  // Custom recipes
  // ---------------------------------------------------------------------------

  /** `handleAddAiRecommendedRecipe`; `AddSuggestionSpec` states what it does. */
  function AddSuggestion(s: State, name: string, id: string): State
  {
    match FindByName(s.userRecipes, name)
    case Some(existing) => Select(s, existing)
    case None =>
      var r := SuggestedRecipe(id, name, s.exploreInput);
      Select(s.(userRecipes := [r] + s.userRecipes), r)
  }

  /**
   * A user recipe named `name` is selected as it is; otherwise a new `AI 灵感`
   * recipe with that name is put first in the user list and selected. Either
   * way the selected recipe has that name and is a user recipe, the AI text and
   * error are cleared, the recipe list closes and nothing else changes.
   * Built-in recipes are not searched.
   */
  lemma AddSuggestionSpec(s: State, name: string, id: string)
    ensures var t := AddSuggestion(s, name, id);
      && t.selectedRecipe.Some? && t.selectedRecipe.value.name == name && t.selectedRecipe.value in t.userRecipes
      && (FindByName(s.userRecipes, name).Some? ==>
            t.userRecipes == s.userRecipes && t.selectedRecipe == FindByName(s.userRecipes, name))
      && (FindByName(s.userRecipes, name).None? ==>
            t.userRecipes == [SuggestedRecipe(id, name, s.exploreInput)] + s.userRecipes)
      && t.aiContent.None? && t.aiError.None? && !t.showRecipeList
      && t.(userRecipes := s.userRecipes, selectedRecipe := s.selectedRecipe, aiContent := s.aiContent,
            aiError := s.aiError, showRecipeList := s.showRecipeList) == s
  {
    match FindByName(s.userRecipes, name)
    case Some(existing) =>
      assert existing in s.userRecipes;
    case None =>
      var r := SuggestedRecipe(id, name, s.exploreInput);
      assert r == ([r] + s.userRecipes)[0];
  }

  /** Accepting the same suggestion again changes nothing: at most one recipe is added per name. */
  lemma SuggestionIdempotent(s: State, name: string, id: string, again: string)
    ensures var once := AddSuggestion(s, name, id);
      && AddSuggestion(once, name, again) == once
      && |once.userRecipes| <= |s.userRecipes| + 1
  {
    var once := AddSuggestion(s, name, id);
    AddSuggestionSpec(s, name, id);
    var r := once.selectedRecipe.value;
    if FindByName(s.userRecipes, name).None? {
      assert once.userRecipes[0] == r;
    }
    assert FindByName(once.userRecipes, name) == Some(r);
  }

  /**
   * Only the user list is searched: a dish the built-ins hold, such as 麻婆豆腐,
   * still gets a custom copy when no user recipe has its name.
   */
  lemma SuggestionIgnoresBuiltIns(s: State, id: string)
    requires forall r :: r in s.userRecipes ==> r.name != "麻婆豆腐"
    ensures |AddSuggestion(s, "麻婆豆腐", id).userRecipes| == |s.userRecipes| + 1
    ensures Data.BuiltIns[26].name == "麻婆豆腐"
  {
    AddSuggestionSpec(s, "麻婆豆腐", id);
    Data.MapoTofu();
  }

  /**
   * `handleAddRecipe`: a blank name changes nothing. Otherwise the recipe the
   * form describes is put first in the user list, the name and ingredient
   * fields are emptied and the form closes; the chosen category stays.
   */
  function AddRecipe(s: State, id: string): (t: State)
    ensures IsBlank(s.newName) ==> t == s
    ensures !IsBlank(s.newName) ==>
      && |t.userRecipes| == |s.userRecipes| + 1 && t.userRecipes[1..] == s.userRecipes
      && t.userRecipes[0] == FormRecipe(id, s.newName, s.newIngredients, s.newCategory)
      && t.newName == "" && t.newIngredients == "" && !t.showAddRecipe
      && t.(userRecipes := s.userRecipes, newName := s.newName, newIngredients := s.newIngredients,
            showAddRecipe := s.showAddRecipe) == s
  {
    if IsBlank(s.newName) then s
    else
      var r := FormRecipe(id, s.newName, s.newIngredients, s.newCategory);
      s.(userRecipes := [r] + s.userRecipes, newName := "", newIngredients := "", showAddRecipe := false)
  }

  /** In a consistent state the form's recipe has one of the four form categories, never the AI one. */
  lemma FormRecipeCategory(s: State, id: string)
    requires Consistent(s) && !IsBlank(s.newName)
    ensures var r := AddRecipe(s, id).userRecipes[0];
      r.isCustom && r.category in FormCategories && r.category != AiCategory
  {
    AiNotAFormCategory();
  }

  /** `promptDelete`: remember the id whose deletion awaits confirmation. */
  function PromptDelete(s: State, id: string): (t: State)
    ensures t == s.(recipeToDelete := Some(id))
  {
    s.(recipeToDelete := Some(id))
  }

  /** The cancel button of the confirmation dialog: forget the pending id, nothing else. */
  function CancelDelete(s: State): (t: State)
    ensures t.recipeToDelete.None? && t.(recipeToDelete := s.recipeToDelete) == s
  {
    s.(recipeToDelete := None)
  }

  /** `confirmDelete`: with no pending id (or an empty one) nothing changes; otherwise the deletion is carried out. */
  function ConfirmDelete(s: State): (t: State)
    ensures s.recipeToDelete.None? || s.recipeToDelete.value == "" ==> t == s
    ensures s.recipeToDelete.Some? && s.recipeToDelete.value != "" ==> t == Deleted(s, s.recipeToDelete.value)
  {
    if s.recipeToDelete.None? || s.recipeToDelete.value == "" then s
    else Deleted(s, s.recipeToDelete.value)
  }

  /** The deletion of `id` once confirmed; `DeletedSpec` states what it does. */
  function Deleted(s: State, id: string): State
  {
    var removed := s.(userRecipes := RemoveId(s.userRecipes, id));
    var closed := if s.selectedRecipe.Some? && s.selectedRecipe.value.id == id
                  then removed.(selectedRecipe := None, aiContent := None)
                  else removed;
    closed.(recipeToDelete := None)
  }

  /**
   * Exactly the user entries with id `id` are removed, every other user entry
   * keeps its order and its number of copies (the built-ins, which precede the
   * user list, are not touched), the selection and the AI text are cleared
   * only when the selected recipe has that id, the pending id is forgotten and
   * nothing else changes.
   */
  lemma DeletedSpec(s: State, id: string)
    ensures var t := Deleted(s, id);
      && (forall r :: r in t.userRecipes <==> r in s.userRecipes && r.id != id)
      && (forall r: Recipe :: r.id != id ==> multiset(t.userRecipes)[r] == multiset(s.userRecipes)[r])
      && Sublist(t.userRecipes, s.userRecipes) && id !in Ids(t.userRecipes)
      && (if s.selectedRecipe.Some? && s.selectedRecipe.value.id == id
          then t.selectedRecipe.None? && t.aiContent.None?
          else t.selectedRecipe == s.selectedRecipe && t.aiContent == s.aiContent)
      && t.recipeToDelete.None?
      && t.(userRecipes := s.userRecipes, recipeToDelete := s.recipeToDelete,
            selectedRecipe := s.selectedRecipe, aiContent := s.aiContent) == s
  {
    RemoveIdSpec(s.userRecipes, id);
  }

  /** Cancelling a prompted deletion removes nothing and leaves no deletion pending. */
  lemma PromptThenCancel(s: State, id: string)
    ensures CancelDelete(PromptDelete(s, id)) == s.(recipeToDelete := None)
    ensures ConfirmDelete(CancelDelete(PromptDelete(s, id))).userRecipes == s.userRecipes
  {
  }

  /** Confirming a prompted deletion of a non-empty id leaves no user recipe with that id. */
  lemma PromptThenConfirm(s: State, id: string)
    requires id != ""
    ensures var t := ConfirmDelete(PromptDelete(s, id));
      id !in Ids(t.userRecipes) && t.recipeToDelete.None?
      && forall r :: r in s.userRecipes && r.id != id ==> r in t.userRecipes
  {
    DeletedSpec(PromptDelete(s, id), id);
  }

  /** Once a non-empty key is saved, asking for help on a selected recipe runs the request. */
  lemma SavedKeyRunsHelp(s: State, key: string, reply: HelpReply)
    requires key != "" && s.selectedRecipe.Some?
    ensures var t := GetAiHelp(SaveApiKey(s, key), reply);
      !t.showSettings && (t.aiContent.Some? || t.aiError.Some?)
  {
  }

  /** Fed fresh ids, adding a recipe keeps the ids of the merged list unique. */
  lemma AddRecipeKeepsIdsUnique(s: State, id: string)
    requires UniqueIds(Merged(s.userRecipes)) && id !in Ids(Merged(s.userRecipes))
    ensures UniqueIds(Merged(AddRecipe(s, id).userRecipes))
  {
    if !IsBlank(s.newName) {
      PrependFreshKeepsUnique(s.userRecipes, FormRecipe(id, s.newName, s.newIngredients, s.newCategory));
    }
  }

  /** Fed fresh ids, accepting a suggestion keeps the ids of the merged list unique. */
  lemma AddSuggestionKeepsIdsUnique(s: State, name: string, id: string)
    requires UniqueIds(Merged(s.userRecipes)) && id !in Ids(Merged(s.userRecipes))
    ensures UniqueIds(Merged(AddSuggestion(s, name, id).userRecipes))
  {
    if FindByName(s.userRecipes, name).None? {
      PrependFreshKeepsUnique(s.userRecipes, SuggestedRecipe(id, name, s.exploreInput));
    }
  }

  /** Deleting keeps the ids of the merged list unique. */
  lemma ConfirmDeleteKeepsIdsUnique(s: State)
    requires UniqueIds(Merged(s.userRecipes))
    ensures UniqueIds(Merged(ConfirmDelete(s).userRecipes))
  {
    if s.recipeToDelete.Some? && s.recipeToDelete.value != "" {
      var id := s.recipeToDelete.value;
      DeletedSpec(s, id);
      SublistKeepsMergedUnique(Deleted(s, id).userRecipes, s.userRecipes);
    }
  }

  // ---------------------------------------------------------------------------
  // Modes and settings
  // ---------------------------------------------------------------------------

  /**
   * `switchMode`: set the mode and clear the AI text, the selection and the AI
   * error; the explore results are cleared only on entering EXPLORE.
   */
  function SwitchMode(s: State, m: AppMode): (t: State)
    ensures t.mode == m && t.aiContent.None? && t.selectedRecipe.None? && t.aiError.None?
    ensures t.exploreResults == (if m == EXPLORE then [] else s.exploreResults)
    ensures t.(mode := s.mode, aiContent := s.aiContent, selectedRecipe := s.selectedRecipe, aiError := s.aiError,
               exploreResults := s.exploreResults) == s
  {
    var switched := s.(mode := m, aiContent := None, selectedRecipe := None, aiError := None);
    if m == EXPLORE then switched.(exploreResults := []) else switched
  }

  /** The save button of the settings dialog: keep the typed key and close the dialog. */
  function SaveApiKey(s: State, key: string): (t: State)
    ensures t == s.(apiKey := key, showSettings := false)
  {
    s.(apiKey := key, showSettings := false)
  }
}
