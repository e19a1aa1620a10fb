/**
 * The App component as an object: one field per `useState` slot of App.tsx and
 * one method per handler. Each method updates the fields in the order the
 * handler calls its setters, and is proved to perform the transition of the
 * same name in module Session, whose lemmas state what the handlers promise.
 *
 * A method's `modifies` clause names the slots its handler may set; every other
 * slot keeps its value. Its `ensures` says that the transition of module
 * Session gives the old state with those slots set to their new values, so the
 * new state as a whole is the one the transition prescribes.
 */
module Controller {
  import opened Types
  import opened Text
  import opened Catalog
  import Session

  class App {
    var apiKey: string
    var showSettings: bool
    var showRecipeList: bool
    var showAddRecipe: bool
    var recipeToDelete: Option<string>
    var userRecipes: seq<Recipe>
    var mode: AppMode
    var selectedRecipe: Option<Recipe>
    var isSpinning: bool
    var spinPool: seq<Recipe>
    var spinCounter: nat
    var searchQuery: string
    var filteredRecipes: seq<Recipe>
    var exploreInput: string
    var exploreLoading: bool
    var exploreResults: seq<string>
    var aiContent: Option<string>
    var isAiLoading: bool
    var aiError: Option<string>
    var newName: string
    var newIngredients: string
    var newCategory: string

    /** The fields as one value. */
    function Snapshot(): Session.State
      reads this
    {
      Session.State(apiKey, showSettings, showRecipeList, showAddRecipe, recipeToDelete, userRecipes,
                    mode, selectedRecipe, isSpinning, spinPool, spinCounter, searchQuery,
                    filteredRecipes, exploreInput, exploreLoading, exploreResults, aiContent,
                    isAiLoading, aiError, newName, newIngredients, newCategory)
    }

    /** A running spin has a non-empty pool and ticks left; the form's category is one it offers. */
    ghost predicate Valid()
      reads this`isSpinning, this`spinPool, this`spinCounter, this`newCategory
    {
      && (isSpinning ==> |spinPool| > 0 && spinCounter < Session.TotalTicks)
      && newCategory in FormCategories
    }

    /** `allRecipes`: the built-in recipes followed by the user's. */
    function AllRecipes(): (all: seq<Recipe>)
      reads this`userRecipes
      ensures all == Merged(userRecipes)
    {
      Merged(userRecipes)
    }

    /**
     * Mounting the component: the key and the user list come from storage
     * (`storedKey`, `saved`, with `parse` standing for `JSON.parse`).
     */
    constructor (saved: Option<string>, parse: string -> Option<seq<Recipe>>, storedKey: Option<string>)
      ensures Valid() && Snapshot() == Session.Initial(saved, parse, storedKey)
    {
      apiKey := if storedKey.Some? then storedKey.value else "";
      showSettings := false;
      showRecipeList := false;
      showAddRecipe := false;
      recipeToDelete := None;
      userRecipes := Session.LoadUserRecipes(saved, parse);
      mode := RANDOM;
      selectedRecipe := None;
      isSpinning := false;
      spinPool := [];
      spinCounter := 0;
      searchQuery := "";
      filteredRecipes := [];
      exploreInput := "";
      exploreLoading := false;
      exploreResults := [];
      aiContent := None;
      isAiLoading := false;
      aiError := None;
      newName := "";
      newIngredients := "";
      newCategory := DefaultCategory;
    }

    /** `handleRandomize`: the guard, then the start of a spin over the current merged list. */
    method Randomize()
      requires Valid()
      modifies this`isSpinning, this`aiContent, this`aiError, this`spinPool, this`spinCounter
      ensures Valid()
      ensures Session.Randomize(old(Snapshot())) == old(Snapshot()).(
        isSpinning := isSpinning, aiContent := aiContent, aiError := aiError, spinPool := spinPool,
        spinCounter := spinCounter)
    {
      if isSpinning || |AllRecipes()| == 0 {
        return;
      }
      isSpinning := true;
      aiContent := None;
      aiError := None;
      spinPool := AllRecipes();
      spinCounter := 0;
    }

    /** One firing of the spin's interval, `randomIndex` standing for the random pick. */
    method Tick(randomIndex: nat)
      requires Valid() && isSpinning && randomIndex < |spinPool|
      modifies this`selectedRecipe, this`spinCounter, this`isSpinning
      ensures Valid()
      ensures Session.Tick(old(Snapshot()), randomIndex) == old(Snapshot()).(
        selectedRecipe := selectedRecipe, spinCounter := spinCounter, isSpinning := isSpinning)
    {
      selectedRecipe := Some(spinPool[randomIndex]);
      spinCounter := spinCounter + 1;
      if spinCounter >= Session.TotalTicks {
        isSpinning := false;
      }
    }

    /** `handleSearch`. */
    method Search()
      modifies this`filteredRecipes, this`selectedRecipe, this`aiContent
      ensures Session.Search(old(Snapshot())) == old(Snapshot()).(
        filteredRecipes := filteredRecipes, selectedRecipe := selectedRecipe, aiContent := aiContent)
    {
      if IsBlank(searchQuery) {
        filteredRecipes := [];
        return;
      }
      filteredRecipes := SearchResults(AllRecipes(), searchQuery);
      selectedRecipe := None;
      aiContent := None;
    }

    /** `handleRecipeSelect`. */
    method SelectRecipe(r: Recipe)
      modifies this`selectedRecipe, this`aiContent, this`aiError, this`showRecipeList
      ensures Session.Select(old(Snapshot()), r) == old(Snapshot()).(
        selectedRecipe := selectedRecipe, aiContent := aiContent, aiError := aiError,
        showRecipeList := showRecipeList)
    {
      selectedRecipe := Some(r);
      aiContent := None;
      aiError := None;
      showRecipeList := false;
    }

    /** `handleGetAiHelp`, with the request's outcome `reply`. */
    method GetAiHelp(reply: Session.HelpReply)
      modifies this`showSettings, this`isAiLoading, this`aiError, this`aiContent
      ensures Session.GetAiHelp(old(Snapshot()), reply) == old(Snapshot()).(
        showSettings := showSettings, isAiLoading := isAiLoading, aiError := aiError, aiContent := aiContent)
    {
      if selectedRecipe.None? {
        return;
      }
      if apiKey == "" {
        showSettings := true;
        return;
      }
      isAiLoading := true;
      aiError := None;
      aiContent := None;
      match reply {
        case Instructions(text) =>
          aiContent := Some(text);
        case HelpFailed(message) =>
          aiError := Some(Session.ErrorMessage(message, Session.AiHelpFallback));
      }
      isAiLoading := false;
    }

    /** `handleExplore`, with the request's outcome `reply`. */
    method Explore(reply: Session.ExploreReply)
      modifies this`showSettings, this`exploreLoading, this`exploreResults, this`aiContent, this`aiError,
               this`selectedRecipe
      ensures Session.Explore(old(Snapshot()), reply) == old(Snapshot()).(
        showSettings := showSettings, exploreLoading := exploreLoading, exploreResults := exploreResults,
        aiContent := aiContent, aiError := aiError, selectedRecipe := selectedRecipe)
    {
      if IsBlank(exploreInput) {
        return;
      }
      if apiKey == "" {
        showSettings := true;
        return;
      }
      Settle(reply);
    }

    /** The part of `handleExplore` that sends the request and takes its reply `reply`. */
    method Settle(reply: Session.ExploreReply)
      modifies this`exploreLoading, this`exploreResults, this`aiContent, this`aiError, this`selectedRecipe
      ensures Session.ExploreSettled(old(Snapshot()), reply) == old(Snapshot()).(
        exploreLoading := exploreLoading, exploreResults := exploreResults, aiContent := aiContent,
        aiError := aiError, selectedRecipe := selectedRecipe)
    {
      exploreLoading := true;
      exploreResults := [];
      aiContent := None;
      aiError := None;
      selectedRecipe := None;
      match reply {
        case ListReply(items) =>
          exploreResults := if items.Some? then items.value else [];
        case InstructionReply(content) =>
          aiContent := Some(content);
        case OtherReply =>
        case ExploreFailed(message) =>
          aiError := Some(Session.ErrorMessage(message, Session.ExploreFallback));
      }
      exploreLoading := false;
    }

    /**
     * `handleAddAiRecommendedRecipe`, `id` standing for the generated id; fed a
     * fresh id it keeps the merged ids unique.
     */
    method AddAiRecommendedRecipe(name: string, id: string)
      modifies this`userRecipes, this`selectedRecipe, this`aiContent, this`aiError, this`showRecipeList
      ensures Session.AddSuggestion(old(Snapshot()), name, id) == old(Snapshot()).(
        userRecipes := userRecipes, selectedRecipe := selectedRecipe, aiContent := aiContent,
        aiError := aiError, showRecipeList := showRecipeList)
      ensures old(UniqueIds(AllRecipes())) && id !in old(Ids(AllRecipes())) ==> UniqueIds(AllRecipes())
    {
      ghost var before := Snapshot();
      if UniqueIds(AllRecipes()) && id !in Ids(AllRecipes()) {
        Session.AddSuggestionKeepsIdsUnique(before, name, id);
      }
      var existing := FindByName(userRecipes, name);
      if existing.Some? {
        SelectRecipe(existing.value);
        return;
      }
      var r := SuggestedRecipe(id, name, exploreInput);
      userRecipes := [r] + userRecipes;
      SelectRecipe(r);
    }

    /** `handleAddRecipe`, `id` standing for the generated id; fed a fresh id it keeps the merged ids unique. */
    method AddRecipe(id: string)
      modifies this`userRecipes, this`newName, this`newIngredients, this`showAddRecipe
      ensures Session.AddRecipe(old(Snapshot()), id) == old(Snapshot()).(
        userRecipes := userRecipes, newName := newName, newIngredients := newIngredients,
        showAddRecipe := showAddRecipe)
      ensures old(UniqueIds(AllRecipes())) && id !in old(Ids(AllRecipes())) ==> UniqueIds(AllRecipes())
    {
      ghost var before := Snapshot();
      if UniqueIds(AllRecipes()) && id !in Ids(AllRecipes()) {
        Session.AddRecipeKeepsIdsUnique(before, id);
      }
      if IsBlank(newName) {
        return;
      }
      var r := FormRecipe(id, newName, newIngredients, newCategory);
      userRecipes := [r] + userRecipes;
      newName := "";
      newIngredients := "";
      showAddRecipe := false;
    }

    /** `promptDelete`: a delete control asks for confirmation of `id`. */
    method PromptDelete(id: string)
      modifies this`recipeToDelete
      ensures Session.PromptDelete(old(Snapshot()), id) == old(Snapshot()).(recipeToDelete := recipeToDelete)
    {
      recipeToDelete := Some(id);
    }

    /** The cancel button of the confirmation dialog. */
    method CancelDelete()
      modifies this`recipeToDelete
      ensures Session.CancelDelete(old(Snapshot())) == old(Snapshot()).(recipeToDelete := recipeToDelete)
    {
      recipeToDelete := None;
    }

    /** `confirmDelete`; it keeps the merged ids unique. */
    method ConfirmDelete()
      modifies this`userRecipes, this`selectedRecipe, this`aiContent, this`recipeToDelete
      ensures Session.ConfirmDelete(old(Snapshot())) == old(Snapshot()).(
        userRecipes := userRecipes, selectedRecipe := selectedRecipe, aiContent := aiContent,
        recipeToDelete := recipeToDelete)
      ensures old(UniqueIds(AllRecipes())) ==> UniqueIds(AllRecipes())
    {
      ghost var before := Snapshot();
      if UniqueIds(AllRecipes()) {
        Session.ConfirmDeleteKeepsIdsUnique(before);
      }
      if recipeToDelete.Some? && recipeToDelete.value != "" {
        Delete(recipeToDelete.value);
      }
    }

    /** The part of `confirmDelete` that removes the recipe `id`. */
    method Delete(id: string)
      modifies this`userRecipes, this`selectedRecipe, this`aiContent, this`recipeToDelete
      ensures Session.Deleted(old(Snapshot()), id) == old(Snapshot()).(
        userRecipes := userRecipes, selectedRecipe := selectedRecipe, aiContent := aiContent,
        recipeToDelete := recipeToDelete)
    {
      userRecipes := RemoveId(userRecipes, id);
      if selectedRecipe.Some? && selectedRecipe.value.id == id {
        selectedRecipe := None;
        aiContent := None;
      }
      recipeToDelete := None;
    }

    /** `switchMode`. */
    method SwitchMode(newMode: AppMode)
      modifies this`mode, this`aiContent, this`selectedRecipe, this`aiError, this`exploreResults
      ensures Session.SwitchMode(old(Snapshot()), newMode) == old(Snapshot()).(
        mode := mode, aiContent := aiContent, selectedRecipe := selectedRecipe, aiError := aiError,
        exploreResults := exploreResults)
    {
      mode := newMode;
      aiContent := None;
      selectedRecipe := None;
      aiError := None;
      if newMode == EXPLORE {
        exploreResults := [];
      }
    }

    /** The save button of the settings dialog, `key` being the typed key. */
    method SaveApiKey(key: string)
      modifies this`apiKey, this`showSettings
      ensures Session.SaveApiKey(old(Snapshot()), key) == old(Snapshot()).(apiKey := apiKey, showSettings := showSettings)
    {
      apiKey := key;
      showSettings := false;
    }

    /** The close button of the selected-recipe card. */
    method ClearSelection()
      modifies this`selectedRecipe
      ensures selectedRecipe == None
    {
      selectedRecipe := None;
    }

    /** The buttons that open and close the recipe list. */
    method SetShowRecipeList(show: bool)
      modifies this`showRecipeList
      ensures showRecipeList == show
    {
      showRecipeList := show;
    }

    /** The buttons that open and close the settings dialog. */
    method SetShowSettings(show: bool)
      modifies this`showSettings
      ensures showSettings == show
    {
      showSettings := show;
    }

    /** The buttons that open and close the add-recipe form. */
    method SetShowAddRecipe(show: bool)
      modifies this`showAddRecipe
      ensures showAddRecipe == show
    {
      showAddRecipe := show;
    }

    /** Typing in the search box. */
    method SetSearchQuery(query: string)
      modifies this`searchQuery
      ensures searchQuery == query
    {
      searchQuery := query;
    }

    /** Typing in the explore box. */
    method SetExploreInput(input: string)
      modifies this`exploreInput
      ensures exploreInput == input
    {
      exploreInput := input;
    }

    /** Typing the new recipe's name. */
    method SetNewName(name: string)
      modifies this`newName
      ensures newName == name
    {
      newName := name;
    }

    /** Typing the new recipe's ingredients. */
    method SetNewIngredients(text: string)
      modifies this`newIngredients
      ensures newIngredients == text
    {
      newIngredients := text;
    }

    /** Choosing one of the form's four category buttons. */
    method SetNewCategory(category: string)
      requires Valid() && category in FormCategories
      modifies this`newCategory
      ensures Valid() && newCategory == category
    {
      newCategory := category;
    }
  }
}
