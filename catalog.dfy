/**
 * Views over the merged catalog (built-in recipes followed by the user's own):
 * keyword search, grouping by category, the category icon, lookup by name,
 * removal by id and the construction of new custom recipes (App.tsx).
 */
module Catalog {
  import opened Types
  import opened Text
  import Data

  // ---------------------------------------------------------------------------
  // Order-preserving filtering (`Array.prototype.filter`)
  // ---------------------------------------------------------------------------

  /** `a` is obtained from `b` by deleting elements, keeping the order of the rest. */
  predicate Sublist<T(==)>(a: seq<T>, b: seq<T>)
    decreases |b|
  {
    a == [] || (b != [] && ((a[0] == b[0] && Sublist(a[1..], b[1..])) || Sublist(a, b[1..])))
  }

  /** `s.filter(p)`: the elements of `s` that satisfy `p`, in the order of `s`. */
  function Filter<T(==,!new)>(s: seq<T>, p: T -> bool): (r: seq<T>)
    ensures forall x :: x in r <==> x in s && p(x)
  {
    if s == [] then []
    else if p(s[0]) then [s[0]] + Filter(s[1..], p)
    else Filter(s[1..], p)
  }

  /** Filtering keeps every element satisfying `p` as often as `s` has it, and no other. */
  lemma {:induction false} FilterCounts<T(!new)>(s: seq<T>, p: T -> bool)
    ensures forall x :: multiset(Filter(s, p))[x] == if p(x) then multiset(s)[x] else 0
  {
    if s != [] {
      FilterCounts(s[1..], p);
      assert s == [s[0]] + s[1..];
    }
  }

  /** Filtering keeps the order of `s`. */
  lemma {:induction false} FilterSublist<T(!new)>(s: seq<T>, p: T -> bool)
    ensures Sublist(Filter(s, p), s)
  {
    if s != [] {
      FilterSublist(s[1..], p);
      if p(s[0]) {
        assert ([s[0]] + Filter(s[1..], p))[1..] == Filter(s[1..], p);
      } else {
        SublistSkip(Filter(s[1..], p), s);
      }
    }
  }

  lemma SublistSkip<T>(a: seq<T>, b: seq<T>)
    requires b != [] && Sublist(a, b[1..])
    ensures Sublist(a, b)
  {
  }

  /** Filtering a sequence extended by one element extends the result by that element or by nothing. */
  lemma {:induction false} FilterAppend<T(!new)>(s: seq<T>, x: T, p: T -> bool)
    ensures Filter(s + [x], p) == Filter(s, p) + (if p(x) then [x] else [])
  {
    if s == [] {
      assert Filter([x], p) == (if p(x) then [x] else []) + Filter([], p);
    } else {
      var t := s + [x];
      assert t[0] == s[0] && t[1..] == s[1..] + [x];
      FilterAppend(s[1..], x, p);
      var tail := if p(x) then [x] else [];
      if p(s[0]) {
        calc {
          Filter(t, p);
          [s[0]] + Filter(s[1..] + [x], p);
          [s[0]] + (Filter(s[1..], p) + tail);
          ([s[0]] + Filter(s[1..], p)) + tail;
        }
      }
    }
  }

  // ---------------------------------------------------------------------------
  // The merged catalog and the uniqueness of ids
  // ---------------------------------------------------------------------------

  /** `allRecipes`: the built-in recipes followed by the user's recipes. */
  function Merged(user: seq<Recipe>): (all: seq<Recipe>)
    ensures |all| == |Data.BuiltIns| + |user|
    ensures all[..|Data.BuiltIns|] == Data.BuiltIns && all[|Data.BuiltIns|..] == user
  {
    Data.BuiltIns + user
  }

  function Ids(rs: seq<Recipe>): set<string>
  {
    set r | r in rs :: r.id
  }

  /** No two entries of `rs` share an id. */
  predicate UniqueIds(rs: seq<Recipe>)
  {
    forall i, j :: 0 <= i < j < |rs| ==> rs[i].id != rs[j].id
  }

  lemma UniqueIdsConcat(a: seq<Recipe>, b: seq<Recipe>)
    ensures UniqueIds(a + b) <==> UniqueIds(a) && UniqueIds(b) && Ids(a) !! Ids(b)
  {
    var ab := a + b;
    if UniqueIds(ab) {
      forall i, j | 0 <= i < j < |a| ensures a[i].id != a[j].id {
        assert a[i] == ab[i] && a[j] == ab[j];
      }
      forall i, j | 0 <= i < j < |b| ensures b[i].id != b[j].id {
        assert b[i] == ab[|a| + i] && b[j] == ab[|a| + j];
      }
      forall x, y | x in a && y in b ensures x.id != y.id {
        var i :| 0 <= i < |a| && a[i] == x;
        var j :| 0 <= j < |b| && b[j] == y;
        assert ab[i] == x && ab[|a| + j] == y;
      }
    }
    if UniqueIds(a) && UniqueIds(b) && Ids(a) !! Ids(b) {
      forall i, j | 0 <= i < j < |ab| ensures ab[i].id != ab[j].id {
        if j < |a| {
          assert ab[i] == a[i] && ab[j] == a[j];
        } else if i >= |a| {
          assert ab[i] == b[i - |a|] && ab[j] == b[j - |a|];
        } else {
          assert ab[i] == a[i] && ab[j] == b[j - |a|];
          assert a[i] in a && b[j - |a|] in b;
          assert ab[i].id in Ids(a) && ab[j].id in Ids(b);
        }
      }
    }
  }

  /** Putting a recipe with a fresh id in front of the user list keeps the merged ids unique. */
  lemma PrependFreshKeepsUnique(user: seq<Recipe>, x: Recipe)
    requires UniqueIds(Merged(user))
    requires x.id !in Ids(Merged(user))
    ensures UniqueIds(Merged([x] + user))
  {
    UniqueIdsConcat(Data.BuiltIns, user);
    UniqueIdsConcat([x], user);
    UniqueIdsConcat(Data.BuiltIns, [x] + user);
    assert x in Merged(user) + [x];
    assert forall r :: r in Data.BuiltIns ==> r in Merged(user);
    assert forall r :: r in user ==> r in Merged(user);
  }

  /** Deleting entries from the user list keeps the merged ids unique. */
  lemma SublistKeepsMergedUnique(a: seq<Recipe>, b: seq<Recipe>)
    requires Sublist(a, b) && UniqueIds(Merged(b))
    ensures UniqueIds(Merged(a))
  {
    UniqueIdsConcat(Data.BuiltIns, b);
    UniqueIdsConcat(Data.BuiltIns, a);
    SublistKeepsUnique(a, b);
  }

  lemma {:induction false} SublistKeepsUnique(a: seq<Recipe>, b: seq<Recipe>)
    requires Sublist(a, b) && UniqueIds(b)
    ensures UniqueIds(a) && Ids(a) <= Ids(b)
    decreases |b|
  {
    if a == [] {
    } else if a[0] == b[0] && Sublist(a[1..], b[1..]) {
      assert UniqueIds(b[1..]) by { UniqueIdsConcat([b[0]], b[1..]); assert b == [b[0]] + b[1..]; }
      SublistKeepsUnique(a[1..], b[1..]);
      UniqueIdsConcat([b[0]], b[1..]);
      assert b == [b[0]] + b[1..];
      UniqueIdsConcat([a[0]], a[1..]);
      assert a == [a[0]] + a[1..];
      assert Ids(a) == Ids([a[0]]) + Ids(a[1..]);
      assert Ids(b) == Ids([b[0]]) + Ids(b[1..]);
    } else {
      assert UniqueIds(b[1..]) by { UniqueIdsConcat([b[0]], b[1..]); assert b == [b[0]] + b[1..]; }
      SublistKeepsUnique(a, b[1..]);
      assert b == [b[0]] + b[1..];
      assert Ids(b) == Ids([b[0]]) + Ids(b[1..]);
    }
  }

  /** The merged ids are unique exactly when the user ids are, and none of them is a built-in id. */
  lemma MergedUnique(user: seq<Recipe>)
    ensures UniqueIds(Merged(user)) <==> UniqueIds(user) && Ids(user) !! Ids(Data.BuiltIns)
  {
    Data.DistinctIds();
    UniqueIdsConcat(Data.BuiltIns, user);
  }

  // ---------------------------------------------------------------------------
  // Keyword search (`handleSearch`)
  // ---------------------------------------------------------------------------

  /** The lower-cased name and ingredients of `r`, joined by single spaces. */
  function SearchText(r: Recipe): string
  {
    ToLower(Join([r.name] + r.ingredients, " "))
  }

  /** The keywords of a query: lower-cased, split at every run of whitespace. */
  function Keywords(query: string): seq<string>
  {
    SplitRuns(ToLower(query), IsSpace)
  }

  /**
   * The keywords are the lower-cased query cut at its whitespace runs: joined
   * with single spaces they give the query with every run squeezed to one
   * space, and they are the only whitespace-free pieces that do.
   */
  lemma KeywordsJoin(query: string)
    ensures Join(Keywords(query), " ") == Squeeze(ToLower(query), IsSpace, ' ')
    ensures forall k, i :: 0 <= k < |Keywords(query)| && 0 <= i < |Keywords(query)[k]| ==>
      !IsSpace(Keywords(query)[k][i])
  {
    SplitRunsJoin(ToLower(query), IsSpace, ' ');
    SplitRunsShape(ToLower(query), IsSpace);
  }

  /** Every keyword occurs somewhere in the recipe's searchable text. */
  predicate MatchesAll(r: Recipe, keywords: seq<string>)
  {
    forall k :: 0 <= k < |keywords| ==> Contains(SearchText(r), keywords[k])
  }

  /** Every word of `words` occurs at some position of `text`. */
  ghost predicate OccursEvery(text: string, words: seq<string>)
  {
    forall w :: w in words ==> exists i: nat :: OccursAt(text, w, i)
  }

  /** The recipes of `rs` that match every keyword of `query`, in the order of `rs`. */
  function SearchResults(rs: seq<Recipe>, query: string): seq<Recipe>
  {
    Filter(rs, r => MatchesAll(r, Keywords(query)))
  }

  /**
   * A recipe is found exactly when every keyword of the query is a substring of its
   * searchable text; the results keep the catalog's order and multiplicities.
   */
  lemma SearchResultsSpec(rs: seq<Recipe>, query: string)
    ensures forall x :: x in SearchResults(rs, query) <==> x in rs && OccursEvery(SearchText(x), Keywords(query))
    ensures forall x :: multiset(SearchResults(rs, query))[x] ==
                        if MatchesAll(x, Keywords(query)) then multiset(rs)[x] else 0
    ensures Sublist(SearchResults(rs, query), rs)
  {
    var kws := Keywords(query);
    forall x
      ensures x in SearchResults(rs, query) <==> x in rs && OccursEvery(SearchText(x), kws)
    {
      var text := SearchText(x);
      assert x in SearchResults(rs, query) <==> x in rs && MatchesAll(x, kws);
      if MatchesAll(x, kws) {
        forall w | w in kws ensures exists i: nat :: OccursAt(text, w, i) {
          var k :| 0 <= k < |kws| && kws[k] == w;
          assert Contains(text, kws[k]);
          ContainsIff(text, w);
        }
      }
      if OccursEvery(text, kws) {
        forall k | 0 <= k < |kws| ensures Contains(text, kws[k]) {
          assert kws[k] in kws;
          ContainsIff(text, kws[k]);
        }
      }
    }
    FilterCounts(rs, r => MatchesAll(r, Keywords(query)));
    FilterSublist(rs, r => MatchesAll(r, Keywords(query)));
  }

  /**
   * A query with leading or trailing whitespace has an empty keyword, and an empty
   * keyword is a substring of every text: it matches every recipe.
   */
  lemma SurroundingSpaceGivesEmptyKeyword(query: string, r: Recipe)
    requires query != [] && (IsSpace(query[0]) || IsSpace(query[|query| - 1]))
    ensures [] in Keywords(query)
    ensures Contains(SearchText(r), [])
  {
    var lower := ToLower(query);
    SplitRunsShape(lower, IsSpace);
    var parts := Keywords(query);
    if IsSpace(query[0]) {
      assert parts[0] == [];
    } else {
      assert parts[|parts| - 1] == [];
    }
  }

  /** A word with neither whitespace nor ASCII capitals: it is its own keyword. */
  predicate IsLowerWord(w: string)
  {
    forall i :: 0 <= i < |w| ==> !IsSpace(w[i]) && !('A' <= w[i] <= 'Z')
  }

  /**
   * Searching for two of a recipe's own ingredients, as lower-case words
   * separated by one space, finds the recipe.
   */
  lemma FoundByTwoIngredients(rs: seq<Recipe>, r: Recipe, a: string, b: string)
    requires r in rs && a in r.ingredients && b in r.ingredients
    requires IsLowerWord(a) && IsLowerWord(b) && b != []
    ensures r in SearchResults(rs, a + " " + b)
  {
    KeywordsPair(a, b);
    var parts := [r.name] + r.ingredients;
    var text := Join(parts, " ");
    forall w | w in r.ingredients && IsLowerWord(w) ensures Contains(SearchText(r), w) {
      var k :| 0 <= k < |r.ingredients| && r.ingredients[k] == w;
      assert parts[k + 1] == w;
      JoinContainsPart(parts, " ", k + 1);
      ToLowerKeepsContains(text, w);
    }
    assert MatchesAll(r, [a, b]);
    SearchResultsSpec(rs, a + " " + b);
    assert multiset(rs)[r] > 0;
  }

  /**
   * A keyword of the query that starts with a character other than a lower-case
   * ASCII letter, found nowhere in a recipe's name or ingredients, excludes the
   * recipe from the results.
   */
  lemma MissedByForeignWord(rs: seq<Recipe>, r: Recipe, query: string, w: string)
    requires w in Keywords(query) && w != [] && !('a' <= w[0] <= 'z')
    requires w[0] !in r.name && forall k :: 0 <= k < |r.ingredients| ==> w[0] !in r.ingredients[k]
    ensures r !in SearchResults(rs, query)
  {
    var parts := [r.name] + r.ingredients;
    assert forall k :: 0 <= k < |parts| ==> w[0] !in parts[k];
    SplitRunsShape(ToLower(query), IsSpace);
    var kws := Keywords(query);
    var j :| 0 <= j < |kws| && kws[j] == w;
    assert !IsSpace(kws[j][0]);
    JoinAddsNoChar(parts, " ", w[0]);
    ToLowerAddsNoChar(Join(parts, " "), w[0]);
    NotContainedWithoutFirstChar(SearchText(r), w);
    assert !MatchesAll(r, kws);
    SearchResultsSpec(rs, query);
  }

  /** The case of `MissedByForeignWord` where the keyword is the second of two words. */
  lemma MissedBySecondWord(rs: seq<Recipe>, r: Recipe, a: string, c: string)
    requires IsLowerWord(a) && IsLowerWord(c) && c != [] && !('a' <= c[0] <= 'z')
    requires c[0] !in r.name && forall k :: 0 <= k < |r.ingredients| ==> c[0] !in r.ingredients[k]
    ensures r !in SearchResults(rs, a + " " + c)
  {
    KeywordsPair(a, c);
    assert c in [a, c];
    MissedByForeignWord(rs, r, a + " " + c, c);
  }

  /**
   * An example of the search, part one: whatever the user's recipes,
   * the built-in 青椒炒牛肉 (牛肉, 青椒) is found by the query "牛肉 青椒".
   */
  lemma SearchFindsExample(user: seq<Recipe>)
    ensures Data.BuiltIns[1] in SearchResults(Merged(user), "牛肉 青椒")
  {
    Data.PepperBeef();
    var r := Data.BuiltIns[1];
    assert r in Merged(user);
    assert "牛肉 青椒" == "牛肉" + " " + "青椒";
    FoundByTwoIngredients(Merged(user), r, "牛肉", "青椒");
  }

  /** Part two: the query "牛肉 土豆" does not find it, since 土 occurs nowhere in it. */
  lemma SearchMissesExample(user: seq<Recipe>)
    ensures Data.BuiltIns[1] !in SearchResults(Merged(user), "牛肉 土豆")
  {
    Data.PepperBeef();
    var r := Data.BuiltIns[1];
    assert "牛肉 土豆" == "牛肉" + " " + "土豆";
    MissedBySecondWord(Merged(user), r, "牛肉", "土豆");
  }

  /** A query of two lower-case words around one space has exactly those two keywords. */
  lemma KeywordsPair(a: string, b: string)
    requires IsLowerWord(a) && IsLowerWord(b) && b != []
    ensures Keywords(a + " " + b) == [a, b]
  {
    var q := a + " " + b;
    assert forall i :: 0 <= i < |q| ==> !('A' <= q[i] <= 'Z') by {
      forall i | 0 <= i < |q| ensures !('A' <= q[i] <= 'Z') {
        if i < |a| { assert q[i] == a[i]; } else if i > |a| { assert q[i] == b[i - |a| - 1]; }
      }
    }
    ToLowerKeeps(q);
    SplitRunsPair(a, ' ', b, IsSpace);
  }

  // ---------------------------------------------------------------------------
  // Grouping by category (`categorizedRecipes`)
  // ---------------------------------------------------------------------------

  /** The categories of `rs`, each once, in order of first appearance. */
  function CategoryOrder(rs: seq<Recipe>): seq<string>
  {
    if rs == [] then []
    else
      var keys := CategoryOrder(rs[..|rs| - 1]);
      if rs[|rs| - 1].category in keys then keys else keys + [rs[|rs| - 1].category]
  }

  /** The recipes of `rs` in category `c`, in the order of `rs`. */
  function InCategory(rs: seq<Recipe>, c: string): seq<Recipe>
  {
    Filter(rs, (r: Recipe) => r.category == c)
  }

  /** Adding a recipe at the end adds it to the end of its own category's group only. */
  lemma InCategoryAppend(rs: seq<Recipe>, x: Recipe, c: string)
    ensures InCategory(rs + [x], c) == InCategory(rs, c) + (if x.category == c then [x] else [])
  {
    FilterAppend(rs, x, (r: Recipe) => r.category == c);
  }

  /** A category that is not a key has an empty group. */
  lemma InCategoryOfNonKey(rs: seq<Recipe>, c: string)
    requires c !in CategoryOrder(rs)
    ensures InCategory(rs, c) == []
  {
    CategoryOrderSpec(rs);
    var g := InCategory(rs, c);
    FilterCounts(rs, (r: Recipe) => r.category == c);
    assert multiset(g) == multiset{};
  }

  /** A category is a key exactly when some recipe has it, and no key appears twice. */
  lemma {:induction false} CategoryOrderSpec(rs: seq<Recipe>)
    ensures forall c :: c in CategoryOrder(rs) <==> exists r :: r in rs && r.category == c
    ensures forall i, j :: 0 <= i < j < |CategoryOrder(rs)| ==> CategoryOrder(rs)[i] != CategoryOrder(rs)[j]
  {
    if rs != [] {
      var init := rs[..|rs| - 1];
      CategoryOrderSpec(init);
      assert rs == init + [rs[|rs| - 1]];
      forall c | c in CategoryOrder(rs) ensures exists r :: r in rs && r.category == c {
        if c in CategoryOrder(init) {
          var r :| r in init && r.category == c;
          assert r in rs;
        }
      }
    }
  }

  /**
   * The grouping `reduce`: one group per category, keys in order of first
   * appearance, each group holding that category's recipes in catalog order.
   */
  method GroupByCategory(rs: seq<Recipe>) returns (keys: seq<string>, groups: map<string, seq<Recipe>>)
    ensures keys == CategoryOrder(rs)
    ensures forall c :: c in groups <==> c in keys
    ensures forall c :: c in groups ==> groups[c] == InCategory(rs, c)
  {
    keys, groups := [], map[];
    for i := 0 to |rs|
      invariant keys == CategoryOrder(rs[..i])
      invariant forall c :: c in groups <==> c in keys
      invariant forall c :: c in groups ==> groups[c] == InCategory(rs[..i], c)
    {
      var r := rs[i];
      assert rs[..i + 1] == rs[..i] + [r];
      if r.category !in groups {
        InCategoryOfNonKey(rs[..i], r.category);
        groups := groups[r.category := []];
        keys := keys + [r.category];
      }
      groups := groups[r.category := groups[r.category] + [r]];
      forall c | c in groups ensures groups[c] == InCategory(rs[..i + 1], c) {
        InCategoryAppend(rs[..i], r, c);
      }
    }
    assert rs[..|rs|] == rs;
  }

  /**
   * In a list laid out in the four blocks, as the built-in catalog is, the group
   * keys of any prefix are the block categories reached so far, in block order.
   */
  lemma {:induction false} BlockPrefixOrder(rs: seq<Recipe>, n: nat)
    requires n <= |rs|
    requires forall i :: 0 <= i < |rs| ==> rs[i].category == Data.BlockCategory(Data.Block(i))
    ensures var blocks := if n == 0 then 0 else Data.Block(n - 1) + 1;
      CategoryOrder(rs[..n]) == BlockCategories()[..blocks]
  {
    if n > 0 {
      var m := n - 1;
      BlockPrefixOrder(rs, m);
      assert rs[..n][..m] == rs[..m];
      var k := if m == 0 then 0 else Data.Block(m - 1) + 1;
      Data.BlockCategoriesDistinct();
      FreshKey(BlockCategories(), k);
    }
  }

  /** In a list of distinct keys, the key at `k` is not among those before it. */
  lemma FreshKey(cs: seq<string>, k: nat)
    requires forall b, c :: 0 <= b < c < |cs| ==> cs[b] != cs[c]
    ensures k < |cs| ==> cs[k] !in cs[..k]
  {
  }

  /** The four block categories of the built-in catalog, in order. */
  function BlockCategories(): (cs: seq<string>)
    ensures |cs| == 4 && forall b :: 0 <= b < 4 ==> cs[b] == Data.BlockCategory(b)
  {
    [Data.BeefCategory, Data.PorkCategory, Data.ChickenCategory, Data.VegetableCategory]
  }

  /**
   * Grouping the built-in recipes alone gives exactly four groups, in the order
   * beef, pork, chicken, vegetables: the same order as the add-recipe form offers.
   */
  lemma BuiltInGroups()
    ensures CategoryOrder(Data.BuiltIns) == FormCategories
  {
    Data.CategoryLayout();
    BlockPrefixOrder(Data.BuiltIns, |Data.BuiltIns|);
    assert Data.BuiltIns[..|Data.BuiltIns|] == Data.BuiltIns;
  }

  /** Total number of recipes in the groups named by `keys`. */
  function GroupSizes(rs: seq<Recipe>, keys: seq<string>): nat
  {
    if keys == [] then 0
    else GroupSizes(rs, keys[..|keys| - 1]) + |InCategory(rs, keys[|keys| - 1])|
  }

  lemma {:induction false} GroupSizesAppendRecipe(rs: seq<Recipe>, x: Recipe, keys: seq<string>)
    requires forall i, j :: 0 <= i < j < |keys| ==> keys[i] != keys[j]
    ensures GroupSizes(rs + [x], keys) == GroupSizes(rs, keys) + (if x.category in keys then 1 else 0)
  {
    if keys != [] {
      var init := keys[..|keys| - 1];
      var last := keys[|keys| - 1];
      GroupSizesAppendRecipe(rs, x, init);
      InCategoryAppend(rs, x, last);
      assert keys == init + [last];
      forall i | 0 <= i < |init| ensures init[i] != last {
        assert keys[i] == init[i];
      }
    }
  }

  /** Every recipe lands in exactly one group: the group sizes add up to the catalog size. */
  lemma {:induction false} GroupSizesSum(rs: seq<Recipe>)
    ensures GroupSizes(rs, CategoryOrder(rs)) == |rs|
  {
    if rs != [] {
      var init := rs[..|rs| - 1];
      var x := rs[|rs| - 1];
      assert rs == init + [x];
      GroupSizesSum(init);
      CategoryOrderSpec(init);
      var keys := CategoryOrder(init);
      GroupSizesAppendRecipe(init, x, keys);
      if x.category !in keys {
        InCategoryAppend(init, x, x.category);
        InCategoryOfNonKey(init, x.category);
        assert (keys + [x.category])[..|keys|] == keys;
      }
    }
  }

  /** A recipe occurs in its own category's group as often as in the catalog, and in no other group. */
  lemma GroupHoldsEachRecipeOnce(rs: seq<Recipe>, x: Recipe)
    ensures multiset(InCategory(rs, x.category))[x] == multiset(rs)[x]
    ensures forall c :: c != x.category ==> x !in InCategory(rs, c)
  {
    FilterCounts(rs, (r: Recipe) => r.category == x.category);
  }

  // ---------------------------------------------------------------------------
  // Category icon (`getCategoryIcon`)
  // ---------------------------------------------------------------------------

  datatype Icon = Beef | Flame | Drumstick | Sparkles | Egg

  /** The first marker the category contains decides the icon; none gives the egg. */
  function IconFor(category: string): Icon
  {
    if Contains(category, "牛肉") then Beef
    else if Contains(category, "猪肉") then Flame
    else if Contains(category, "鸡肉") then Drumstick
    else if Contains(category, "AI") then Sparkles
    else Egg
  }

  /** A word whose first character does not occur in `text` is not contained in it. */
  lemma {:induction false} NotContainedWithoutFirstChar(text: string, word: string)
    requires word != [] && word[0] !in text
    ensures !Contains(text, word)
  {
    if text != [] {
      assert text[0] in text;
      assert forall c :: c in text[1..] ==> c in text;
      NotContainedWithoutFirstChar(text[1..], word);
    }
  }

  /** The beef and pork categories get their own icons. */
  lemma MeatIcons()
    ensures IconFor(Data.BeefCategory) == Beef
    ensures IconFor(Data.PorkCategory) == Flame
  {
    assert StartsWith(Data.BeefCategory, "牛肉");
    NotContainedWithoutFirstChar(Data.PorkCategory, "牛肉");
    assert StartsWith(Data.PorkCategory, "猪肉");
  }

  /** The chicken and AI categories get their own icons. */
  lemma ChickenAndAiIcons()
    ensures IconFor(Data.ChickenCategory) == Drumstick
    ensures IconFor(AiCategory) == Sparkles
  {
    assert StartsWith(Data.ChickenCategory, "鸡肉");
    DrumstickWithoutMeatChars(Data.ChickenCategory);
    assert StartsWith(AiCategory, "AI");
    SparklesWithoutMeatChars(AiCategory);
  }

  /** A category starting with 鸡肉 and holding no 牛 or 猪 gets the drumstick. */
  lemma DrumstickWithoutMeatChars(c: string)
    requires '牛' !in c && '猪' !in c && StartsWith(c, "鸡肉")
    ensures IconFor(c) == Drumstick
  {
    NotContainedWithoutFirstChar(c, "牛肉");
    NotContainedWithoutFirstChar(c, "猪肉");
  }

  /** A category starting with AI and holding no 牛, 猪 or 鸡 gets the sparkles. */
  lemma SparklesWithoutMeatChars(c: string)
    requires '牛' !in c && '猪' !in c && '鸡' !in c && StartsWith(c, "AI")
    ensures IconFor(c) == Sparkles
  {
    NotContainedWithoutFirstChar(c, "牛肉");
    NotContainedWithoutFirstChar(c, "猪肉");
    NotContainedWithoutFirstChar(c, "鸡肉");
  }

  /** The vegetable category contains no marker and falls back to the egg. */
  lemma FallbackIcon()
    ensures IconFor(Data.VegetableCategory) == Egg
  {
    EggWithoutMarkerChars(Data.VegetableCategory);
  }

  /** A category holding none of the markers' first characters gets the egg. */
  lemma EggWithoutMarkerChars(c: string)
    requires '牛' !in c && '猪' !in c && '鸡' !in c && 'A' !in c
    ensures IconFor(c) == Egg
  {
    NotContainedWithoutFirstChar(c, "牛肉");
    NotContainedWithoutFirstChar(c, "猪肉");
    NotContainedWithoutFirstChar(c, "鸡肉");
    NotContainedWithoutFirstChar(c, "AI");
  }

  /** The marker `word` occurs somewhere in `category`. */
  ghost predicate HasMarker(category: string, word: string)
  {
    exists i: nat :: OccursAt(category, word, i)
  }

  /**
   * The icon is decided by the first marker, in the order 牛肉, 猪肉, 鸡肉, AI,
   * that occurs anywhere in the category: a category holding several markers
   * gets the icon of the one tested first, and one holding none gets the egg.
   */
  lemma IconPrecedence(c: string)
    ensures IconFor(c) == Beef <==> HasMarker(c, "牛肉")
    ensures IconFor(c) == Flame <==> !HasMarker(c, "牛肉") && HasMarker(c, "猪肉")
    ensures IconFor(c) == Drumstick <==>
      !HasMarker(c, "牛肉") && !HasMarker(c, "猪肉") && HasMarker(c, "鸡肉")
    ensures IconFor(c) == Sparkles <==>
      !HasMarker(c, "牛肉") && !HasMarker(c, "猪肉") && !HasMarker(c, "鸡肉") && HasMarker(c, "AI")
    ensures IconFor(c) == Egg <==>
      !HasMarker(c, "牛肉") && !HasMarker(c, "猪肉") && !HasMarker(c, "鸡肉") && !HasMarker(c, "AI")
  {
    ContainsIff(c, "牛肉");
    ContainsIff(c, "猪肉");
    ContainsIff(c, "鸡肉");
    ContainsIff(c, "AI");
  }

  /** For example, a category naming both AI and beef gets the beef icon. */
  lemma MixedMarkersExample()
    ensures IconFor("AI 牛肉") == Beef
  {
    assert OccursAt("AI 牛肉", "牛肉", 3);
    IconPrecedence("AI 牛肉");
  }

  // ---------------------------------------------------------------------------
  // Custom recipes
  // ---------------------------------------------------------------------------

  /** The category of AI suggestions is none of the form's categories. */
  lemma AiNotAFormCategory()
    ensures AiCategory !in FormCategories
  {
    assert AiCategory[0] == 'A';
    assert forall k :: 0 <= k < |FormCategories| ==> FormCategories[k][0] != 'A';
  }

  /** The category given to recipes taken from an AI suggestion. */
  const AiCategory: string := "AI 灵感"
  /** The tag put first among the ingredients of an AI-suggested recipe. */
  const AiTag: string := "AI推荐"
  /** The categories the add-recipe form offers, in the form's order. */
  const FormCategories: seq<string> := ["牛肉类", "猪肉/排骨类", "鸡肉类", "素菜/蛋/主食"]
  /** The category the add-recipe form starts with. */
  const DefaultCategory: string := "素菜/蛋/主食"

  /** `userRecipes.find(r => r.name === name)`: the first recipe with that name, if any. */
  function FindByName(rs: seq<Recipe>, name: string): (found: Option<Recipe>)
    ensures found.None? <==> forall r :: r in rs ==> r.name != name
    ensures found.Some? ==> exists i :: 0 <= i < |rs| && rs[i] == found.value && rs[i].name == name
                                      && forall j :: 0 <= j < i ==> rs[j].name != name
  {
    if rs == [] then None
    else if rs[0].name == name then Some(rs[0])
    else
      var found := FindByName(rs[1..], name);
      assert forall r :: r in rs ==> r == rs[0] || r in rs[1..];
      if found.Some? then
        var i :| 0 <= i < |rs[1..]| && rs[1..][i] == found.value && rs[1..][i].name == name
                 && forall j :: 0 <= j < i ==> rs[1..][j].name != name;
        assert rs[i + 1] == found.value;
        assert forall j :: 0 < j <= i ==> rs[j] == rs[1..][j - 1];
        found
      else found
  }

  /** The user entries whose id differs from `id`, in their order. */
  function RemoveId(rs: seq<Recipe>, id: string): seq<Recipe>
  {
    Filter(rs, (r: Recipe) => r.id != id)
  }

  /**
   * Removing an id drops exactly the entries carrying it: the others stay, in order
   * and with their multiplicities.
   */
  lemma RemoveIdSpec(rs: seq<Recipe>, id: string)
    ensures forall r :: r in RemoveId(rs, id) <==> r in rs && r.id != id
    ensures forall r: Recipe :: r.id != id ==> multiset(RemoveId(rs, id))[r] == multiset(rs)[r]
    ensures Sublist(RemoveId(rs, id), rs)
    ensures id !in Ids(RemoveId(rs, id))
  {
    FilterCounts(rs, (r: Recipe) => r.id != id);
    FilterSublist(rs, (r: Recipe) => r.id != id);
  }

  /** The separators of the ingredient field: full-width comma, comma and space. */
  predicate IsIngredientSeparator(c: char)
  {
    c == '，' || c == ',' || c == ' '
  }

  /** `text.split(/[，, ]+/).filter(i => i.trim())`. */
  function ParseIngredients(text: string): (ingredients: seq<string>)
    ensures forall k :: 0 <= k < |ingredients| ==> !IsBlank(ingredients[k])
    ensures forall k, i :: 0 <= k < |ingredients| && 0 <= i < |ingredients[k]| ==>
      !IsIngredientSeparator(ingredients[k][i])
  {
    var pieces := SplitRuns(text, IsIngredientSeparator);
    SplitRunsShape(text, IsIngredientSeparator);
    var kept := Filter(pieces, (p: string) => Trim(p) != []);
    forall k | 0 <= k < |kept| ensures !IsBlank(kept[k]) && kept[k] in pieces {
      assert kept[k] in kept;
      TrimEmptyIffBlank(kept[k]);
    }
    kept
  }

  /**
   * The ingredients are the pieces of the field cut at its separator runs,
   * in order, without the blank ones.
   */
  lemma ParseIngredientsSpec(text: string)
    ensures forall p :: p in ParseIngredients(text) <==>
      p in SplitRuns(text, IsIngredientSeparator) && !IsBlank(p)
    ensures Sublist(ParseIngredients(text), SplitRuns(text, IsIngredientSeparator))
    ensures forall p :: multiset(ParseIngredients(text))[p] ==
                        if IsBlank(p) then 0 else multiset(SplitRuns(text, IsIngredientSeparator))[p]
  {
    var pieces := SplitRuns(text, IsIngredientSeparator);
    var keep := (p: string) => Trim(p) != [];
    FilterCounts(pieces, keep);
    forall p ensures p in ParseIngredients(text) <==> p in pieces && !IsBlank(p)
      ensures multiset(ParseIngredients(text))[p] == if IsBlank(p) then 0 else multiset(pieces)[p]
    {
      TrimEmptyIffBlank(p);
    }
    FilterSublist(pieces, keep);
  }

  /** Two words around one separator character are parsed into exactly those two ingredients. */
  lemma ParseIngredientsPair(a: string, c: char, b: string)
    requires forall i :: 0 <= i < |a| ==> !IsIngredientSeparator(a[i])
    requires forall i :: 0 <= i < |b| ==> !IsIngredientSeparator(b[i])
    requires !IsBlank(a) && !IsBlank(b) && IsIngredientSeparator(c)
    ensures ParseIngredients(a + [c] + b) == [a, b]
  {
    SplitRunsPair(a, c, b, IsIngredientSeparator);
    TrimEmptyIffBlank(a);
    TrimEmptyIffBlank(b);
    var keep := (p: string) => Trim(p) != [];
    assert Filter([a, b], keep) == [a] + Filter([b], keep);
    assert Filter([b], keep) == [b] + Filter([], keep);
  }

  /** A separator in front of the ingredients adds no empty ingredient. */
  lemma ParseIngredientsLeadingSeparator(c: char, text: string)
    requires IsIngredientSeparator(c) && (text == [] || !IsIngredientSeparator(text[0]))
    ensures ParseIngredients([c] + text) == ParseIngredients(text)
  {
    var s := [c] + text;
    assert s[1..] == text;
    assert SkipRun(s, IsIngredientSeparator) == text;
    TrimEmptyIffBlank([]);
  }

  /** The recipe the add-recipe form creates. */
  function FormRecipe(id: string, name: string, ingredientsText: string, category: string): (r: Recipe)
    ensures r.isCustom && r.id == id && r.name == name && r.category == category
    ensures r.ingredients == ParseIngredients(ingredientsText)
  {
    Recipe(id, name, ParseIngredients(ingredientsText), category, true)
  }

  /** The recipe created from an AI-suggested dish name. */
  function SuggestedRecipe(id: string, name: string, exploreInput: string): (r: Recipe)
    ensures r.isCustom && r.id == id && r.name == name && r.category == AiCategory
    ensures |r.ingredients| >= 2 && r.ingredients[0] == AiTag
    ensures Join(r.ingredients[1..], " ") == exploreInput
    ensures forall k, i :: 1 <= k < |r.ingredients| && 0 <= i < |r.ingredients[k]| ==>
      r.ingredients[k][i] != ' '
  {
    JoinSplitOn(exploreInput, ' ');
    assert ([AiTag] + SplitOn(exploreInput, ' '))[1..] == SplitOn(exploreInput, ' ');
    Recipe(id, name, [AiTag] + SplitOn(exploreInput, ' '), AiCategory, true)
  }
}
