/** The built-in catalog shipped with the application (data.ts). */
module Data {
  import opened Types
  import opened Text

  /** The fixed built-in recipes, in catalog order: the four category blocks one after the other. */
  const BuiltIns: seq<Recipe> := BeefRecipes + PorkRecipes + ChickenRecipes + VegetableRecipes

  /** The beef block. */
  const BeefRecipes: seq<Recipe> := [
    Recipe("b1", "日式牛排盖饭", ["Ribeye牛排", "米饭", "大蒜", "黄油"], "牛肉类", false),
    Recipe("b2", "青椒炒牛肉", ["牛肉", "青椒"], "牛肉类", false),
    Recipe("b3", "孜然洋葱炒牛肉", ["牛肉", "洋葱", "孜然"], "牛肉类", false),
    Recipe("b4", "黑椒玉米牛肉粒", ["牛肉", "玉米", "黑胡椒"], "牛肉类", false),
    Recipe("b5", "西红柿土豆炖牛肉", ["牛肉", "西红柿", "土豆"], "牛肉类", false),
    Recipe("b6", "小炒黄牛肉", ["牛肉", "小米辣", "香菜"], "牛肉类", false),
    Recipe("b7", "黑椒牛柳炒意面", ["Flank牛肉", "意面", "黑胡椒", "红椒"], "牛肉类", false),
    Recipe("b8", "红烧牛肉面", ["牛腩", "面条", "豆瓣酱", "八角"], "牛肉类", false)
  ]

  /** The pork and ribs block. */
  const PorkRecipes: seq<Recipe> := [
    Recipe("p1", "蒜香排骨[免油炸]", ["排骨", "大蒜"], "猪肉/排骨类", false),
    Recipe("p2", "炖排骨", ["排骨", "葱姜"], "猪肉/排骨类", false),
    Recipe("p3", "农家小炒肉", ["五花肉", "青红椒"], "猪肉/排骨类", false),
    Recipe("p4", "土豆炒肉", ["土豆", "猪肉"], "猪肉/排骨类", false),
    Recipe("p5", "糖醋里脊", ["猪里脊", "番茄酱", "白醋"], "猪肉/排骨类", false),
    Recipe("p6", "鱼香肉丝", ["里脊肉", "木耳", "胡萝卜", "青椒"], "猪肉/排骨类", false)
  ]

  /** The chicken block. */
  const ChickenRecipes: seq<Recipe> := [
    Recipe("c1", "柠檬炒鸡肉", ["鸡肉", "柠檬"], "鸡肉类", false),
    Recipe("c2", "凉拌手撕鸡", ["鸡腿", "辣椒油", "花生"], "鸡肉类", false),
    Recipe("c3", "鸡公煲", ["鸡肉", "洋葱", "芹菜"], "鸡肉类", false),
    Recipe("c4", "宫保鸡丁", ["鸡胸肉", "花生米", "干辣椒"], "鸡肉类", false),
    Recipe("c5", "照烧鸡腿饭", ["鸡腿", "米饭", "照烧汁"], "鸡肉类", false)
  ]

  /** The vegetables, eggs and staples block. */
  const VegetableRecipes: seq<Recipe> := [
    Recipe("v1", "醋溜白菜", ["白菜", "醋", "干辣椒"], "素菜/蛋/主食", false),
    Recipe("v2", "芹菜炒玉米粒", ["芹菜", "玉米"], "素菜/蛋/主食", false),
    Recipe("v3", "西葫芦炒蛋", ["西葫芦", "鸡蛋"], "素菜/蛋/主食", false),
    Recipe("v4", "西红柿炒鸡蛋", ["西红柿", "鸡蛋"], "素菜/蛋/主食", false),
    Recipe("v5", "干煸菜花", ["菜花", "干辣椒"], "素菜/蛋/主食", false),
    Recipe("v6", "蟹柳滑蛋薯饼汉堡", ["蟹柳", "鸡蛋", "薯饼"], "素菜/蛋/主食", false),
    Recipe("v7", "黄油煎蛋早餐", ["鸡蛋", "黄油"], "素菜/蛋/主食", false),
    Recipe("v8", "麻婆豆腐", ["嫩豆腐", "肉末", "豆瓣酱"], "素菜/蛋/主食", false),
    Recipe("v9", "地三鲜", ["土豆", "茄子", "青椒"], "素菜/蛋/主食", false)
  ]

  /** The four categories of the built-in catalog, in catalog order. */
  const BeefCategory: string := "牛肉类"
  const PorkCategory: string := "猪肉/排骨类"
  const ChickenCategory: string := "鸡肉类"
  const VegetableCategory: string := "素菜/蛋/主食"

  /** Index of the block position `i` falls in: beef 0-7, pork 8-13, chicken 14-18, vegetables 19-27. */
  function Block(i: nat): nat
  {
    if i < 8 then 0 else if i < 14 then 1 else if i < 19 then 2 else 3
  }

  /** The position at which block `b` starts. */
  function BlockStart(b: nat): nat
  {
    if b == 0 then 0 else if b == 1 then 8 else if b == 2 then 14 else 19
  }

  /** The category of block `b`. */
  function BlockCategory(b: nat): string
  {
    if b == 0 then BeefCategory else if b == 1 then PorkCategory
    else if b == 2 then ChickenCategory else VegetableCategory
  }

  /** The id at catalog position `i`: the block's prefix letter and a one-based digit. */
  function IdAt(i: nat): string
  {
    var prefix := if Block(i) == 0 then 'b' else if Block(i) == 1 then 'p' else if Block(i) == 2 then 'c' else 'v';
    [prefix, Digit(i - BlockStart(Block(i)) + 1)]
  }

  function Digit(n: int): char
  {
    if 0 <= n <= 9 then ('0' as int + n) as char else '?'
  }

  /** Position by position, the catalog's ids and categories follow its four blocks. */
  lemma IdLayout()
    ensures |BuiltIns| == 28
    ensures forall i :: 0 <= i < |BuiltIns| ==> BuiltIns[i].id == IdAt(i)
  {
  }

  lemma CategoryLayout()
    ensures |BuiltIns| == 28
    ensures forall i :: 0 <= i < |BuiltIns| ==> BuiltIns[i].category == BlockCategory(Block(i))
  {
  }

  /** The built-in recipe b2 is 青椒炒牛肉, made of 牛肉 and 青椒. */
  lemma PepperBeef()
    ensures BuiltIns[1].id == "b2" && BuiltIns[1].name == "青椒炒牛肉"
    ensures BuiltIns[1].ingredients == ["牛肉", "青椒"]
  {
    assert BuiltIns[1] == BeefRecipes[1];
  }

  /** The built-in recipe v8 is 麻婆豆腐. */
  lemma MapoTofu()
    ensures BuiltIns[26].id == "v8" && BuiltIns[26].name == "麻婆豆腐"
  {
  }

  /** All built-in ids are pairwise distinct. */
  lemma DistinctIds()
    ensures forall i, j :: 0 <= i < j < |BuiltIns| ==> BuiltIns[i].id != BuiltIns[j].id
  {
    IdLayout();
  }

  /**
   * Every built-in id is two characters, a block letter b, p, c or v and a digit
   * 1-9, so none starts with the `user-` or `ai-` prefix of custom ids.
   */
  lemma IdShape()
    ensures forall r :: r in BuiltIns ==>
      |r.id| == 2 && r.id[0] in "bpcv" && '1' <= r.id[1] <= '9'
    ensures forall r :: r in BuiltIns ==> !StartsWith(r.id, "user-") && !StartsWith(r.id, "ai-")
  {
    IdLayout();
    forall r | r in BuiltIns ensures |r.id| == 2 && r.id[0] in "bpcv" && '1' <= r.id[1] <= '9' {
      var i :| 0 <= i < |BuiltIns| && BuiltIns[i] == r;
      assert r.id == IdAt(i);
    }
  }

  /** No built-in recipe is custom, so none is offered for deletion. */
  lemma NoneCustom()
    ensures forall r :: r in BuiltIns ==> !r.isCustom
  {
  }

  /** Every built-in recipe has a non-empty name. */
  lemma NamesNonEmpty()
    ensures forall r :: r in BuiltIns ==> |r.name| > 0
  {
  }

  /** Every built-in recipe lists at least two ingredients. */
  lemma TwoIngredients()
    ensures forall r :: r in BuiltIns ==> |r.ingredients| >= 2
  {
  }

  /** Every built-in category is one of the four block categories. */
  lemma KnownCategories()
    ensures forall r :: r in BuiltIns ==>
      r.category in [BeefCategory, PorkCategory, ChickenCategory, VegetableCategory]
  {
  }

  /** The four block categories are pairwise different. */
  lemma BlockCategoriesDistinct()
    ensures forall b, c :: 0 <= b < c < 4 ==> BlockCategory(b) != BlockCategory(c)
  {
    assert BeefCategory[0] != PorkCategory[0] && BeefCategory[0] != ChickenCategory[0];
    assert BeefCategory[0] != VegetableCategory[0] && PorkCategory[0] != ChickenCategory[0];
    assert PorkCategory[0] != VegetableCategory[0] && ChickenCategory[0] != VegetableCategory[0];
  }

  /** Recipes of one category are contiguous: between two of them every recipe shares it. */
  lemma {:induction false} Contiguous()
    ensures forall i, j, k ::
      (0 <= i <= j <= k < |BuiltIns| && BuiltIns[i].category == BuiltIns[k].category) ==>
      BuiltIns[j].category == BuiltIns[i].category
  {
    CategoryLayout();
    BlockCategoriesDistinct();
  }
}
