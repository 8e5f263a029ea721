/** The tips page of components/features/tips/TravelTips.tsx: the category
    buttons, the category filter and the category icons. */
module TravelTips {
  import opened Wrappers
  import Lists

  datatype TipCategory = Packing | Safety | Budgeting | Photography | Etiquette | General

  /** A tip; its body text and picture are left out. */
  datatype Tip = Tip(id: string, title: string, category: TipCategory, author: string, datePublished: string)

  /** The selection that shows every tip; it is also the initial selection. */
  const AllKey := "all"

  /** The string a category is known by in the selection state and the icon table. */
  function CategoryName(c: TipCategory): (name: string)
    ensures name != AllKey && |name| > 0
    ensures forall i :: 0 <= i < |name| ==> 'a' <= name[i] <= 'z'
  {
    match c
    case Packing => "packing"
    case Safety => "safety"
    case Budgeting => "budgeting"
    case Photography => "photography"
    case Etiquette => "etiquette"
    case General => "general"
  }

  /** Distinct categories have distinct names, none of them "all". */
  lemma CategoryNamesDistinct(c: TipCategory, d: TipCategory)
    ensures CategoryName(c) == CategoryName(d) <==> c == d
    ensures CategoryName(c) != AllKey
  {
  }

  /** `filteredTips`: every tip for "all", otherwise the tips whose category
      name equals the selection, in their original order. */
  function FilteredTips(tips: seq<Tip>, selected: string): (r: seq<Tip>)
    ensures selected == AllKey ==> r == tips
    ensures selected != AllKey ==> forall i :: 0 <= i < |r| ==> r[i] in tips && CategoryName(r[i].category) == selected
    ensures selected != AllKey ==> forall i :: 0 <= i < |tips| && CategoryName(tips[i].category) == selected ==> tips[i] in r
  {
    if selected == AllKey then tips
    else Lists.Filter(tips, (t: Tip) => CategoryName(t.category) == selected)
  }

  /** A tip shows under the button of category `c` exactly when it has that category. */
  lemma ShownUnderOwnCategory(tips: seq<Tip>, c: TipCategory, k: nat)
    requires k < |tips|
    ensures tips[k] in FilteredTips(tips, CategoryName(c)) <==> tips[k].category == c
  {
    CategoryNamesDistinct(c, tips[k].category);
    if tips[k] in FilteredTips(tips, CategoryName(c)) {
      var r := FilteredTips(tips, CategoryName(c));
      var i :| 0 <= i < |r| && r[i] == tips[k];
      CategoryNamesDistinct(r[i].category, c);
    }
  }

  /** A selection that is neither "all" nor a category name shows nothing. */
  lemma UnknownSelectionShowsNothing(tips: seq<Tip>, selected: string)
    requires selected != AllKey
    requires forall c: TipCategory :: CategoryName(c) != selected
    ensures FilteredTips(tips, selected) == []
  {
    Lists.FilterDropsAll(tips, (t: Tip) => CategoryName(t.category) == selected);
  }

  /** The categories of the tips, in tip order. */
  function Categories(tips: seq<Tip>): (cs: seq<TipCategory>)
    ensures |cs| == |tips| && forall i :: 0 <= i < |tips| ==> cs[i] == tips[i].category
  {
    seq(|tips|, i requires 0 <= i < |tips| => tips[i].category)
  }

  /** `uniqueCategories`: one button per category some tip has, each once,
      in the order the categories first occur among the tips. */
  function UniqueCategories(tips: seq<Tip>): (r: seq<TipCategory>)
    ensures forall i, j :: 0 <= i < j < |r| ==> r[i] != r[j]
    ensures forall i :: 0 <= i < |tips| ==> tips[i].category in r
    ensures forall i :: 0 <= i < |r| ==> exists k :: 0 <= k < |tips| && tips[k].category == r[i]
    ensures forall i, j :: 0 <= i < j < |r| ==>
      Lists.FirstIndex(Categories(tips), r[i]) < Lists.FirstIndex(Categories(tips), r[j])
  {
    var cs := Categories(tips);
    var r := Lists.Dedup(cs);
    assert forall i :: 0 <= i < |tips| ==> tips[i].category == cs[i];
    r
  }

  /** The fallback icon, for keys the table does not have. */
  const Pin := "\U{1F4CC}"

  /** The category a key names, if any. */
  function KeyCategory(key: string): (r: Option<TipCategory>)
    ensures r.None? <==> forall c: TipCategory :: CategoryName(c) != key
    ensures r.Some? ==> CategoryName(r.value) == key
  {
    if key == "packing" then assert CategoryName(Packing) == key; Some(Packing)
    else if key == "safety" then assert CategoryName(Safety) == key; Some(Safety)
    else if key == "budgeting" then assert CategoryName(Budgeting) == key; Some(Budgeting)
    else if key == "photography" then assert CategoryName(Photography) == key; Some(Photography)
    else if key == "etiquette" then assert CategoryName(Etiquette) == key; Some(Etiquette)
    else if key == "general" then assert CategoryName(General) == key; Some(General)
    else None
  }

  /** The emoji of each category's entry in the icon table. */
  function Icon(c: TipCategory): (icon: string)
    ensures icon != Pin && |icon| > 0
  {
    match c
    case Packing => "\U{1F9F3}"
    case Safety => "\U{1F6E1}\U{FE0F}"
    case Budgeting => "\U{1F4B0}"
    case Photography => "\U{1F4F8}"
    case Etiquette => "\U{1F91D}"
    case General => "\U{2708}\U{FE0F}"
  }

  /** `getCategoryIcon` (both copies): the emoji for one of the six category
      names, the pin for any other key. */
  function CategoryIcon(key: string): (icon: string)
    ensures icon == Pin <==> forall c: TipCategory :: CategoryName(c) != key
    ensures forall c: TipCategory :: CategoryName(c) == key ==> icon == Icon(c)
  {
    match KeyCategory(key)
    case None => Pin
    case Some(c) =>
      assert forall d: TipCategory :: CategoryName(d) == key ==> d == c by {
        forall d: TipCategory | CategoryName(d) == key ensures d == c {
          CategoryNamesDistinct(c, d);
        }
      }
      Icon(c)
  }

  /** Every category has its own icon, and the tip cards never show the fallback. */
  lemma IconsDistinct(c: TipCategory, d: TipCategory)
    ensures CategoryIcon(CategoryName(c)) != Pin
    ensures CategoryIcon(CategoryName(c)) == CategoryIcon(CategoryName(d)) <==> c == d
  {
  }

  /** The six tips of the page, one per category. */
  const Tips: seq<Tip> := [
    Tip("tip-1", "How to Pack Like a Minimalist", Packing, "Emma Wilson", "May 2, 2025"),
    Tip("tip-2", "Stay Safe While Exploring New Cities", Safety, "Michael Chen", "April 15, 2025"),
    Tip("tip-3", "Stretch Your Travel Budget", Budgeting, "Sophia Rodriguez", "April 28, 2025"),
    Tip("tip-4", "Capture Better Travel Photos", Photography, "David Kim", "May 5, 2025"),
    Tip("tip-5", "Navigate Cultural Differences with Grace", Etiquette, "Amara Johnson", "April 10, 2025"),
    Tip("tip-6", "Overcome Jet Lag Quickly", General, "James Peterson", "May 8, 2025")]

  /** The page shows six category buttons, in the order Packing, Safety,
      Budgeting, Photography, Etiquette, General. */
  lemma PageButtons()
    ensures UniqueCategories(Tips) == [Packing, Safety, Budgeting, Photography, Etiquette, General]
  {
    var cs := Categories(Tips);
    assert cs == [Packing, Safety, Budgeting, Photography, Etiquette, General];
    Lists.DedupOfDistinct(cs);
  }

  /** When tips have pairwise distinct categories, the button of a category
      some tip has shows exactly that one tip. */
  lemma {:induction false} DistinctCategoriesOneEach(tips: seq<Tip>, c: TipCategory, k: nat)
    requires forall i, j :: 0 <= i < j < |tips| ==> tips[i].category != tips[j].category
    requires k < |tips| && tips[k].category == c
    ensures FilteredTips(tips, CategoryName(c)) == [tips[k]]
  {
    CategoryNamesDistinct(c, c);
    var p := (t: Tip) => CategoryName(t.category) == CategoryName(c);
    var rest := tips[1..];
    if k == 0 {
      forall i | 0 <= i < |rest| ensures !p(rest[i]) {
        assert rest[i] == tips[i + 1];
        CategoryNamesDistinct(rest[i].category, c);
      }
      Lists.FilterDropsAll(rest, p);
    } else {
      CategoryNamesDistinct(tips[0].category, c);
      assert tips[0].category != tips[k].category;
      assert rest[k - 1] == tips[k];
      DistinctCategoriesOneEach(rest, c, k - 1);
    }
  }

  /** On the page, each of the six category buttons shows exactly one tip. */
  lemma PageOneTipEach(c: TipCategory)
    ensures |FilteredTips(Tips, CategoryName(c))| == 1
  {
    var k := match c
      case Packing => 0 case Safety => 1 case Budgeting => 2
      case Photography => 3 case Etiquette => 4 case General => 5;
    assert Tips[k].category == c;
    DistinctCategoriesOneEach(Tips, c, k);
  }
}
