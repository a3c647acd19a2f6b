/** The menu screen (src/pages/Menu.tsx): the items tab shows the menu items that pass a
    name search, a category filter and an availability filter; the categories tab shows how
    many items each category holds. */
module MenuPage {
  import opened Domain
  import Seqs
  import Text

  /** The item's lower-cased name contains the lower-cased search text. */
  predicate MatchesSearch(item: MenuItem, search: string)
  {
    Text.Includes(Text.ToLower(item.name), Text.ToLower(search))
  }

  /** "all" accepts every item; any other value accepts the items of that category. */
  predicate MatchesCategory(item: MenuItem, categoryFilter: string)
  {
    categoryFilter == "all" || item.categoryId == categoryFilter
  }

  /** "all", "available" and "unavailable" are the three values the selector offers. */
  predicate MatchesAvailability(item: MenuItem, availabilityFilter: string)
  {
    availabilityFilter == "all"
    || (availabilityFilter == "available" && item.available)
    || (availabilityFilter == "unavailable" && !item.available)
  }

  predicate Shown(item: MenuItem, search: string, categoryFilter: string, availabilityFilter: string)
  {
    MatchesSearch(item, search) && MatchesCategory(item, categoryFilter)
    && MatchesAvailability(item, availabilityFilter)
  }

  /** `filteredItems`: the items passing all three tests, in menu order. */
  function FilteredItems(menuItems: seq<MenuItem>, search: string, categoryFilter: string,
                         availabilityFilter: string): (r: seq<MenuItem>)
    ensures |r| <= |menuItems|
    ensures forall item :: item in r <==> item in menuItems && Shown(item, search, categoryFilter, availabilityFilter)
  {
    var shown := (item: MenuItem) => Shown(item, search, categoryFilter, availabilityFilter);
    Seqs.FilterMembers(menuItems, shown);
    Seqs.Filter(menuItems, shown)
  }

  /** The result keeps menu order: filtering a menu split in two filters each part in turn. */
  lemma FilteredItemsKeepOrder(a: seq<MenuItem>, b: seq<MenuItem>, search: string,
                               categoryFilter: string, availabilityFilter: string)
    ensures FilteredItems(a + b, search, categoryFilter, availabilityFilter)
         == FilteredItems(a, search, categoryFilter, availabilityFilter)
          + FilteredItems(b, search, categoryFilter, availabilityFilter)
  {
    Seqs.FilterAppend(a, b, (item: MenuItem) => Shown(item, search, categoryFilter, availabilityFilter));
  }

  /** With an empty search and both selectors on "all" the whole menu is shown, in order. */
  lemma UnfilteredShowsEverything(menuItems: seq<MenuItem>)
    ensures FilteredItems(menuItems, "", "all", "all") == menuItems
  {
    forall i | 0 <= i < |menuItems| ensures Shown(menuItems[i], "", "all", "all") {
      Text.IncludesEmptyAndSelf(Text.ToLower(menuItems[i].name));
    }
    Seqs.FilterKeepsAll(menuItems, (item: MenuItem) => Shown(item, "", "all", "all"));
  }

  /** The search ignores the case of the search text. */
  lemma SearchIgnoresCase(item: MenuItem, search: string)
    ensures MatchesSearch(item, search) <==> MatchesSearch(item, Text.ToLower(search))
  {
    Text.ToLowerIdempotent(search);
  }

  /** A name that contains the search text verbatim is always found. */
  lemma SearchFindsVerbatim(item: MenuItem, search: string)
    requires Text.Includes(item.name, search)
    ensures MatchesSearch(item, search)
  {
    Text.IncludesToLower(item.name, search);
  }

  /** An availability value outside the three offered ones hides every item. */
  lemma UnknownAvailabilityShowsNothing(menuItems: seq<MenuItem>, search: string, categoryFilter: string,
                                        availabilityFilter: string)
    requires availabilityFilter != "all" && availabilityFilter != "available" && availabilityFilter != "unavailable"
    ensures FilteredItems(menuItems, search, categoryFilter, availabilityFilter) == []
  {
    Seqs.FilterKeepsNone(menuItems, (item: MenuItem) => Shown(item, search, categoryFilter, availabilityFilter));
  }

  /** The availability selector splits the menu: the available items and the unavailable
      items together are as many as the items shown under "all". */
  lemma AvailabilityPartitions(menuItems: seq<MenuItem>, search: string, categoryFilter: string)
    ensures |FilteredItems(menuItems, search, categoryFilter, "available")|
          + |FilteredItems(menuItems, search, categoryFilter, "unavailable")|
         == |FilteredItems(menuItems, search, categoryFilter, "all")|
  {
    var all := (item: MenuItem) => Shown(item, search, categoryFilter, "all");
    var yes := (item: MenuItem) => item.available;
    var no := (item: MenuItem) => !item.available;
    Seqs.FilterPartition(Seqs.Filter(menuItems, all), yes, no);
    Seqs.FilterTwice(menuItems, all, yes, (item: MenuItem) => Shown(item, search, categoryFilter, "available"));
    Seqs.FilterTwice(menuItems, all, no, (item: MenuItem) => Shown(item, search, categoryFilter, "unavailable"));
  }

  /** The count on a category's card: the menu items whose `category_id` is that category's id. */
  function CategoryCount(menuItems: seq<MenuItem>, categoryId: Id): (n: nat)
    ensures n <= |menuItems|
  {
    |Seqs.Filter(menuItems, (item: MenuItem) => item.categoryId == categoryId)|
  }

  /** A category's count is the number of items the items tab lists under that category
      when nothing else is filtered. */
  lemma CategoryCountMatchesFilter(menuItems: seq<MenuItem>, categoryId: Id)
    requires categoryId != "all"
    ensures CategoryCount(menuItems, categoryId) == |FilteredItems(menuItems, "", categoryId, "all")|
  {
    forall item: MenuItem ensures Shown(item, "", categoryId, "all") == (item.categoryId == categoryId) {
      Text.IncludesEmptyAndSelf(Text.ToLower(item.name));
    }
    Seqs.FilterSamePredicate(menuItems, (item: MenuItem) => item.categoryId == categoryId,
                             (item: MenuItem) => Shown(item, "", categoryId, "all"));
  }

  /** Two different categories never count the same item: their counts add up to at most
      the size of the menu. */
  lemma CategoryCountsDisjoint(menuItems: seq<MenuItem>, c: Id, d: Id)
    requires c != d
    ensures CategoryCount(menuItems, c) + CategoryCount(menuItems, d) <= |menuItems|
  {
    Seqs.FilterDisjoint(menuItems, (item: MenuItem) => item.categoryId == c, (item: MenuItem) => item.categoryId == d);
  }
}
