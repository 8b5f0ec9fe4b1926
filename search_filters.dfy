/**
 * The card search filter panel (src/components/search/search-interface.tsx).
 * Every handler computes a new filter value from the current one and hands
 * it to the owner; nothing is updated in place, so the handlers are
 * functions from filters to filters.
 */
module SearchFilterPanel {
  import opened Text
  import opened Seqs
  import opened Entities

  datatype SortKey = UpdatedAt | CreatedAt | Title | Relevance
  datatype SortOrder = Asc | Desc

  /** Dates are compared only for presence here, so they are kept as opaque numbers. */
  datatype DateRange = DateRange(from: Option<int>, to: Option<int>)

  datatype SearchFilters = SearchFilters(
    query: string,
    cardTypeIds: seq<Id>,
    folderIds: seq<Id>,
    tags: seq<string>,
    dateRange: Option<DateRange>,
    sortBy: SortKey,
    sortOrder: SortOrder)

  /** `Partial<SearchFilters>`: each field is either supplied or left out. */
  datatype FiltersPatch = FiltersPatch(
    query: Option<string>,
    cardTypeIds: Option<seq<Id>>,
    folderIds: Option<seq<Id>>,
    tags: Option<seq<string>>,
    dateRange: Option<Option<DateRange>>,
    sortBy: Option<SortKey>,
    sortOrder: Option<SortOrder>)

  const EmptyPatch := FiltersPatch(None, None, None, None, None, None, None)

  /** `{ ...filters, ...updates }` */
  function UpdateFilters(f: SearchFilters, p: FiltersPatch): (r: SearchFilters)
    ensures r.query == (if p.query.Some? then p.query.value else f.query)
    ensures r.cardTypeIds == (if p.cardTypeIds.Some? then p.cardTypeIds.value else f.cardTypeIds)
    ensures r.folderIds == (if p.folderIds.Some? then p.folderIds.value else f.folderIds)
    ensures r.tags == (if p.tags.Some? then p.tags.value else f.tags)
    ensures r.dateRange == (if p.dateRange.Some? then p.dateRange.value else f.dateRange)
    ensures r.sortBy == (if p.sortBy.Some? then p.sortBy.value else f.sortBy)
    ensures r.sortOrder == (if p.sortOrder.Some? then p.sortOrder.value else f.sortOrder)
  {
    SearchFilters(
      if p.query.Some? then p.query.value else f.query,
      if p.cardTypeIds.Some? then p.cardTypeIds.value else f.cardTypeIds,
      if p.folderIds.Some? then p.folderIds.value else f.folderIds,
      if p.tags.Some? then p.tags.value else f.tags,
      if p.dateRange.Some? then p.dateRange.value else f.dateRange,
      if p.sortBy.Some? then p.sortBy.value else f.sortBy,
      if p.sortOrder.Some? then p.sortOrder.value else f.sortOrder)
  }

  /** An update that supplies nothing changes nothing. */
  lemma EmptyUpdateIsIdentity(f: SearchFilters)
    ensures UpdateFilters(f, EmptyPatch) == f
  {
  }

  /** Drops every occurrence of `x`: `xs.filter(y => y !== x)`. */
  function Without(xs: seq<string>, x: string): (r: seq<string>)
    ensures x !in r
    ensures forall y | y in xs && y != x :: y in r
    ensures forall y | y in r :: y in xs
    ensures forall y | y in xs :: Count(r, y) == if y != x then Count(xs, y) else 0
    ensures IsSubsequence(r, xs)
  {
    var keep := (y: string) => y != x;
    FilterIsSubsequence(xs, keep);
    FilterCounts(xs, keep);
    Filter(xs, keep)
  }

  /**
   * The selection toggle shared by card types and folders: a selected id is
   * removed everywhere it occurs, an unselected one is appended.
   */
  function Toggle(ids: seq<Id>, id: Id): (r: seq<Id>)
    ensures id in r <==> id !in ids
    ensures forall x | x != id :: x in r <==> x in ids
    ensures id !in ids ==> r == ids + [id]
    ensures id in ids ==> IsSubsequence(r, ids) && |r| < |ids|
    ensures id in ids ==> forall x | x in ids :: Count(r, x) == if x != id then Count(ids, x) else 0
  {
    if id in ids then
      var r := Without(ids, id);
      FilterShrinks(ids, id);
      r
    else ids + [id]
  }

  lemma {:induction false} FilterShrinks(ids: seq<Id>, id: Id)
    requires id in ids
    ensures |Filter(ids, y => y != id)| < |ids|
  {
    if ids[0] != id {
      FilterShrinks(ids[1..], id);
    }
  }

  /** Toggling an unselected id on and off again gives back the original selection. */
  lemma ToggleTwiceRestores(ids: seq<Id>, id: Id)
    requires id !in ids
    ensures Toggle(Toggle(ids, id), id) == ids
  {
    var keep := (y: Id) => y != id;
    FilterConcat(ids, [id], keep);
    FilterKeepsAll(ids, keep);
    assert Filter([id], keep) == [];
  }

  function ToggleCardType(f: SearchFilters, typeId: Id): (r: SearchFilters)
    ensures r == f.(cardTypeIds := Toggle(f.cardTypeIds, typeId))
  {
    UpdateFilters(f, EmptyPatch.(cardTypeIds := Some(Toggle(f.cardTypeIds, typeId))))
  }

  function ToggleFolder(f: SearchFilters, folderId: Id): (r: SearchFilters)
    ensures r == f.(folderIds := Toggle(f.folderIds, folderId))
  {
    UpdateFilters(f, EmptyPatch.(folderIds := Some(Toggle(f.folderIds, folderId))))
  }

  /** The close button of a tag chip: removes every tag equal to it, the rest in order. */
  function RemoveTag(f: SearchFilters, tag: string): (r: SearchFilters)
    ensures tag !in r.tags
    ensures forall t | t in f.tags && t != tag :: t in r.tags
    ensures IsSubsequence(r.tags, f.tags)
    ensures forall t | t in f.tags :: Count(r.tags, t) == if t != tag then Count(f.tags, t) else 0
    ensures r == f.(tags := r.tags)
  {
    UpdateFilters(f, EmptyPatch.(tags := Some(Without(f.tags, tag))))
  }

  /** The sort-order button. */
  function FlipSortOrder(f: SearchFilters): (r: SearchFilters)
    ensures r.sortOrder != f.sortOrder
    ensures r == f.(sortOrder := r.sortOrder)
  {
    UpdateFilters(f, EmptyPatch.(sortOrder := Some(if f.sortOrder == Asc then Desc else Asc)))
  }

  /** Two presses of the sort-order button restore the original. */
  lemma FlipTwiceRestores(f: SearchFilters)
    ensures FlipSortOrder(FlipSortOrder(f)) == f
  {
  }

  /** The filters that open the advanced panel by themselves (everything but the query). */
  predicate HasAdvancedFilters(f: SearchFilters)
  {
    || |f.cardTypeIds| > 0 || |f.folderIds| > 0 || |f.tags| > 0
    || f.dateRange.Some?
    || f.sortBy != UpdatedAt || f.sortOrder != Desc
  }

  /** `hasActiveFilters` */
  predicate HasActiveFilters(f: SearchFilters)
  {
    f.query != [] || HasAdvancedFilters(f)
  }

  /** Advanced filters are set exactly when the badge counts something or the sort is not the default. */
  lemma AdvancedIffBadgeOrSort(f: SearchFilters)
    ensures HasAdvancedFilters(f) <==> BadgeCount(f) > 0 || f.sortBy != UpdatedAt || f.sortOrder != Desc
  {
  }

  /** The "Clear" button. */
  function ClearAllFilters(): (r: SearchFilters)
    ensures !HasActiveFilters(r)
    ensures r.dateRange.None? && r.sortBy == UpdatedAt && r.sortOrder == Desc
  {
    SearchFilters("", [], [], [], None, UpdatedAt, Desc)
  }

  /** The cleared filters are the only value with no active filter (tags, ids and dates all empty). */
  lemma NotActiveIffCleared(f: SearchFilters)
    ensures !HasActiveFilters(f) <==> f == ClearAllFilters()
  {
  }

  /** The number on the filter badge. */
  function BadgeCount(f: SearchFilters): (n: nat)
    ensures n == 0 <==> |f.cardTypeIds| == 0 && |f.folderIds| == 0 && |f.tags| == 0 && f.dateRange.None?
  {
    var counts := [|f.cardTypeIds|, |f.folderIds|, |f.tags|, if f.dateRange.Some? then 1 else 0];
    assert counts[0] == |f.cardTypeIds| && counts[1] == |f.folderIds| && counts[2] == |f.tags|;
    assert counts[3] == if f.dateRange.Some? then 1 else 0;
    Sum(counts)
  }

  /** `counts.reduce((sum, count) => sum + count, 0)` */
  function Sum(counts: seq<nat>): (n: nat)
    ensures n == 0 <==> forall i | 0 <= i < |counts| :: counts[i] == 0
  {
    if counts == [] then 0 else counts[0] + Sum(counts[1..])
  }

  /** The badge ignores the query and the sort, so it can read 0 while filters are active. */
  lemma BadgeZeroWhileActive()
    ensures var f := ClearAllFilters().(query := "dragon");
      HasActiveFilters(f) && BadgeCount(f) == 0
    ensures var f := ClearAllFilters().(sortOrder := Asc);
      HasActiveFilters(f) && BadgeCount(f) == 0
  {
  }

  /** Toggling one card type changes the badge by exactly one. */
  lemma ToggleMovesBadgeByOne(f: SearchFilters, typeId: Id)
    requires typeId !in f.cardTypeIds
    ensures BadgeCount(ToggleCardType(f, typeId)) == BadgeCount(f) + 1
    ensures BadgeCount(ToggleCardType(ToggleCardType(f, typeId), typeId)) == BadgeCount(f)
  {
    ToggleTwiceRestores(f.cardTypeIds, typeId);
  }
}
