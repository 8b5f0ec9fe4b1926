/**
 * The "My Worlds" page (src/app/dashboard/worlds/page.tsx): the list of the
 * user's worlds, its search box and its statistics. Creating a world
 * prepends it; deleting one removes it once the user has confirmed and the
 * service has accepted the delete.
 */
module WorldsPage {
  import opened Text
  import opened Seqs
  import opened Entities

  /** A world matches when its title or its summary contains the query, ignoring letter case. */
  predicate Matches(w: World, query: string)
  {
    Contains(Lower(w.title), Lower(query))
    || (w.summary.Some? && Contains(Lower(w.summary.value), Lower(query)))
  }

  function FilteredWorlds(worlds: seq<World>, query: string): (r: seq<World>)
    ensures forall w | w in r :: w in worlds && Matches(w, query)
    ensures forall w | w in worlds && Matches(w, query) :: w in r
    ensures forall w | w in worlds :: Count(r, w) == if Matches(w, query) then Count(worlds, w) else 0
    ensures IsSubsequence(r, worlds)
  {
    var keep := (w: World) => Matches(w, query);
    FilterIsSubsequence(worlds, keep);
    FilterCounts(worlds, keep);
    Filter(worlds, keep)
  }

  /** An empty search keeps every world. */
  lemma EmptyQueryKeepsAll(worlds: seq<World>)
    ensures FilteredWorlds(worlds, "") == worlds
  {
    forall w | w in worlds ensures Matches(w, "") {
      ContainsEmpty(Lower(w.title));
    }
    FilterKeepsAll(worlds, w => Matches(w, ""));
  }

  lemma LowerIdempotent(s: string)
    ensures Lower(Lower(s)) == Lower(s)
  {
  }

  /** The search is case-insensitive: a query and its lower-case form select the same worlds. */
  lemma SearchIgnoresCase(worlds: seq<World>, query: string)
    ensures FilteredWorlds(worlds, Lower(query)) == FilteredWorlds(worlds, query)
  {
    LowerIdempotent(query);
    FilterSameTest(worlds, w => Matches(w, Lower(query)), w => Matches(w, query));
  }

  /** "Public Worlds" */
  function PublicCount(worlds: seq<World>): (n: nat)
    ensures n <= |worlds|
    ensures n == |worlds| <==> forall i | 0 <= i < |worlds| :: worlds[i].visibility == Public
  {
    FilterLengthIffAllPass(worlds, (w: World) => w.visibility == Public);
    |Filter(worlds, (w: World) => w.visibility == Public)|
  }

  /** `w.card_count || 0` */
  function CardCountOf(w: World): int
  {
    if w.cardCount.Some? then w.cardCount.value else 0
  }

  /** "Total Cards": the sum of the card counts, a missing count read as 0. */
  function TotalCards(worlds: seq<World>): (n: int)
    ensures (forall i | 0 <= i < |worlds| :: worlds[i].cardCount.None?) ==> n == 0
  {
    if worlds == [] then 0 else CardCountOf(worlds[0]) + TotalCards(worlds[1..])
  }

  /** The card total of two lists together is the sum of their totals. */
  lemma {:induction false} TotalCardsConcat(a: seq<World>, b: seq<World>)
    ensures TotalCards(a + b) == TotalCards(a) + TotalCards(b)
  {
    if a != [] {
      assert (a + b)[1..] == a[1..] + b;
      TotalCardsConcat(a[1..], b);
    } else {
      assert a + b == b;
    }
  }

  /** A world without a card count adds nothing to the total. */
  lemma MissingCountAddsNothing(worlds: seq<World>, w: World)
    requires w.cardCount.None?
    ensures TotalCards([w] + worlds) == TotalCards(worlds)
    ensures TotalCards(worlds + [w]) == TotalCards(worlds)
  {
    TotalCardsConcat([w], worlds);
    TotalCardsConcat(worlds, [w]);
  }

  /** The toolbar's "Clear search" is offered when the search hides at least one world. */
  predicate ShowClearSearch(worlds: seq<World>, query: string)
  {
    query != [] && |FilteredWorlds(worlds, query)| != |worlds|
  }

  /** The toolbar button shows exactly when there is a query and some world fails it. */
  lemma ClearSearchIffSomeHidden(worlds: seq<World>, query: string)
    ensures ShowClearSearch(worlds, query) <==>
      query != [] && exists i | 0 <= i < |worlds| :: !Matches(worlds[i], query)
  {
    FilterLengthIffAllPass(worlds, (w: World) => Matches(w, query));
  }

  /** The empty-results "Clear search" is offered when a search leaves no world to show. */
  predicate ShowEmptyResultsClearSearch(worlds: seq<World>, query: string)
  {
    |FilteredWorlds(worlds, query)| == 0 && query != []
  }

  /**
   * The empty-results button appears exactly when there is a query and no world matches it;
   * when some world exists, the toolbar button is shown as well.
   */
  lemma EmptyResultsClearSearch(worlds: seq<World>, query: string)
    ensures ShowEmptyResultsClearSearch(worlds, query) <==>
              query != [] && forall i | 0 <= i < |worlds| :: !Matches(worlds[i], query)
    ensures ShowEmptyResultsClearSearch(worlds, query) && worlds != [] ==> ShowClearSearch(worlds, query)
  {
    var r := FilteredWorlds(worlds, query);
    if forall i | 0 <= i < |worlds| :: !Matches(worlds[i], query) {
      assert forall w | w in worlds :: !Matches(w, query);
      HeadIsMember(r);
    }
    if |r| == 0 {
      forall i | 0 <= i < |worlds|
        ensures !Matches(worlds[i], query)
      {
        assert worlds[i] in worlds;
      }
    }
  }

  /** `prev.filter(w => w.id !== id)` */
  function WithoutWorld(worlds: seq<World>, id: Id): (r: seq<World>)
    ensures forall w | w in r :: w.id != id && w in worlds
    ensures forall w | w in worlds && w.id != id :: w in r
    ensures forall w | w in worlds :: Count(r, w) == if w.id != id then Count(worlds, w) else 0
    ensures IsSubsequence(r, worlds)
  {
    var keep := (w: World) => w.id != id;
    FilterIsSubsequence(worlds, keep);
    FilterCounts(worlds, keep);
    Filter(worlds, keep)
  }

  datatype DeleteOutcome = Cancelled | Deleted | DeleteFailed

  class WorldList {
    var worlds: seq<World>

    constructor(loaded: seq<World>)
      ensures worlds == loaded
    {
      worlds := loaded;
    }

    /** `handleWorldCreated`: the new world goes first. */
    method WorldCreated(w: World)
      modifies this
      ensures worlds == [w] + old(worlds)
    {
      worlds := [w] + worlds;
    }

    /**
     * `handleDeleteWorld`; `confirmed` is the user's answer to the dialog and
     * `deleted` whether the service accepted the delete.
     */
    method DeleteWorld(w: World, confirmed: bool, deleted: bool) returns (outcome: DeleteOutcome)
      modifies this
      ensures outcome == (if !confirmed then Cancelled else if deleted then Deleted else DeleteFailed)
      ensures worlds == if outcome == Deleted then WithoutWorld(old(worlds), w.id) else old(worlds)
    {
      if !confirmed {
        return Cancelled;
      }
      if deleted {
        worlds := WithoutWorld(worlds, w.id);
        outcome := Deleted;
      } else {
        outcome := DeleteFailed;
      }
    }
  }

  /** A created world counts in the statistics straight away. */
  lemma CreatedWorldCounts(worlds: seq<World>, w: World)
    ensures TotalCards([w] + worlds) == CardCountOf(w) + TotalCards(worlds)
    ensures PublicCount([w] + worlds) == PublicCount(worlds) + (if w.visibility == Public then 1 else 0)
  {
    assert ([w] + worlds)[1..] == worlds;
  }
}
