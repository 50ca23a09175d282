/**
 * The home page: the plant list filtered by a case-insensitive search over
 * name, species and location, and the choice between the loading notice, the
 * error banner, the empty notice and the list of cards.
 */
module HomePage {
  import opened Wrappers
  import opened Types
  import opened Text

  /** The search matches when the lower-cased query occurs in the lower-cased name, species or location. */
  predicate MatchesQuery(p: Plant, query: string) {
    var q := Lower(query);
    Contains(Lower(p.name), q) || Contains(Lower(p.species), q) || Contains(Lower(p.location), q)
  }

  /** `displayPlants.filter(...)`: the matching plants in their original order. */
  function FilterPlants(ps: seq<Plant>, query: string): (r: seq<Plant>)
    ensures |r| <= |ps|
    ensures forall i :: 0 <= i < |r| ==> MatchesQuery(r[i], query)
  {
    if |ps| == 0 then []
    else
      var rest := FilterPlants(ps[1..], query);
      if MatchesQuery(ps[0], query) then [ps[0]] + rest else rest
  }

  /** `displayPlants`: the statically rendered list while the store is loading, the store's list after. */
  function DisplayPlants(loading: bool, initialPlants: seq<Plant>, storePlants: seq<Plant>): (r: seq<Plant>)
    ensures loading ==> r == initialPlants
    ensures !loading ==> r == storePlants
  {
    if loading then initialPlants else storePlants
  }

  /** The filter keeps exactly the matching plants. */
  lemma {:induction false} FilterMembers(ps: seq<Plant>, query: string, p: Plant)
    ensures p in FilterPlants(ps, query) <==> p in ps && MatchesQuery(p, query)
    decreases |ps|
  {
    if |ps| > 0 {
      FilterMembers(ps[1..], query, p);
      assert ps == [ps[0]] + ps[1..];
    }
  }

  /** The filter distributes over concatenation, so relative order is kept. */
  lemma {:induction false} FilterAppend(a: seq<Plant>, b: seq<Plant>, query: string)
    ensures FilterPlants(a + b, query) == FilterPlants(a, query) + FilterPlants(b, query)
    decreases |a|
  {
    if |a| == 0 {
      assert a + b == b;
    } else {
      assert (a + b)[1..] == a[1..] + b;
      assert (a + b)[0] == a[0];
      FilterAppend(a[1..], b, query);
    }
  }

  /** The empty query matches every plant. */
  lemma {:induction false} EmptyQueryKeepsAll(ps: seq<Plant>)
    ensures FilterPlants(ps, "") == ps
    decreases |ps|
  {
    if |ps| > 0 {
      assert Lower("") == "";
      ContainsEmpty(Lower(ps[0].name));
      EmptyQueryKeepsAll(ps[1..]);
      assert ps == [ps[0]] + ps[1..];
    }
  }

  /** The case of the query does not matter. */
  lemma QueryCaseIgnored(p: Plant, query: string)
    ensures MatchesQuery(p, Lower(query)) <==> MatchesQuery(p, query)
  {
    LowerIdempotent(query);
  }

  /** Hence filtering by a query or by its lower-cased form gives the same list. */
  lemma {:induction false} FilterIgnoresQueryCase(ps: seq<Plant>, query: string)
    ensures FilterPlants(ps, Lower(query)) == FilterPlants(ps, query)
    decreases |ps|
  {
    if |ps| > 0 {
      QueryCaseIgnored(ps[0], query);
      FilterIgnoresQueryCase(ps[1..], query);
    }
  }

  /** The heading over the cards: `Search Results (n)` when searching, `Your Plants (n)` otherwise. */
  datatype Heading = SearchResults(count: nat) | YourPlants(count: nat)

  /** What the page body shows. */
  datatype Body =
    | LoadingNotice
    | ErrorBanner(message: string)
    | EmptyNotice(searching: bool)
    | CardList(heading: Heading, cards: seq<Plant>)

  /**
   * The page body. While the store is loading the notice is shown, so the
   * list filtered from the initial plants is computed but never drawn; a
   * non-empty error shows the banner; otherwise the filtered list, or the
   * empty notice whose wording depends on whether a query is typed.
   */
  function Render(loading: bool, error: Option<string>, initialPlants: seq<Plant>,
                  storePlants: seq<Plant>, query: string): (b: Body)
    ensures loading <==> b.LoadingNotice?
    ensures b.ErrorBanner? <==> !loading && error.Some? && error.value != ""
    ensures b.ErrorBanner? ==> b.message == error.value
    ensures b.EmptyNotice? ==> FilterPlants(storePlants, query) == [] && b.searching == (query != "")
    ensures b.CardList? ==>
              && b.cards == FilterPlants(storePlants, query) != []
              && b.heading.count == |b.cards|
              && (b.heading.SearchResults? <==> query != "")
    ensures !loading && (error.None? || error.value == "") ==> b.EmptyNotice? || b.CardList?
  {
    var filtered := FilterPlants(DisplayPlants(loading, initialPlants, storePlants), query);
    if loading then LoadingNotice
    else if error.Some? && error.value != "" then ErrorBanner(error.value)
    else if |filtered| == 0 then EmptyNotice(query != "")
    else CardList(if query != "" then SearchResults(|filtered|) else YourPlants(|filtered|), filtered)
  }

  /** With nothing typed, a loaded store without error lists every plant under `Your Plants`. */
  lemma NoQueryListsEverything(storePlants: seq<Plant>, initialPlants: seq<Plant>)
    requires storePlants != []
    ensures Render(false, None, initialPlants, storePlants, "") ==
            CardList(YourPlants(|storePlants|), storePlants)
  {
    EmptyQueryKeepsAll(storePlants);
  }
}
