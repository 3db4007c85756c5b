/**
 * The state held by the `App` component of src/App.js: six `useState`
 * fields, the handlers that replace them, the derived `inWatched` list and
 * the effect that runs a search whenever the query changes. The remote
 * search is not performed here: its outcome is a parameter.
 */
module MovieApp {

  import opened Wrappers
  import opened Watchlist

  /** A search candidate, one element of the `Search` array in OMDb's response. */
  datatype Movie = Movie(title: string, year: string, imdbID: string, poster: string)

  /** How the search request ended. */
  datatype SearchOutcome =
    | HttpNotOk                     // the response's `ok` flag was false
    | NotFound                      // the body's `Response` was "False"
    | Found(results: seq<Movie>)    // the body's `Search` array
    | Failed(message: string)       // `fetch` or `res.json()` threw an error with this message

  const FetchErrorMessage: string := "Error occured during movies fetching !"
  const NotFoundMessage: string := "Movie not found!"

  /** Queries of at most this many characters do not start a search. */
  const MaxIgnoredQueryLength: nat := 3

  /** `selectedId === id ? null : id`. */
  function Toggle(selected: Option<string>, id: string): (r: Option<string>)
    ensures r == None <==> selected == Some(id)
    ensures r != None ==> r == Some(id)
  {
    if selected == Some(id) then None else Some(id)
  }

  /** Selecting the same movie twice, starting from any other selection, leaves nothing selected. */
  lemma ToggleTwice(selected: Option<string>, id: string)
    requires selected != Some(id)
    ensures Toggle(Toggle(selected, id), id) == None
  {
  }

  /** Selecting one movie and then another leaves the second one selected. */
  lemma ToggleThenOther(selected: Option<string>, x: string, y: string)
    requires x != y
    ensures Toggle(Toggle(selected, x), y) == Some(y)
  {
  }

  class App {
    var query: string
    var movies: seq<Movie>
    var watched: Watched
    var isLoading: bool
    var error: string
    var selectedId: Option<string>

    /** The initial state; the effect's first run sees the empty query and changes nothing. */
    constructor ()
      ensures query == "" && movies == [] && watched == []
      ensures !isLoading && error == "" && selectedId == None
    {
      query, movies, watched := "", [], [];
      isLoading, error, selectedId := false, "", None;
    }

    /**
     * `inWatched`: the watched entries for the selected movie, in list order.
     * Stored identifiers are never null, so with no selection it is empty.
     */
    function InWatched(): (r: Watched)
      reads this
      ensures selectedId == None ==> r == []
      ensures forall e :: e in r <==> e in watched && selectedId == Some(e.imdbID)
      ensures selectedId.Some? ==> (r == [] <==> !HasId(watched, selectedId.value))
    {
      if selectedId.Some? then KeepById(watched, selectedId.value) else []
    }

    /** `handleSelectedMovie`: toggle the selection. */
    method HandleSelectedMovie(id: string)
      modifies this`selectedId
      ensures selectedId == Toggle(old(selectedId), id)
    {
      selectedId := if selectedId == Some(id) then None else Some(id);
    }

    /** `handleCloseMovie`: clear the selection, whatever it was. */
    method HandleCloseMovie()
      modifies this`selectedId
      ensures selectedId == None
    {
      selectedId := None;
    }

    /** `handleWatchedMovie`: append to the watched list. */
    method HandleWatchedMovie(movie: WatchedMovie)
      modifies this`watched
      ensures watched == Append(old(watched), movie)
      ensures |watched| == |old(watched)| + 1 && watched[|watched| - 1] == movie
    {
      watched := watched + [movie];
    }

    /** `handleDeleteMovie`: drop every entry with the given identifier. */
    method HandleDeleteMovie(id: string)
      modifies this`watched
      ensures watched == RemoveById(old(watched), id)
      ensures !HasId(watched, id)
    {
      watched := RemoveById(watched, id);
    }

    /**
     * `setQuery` followed by the part of the effect that runs before the
     * request is awaited. The effect depends on `[query]`, so setting the
     * query it already has changes nothing. Otherwise a query of at most
     * three characters clears the error and the candidates and starts
     * nothing; a longer one raises the loading flag, clears the error and
     * starts a request.
     */
    method QueryChanged(q: string) returns (fetching: bool)
      modifies this`query, this`movies, this`isLoading, this`error
      ensures query == q
      ensures fetching <==> q != old(query) && |q| > MaxIgnoredQueryLength
      ensures q == old(query) ==>
                movies == old(movies) && error == old(error) && isLoading == old(isLoading)
      ensures q != old(query) ==> error == ""
      ensures q != old(query) && !fetching ==> movies == [] && isLoading == old(isLoading)
      ensures fetching ==> movies == old(movies) && isLoading
    {
      if q == query {
        return false;
      }
      query := q;
      if |query| <= MaxIgnoredQueryLength {
        error := "";
        movies := [];
        return false;
      }
      isLoading := true;
      error := "";
      return true;
    }

    /**
     * The rest of `fetchMovies` once the request has ended: a successful
     * search replaces the candidates, a failure reports its message in
     * `error` and leaves the candidates alone, and in every case loading ends.
     */
    method SearchSettled(outcome: SearchOutcome)
      modifies this`movies, this`isLoading, this`error
      ensures !isLoading
      ensures outcome.Found? ==> movies == outcome.results && error == old(error)
      ensures outcome == HttpNotOk ==> movies == old(movies) && error == FetchErrorMessage
      ensures outcome == NotFound ==> movies == old(movies) && error == NotFoundMessage
      ensures outcome.Failed? ==> movies == old(movies) && error == outcome.message
    {
      match outcome {
        case HttpNotOk =>
          error := FetchErrorMessage;
        case NotFound =>
          error := NotFoundMessage;
        case Failed(message) =>
          error := message;
        case Found(results) =>
          movies := results;
      }
      isLoading := false;
    }

    /**
     * A query change whose request, if any, completes before anything else
     * happens. An unchanged query changes nothing. A new long query always
     * ends with loading off and either the results and no error, or the old
     * candidates and the failure's message.
     */
    method Search(q: string, outcome: SearchOutcome)
      modifies this`query, this`movies, this`isLoading, this`error
      ensures query == q
      ensures q == old(query) ==>
                movies == old(movies) && error == old(error) && isLoading == old(isLoading)
      ensures q != old(query) && |q| <= MaxIgnoredQueryLength ==>
                movies == [] && error == "" && isLoading == old(isLoading)
      ensures q != old(query) && |q| > MaxIgnoredQueryLength ==> !isLoading
      ensures q != old(query) && |q| > MaxIgnoredQueryLength && outcome.Found? ==>
                movies == outcome.results && error == ""
      ensures q != old(query) && |q| > MaxIgnoredQueryLength && outcome == HttpNotOk ==>
                movies == old(movies) && error == FetchErrorMessage
      ensures q != old(query) && |q| > MaxIgnoredQueryLength && outcome == NotFound ==>
                movies == old(movies) && error == NotFoundMessage
      ensures q != old(query) && |q| > MaxIgnoredQueryLength && outcome.Failed? ==>
                movies == old(movies) && error == outcome.message
    {
      var fetching := QueryChanged(q);
      if fetching {
        SearchSettled(outcome);
      }
    }
  }
}
