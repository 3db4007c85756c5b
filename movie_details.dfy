/**
 * The `MovieDetails` component of src/components/movie-details.js: it
 * holds the fetched detail record, a loading flag and the rating being
 * entered, builds a watched entry on "add", and offers "add" only for a
 * movie that is not yet in the list and has a positive rating. The detail
 * request is not performed here: its response is a parameter.
 */
module Details {

  import opened Wrappers
  import opened RuntimeParse
  import opened Watchlist
  import opened MovieApp

  /** The fields of OMDb's detail record that the component reads. */
  datatype MovieDetail = MovieDetail(
    title: string,
    year: string,
    poster: string,
    runtime: string,
    imdbRating: string,
    plot: string,
    actors: string,
    director: string,
    genre: string)

  /** The entry `handleAdd` builds from the detail record, the selection and the rating. */
  function NewWatchedMovie(d: MovieDetail, selectedId: string, userRating: Option<int>): (m: WatchedMovie)
    ensures m.imdbID == selectedId && m.userRating == userRating
    ensures m.title == d.title && m.poster == d.poster && m.year == d.year && m.imdbRating == d.imdbRating
    ensures m.runtime == RuntimeMinutes(d.runtime)
  {
    WatchedMovie(selectedId, d.title, d.poster, RuntimeMinutes(d.runtime), d.year, d.imdbRating, userRating)
  }

  /**
   * Whether "+ Add to list" is shown: only when the movie has no watched
   * entry yet and the rating is set and positive (`null > 0` is false).
   */
  function AddOffered(inWatched: Watched, userRating: Option<int>): (offered: bool)
    ensures offered <==> inWatched == [] && exists r :: userRating == Some(r) && r > 0
  {
    if |inWatched| > 0 then false
    else match userRating
      case None => false
      case Some(r) => r > 0
  }

  /** The rating the star picker shows: the stored one if the movie is already in the list. */
  function DisplayedRating(inWatched: Watched, userRating: Option<int>): (shown: Option<int>)
    ensures inWatched == [] ==> shown == userRating
    ensures inWatched != [] ==> shown == inWatched[0].userRating
  {
    if |inWatched| > 0 then inWatched[0].userRating else userRating
  }

  /**
   * An entry added through the guarded button has a positive rating, is the
   * only entry for its movie afterwards, and deleting it gives back the list.
   */
  lemma GuardedAdd(w: Watched, d: MovieDetail, id: string, userRating: Option<int>)
    requires AddOffered(KeepById(w, id), userRating)
    ensures NewWatchedMovie(d, id, userRating).userRating.Some?
    ensures NewWatchedMovie(d, id, userRating).userRating.value > 0
    ensures KeepById(Append(w, NewWatchedMovie(d, id, userRating)), id) == [NewWatchedMovie(d, id, userRating)]
    ensures RemoveById(Append(w, NewWatchedMovie(d, id, userRating)), id) == w
  {
    var m := NewWatchedMovie(d, id, userRating);
    KeepAfterAppend(w, m);
    AppendThenRemove(w, m);
  }

  /**
   * The guard makes up for the store's missing duplicate check: adding only
   * through it keeps every identifier in the list unique.
   */
  lemma GuardedAddKeepsUnique(w: Watched, d: MovieDetail, id: string, userRating: Option<int>)
    requires UniqueIds(w)
    requires AddOffered(KeepById(w, id), userRating)
    ensures UniqueIds(Append(w, NewWatchedMovie(d, id, userRating)))
  {
    AppendFreshKeepsUnique(w, NewWatchedMovie(d, id, userRating));
  }

  /** For a movie already in the list, the picker shows the rating of its first entry. */
  lemma ShownRatingIsFirstEntry(w: Watched, id: string, userRating: Option<int>)
    requires HasId(w, id)
    ensures DisplayedRating(KeepById(w, id), userRating) == w[IndexOf(w, id).value].userRating
  {
    FirstKeptIsFirstMatch(w, id);
  }

  /** For a movie not in the list, the picker shows the rating being entered. */
  lemma ShownRatingIsEntered(w: Watched, id: string, userRating: Option<int>)
    requires !HasId(w, id)
    ensures DisplayedRating(KeepById(w, id), userRating) == userRating
  {
  }

  class MovieDetails {
    var selectedId: string
    var movie: Option<MovieDetail>
    var isLoading: bool
    var userRating: Option<int>

    /**
     * A record is on hand whenever the component is not loading, and a
     * rating can only have been entered while it was showing one.
     */
    predicate Valid()
      reads this
    {
      && (!isLoading ==> movie.Some?)
      && (userRating.Some? ==> !isLoading)
    }

    /** Mounting: the initial state (`{}`, not loading, no rating), then the effect's first run. */
    constructor (id: string)
      ensures Valid()
      ensures selectedId == id && movie == None && isLoading && userRating == None
    {
      selectedId := id;
      movie := None;
      isLoading := false;
      userRating := None;
      new;
      SelectionEffect();
    }

    /**
     * The effect on `[selectedId]`, up to the awaited request: the loading
     * flag goes up and the rating is reset to null.
     */
    method SelectionEffect()
      modifies this`isLoading, this`userRating
      ensures isLoading && userRating == None
    {
      isLoading := true;
      userRating := None;
    }

    /** A new `selectedId` from the parent; the effect runs only if it differs. */
    method SelectedIdChanged(id: string)
      requires Valid()
      modifies this`selectedId, this`isLoading, this`userRating
      ensures Valid()
      ensures selectedId == id
      ensures id != old(selectedId) ==> isLoading && userRating == None
      ensures id == old(selectedId) ==> isLoading == old(isLoading) && userRating == old(userRating)
    {
      if id != selectedId {
        selectedId := id;
        SelectionEffect();
      }
    }

    /** The detail response arrives: the record is replaced and loading ends. */
    method DetailFetched(d: MovieDetail)
      requires Valid()
      modifies this`movie, this`isLoading
      ensures Valid()
      ensures movie == Some(d) && !isLoading
    {
      movie := Some(d);
      isLoading := false;
    }

    /** The star picker's `onUserRating`; the picker is only shown when not loading. */
    method SetUserRating(r: int)
      requires Valid() && !isLoading
      modifies this`userRating
      ensures Valid()
      ensures userRating == Some(r)
    {
      userRating := Some(r);
    }

    /**
     * `handleAdd`: build the entry, hand it to the parent's
     * `onAddWatched`, then call `onCloseMovie`. The button is only shown
     * when `AddOffered` holds for the parent's `inWatched`.
     */
    method HandleAdd(app: App)
      requires Valid()
      requires app.selectedId == Some(selectedId)
      requires AddOffered(app.InWatched(), userRating)
      modifies app`watched, app`selectedId
      ensures movie.Some?
      ensures app.watched == Append(old(app.watched), NewWatchedMovie(movie.value, selectedId, userRating))
      ensures app.selectedId == None
      ensures RemoveById(app.watched, selectedId) == old(app.watched)
    {
      var entry := NewWatchedMovie(movie.value, selectedId, userRating);
      GuardedAdd(app.watched, movie.value, selectedId, userRating);
      app.HandleWatchedMovie(entry);
      app.HandleCloseMovie();
    }
  }

  /**
   * A session: a short query starts nothing, a longer one finds a movie,
   * the movie is selected, rated 7 and added, and deleting it empties the list.
   */
  method RateAndAddSession(found: Movie, d: MovieDetail)
  {
    var app := new App();
    var fetching := app.QueryChanged("Up");
    assert !fetching;
    app.Search("Up2022", Found([found]));
    assert app.movies == [found] && app.error == "" && !app.isLoading;

    app.HandleSelectedMovie(found.imdbID);
    var view := new MovieDetails(found.imdbID);
    view.DetailFetched(d);
    view.SetUserRating(7);
    assert app.InWatched() == [];
    view.HandleAdd(app);
    assert app.watched == [NewWatchedMovie(d, found.imdbID, Some(7))];
    assert app.selectedId == None;

    app.HandleDeleteMovie(found.imdbID);
    assert app.watched == [];
  }
}
