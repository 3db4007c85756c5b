# usePopCorn state model

A Dafny model of the state logic inside usePopCorn, a React front end for
the OMDb movie API: the user types a query, the app searches OMDb, the
user opens one movie's details, rates it, adds it to a
watched list and may later delete it.

The model covers:

- the `App` component (`src/App.js`) as the class `MovieApp.App` with its six
  state fields `query`, `movies`, `watched`, `isLoading`, `error` and
  `selectedId`. It has one method per handler: select (a toggle), close,
  append and delete-by-identifier. It also has the derived `inWatched` list,
  and the search effect split into the part before the request and the part
  after its response;
- the watched list itself (`Watchlist`): append and the two identifier
  filters as functions on sequences, with their order, partition and
  round-trip lemmas;
- the runtime conversion `Number(runtime.split(" ")[0])` (`RuntimeParse`);
- the `MovieDetails` component (`src/components/movie-details.js`) as the class
  `Details.MovieDetails`. It holds the detail record, the loading flag and the
  rating being entered. Its selection effect resets that rating, and
  `handleAdd` builds the entry and then calls the parent's add and close
  handlers in that order. The module also holds the guard that decides
  whether "add" is shown, and the rating the picker displays.

Requests are not made. The search outcome (`HttpNotOk`, `NotFound`,
`Found(list)`, or `Failed(message)` when `fetch` or `res.json()` throws)
and the detail record are parameters of the methods that consume them.

A search whose body says `Response: "False"` sets the "Movie not found!"
error and leaves `movies` as it was (src/App.js:58-62); so do the other
failures, each with its own message. The old candidates are not shown in
the list box, which is gated on `!error` (src/App.js:86), but they still
reach `Results` in the navigation bar (src/App.js:80).

The search effect depends on `[query]` (src/App.js:74): setting the query
it already has runs nothing, and the model's `QueryChanged` and `Search`
leave the state unchanged in that case.

## Model

| member | source | states |
|---|---|---|
| `RuntimeParse.FirstToken` | src/components/movie-details.js:34 | `split(" ")[0]`: the result is a prefix of the text, holds no space, and is followed by a space unless it is the whole text |
| `RuntimeParse.ToNumber` | src/components/movie-details.js:34 | `Number(token)` is finite exactly when the token is all decimal digits; the empty token is 0 |
| `RuntimeParse.DecimalRoundTrip` | src/components/movie-details.js:34 | reading back the decimal digits of any natural number gives that number |
| `RuntimeParse.FirstTokenOfJoin` | src/components/movie-details.js:34 | the first token of `t + " " + rest` is `t` for any space-free `t`, whatever `rest` is |
| `RuntimeParse.MinutesBeforeUnit` | src/components/movie-details.js:34 | a runtime written as "<n> <unit>" is stored as the number n |
| `RuntimeParse.RuntimeOfTypicalText` | src/components/movie-details.js:34 | "142 min" is stored as 142 |
| `RuntimeParse.RuntimeNotAvailable` | src/components/movie-details.js:34 | OMDb's "N/A" runtime is stored as NaN |
| `Watchlist.Append` | src/App.js:37 | appending grows the list by one, keeps the earlier entries in place and puts the new entry last |
| `Watchlist.RemoveById` | src/App.js:41 | after deleting, no entry has the identifier and every entry with another identifier is still there; deleting an absent identifier changes nothing, and deleting a present one shortens the list |
| `Watchlist.KeepById` | src/App.js:26 | the kept entries are exactly the entries with the identifier, and there are none exactly when no entry has it |
| `Watchlist.IndexOf` | src/components/movie-details.js:89 | finds the first position holding the identifier, with no earlier one holding it; there is none exactly when no entry has it |
| `Watchlist.RemoveByIdConcat` | src/App.js:41 | deleting distributes over concatenation, so the remaining entries keep their relative order |
| `Watchlist.KeepByIdConcat` | src/App.js:26 | keeping one identifier distributes over concatenation, so `inWatched` keeps list order |
| `Watchlist.RemoveKeepPartition` | src/App.js:26-41 | deleting an identifier and keeping only that identifier split the list: their lengths add up and their multisets add up to the list's |
| `Watchlist.RemoveByIdIdempotent` | src/App.js:41 | deleting the same identifier twice is the same as deleting it once |
| `Watchlist.RemoveKeepsOtherIds` | src/App.js:26-41 | deleting one movie leaves the `inWatched` list of every other movie unchanged |
| `Watchlist.AppendThenRemove` | src/App.js:36-42 | appending an entry whose identifier is absent and then deleting that identifier restores the list |
| `Watchlist.AppendDuplicateThenRemove` | src/App.js:36-42 | if the identifier was already present, that round trip loses entries: append does not check for duplicates |
| `Watchlist.KeepAfterAppend` | src/App.js:26-38 | after an append, the new movie's `inWatched` is its earlier entries followed by the new one |
| `Watchlist.FirstKeptIsFirstMatch` | src/App.js:26 | `inWatched[0]` is the first entry of the watched list with the selected identifier |
| `Watchlist.UniqueKeepsAtMostOne` | src/App.js:26 | when identifiers are unique, `inWatched` has at most one entry |
| `Watchlist.AppendFreshKeepsUnique` | src/App.js:36-38 | appending an entry whose identifier has no entry yet keeps identifiers unique |
| `MovieApp.Toggle` | src/App.js:28-30 | selecting clears the selection exactly when that identifier was selected, and otherwise selects it |
| `MovieApp.ToggleTwice` | src/App.js:28-30 | selecting the same movie twice in a row from any other state leaves nothing selected |
| `MovieApp.ToggleThenOther` | src/App.js:28-30 | selecting one movie and then a different one leaves the second selected |
| `MovieApp.App.constructor` | src/App.js:20-25 | the initial state: empty query, candidates and list, not loading, no error, no selection |
| `MovieApp.App.InWatched` | src/App.js:26 | `inWatched` holds exactly the watched entries whose identifier is the selection; it is empty with no selection, and empty exactly when the selected movie is not in the list |
| `MovieApp.App.HandleSelectedMovie` | src/App.js:28-30 | only the selection changes, and it becomes the toggle of the old selection |
| `MovieApp.App.HandleCloseMovie` | src/App.js:32-34 | only the selection changes, and it is cleared whatever it was |
| `MovieApp.App.HandleWatchedMovie` | src/App.js:36-38 | only the watched list changes: the movie is appended and is now its last entry |
| `MovieApp.App.HandleDeleteMovie` | src/App.js:40-42 | only the watched list changes: it becomes the old list without the identifier's entries, and no entry with that identifier remains |
| `MovieApp.App.QueryChanged` | src/App.js:44-74 | the query is stored; an unchanged query changes nothing else and starts no request; a new one clears the error, and at most 3 characters empties the candidates and starts no request, while more raises the loading flag and starts one |
| `MovieApp.App.SearchSettled` | src/App.js:54-65 | loading always ends; results replace the candidates; an HTTP failure or a "False" response sets its fixed message, a thrown error sets its own message, and the candidates are kept |
| `MovieApp.App.Search` | src/App.js:44-74 | a query change run to completion: an unchanged query changes nothing; a new short query clears error and candidates; a new long one ends not loading, with the results and no error, or with the old candidates and the failure's message |
| `RuntimeParse.RuntimeMinutes` | src/components/movie-details.js:34 | the stored runtime is a number exactly when the text before the first space is all digits, and is 0 when the runtime is empty or starts with a space |
| `Details.AddOffered` | src/components/movie-details.js:83-107 | "+ Add to list" is shown exactly when the movie has no watched entry and the entered rating is set and positive |
| `Details.DisplayedRating` | src/components/movie-details.js:83-99 | the picker shows the rating of the first `inWatched` entry when the movie is in the list, and the entered rating otherwise |
| `Details.NewWatchedMovie` | src/components/movie-details.js:29-38 | the entry's identifier is the selection and its rating is the entered rating; title, poster, year and rating are copied from the record; the runtime is the parsed first token |
| `Details.GuardedAdd` | src/components/movie-details.js:83-104 | an entry added through the shown button has a positive rating, is afterwards its movie's only entry, and deleting it restores the list |
| `Details.GuardedAddKeepsUnique` | src/components/movie-details.js:83-104 | adding only through the shown button keeps identifiers in the watched list unique |
| `Details.ShownRatingIsFirstEntry` | src/components/movie-details.js:83-89 | for a movie already in the list, the picker shows the rating of the movie's first entry |
| `Details.ShownRatingIsEntered` | src/components/movie-details.js:93-98 | for a movie not in the list, the picker shows the rating being entered |
| `Details.MovieDetails.constructor` | src/components/movie-details.js:12-56 | mounting leaves no record and no rating, and the effect's first run raises the loading flag |
| `Details.MovieDetails.SelectionEffect` | src/components/movie-details.js:43-56 | the selection effect raises the loading flag and resets the rating to null |
| `Details.MovieDetails.SelectedIdChanged` | src/components/movie-details.js:43-56 | whenever the selected identifier changes, the rating is reset and loading starts; an unchanged identifier changes nothing |
| `Details.MovieDetails.DetailFetched` | src/components/movie-details.js:49-51 | the record is replaced by the response and loading ends |
| `Details.MovieDetails.SetUserRating` | src/components/movie-details.js:95-99 | the picker's choice becomes the entered rating |
| `Details.MovieDetails.HandleAdd` | src/components/movie-details.js:29-41 | the parent's list gains exactly the built entry at its end, then the selection is cleared; deleting the entry's identifier restores the old list |

## Left out

- HTTP requests and JSON decoding (src/App.js:50-56, src/components/movie-details.js:46-49): these are network I/O. The search outcome and the detail record are parameters.
- The interleaving of the asynchronous search and detail requests: a slow, stale response can overwrite a newer one. This is concurrency, and the code has no guard for it. Each request is modelled as completing before the next event.
- `average` (src/App.js:14-15) and the summary statistics it feeds: they use floating-point division, and the `Summary` component is not part of this model.
- JSX rendering, `Loader`, `ErrorMessage`, `console.log` (src/components/movie-details.js:52) and the `KEY` constant (src/App.js:17).
- src/components/box.js: a display-only collapse toggle.
- `StarRating`, `Summary`, `WatchedMovie`, `MovieInList`, `Search`, `NavBar` and the other imported components are not part of this model. The picker's choice enters only as the argument of `SetUserRating`.
- The `Realeased` key (src/components/movie-details.js:23) misspells OMDb's field, so the release date is never shown. It affects display only, and `MovieDetail` has no release field.
- Details.MovieDetails.HandleAdd: requires a fetched record. The source throws a TypeError from `runtime.split` when a failed detail request leaves `Runtime` undefined; that unhandled failure path is not modelled.
- RuntimeParse.ToNumber: covers only the empty token and runs of decimal digits. JavaScript's `Number` also accepts a sign, a decimal point, exponents, hexadecimal, binary and octal prefixes, `Infinity` and surrounding white space other than the space itself. The model reads all of those as NaN.
- RuntimeParse.ToNumber: the value of a digit run is exact. JavaScript rounds runs above 2^53 to a double.
- MovieApp.App.QueryChanged: measures the query in Unicode characters. JavaScript's `length` counts UTF-16 code units, so a query with characters outside the Basic Multilingual Plane can cross the 3-character threshold earlier in the source.
- MovieApp.App.InWatched: treats every stored identifier as a non-null string. The source compares with `===`, and an entry with a null identifier would match an empty selection.
- The truthiness test `selectedId ? … : …` (src/App.js:97): an empty-string identifier would not open the details panel. OMDb identifiers are never empty, and the model treats any selected string as open.
