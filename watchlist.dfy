/**
 * The watched list of src/App.js: an ordered sequence of entries that the
 * handlers replace wholesale with a new array, by appending
 * (`[...watched, movie]`) or by filtering on the identifier.
 */
module Watchlist {

  import opened Wrappers
  import opened RuntimeParse

  /** One entry, as built by `handleAdd` (src/components/movie-details.js:30-38). */
  datatype WatchedMovie = WatchedMovie(
    imdbID: string,
    title: string,
    poster: string,
    runtime: JsNumber,
    year: string,
    imdbRating: string,
    userRating: Option<int>)

  type Watched = seq<WatchedMovie>

  predicate HasId(w: Watched, id: string) {
    exists i :: 0 <= i < |w| && w[i].imdbID == id
  }

  /** No identifier occurs twice; the store itself does not enforce this. */
  predicate UniqueIds(w: Watched) {
    forall i, j :: 0 <= i < j < |w| ==> w[i].imdbID != w[j].imdbID
  }

  /** `[...watched, movie]`: the new entry goes at the end, the others stay put. */
  function Append(w: Watched, m: WatchedMovie): (r: Watched)
    ensures |r| == |w| + 1
    ensures r[..|w|] == w && r[|w|] == m
  {
    w + [m]
  }

  /** `watched.filter((movie) => movie.imdbID !== id)`. */
  function RemoveById(w: Watched, id: string): (r: Watched)
    ensures forall e :: e in r ==> e in w && e.imdbID != id
    ensures forall e :: e in w && e.imdbID != id ==> e in r
    ensures !HasId(w, id) ==> r == w
    ensures HasId(w, id) ==> |r| < |w|
  {
    if w == [] then []
    else if w[0].imdbID == id then RemoveById(w[1..], id)
    else [w[0]] + RemoveById(w[1..], id)
  }

  /** `watched.filter((movie) => movie.imdbID === id)`. */
  function KeepById(w: Watched, id: string): (r: Watched)
    ensures forall e :: e in r ==> e in w && e.imdbID == id
    ensures forall e :: e in w && e.imdbID == id ==> e in r
    ensures r == [] <==> !HasId(w, id)
  {
    if w == [] then []
    else if w[0].imdbID == id then [w[0]] + KeepById(w[1..], id)
    else KeepById(w[1..], id)
  }

  /** The position of the first entry with identifier `id`, if any. */
  function IndexOf(w: Watched, id: string): (r: Option<nat>)
    ensures r.Some? ==> r.value < |w| && w[r.value].imdbID == id
    ensures r.Some? ==> forall j :: 0 <= j < r.value ==> w[j].imdbID != id
    ensures r.None? <==> !HasId(w, id)
  {
    if w == [] then None
    else if w[0].imdbID == id then Some(0)
    else match IndexOf(w[1..], id)
      case None => None
      case Some(k) => Some(k + 1)
  }

  /**
   * Deleting distributes over concatenation. With the one-entry case this
   * pins the filter down completely: the survivors keep their relative order.
   */
  lemma {:induction false} RemoveByIdConcat(a: Watched, b: Watched, id: string)
    ensures RemoveById(a + b, id) == RemoveById(a, id) + RemoveById(b, id)
  {
    if a == [] {
      assert a + b == b;
    } else {
      assert (a + b)[1..] == a[1..] + b;
      RemoveByIdConcat(a[1..], b, id);
    }
  }

  /** Keeping the entries of one identifier distributes over concatenation. */
  lemma {:induction false} KeepByIdConcat(a: Watched, b: Watched, id: string)
    ensures KeepById(a + b, id) == KeepById(a, id) + KeepById(b, id)
  {
    if a == [] {
      assert a + b == b;
    } else {
      assert (a + b)[1..] == a[1..] + b;
      KeepByIdConcat(a[1..], b, id);
    }
  }

  /**
   * Deleting an identifier and keeping only that identifier split the list:
   * every entry lands in exactly one of the two parts.
   */
  lemma {:induction false} RemoveKeepPartition(w: Watched, id: string)
    ensures |RemoveById(w, id)| + |KeepById(w, id)| == |w|
    ensures multiset(RemoveById(w, id)) + multiset(KeepById(w, id)) == multiset(w)
  {
    if w != [] {
      RemoveKeepPartition(w[1..], id);
      assert w == [w[0]] + w[1..];
    }
  }

  /** Deleting twice is deleting once. */
  lemma RemoveByIdIdempotent(w: Watched, id: string)
    ensures RemoveById(RemoveById(w, id), id) == RemoveById(w, id)
  {
  }

  /** Deleting one identifier leaves the entries of every other identifier as they were. */
  lemma {:induction false} RemoveKeepsOtherIds(w: Watched, x: string, y: string)
    requires x != y
    ensures KeepById(RemoveById(w, x), y) == KeepById(w, y)
  {
    if w != [] {
      RemoveKeepsOtherIds(w[1..], x, y);
      if w[0].imdbID != x {
        assert RemoveById(w, x) == [w[0]] + RemoveById(w[1..], x);
        KeepByIdConcat([w[0]], RemoveById(w[1..], x), y);
      }
    }
  }

  /**
   * Appending an entry whose identifier is not yet in the list and then
   * deleting that identifier gives back the original list.
   */
  lemma AppendThenRemove(w: Watched, m: WatchedMovie)
    requires !HasId(w, m.imdbID)
    ensures RemoveById(Append(w, m), m.imdbID) == w
  {
    RemoveByIdConcat(w, [m], m.imdbID);
    assert RemoveById([m], m.imdbID) == [];
  }

  /**
   * Without that precondition the round trip fails: the store does not
   * check for duplicates, so deleting also takes the older entries away.
   */
  lemma AppendDuplicateThenRemove(w: Watched, m: WatchedMovie)
    requires HasId(w, m.imdbID)
    ensures RemoveById(Append(w, m), m.imdbID) != w
    ensures |RemoveById(Append(w, m), m.imdbID)| < |w|
  {
    RemoveByIdConcat(w, [m], m.imdbID);
    assert RemoveById([m], m.imdbID) == [];
  }

  /** After an append, the entries of the new identifier are the old ones followed by the new entry. */
  lemma KeepAfterAppend(w: Watched, m: WatchedMovie)
    ensures KeepById(Append(w, m), m.imdbID) == KeepById(w, m.imdbID) + [m]
  {
    KeepByIdConcat(w, [m], m.imdbID);
  }

  /** The first kept entry is the first entry of the list with that identifier. */
  lemma {:induction false} FirstKeptIsFirstMatch(w: Watched, id: string)
    requires HasId(w, id)
    ensures KeepById(w, id) != []
    ensures KeepById(w, id)[0] == w[IndexOf(w, id).value]
  {
    if w[0].imdbID != id {
      assert w[1..] != [];
      var i :| 0 <= i < |w| && w[i].imdbID == id;
      assert w[1..][i - 1].imdbID == id;
      FirstKeptIsFirstMatch(w[1..], id);
    }
  }

  /** With unique identifiers, the entries kept for one identifier number at most one. */
  lemma {:induction false} UniqueKeepsAtMostOne(w: Watched, id: string)
    requires UniqueIds(w)
    ensures |KeepById(w, id)| <= 1
  {
    if w != [] {
      assert UniqueIds(w[1..]);
      UniqueKeepsAtMostOne(w[1..], id);
    }
  }

  /** Appending an entry whose identifier has no entry yet keeps identifiers unique. */
  lemma AppendFreshKeepsUnique(w: Watched, m: WatchedMovie)
    requires UniqueIds(w)
    requires !HasId(w, m.imdbID)
    ensures UniqueIds(Append(w, m))
  {
    var r := Append(w, m);
    forall i, j | 0 <= i < j < |r|
      ensures r[i].imdbID != r[j].imdbID
    {
      if j == |w| {
        assert r[i] == w[i];
      }
    }
  }
}
