/**
 * The movie collection of app.js and the request handlers that read and
 * change it (app.js:49-136). The collection is an ordered sequence of
 * records held by a `Store` object; each handler is a method that answers
 * with a status code and a body.
 */
module MovieStore {

  import opened Wrappers
  import opened JsonValues
  import opened MovieSchema

  /** A stored movie record. */
  datatype Movie = Movie(
    id: string,
    title: string,
    year: int,
    director: string,
    duration: int,
    rate: real,
    poster: string,
    genre: seq<string>)

  /** The JSON a handler answers with. */
  datatype Body =
    | MovieList(movies: seq<Movie>)
    | OneMovie(movie: Movie)
    | Message(text: string)
    | ValidationErrors(issues: set<Issue>)

  datatype Response = Response(status: int, body: Body)

  const NOT_FOUND: Response := Response(404, Message("Movie not found"))
  const DELETED: Response := Response(200, Message("Movie deleted"))

  /* ---------- reading: genre filter and lookup by id ---------- */

  /** `toLowerCase` on ASCII letters; other characters are left as they are. */
  function LowerChar(c: char): char {
    if 'A' <= c <= 'Z' then (c as int + 32) as char else c
  }

  function Lower(s: string): (r: string)
    ensures |r| == |s|
    ensures forall i :: 0 <= i < |s| ==>
      && !('A' <= r[i] <= 'Z')
      && (r[i] == s[i] || ('A' <= s[i] <= 'Z' && r[i] as int == s[i] as int + 32))
  {
    seq(|s|, i requires 0 <= i < |s| => LowerChar(s[i]))
  }

  /** `movie.genre.some(g => g.toLowerCase() === genre.toLowerCase())`. */
  predicate HasGenre(m: Movie, g: string)
    ensures HasGenre(m, g) ==> exists k :: 0 <= k < |m.genre| && |m.genre[k]| == |g|
  {
    exists k :: 0 <= k < |m.genre| && Lower(m.genre[k]) == Lower(g)
  }

  /** `movies.filter(...)` with the genre test (app.js:57-59). */
  function WithGenre(ms: seq<Movie>, g: string): (r: seq<Movie>)
    ensures |r| <= |ms|
    ensures forall m :: m in r <==> m in ms && HasGenre(m, g)
  {
    if ms == [] then []
    else (if HasGenre(ms[0], g) then [ms[0]] else []) + WithGenre(ms[1..], g)
  }

  /** The filter keeps the order of the records: filtering a concatenation
      concatenates the filtered parts. */
  lemma {:induction false} WithGenreAppend(a: seq<Movie>, b: seq<Movie>, g: string)
    ensures WithGenre(a + b, g) == WithGenre(a, g) + WithGenre(b, g)
  {
    if a == [] {
      assert a + b == b;
    } else {
      assert (a + b)[1..] == a[1..] + b;
      WithGenreAppend(a[1..], b, g);
    }
  }

  /** A record with the genre is kept as many times as it occurs; any other is dropped. */
  lemma {:induction false} WithGenreCounts(ms: seq<Movie>, g: string, m: Movie)
    ensures multiset(WithGenre(ms, g))[m] == if HasGenre(m, g) then multiset(ms)[m] else 0
  {
    if ms != [] {
      WithGenreCounts(ms[1..], g, m);
      assert ms == [ms[0]] + ms[1..];
    }
  }

  /** When every record has the genre, the filter returns the list unchanged. */
  lemma {:induction false} WithGenreAllMatch(ms: seq<Movie>, g: string)
    requires forall k :: 0 <= k < |ms| ==> HasGenre(ms[k], g)
    ensures WithGenre(ms, g) == ms
  {
    if ms != [] {
      WithGenreAllMatch(ms[1..], g);
    }
  }

  /** Two queries that agree up to letter case select the same records. */
  lemma {:induction false} WithGenreCaseInsensitive(ms: seq<Movie>, g1: string, g2: string)
    requires Lower(g1) == Lower(g2)
    ensures WithGenre(ms, g1) == WithGenre(ms, g2)
  {
    if ms != [] {
      assert HasGenre(ms[0], g1) == HasGenre(ms[0], g2);
      WithGenreCaseInsensitive(ms[1..], g1, g2);
    }
  }

  lemma ActionQueriesAgree(ms: seq<Movie>)
    ensures WithGenre(ms, "action") == WithGenre(ms, "Action")
  {
  }

  /** `movies.findIndex(movie => movie.id === id)`: the first match, or -1. */
  function FindIndex(ms: seq<Movie>, id: string): (r: int)
    ensures -1 <= r < |ms|
    ensures r == -1 <==> forall k :: 0 <= k < |ms| ==> ms[k].id != id
    ensures r >= 0 ==> ms[r].id == id && forall k :: 0 <= k < r ==> ms[k].id != id
  {
    if ms == [] then -1
    else if ms[0].id == id then 0
    else
      var j := FindIndex(ms[1..], id);
      if j == -1 then -1 else j + 1
  }

  /** `movies.find(movie => movie.id === id)`: the first matching record. */
  function Find(ms: seq<Movie>, id: string): (r: Option<Movie>)
    ensures r == if FindIndex(ms, id) == -1 then None else Some(ms[FindIndex(ms, id)])
  {
    if ms == [] then None
    else if ms[0].id == id then Some(ms[0])
    else Find(ms[1..], id)
  }

  /* ---------- records built from validated data ---------- */

  /** No two records share an id. */
  predicate UniqueIds(ms: seq<Movie>) {
    forall i, j :: 0 <= i < j < |ms| ==> ms[i].id != ms[j].id
  }

  /** No record has this id. */
  predicate Fresh(ms: seq<Movie>, id: string) {
    forall k :: 0 <= k < |ms| ==> ms[k].id != id
  }

  /** A record as the full schema admits it. */
  ghost predicate Conforms(m: Movie, isUrl: string -> bool) {
    && 1900 <= m.year <= 2024
    && m.duration > 0
    && 0.0 <= m.rate <= 10.0
    && isUrl(m.poster)
    && forall k :: 0 <= k < |m.genre| ==> m.genre[k] in GENRES
  }

  ghost predicate AllConform(ms: seq<Movie>, isUrl: string -> bool) {
    forall k :: 0 <= k < |ms| ==> Conforms(ms[k], isUrl)
  }

  predicate Complete(d: Draft) {
    && d.title.Some? && d.year.Some? && d.director.Some? && d.duration.Some?
    && d.rate.Some? && d.poster.Some? && d.genre.Some?
  }

  /** `{ id, ...result.data }` on creation (app.js:80-83). */
  function NewMovie(id: string, d: Draft): (m: Movie)
    requires Complete(d)
    ensures m.id == id
    ensures Draft(Some(m.title), Some(m.year), Some(m.director), Some(m.duration),
                  Some(m.rate), Some(m.poster), Some(m.genre)) == d
  {
    Movie(id, d.title.value, d.year.value, d.director.value, d.duration.value,
          d.rate.value, d.poster.value, d.genre.value)
  }

  function Pick<T>(current: T, supplied: Option<T>): T {
    if supplied.Some? then supplied.value else current
  }

  /** `{ ...movie, ...result.data }` on update (app.js:129-132): a supplied
      field wins, every other field (the id among them) is kept. */
  function Merge(m: Movie, d: Draft): (r: Movie)
    ensures r.id == m.id
    ensures r.title == (if d.title.Some? then d.title.value else m.title)
    ensures r.year == (if d.year.Some? then d.year.value else m.year)
    ensures r.director == (if d.director.Some? then d.director.value else m.director)
    ensures r.duration == (if d.duration.Some? then d.duration.value else m.duration)
    ensures r.rate == (if d.rate.Some? then d.rate.value else m.rate)
    ensures r.poster == (if d.poster.Some? then d.poster.value else m.poster)
    ensures r.genre == (if d.genre.Some? then d.genre.value else m.genre)
  {
    Movie(m.id, Pick(m.title, d.title), Pick(m.year, d.year), Pick(m.director, d.director),
          Pick(m.duration, d.duration), Pick(m.rate, d.rate), Pick(m.poster, d.poster),
          Pick(m.genre, d.genre))
  }

  /** Every field of `a` other than `f` equals that of `b`; the id always does. */
  predicate SameExcept(a: Movie, b: Movie, f: Field) {
    && a.id == b.id
    && (f != Title ==> a.title == b.title)
    && (f != Year ==> a.year == b.year)
    && (f != Director ==> a.director == b.director)
    && (f != Duration ==> a.duration == b.duration)
    && (f != Rate ==> a.rate == b.rate)
    && (f != Poster ==> a.poster == b.poster)
    && (f != Genre ==> a.genre == b.genre)
  }

  /** A record created from a body that passed full validation conforms to the schema
      and carries the given id. */
  lemma CreatedConforms(body: Json, id: string, isUrl: string -> bool)
    requires ValidateMovie(body, isUrl).Ok?
    ensures Complete(ValidateMovie(body, isUrl).data)
    ensures NewMovie(id, ValidateMovie(body, isUrl).data).id == id
    ensures Conforms(NewMovie(id, ValidateMovie(body, isUrl).data), isUrl)
  {
  }

  /** Merging data that passed partial validation into a conforming record gives a
      conforming record with the same id. */
  lemma MergeConforms(m: Movie, body: Json, isUrl: string -> bool)
    requires Conforms(m, isUrl)
    requires ValidatePartialMovie(body, isUrl).Ok?
    ensures Merge(m, ValidatePartialMovie(body, isUrl).data).id == m.id
    ensures Conforms(Merge(m, ValidatePartialMovie(body, isUrl).data), isUrl)
  {
  }

  /** A body with a single schema property changes only that field of the record. */
  lemma MergeSingleField(m: Movie, f: Field, v: Json, isUrl: string -> bool)
    requires ValidatePartialMovie(Obj(map[Key(f) := v]), isUrl).Ok?
    ensures SameExcept(Merge(m, ValidatePartialMovie(Obj(map[Key(f) := v]), isUrl).data), m, f)
  {
  }

  /** An empty body changes nothing; merging the same data twice is merging it once. */
  lemma MergeEmptyAndIdempotent(m: Movie, d: Draft)
    ensures Merge(m, Draft(None, None, None, None, None, None, None)) == m
    ensures Merge(Merge(m, d), d) == Merge(m, d)
  {
  }

  /* ---------- DELETE: the handler as written and as intended ---------- */

  /** `s.splice(start, 1)` with JavaScript's treatment of a negative start
      (counted from the end) and of a start past the end (nothing removed). */
  function SpliceOne<T>(s: seq<T>, start: int): (r: seq<T>)
    ensures 0 <= start < |s| ==> r == s[..start] + s[start + 1..]
    ensures -|s| <= start < 0 ==> r == s[..|s| + start] + s[|s| + start + 1..]
    ensures start < -|s| && s != [] ==> r == s[1..]
    ensures start >= |s| || s == [] ==> r == s
    ensures |r| == if start >= |s| || s == [] then |s| else |s| - 1
  {
    var k := if start < 0 then (if |s| + start < 0 then 0 else |s| + start)
             else (if start < |s| then start else |s|);
    if k < |s| then s[..k] + s[k + 1..] else s
  }

  /** A response together with the collection it leaves behind. */
  datatype Step = Step(response: Response, after: seq<Movie>)

  /** app.js:96-101 as written: `!movieIndex` holds for index 0 only, so a match
      at the front is "not found" and a miss (-1) reaches `splice(-1, 1)`. */
  function DeleteAsWritten(ms: seq<Movie>, id: string): (r: Step)
    ensures r.response == NOT_FOUND <==> ms != [] && ms[0].id == id
    ensures r.response != NOT_FOUND ==> r.response == DELETED && |r.after| == if ms == [] then 0 else |ms| - 1
    ensures r.response == NOT_FOUND ==> r.after == ms
  {
    var i := FindIndex(ms, id);
    if i == 0 then Step(NOT_FOUND, ms)
    else Step(DELETED, SpliceOne(ms, i))
  }

  /** The evident intent: not found exactly when `findIndex` gives -1. */
  function DeleteIntended(ms: seq<Movie>, id: string): (r: Step)
    ensures r.response == NOT_FOUND <==> Fresh(ms, id)
    ensures r.response != NOT_FOUND ==> r.response == DELETED && |r.after| == |ms| - 1
    ensures r.response == NOT_FOUND ==> r.after == ms
  {
    var i := FindIndex(ms, id);
    if i == -1 then Step(NOT_FOUND, ms)
    else Step(DELETED, SpliceOne(ms, i))
  }

  /** Quirk: deleting the first record's id answers 404 and removes nothing. */
  lemma DeleteFirstReportsNotFound(ms: seq<Movie>, id: string)
    requires |ms| > 0 && ms[0].id == id
    ensures DeleteAsWritten(ms, id) == Step(NOT_FOUND, ms)
  {
  }

  /** Quirk: deleting an id that no record has removes the last record and
      answers "Movie deleted". */
  lemma DeleteMissingRemovesLast(ms: seq<Movie>, id: string)
    requires Fresh(ms, id)
    ensures DeleteAsWritten(ms, id).response == DELETED
    ensures DeleteAsWritten(ms, id).after == if ms == [] then [] else ms[..|ms| - 1]
  {
  }

  /** Away from the front, the handler as written removes exactly the match. */
  lemma DeleteAsWrittenLaterMatch(ms: seq<Movie>, id: string)
    requires FindIndex(ms, id) >= 1
    ensures DeleteAsWritten(ms, id) == DeleteIntended(ms, id)
    ensures var i := FindIndex(ms, id);
      DeleteAsWritten(ms, id) == Step(DELETED, ms[..i] + ms[i + 1..])
  {
  }

  /** The intended delete removes exactly the first record with the id, keeping the
      order of the others, and answers 404 without change when there is none. */
  lemma DeleteIntendedRemovesMatch(ms: seq<Movie>, id: string)
    ensures var i := FindIndex(ms, id);
      if i == -1 then DeleteIntended(ms, id) == Step(NOT_FOUND, ms)
      else
        && DeleteIntended(ms, id) == Step(DELETED, ms[..i] + ms[i + 1..])
        && |DeleteIntended(ms, id).after| == |ms| - 1
  {
  }

  /** With unique ids, no record with the deleted id is left, and ids stay unique. */
  lemma DeleteIntendedLeavesNoMatch(ms: seq<Movie>, id: string)
    requires UniqueIds(ms)
    ensures Fresh(DeleteIntended(ms, id).after, id)
    ensures UniqueIds(DeleteIntended(ms, id).after)
  {
  }

  /** Either version of delete leaves unique ids unique. */
  lemma SpliceKeepsUnique(ms: seq<Movie>, start: int)
    requires UniqueIds(ms)
    ensures UniqueIds(SpliceOne(ms, start))
  {
  }

  lemma SpliceKeepsConformance(ms: seq<Movie>, start: int, isUrl: string -> bool)
    requires AllConform(ms, isUrl)
    ensures AllConform(SpliceOne(ms, start), isUrl)
  {
  }

  /** A record just appended with a fresh id is what a lookup of that id finds. */
  lemma AppendThenFind(ms: seq<Movie>, m: Movie)
    requires Fresh(ms, m.id)
    ensures FindIndex(ms + [m], m.id) == |ms|
    ensures Find(ms + [m], m.id) == Some(m)
  {
    var s := ms + [m];
    assert s[|ms|].id == m.id;
    assert forall k :: 0 <= k < |ms| ==> s[k] == ms[k];
  }

  /** Create followed by delete of the new id restores the collection: always for
      the intended delete, and for the handler as written only when the collection
      was not empty (otherwise the new record sits at index 0 and is kept). */
  lemma CreateThenDelete(ms: seq<Movie>, m: Movie)
    requires Fresh(ms, m.id)
    ensures DeleteIntended(ms + [m], m.id) == Step(DELETED, ms)
    ensures ms != [] ==> DeleteAsWritten(ms + [m], m.id) == Step(DELETED, ms)
    ensures ms == [] ==> DeleteAsWritten(ms + [m], m.id) == Step(NOT_FOUND, [m])
  {
    AppendThenFind(ms, m);
    assert (ms + [m])[..|ms|] == ms;
  }

  /** Appending a record with a fresh id keeps ids unique. */
  lemma AppendFreshKeepsUnique(ms: seq<Movie>, m: Movie)
    requires UniqueIds(ms) && Fresh(ms, m.id)
    ensures UniqueIds(ms + [m])
  {
  }

  /* ---------- the store and its handlers ---------- */

  /** The process-wide collection, seeded at start-up and changed in place. */
  class Store {
    var movies: seq<Movie>
    /** The URL syntax check the schema's `poster` rule relies on. */
    const isUrl: string -> bool

    constructor (seed: seq<Movie>, isUrl: string -> bool)
      ensures movies == seed && this.isUrl == isUrl
    {
      movies := seed;
      this.isUrl := isUrl;
    }

    /** GET /movies (app.js:49-68): a non-empty `genre` query filters, otherwise
        the whole collection is returned. */
    method List(genre: Option<string>) returns (resp: Response)
      ensures resp.status == 200 && resp.body.MovieList?
      ensures (genre.None? || genre.value == "") ==> resp.body.movies == movies
      ensures genre.Some? && genre.value != "" ==>
        && resp.body.movies == WithGenre(movies, genre.value)
        && forall m :: m in resp.body.movies <==> m in movies && HasGenre(m, genre.value)
    {
      if genre.Some? && genre.value != "" {
        resp := Response(200, MovieList(WithGenre(movies, genre.value)));
      } else {
        resp := Response(200, MovieList(movies));
      }
    }

    /** GET /movies/:id (app.js:107-114): the first record with the id, else 404. */
    method Get(id: string) returns (resp: Response)
      ensures resp.status == 200 <==> exists k :: 0 <= k < |movies| && movies[k].id == id
      ensures resp.status == 200 ==> resp.body == OneMovie(movies[FindIndex(movies, id)])
      ensures resp.status != 200 ==> resp == NOT_FOUND
    {
      var found := Find(movies, id);
      if found.Some? {
        resp := Response(200, OneMovie(found.value));
      } else {
        resp := NOT_FOUND;
      }
    }

    /** POST /movies (app.js:70-90): validate, then append the record with the new id. */
    method Create(body: Json, id: string) returns (resp: Response)
      requires Fresh(movies, id)
      modifies this
      ensures var v := ValidateMovie(body, isUrl);
        if v.Err? then
          resp == Response(400, ValidationErrors(v.issues)) && movies == old(movies)
        else
          && Complete(v.data)
          && movies == old(movies) + [NewMovie(id, v.data)]
          && resp == Response(201, OneMovie(NewMovie(id, v.data)))
      ensures UniqueIds(old(movies)) ==> UniqueIds(movies)
      ensures AllConform(old(movies), isUrl) ==> AllConform(movies, isUrl)
    {
      var v := ValidateMovie(body, isUrl);
      if v.Err? {
        resp := Response(400, ValidationErrors(v.issues));
        return;
      }
      CreatedConforms(body, id, isUrl);
      var m := NewMovie(id, v.data);
      if UniqueIds(movies) {
        AppendFreshKeepsUnique(movies, m);
      }
      movies := movies + [m];
      resp := Response(201, OneMovie(m));
    }

    /** PATCH /movies/:id (app.js:116-136): validate first, then look the id up,
        then replace that one record by the merge. */
    method Update(id: string, body: Json) returns (resp: Response)
      modifies this
      ensures var v := ValidatePartialMovie(body, isUrl);
        var i := FindIndex(old(movies), id);
        if v.Err? then
          resp == Response(400, ValidationErrors(v.issues)) && movies == old(movies)
        else if i == -1 then
          resp == NOT_FOUND && movies == old(movies)
        else
          && movies == old(movies)[i := Merge(old(movies)[i], v.data)]
          && resp == Response(200, OneMovie(movies[i]))
      ensures UniqueIds(old(movies)) ==> UniqueIds(movies)
      ensures AllConform(old(movies), isUrl) ==> AllConform(movies, isUrl)
    {
      var v := ValidatePartialMovie(body, isUrl);
      if v.Err? {
        resp := Response(400, ValidationErrors(v.issues));
        return;
      }
      var i := FindIndex(movies, id);
      if i == -1 {
        resp := NOT_FOUND;
        return;
      }
      var updated := Merge(movies[i], v.data);
      if AllConform(movies, isUrl) {
        MergeConforms(movies[i], body, isUrl);
      }
      movies := movies[i := updated];
      resp := Response(200, OneMovie(updated));
    }

    /** DELETE /movies/:id (app.js:92-102) as written. */
    method Delete(id: string) returns (resp: Response)
      modifies this
      ensures resp == DeleteAsWritten(old(movies), id).response
      ensures movies == DeleteAsWritten(old(movies), id).after
      ensures UniqueIds(old(movies)) ==> UniqueIds(movies)
      ensures AllConform(old(movies), isUrl) ==> AllConform(movies, isUrl)
    {
      var i := FindIndex(movies, id);
      if i == 0 {
        resp := NOT_FOUND;
        return;
      }
      if UniqueIds(movies) {
        SpliceKeepsUnique(movies, i);
      }
      if AllConform(movies, isUrl) {
        SpliceKeepsConformance(movies, i, isUrl);
      }
      movies := SpliceOne(movies, i);
      resp := DELETED;
    }

    /** DELETE /movies/:id with the not-found test corrected to `movieIndex === -1`. */
    method DeleteFixed(id: string) returns (resp: Response)
      modifies this
      ensures resp == DeleteIntended(old(movies), id).response
      ensures movies == DeleteIntended(old(movies), id).after
      ensures UniqueIds(old(movies)) ==> UniqueIds(movies) && Fresh(movies, id)
      ensures AllConform(old(movies), isUrl) ==> AllConform(movies, isUrl)
    {
      var i := FindIndex(movies, id);
      if i == -1 {
        resp := NOT_FOUND;
        return;
      }
      if UniqueIds(movies) {
        DeleteIntendedLeavesNoMatch(movies, id);
      }
      if AllConform(movies, isUrl) {
        SpliceKeepsConformance(movies, i, isUrl);
      }
      movies := SpliceOne(movies, i);
      resp := DELETED;
    }
  }

  /** A request body for one film, with the year as given. */
  function FilmBody(year: real): map<string, Json> {
    map[
      "title" := Str("Dune"), "year" := Num(year), "director" := Str("Denis Villeneuve"),
      "duration" := Num(155.0), "poster" := Str("https://example.com/dune.jpg"),
      "genre" := Arr([Str("Sci-Fi"), Str("Adventure")])]
  }

  /** The body with year 1899 fails on `year`; with year 2000 it passes, and the
      missing rate becomes 0. */
  lemma FilmBodyValidation(isUrl: string -> bool)
    requires isUrl("https://example.com/dune.jpg")
    ensures ValidateMovie(Obj(FilmBody(1899.0)), isUrl).Err?
    ensures Invalid(Year) in ValidateMovie(Obj(FilmBody(1899.0)), isUrl).issues
    ensures ValidateMovie(Obj(FilmBody(2000.0)), isUrl).Ok?
    ensures ValidateMovie(Obj(FilmBody(2000.0)), isUrl).data.year == Some(2000)
    ensures ValidateMovie(Obj(FilmBody(2000.0)), isUrl).data.rate == Some(0.0)
  {
    var bad := FilmBody(1899.0);
    assert !Satisfies(bad, Year, false, isUrl);
    var good := FilmBody(2000.0);
    forall f
      ensures Satisfies(good, f, false, isUrl)
    {
      if f == Genre {
        assert good["genre"].items[0].s in GENRES;
        assert good["genre"].items[1].s in GENRES;
      }
    }
    assert "rate" !in good;
  }

  /**
   * A client of the store: a body with year 1899 is refused, the same body with
   * year 2000 is stored with rate 0, found by its id, deleted, and then no
   * longer found; the first lookup answers with the created record. The seed
   * must not be empty, since the handler as written keeps a record at index 0.
   */
  method CreateGetDeleteScenario(seed: seq<Movie>, id: string, isUrl: string -> bool)
    returns (statuses: seq<int>, created: Movie, fetched: Body)
    requires seed != [] && Fresh(seed, id)
    requires isUrl("https://example.com/dune.jpg")
    ensures statuses == [400, 201, 200, 200, 404]
    ensures created.id == id && created.year == 2000 && created.rate == 0.0
    ensures fetched == OneMovie(created)
  {
    FilmBodyValidation(isUrl);
    var store := new Store(seed, isUrl);
    var r1 := store.Create(Obj(FilmBody(1899.0)), id);
    var r2 := store.Create(Obj(FilmBody(2000.0)), id);
    created := r2.body.movie;
    AppendThenFind(seed, created);
    var r3 := store.Get(id);
    fetched := r3.body;
    var r4 := store.Delete(id);
    CreateThenDelete(seed, created);
    var r5 := store.Get(id);
    statuses := [r1.status, r2.status, r3.status, r4.status, r5.status];
  }
}
