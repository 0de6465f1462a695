# Movies REST API — a Dafny model

This project models the core of a small Express service that serves an
in-memory collection of movie records (`app.js`) and checks request bodies
against a zod schema (`schemas/movies.js`).

- `wrappers.dfy` — `Option`, standing for JavaScript's `undefined`.
- `json.dfy` — the untyped JSON value a request body parses to.
- `cors.dfy` (module `Cors`) — the origin callback of the cors middleware:
  four fixed origins, or an absent or empty origin, are let through;
  anything else is an error.
- `movie_schema.dfy` (module `MovieSchema`) — the schema as one rule per
  field (`title`, `year`, `director`, `duration`, `rate`, `poster`, `genre`),
  full mode (`validateMovie`) and partial mode (`validateParcialMovie`,
  here `ValidatePartialMovie`). The result is success with the normalised
  data, or the set of failing fields. `Satisfies` states each rule a second
  time in plain terms, and the validators' contracts are proved against it.
- `movie_store.dfy` (module `MovieStore`) — the `Movie` record, the genre
  filter and id lookups, the record built on POST and the shallow merge on
  PATCH, the DELETE handler both as written and as intended, and the
  `Store` class whose field `movies` the handler methods change in place.
  Every handler returns a status code and a body.

The URL syntax check behind `z.string().url()` is a parameter `isUrl`, and the
`Store` keeps it as a constant. The id that `crypto.randomUUID()` would
produce is passed in, and POST requires that no stored record has it yet.

`z.string()` accepts `""`, so an empty `title` passes validation. The DELETE
handler's not-found test has two consequences described under "## Findings".

## Model

| member | source | states |
|---|---|---|
| `Cors.Includes` | app.js:23 | `includes` is true exactly when the origin is present and equals some list entry |
| `Cors.Falsy` | app.js:27 | `!origin` holds exactly for an absent origin and the empty string |
| `Cors.CheckOrigin` | app.js:14-33 | an origin is allowed iff it is absent, empty, or one of the four listed strings; every refusal carries "Not allowed by CORS" |
| `Cors.CheckOriginExamples` | app.js:15-32 | no origin and `http://midu.dev` are allowed; `http://evil.com` is refused |
| `Cors.UnlistedOriginRejected` | app.js:27-32 | any non-empty origin that is not listed is refused, never allowed |
| `MovieSchema.GenreNames` | schemas/movies.js:16-18 | an array passes iff every element is a string from the nine-value enumeration, and the output lists those strings in order |
| `MovieSchema.CheckText` | schemas/movies.js:5-8 | `z.string()`: a present string is accepted with its value, any other present value rejected, a missing one reported absent |
| `MovieSchema.CheckYear` | schemas/movies.js:9 | accepted iff the value is an integer number in [1900, 2024], keeping that number; missing is absent |
| `MovieSchema.CheckDuration` | schemas/movies.js:11 | accepted iff the value is an integer number of at least 1, keeping that number; missing is absent |
| `MovieSchema.CheckRate` | schemas/movies.js:12 | accepted iff the value is a number in [0, 10], keeping it; missing is absent |
| `MovieSchema.CheckPoster` | schemas/movies.js:13-15 | accepted iff the value is a string that `isUrl` admits, keeping it; missing is absent |
| `MovieSchema.CheckGenre` | schemas/movies.js:16-18 | accepted iff the value is an array of enumerated genre strings, giving those strings in order; missing is absent |
| `MovieSchema.RateRule` | schemas/movies.js:12 | a missing rate becomes 0 in full mode and stays absent in partial mode; a present rate is checked by the rate rule |
| `MovieSchema.ParseObject` | schemas/movies.js:4-19 | every field that fails its rule is listed and the parse fails; every listed issue is a failing field |
| `MovieSchema.SafeParse` | schemas/movies.js:23 | a body that is not an object gives the single issue "not an object"; an object body never does |
| `MovieSchema.RejectsIffUnsatisfied` | schemas/movies.js:4-19 | each field's rule, in full or partial mode, fails exactly when its plain statement does not hold |
| `MovieSchema.ParseObjectIssues` | schemas/movies.js:4-19 | parsing an object succeeds iff every field satisfies its rule; on failure every failing field is listed and no other |
| `MovieSchema.ParseObjectData` | schemas/movies.js:4-19 | a successful parse outputs exactly the schema fields present in the input, with their values; in full mode all but `rate` are present and a missing `rate` becomes 0 |
| `MovieSchema.ValidateMovie` | schemas/movies.js:22-24 | success iff the body is an object with string title and director, integer year in [1900, 2024], positive integer duration, rate (if given) in [0, 10], URL poster and enumerated genres; errors name exactly the failing fields, or the non-object body; the data holds the given values with `rate` defaulted to 0 |
| `MovieSchema.ValidatePartialMovie` | schemas/movies.js:26-28 | success iff every present field meets the same rule; absent fields stay absent (no `rate` default); present fields keep their values |
| `MovieSchema.FullImpliesPartial` | schemas/movies.js:27 | a body valid in full mode is valid in partial mode, with the same data except an unsupplied `rate` |
| `MovieSchema.ExtraKeyIgnored` | schemas/movies.js:4-19 | adding a property outside the schema (such as `id`) leaves the result unchanged, in both modes |
| `MovieSchema.YearBounds` | schemas/movies.js:9 | years 1900 and 2024 are accepted; 1899, 2025 and 2000.5 are rejected |
| `MovieSchema.RateBounds` | schemas/movies.js:12 | rates 0, 10 and 8.5 are accepted; 10.5 and -0.5 are rejected |
| `MovieSchema.GenreListRule` | schemas/movies.js:16-18 | one element outside the enumeration rejects the whole list; the empty list is accepted |
| `MovieSchema.FullFailureNamesField` | schemas/movies.js:22-24 | whenever a field breaks its rule, full validation fails and names that field, whatever the other fields hold |
| `MovieSchema.FullFailureExamples` | schemas/movies.js:5-18 | a missing title, year 1899 or 2025, and genre `["Romance"]` are each reported against their field |
| `MovieStore.WithGenre` | app.js:56-62 | the filter keeps exactly the records with some genre equal to the query up to case, and never grows the list |
| `MovieStore.Lower` | app.js:58 | `toLowerCase` on ASCII: same length, no upper-case letter left, each character unchanged or its upper-case letter lowered |
| `MovieStore.HasGenre` | app.js:58 | `genre.some(...)`: a match needs some genre of the record with the query's length |
| `MovieStore.WithGenreAppend` | app.js:57-59 | filtering preserves order: the filter of a concatenation is the concatenation of the filters |
| `MovieStore.WithGenreCounts` | app.js:57-59 | a matching record occurs in the result as often as in the collection; a non-matching one never does |
| `MovieStore.WithGenreAllMatch` | app.js:57-59 | when every record matches, the filter returns the collection unchanged |
| `MovieStore.WithGenreCaseInsensitive` | app.js:58 | queries equal up to letter case give identical results |
| `MovieStore.ActionQueriesAgree` | app.js:58 | `genre=action` and `genre=Action` give the same records |
| `MovieStore.FindIndex` | app.js:96 | `findIndex` gives the first index whose id matches, or -1 exactly when none does |
| `MovieStore.Find` | app.js:109 | `find` gives the record at the first matching index, or nothing when there is none |
| `MovieStore.NewMovie` | app.js:80-83 | the created record carries the given id, and its other fields are exactly the validated data |
| `MovieStore.Merge` | app.js:129-132 | `{...movie, ...data}`: the id is kept, a supplied field takes the new value, an unsupplied one keeps the old |
| `MovieStore.CreatedConforms` | app.js:72-83 | a record built from a fully validated body carries the new id and satisfies every schema constraint |
| `MovieStore.MergeConforms` | app.js:118-133 | merging partially validated data into a conforming record keeps its id and keeps it conforming |
| `MovieStore.MergeSingleField` | app.js:129-132 | a body with one schema property changes only that field of the record; the id never changes |
| `MovieStore.MergeEmptyAndIdempotent` | app.js:129-132 | merging no fields changes nothing; merging the same data twice equals merging it once |
| `MovieStore.SpliceOne` | app.js:100 | `splice(start, 1)`: a start in range removes that element; a negative start counts from the end and is clamped at 0; a start at or past the end removes nothing |
| `MovieStore.DeleteAsWritten` | app.js:96-101 | the handler as written answers 404 exactly when the first record has the id, and then changes nothing; otherwise it answers "Movie deleted" and one record fewer remains (none on an empty list) |
| `MovieStore.DeleteIntended` | app.js:96-101 | the corrected handler answers 404 exactly when no record has the id, and then changes nothing; otherwise "Movie deleted" with one record fewer |
| `MovieStore.DeleteFirstReportsNotFound` | app.js:96-98 | as written, deleting the id of the first record answers 404 and removes nothing |
| `MovieStore.DeleteMissingRemovesLast` | app.js:96-101 | as written, deleting an id no record has answers "Movie deleted" and removes the last record |
| `MovieStore.DeleteAsWrittenLaterMatch` | app.js:96-101 | as written, a match at index 1 or later removes exactly that record, as intended |
| `MovieStore.DeleteIntendedRemovesMatch` | app.js:96-101 | the corrected delete removes exactly the first matching record, keeps the order of the rest and shrinks the list by one; with no match it answers 404 and changes nothing |
| `MovieStore.DeleteIntendedLeavesNoMatch` | app.js:96-101 | with unique ids, after the corrected delete no record has the id and ids stay unique |
| `MovieStore.SpliceKeepsUnique` | app.js:100 | `splice(i, 1)`, for any `i`, keeps ids unique |
| `MovieStore.SpliceKeepsConformance` | app.js:100 | `splice(i, 1)` keeps every remaining record conforming |
| `MovieStore.AppendThenFind` | app.js:87-109 | a record appended with a fresh id is what a lookup by that id returns |
| `MovieStore.CreateThenDelete` | app.js:87-100 | create then corrected delete restores the collection; as written this holds only on a non-empty collection, and on an empty one the new record stays and 404 is returned |
| `MovieStore.AppendFreshKeepsUnique` | app.js:80-87 | appending a record with a fresh id keeps ids unique |
| `MovieStore.FilmBodyValidation` | schemas/movies.js:9-12 | a film body with year 1899 fails and names `year`; with year 2000 it passes, keeps the year and gets rate 0 |
| `MovieStore.CreateGetDeleteScenario` | app.js:70-114 | on a non-empty seed: POST with year 1899 gives 400, POST with year 2000 gives 201 with rate 0, GET answers 200 with the created record, DELETE answers 200, and GET then gives 404 |
| `MovieStore.Store.constructor` | app.js:2 | the store starts from an arbitrary seed collection |
| `MovieStore.Store.List` | app.js:49-68 | GET /movies answers 200; a non-empty genre gives the filtered collection, no or empty genre the whole collection; nothing changes |
| `MovieStore.Store.Get` | app.js:107-114 | GET /movies/:id answers 200 with the first record with the id iff one exists, else 404; nothing changes |
| `MovieStore.Store.Create` | app.js:70-90 | invalid body: 400 with the issues, store unchanged; valid: the store becomes the old one plus the new record at the end, answer 201 with it; unique ids and conformance are kept |
| `MovieStore.Store.Update` | app.js:116-136 | validation comes first (400, even for an unknown id); unknown id: 404, unchanged; else only the matched position is replaced by the merge, answer 200 with it; unique ids and conformance are kept |
| `MovieStore.Store.Delete` | app.js:92-102 | the new state and answer are those of the handler as written, including both quirks; unique ids and conformance are kept |
| `MovieStore.Store.DeleteFixed` | app.js:92-102 | the new state and answer are those of the corrected handler; with unique ids the deleted id is gone |

## Findings

| source | as written | input that shows it | evidently intended | confidence | as-written member | corrected member |
|---|---|---|---|---|---|---|
| app.js:98 | `!movieIndex` is true for index 0, so a match at the front reads as "not found" | a collection whose first record has id X; DELETE /movies/X answers 404 and keeps the record | treat only `movieIndex === -1` as not found | high; not executed | `MovieStore.DeleteFirstReportsNotFound` | `MovieStore.DeleteIntendedRemovesMatch` |
| app.js:98-100 | -1 is truthy, so a missing id reaches `splice(-1, 1)`, which removes the last record | a non-empty collection without id Y; DELETE /movies/Y answers "Movie deleted" and drops the last record | answer 404 and change nothing | high; not executed | `MovieStore.DeleteMissingRemovesLast` | `MovieStore.DeleteIntendedRemovesMatch` |

`Store.Delete` keeps the handler as written. `Store.DeleteFixed` is the corrected handler and is built on `DeleteIntended`.

## Left out

- Express routing, JSON body parsing, `app.listen`, the `PORT` lookup, the `/` page and the HTML catch-all 404 (app.js:6-12, 44-46, 145-152) are plumbing, not logic.
- The cors middleware's mechanics and the preflight handling are left out; only the allow/deny decision is modelled.
- `crypto.randomUUID` is foreign randomness. The id is a parameter, required to be fresh.
- The contents of `movies.json` are not part of this model. The store starts from an arbitrary seed, and every seed record is taken to have all fields, with `genre` an array of strings.
- zod's error objects, message texts and the `JSON.parse(result.error.message)` in the 400 body are left out. Errors are the set of failing fields, or "not an object".
- Partial mode follows zod 3's `.partial()`, where an optional wrapper skips the `rate` default, so a PATCH without `rate` leaves it unchanged; under zod 4, which applies defaults inside optional fields, every PATCH would set `rate` to 0. The version of zod is not fixed by the files modelled.
- URL syntax (`z.string().url()`) is the parameter `isUrl`, not a parser.
- Unicode `toLowerCase` is left out. `Lower` folds ASCII letters only.
- JavaScript number semantics are simplified. Numbers are finite reals (JSON has no NaN or Infinity). `year` and `duration` are stored as integers once their integer-ness is checked.
- A `genre` query given more than once (an array) makes `genre.toLowerCase` throw. The query is modelled as one optional string.
- A seed record without a `genre` array would make the filter throw. This is excluded by the record type.
