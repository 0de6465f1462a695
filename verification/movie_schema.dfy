/**
 * The movie schema of schemas/movies.js:4-28 and its two entry points.
 *
 * The schema is a rule per field. A rule looks at the value stored under
 * the field's key and either accepts it (giving the normalised value),
 * rejects it, or finds it absent. Full validation turns an absent value into
 * a rejection ("required"), except for `rate`, which defaults to 0; partial
 * validation leaves absent fields absent. Keys outside the schema are
 * dropped, and every failing field is reported, not only the first.
 */
module MovieSchema {

  import opened Wrappers
  import opened JsonValues

  datatype Field = Title | Year | Director | Duration | Rate | Poster | Genre

  const ALL_FIELDS: set<Field> := {Title, Year, Director, Duration, Rate, Poster, Genre}

  /** The property name each field is read from. */
  function Key(f: Field): string {
    match f
    case Title => "title"
    case Year => "year"
    case Director => "director"
    case Duration => "duration"
    case Rate => "rate"
    case Poster => "poster"
    case Genre => "genre"
  }

  /** The values of the genre enumeration (schemas/movies.js:17). */
  const GENRES: seq<string> :=
    ["Crime", "Action", "Adventure", "Comedy", "Drama", "Fantasy", "Horror", "Thriller", "Sci-Fi"]

  /** A reported problem: the body is not an object, or one field broke its rule. */
  datatype Issue = NotAnObject | Invalid(field: Field)

  /** The data a successful parse yields; `None` is a key left out of the output. */
  datatype Draft = Draft(
    title: Option<string>,
    year: Option<int>,
    director: Option<string>,
    duration: Option<int>,
    rate: Option<real>,
    poster: Option<string>,
    genre: Option<seq<string>>)

  /** The result of `safeParse`: success with data, or the failing fields. */
  datatype Validated = Ok(data: Draft) | Err(issues: set<Issue>)

  /** The outcome of one field's rule. */
  datatype Check<T> = Absent | Accepted(value: T) | Rejected

  predicate IsInteger(n: real) {
    n.Floor as real == n
  }

  function Lookup(fields: map<string, Json>, f: Field): Option<Json> {
    if Key(f) in fields then Some(fields[Key(f)]) else None
  }

  /** `z.string()` (title, director). */
  function CheckText(v: Option<Json>): (r: Check<string>)
    ensures r.Absent? <==> v.None?
    ensures r.Accepted? <==> v.Some? && v.value.Str?
    ensures r.Accepted? ==> r.value == v.value.s
  {
    match v
    case None => Absent
    case Some(Str(s)) => Accepted(s)
    case Some(_) => Rejected
  }

  /** `z.number().int().positive().min(1900).max(2024)`. */
  function CheckYear(v: Option<Json>): (r: Check<int>)
    ensures r.Absent? <==> v.None?
    ensures r.Accepted? <==>
      v.Some? && v.value.Num? && IsInteger(v.value.n) && 1900.0 <= v.value.n <= 2024.0
    ensures r.Accepted? ==> r.value as real == v.value.n
  {
    match v
    case None => Absent
    case Some(Num(n)) =>
      if IsInteger(n) && 0.0 < n && 1900.0 <= n && n <= 2024.0 then Accepted(n.Floor) else Rejected
    case Some(_) => Rejected
  }

  /** `z.number().int().positive()`. */
  function CheckDuration(v: Option<Json>): (r: Check<int>)
    ensures r.Absent? <==> v.None?
    ensures r.Accepted? <==> v.Some? && v.value.Num? && IsInteger(v.value.n) && v.value.n >= 1.0
    ensures r.Accepted? ==> r.value as real == v.value.n && r.value > 0
  {
    match v
    case None => Absent
    case Some(Num(n)) => if IsInteger(n) && 0.0 < n then Accepted(n.Floor) else Rejected
    case Some(_) => Rejected
  }

  /** `z.number().min(0).max(10)`; the default is applied by the caller in full mode. */
  function CheckRate(v: Option<Json>): (r: Check<real>)
    ensures r.Absent? <==> v.None?
    ensures r.Accepted? <==> v.Some? && v.value.Num? && 0.0 <= v.value.n <= 10.0
    ensures r.Accepted? ==> r.value == v.value.n
  {
    match v
    case None => Absent
    case Some(Num(n)) => if 0.0 <= n && n <= 10.0 then Accepted(n) else Rejected
    case Some(_) => Rejected
  }

  /** `z.string().url()`, with the URL syntax left to `isUrl`. */
  function CheckPoster(v: Option<Json>, isUrl: string -> bool): (r: Check<string>)
    ensures r.Absent? <==> v.None?
    ensures r.Accepted? <==> v.Some? && v.value.Str? && isUrl(v.value.s)
    ensures r.Accepted? ==> r.value == v.value.s
  {
    match v
    case None => Absent
    case Some(Str(s)) => if isUrl(s) then Accepted(s) else Rejected
    case Some(_) => Rejected
  }

  /** The strings of an array whose every element is one of the enumerated genres. */
  function GenreNames(items: seq<Json>): (r: Option<seq<string>>)
    ensures r.Some? <==> forall i :: 0 <= i < |items| ==> items[i].Str? && items[i].s in GENRES
    ensures r.Some? ==> |r.value| == |items| && forall i :: 0 <= i < |items| ==> r.value[i] == items[i].s
  {
    if items == [] then Some([])
    else if items[0].Str? && items[0].s in GENRES then
      match GenreNames(items[1..])
      case Some(rest) => Some([items[0].s] + rest)
      case None => None
    else None
  }

  /** `z.array(z.enum([...]))`: one bad element rejects the whole field. */
  function CheckGenre(v: Option<Json>): (r: Check<seq<string>>)
    ensures r.Absent? <==> v.None?
    ensures r.Accepted? <==>
      v.Some? && v.value.Arr? && forall i :: 0 <= i < |v.value.items| ==>
        v.value.items[i].Str? && v.value.items[i].s in GENRES
    ensures r.Accepted? ==>
      |r.value| == |v.value.items| && forall i :: 0 <= i < |r.value| ==> r.value[i] == v.value.items[i].s
  {
    match v
    case None => Absent
    case Some(Arr(items)) =>
      (match GenreNames(items)
       case Some(names) => Accepted(names)
       case None => Rejected)
    case Some(_) => Rejected
  }

  /** In full mode a missing required field is a failure. */
  function Mode<T>(c: Check<T>, partial: bool): Check<T> {
    if !partial && c.Absent? then Rejected else c
  }

  function Present<T>(c: Check<T>): Option<T> {
    if c.Accepted? then Some(c.value) else None
  }

  function TitleRule(o: map<string, Json>, partial: bool): Check<string> {
    Mode(CheckText(Lookup(o, Title)), partial)
  }

  function YearRule(o: map<string, Json>, partial: bool): Check<int> {
    Mode(CheckYear(Lookup(o, Year)), partial)
  }

  function DirectorRule(o: map<string, Json>, partial: bool): Check<string> {
    Mode(CheckText(Lookup(o, Director)), partial)
  }

  function DurationRule(o: map<string, Json>, partial: bool): Check<int> {
    Mode(CheckDuration(Lookup(o, Duration)), partial)
  }

  /** `.default(0)`: in full mode a missing rate becomes 0; zod 3's `.partial()` wraps the
      default in an optional, so in partial mode a missing rate stays missing. */
  function RateRule(o: map<string, Json>, partial: bool): (r: Check<real>)
    ensures r.Absent? <==> partial && "rate" !in o
    ensures !partial && "rate" !in o ==> r == Accepted(0.0)
    ensures "rate" in o ==> r == CheckRate(Some(o["rate"]))
  {
    var c := CheckRate(Lookup(o, Rate));
    if !partial && c.Absent? then Accepted(0.0) else c
  }

  function PosterRule(o: map<string, Json>, partial: bool, isUrl: string -> bool): Check<string> {
    Mode(CheckPoster(Lookup(o, Poster), isUrl), partial)
  }

  function GenreRule(o: map<string, Json>, partial: bool): Check<seq<string>> {
    Mode(CheckGenre(Lookup(o, Genre)), partial)
  }

  /** Whether field `f` fails its rule. */
  predicate Rejects(o: map<string, Json>, f: Field, partial: bool, isUrl: string -> bool) {
    match f
    case Title => TitleRule(o, partial).Rejected?
    case Year => YearRule(o, partial).Rejected?
    case Director => DirectorRule(o, partial).Rejected?
    case Duration => DurationRule(o, partial).Rejected?
    case Rate => RateRule(o, partial).Rejected?
    case Poster => PosterRule(o, partial, isUrl).Rejected?
    case Genre => GenreRule(o, partial).Rejected?
  }

  /** The object schema (or its `.partial()`) applied to an object's properties. */
  function ParseObject(o: map<string, Json>, partial: bool, isUrl: string -> bool): (r: Validated)
    ensures forall f :: f in ALL_FIELDS && Rejects(o, f, partial, isUrl) ==> r.Err? && Invalid(f) in r.issues
    ensures r.Err? ==> r.issues != {} && forall i :: i in r.issues ==> i.Invalid? && Rejects(o, i.field, partial, isUrl)
  {
    var issues := set f | f in ALL_FIELDS && Rejects(o, f, partial, isUrl) :: Invalid(f);
    assert forall f :: f in ALL_FIELDS && Rejects(o, f, partial, isUrl) ==> Invalid(f) in issues;
    if issues == {} then
      Ok(Draft(
        Present(TitleRule(o, partial)), Present(YearRule(o, partial)),
        Present(DirectorRule(o, partial)), Present(DurationRule(o, partial)),
        Present(RateRule(o, partial)), Present(PosterRule(o, partial, isUrl)),
        Present(GenreRule(o, partial))))
    else
      Err(issues)
  }

  /** `safeParse`: never fails outright; a body that is not an object is one issue. */
  function SafeParse(body: Json, partial: bool, isUrl: string -> bool): (r: Validated)
    ensures !body.Obj? ==> r == Err({NotAnObject})
    ensures body.Obj? && r.Err? ==> NotAnObject !in r.issues
  {
    if body.Obj? then ParseObject(body.fields, partial, isUrl) else Err({NotAnObject})
  }

  /**
   * The rules in plain terms, one field at a time: what must hold of the
   * property stored under the field's key. In partial mode every field may
   * be missing; in full mode only `rate` may.
   */
  ghost predicate Satisfies(o: map<string, Json>, f: Field, partial: bool, isUrl: string -> bool) {
    var k := Key(f);
    if k !in o then partial || f == Rate
    else
      match f
      case Title => o[k].Str?
      case Year => o[k].Num? && IsInteger(o[k].n) && 1900.0 <= o[k].n <= 2024.0
      case Director => o[k].Str?
      case Duration => o[k].Num? && IsInteger(o[k].n) && o[k].n > 0.0
      case Rate => o[k].Num? && 0.0 <= o[k].n <= 10.0
      case Poster => o[k].Str? && isUrl(o[k].s)
      case Genre =>
        o[k].Arr? && forall i :: 0 <= i < |o[k].items| ==> o[k].items[i].Str? && o[k].items[i].s in GENRES
  }

  /** A field's rule fails exactly when the plain statement of it does not hold. */
  lemma RejectsIffUnsatisfied(o: map<string, Json>, f: Field, partial: bool, isUrl: string -> bool)
    ensures Rejects(o, f, partial, isUrl) <==> !Satisfies(o, f, partial, isUrl)
  {
  }

  /** The issues a parse reports are exactly the fields whose plain rule fails. */
  lemma ParseObjectIssues(o: map<string, Json>, partial: bool, isUrl: string -> bool)
    ensures ParseObject(o, partial, isUrl).Ok? <==> forall f :: Satisfies(o, f, partial, isUrl)
    ensures ParseObject(o, partial, isUrl).Err? ==>
      && NotAnObject !in ParseObject(o, partial, isUrl).issues
      && forall f :: Invalid(f) in ParseObject(o, partial, isUrl).issues <==> !Satisfies(o, f, partial, isUrl)
  {
    var issues := set f | f in ALL_FIELDS && Rejects(o, f, partial, isUrl) :: Invalid(f);
    forall f
      ensures Invalid(f) in issues <==> !Satisfies(o, f, partial, isUrl)
    {
      RejectsIffUnsatisfied(o, f, partial, isUrl);
      assert f in ALL_FIELDS;
    }
    if forall f :: Satisfies(o, f, partial, isUrl) {
      assert issues == {};
    } else {
      var f :| !Satisfies(o, f, partial, isUrl);
      assert Invalid(f) in issues;
    }
  }

  /** What a successful parse yields, field by field. */
  lemma ParseObjectData(o: map<string, Json>, partial: bool, isUrl: string -> bool)
    ensures ParseObject(o, partial, isUrl).Ok? ==>
      var d := ParseObject(o, partial, isUrl).data;
      && (d.title.Some? <==> "title" in o)
      && ("title" in o ==> o["title"].Str? && d.title.value == o["title"].s)
      && (d.year.Some? <==> "year" in o)
      && ("year" in o ==> o["year"].Num? && d.year.value == o["year"].n.Floor && d.year.value as real == o["year"].n)
      && (d.director.Some? <==> "director" in o)
      && ("director" in o ==> o["director"].Str? && d.director.value == o["director"].s)
      && (d.duration.Some? <==> "duration" in o)
      && ("duration" in o ==> o["duration"].Num? && d.duration.value == o["duration"].n.Floor
                              && d.duration.value as real == o["duration"].n)
      && (d.rate.Some? <==> "rate" in o || !partial)
      && ("rate" in o ==> o["rate"].Num? && d.rate.value == o["rate"].n)
      && ("rate" !in o && !partial ==> d.rate.value == 0.0)
      && (d.poster.Some? <==> "poster" in o)
      && ("poster" in o ==> o["poster"].Str? && d.poster.value == o["poster"].s)
      && (d.genre.Some? <==> "genre" in o)
      && ("genre" in o ==> o["genre"].Arr? && GenreNames(o["genre"].items).Some?
                           && d.genre.value == GenreNames(o["genre"].items).value)
      && (!partial ==> forall f :: f != Rate ==> Key(f) in o)
  {
    var issues := set f | f in ALL_FIELDS && Rejects(o, f, partial, isUrl) :: Invalid(f);
    if issues != {} {
      return;
    }
    assert !Rejects(o, Title, partial, isUrl) by { assert Invalid(Title) !in issues; }
    assert !Rejects(o, Year, partial, isUrl) by { assert Invalid(Year) !in issues; }
    assert !Rejects(o, Director, partial, isUrl) by { assert Invalid(Director) !in issues; }
    assert !Rejects(o, Duration, partial, isUrl) by { assert Invalid(Duration) !in issues; }
    assert !Rejects(o, Rate, partial, isUrl) by { assert Invalid(Rate) !in issues; }
    assert !Rejects(o, Poster, partial, isUrl) by { assert Invalid(Poster) !in issues; }
    assert !Rejects(o, Genre, partial, isUrl) by { assert Invalid(Genre) !in issues; }
  }

  /** `validateMovie` (schemas/movies.js:22-24). */
  function ValidateMovie(body: Json, isUrl: string -> bool): (r: Validated)
    ensures r.Ok? <==> body.Obj? && forall f :: Satisfies(body.fields, f, false, isUrl)
    ensures r.Err? ==> (NotAnObject in r.issues <==> !body.Obj?)
    ensures r.Err? && body.Obj? ==>
      forall f :: Invalid(f) in r.issues <==> !Satisfies(body.fields, f, false, isUrl)
    ensures r.Ok? ==>
      var o := body.fields;
      && "title" in o && o["title"].Str? && r.data.title == Some(o["title"].s)
      && "year" in o && o["year"].Num?
      && r.data.year == Some(o["year"].n.Floor) && r.data.year.value as real == o["year"].n
      && "director" in o && o["director"].Str? && r.data.director == Some(o["director"].s)
      && "duration" in o && o["duration"].Num?
      && r.data.duration == Some(o["duration"].n.Floor) && r.data.duration.value as real == o["duration"].n
      && ("rate" in o ==> o["rate"].Num? && r.data.rate == Some(o["rate"].n))
      && ("rate" !in o ==> r.data.rate == Some(0.0))
      && "poster" in o && o["poster"].Str? && r.data.poster == Some(o["poster"].s)
      && "genre" in o && o["genre"].Arr? && r.data.genre.Some?
      && |r.data.genre.value| == |o["genre"].items|
      && forall i :: 0 <= i < |o["genre"].items| ==>
           o["genre"].items[i].Str? && r.data.genre.value[i] == o["genre"].items[i].s
  {
    if body.Obj? then
      ParseObjectIssues(body.fields, false, isUrl);
      ParseObjectData(body.fields, false, isUrl);
      ParseObject(body.fields, false, isUrl)
    else
      SafeParse(body, false, isUrl)
  }

  /** `validateParcialMovie` (schemas/movies.js:26-28). */
  function ValidatePartialMovie(body: Json, isUrl: string -> bool): (r: Validated)
    ensures r.Ok? <==> body.Obj? && forall f :: Satisfies(body.fields, f, true, isUrl)
    ensures r.Err? ==> (NotAnObject in r.issues <==> !body.Obj?)
    ensures r.Err? && body.Obj? ==>
      forall f :: Invalid(f) in r.issues <==> !Satisfies(body.fields, f, true, isUrl)
    ensures r.Ok? ==>
      var o := body.fields;
      && (r.data.title.Some? <==> "title" in o)
      && ("title" in o ==> o["title"].Str? && r.data.title.value == o["title"].s)
      && (r.data.year.Some? <==> "year" in o)
      && ("year" in o ==> o["year"].Num? && r.data.year.value as real == o["year"].n)
      && (r.data.director.Some? <==> "director" in o)
      && ("director" in o ==> o["director"].Str? && r.data.director.value == o["director"].s)
      && (r.data.duration.Some? <==> "duration" in o)
      && ("duration" in o ==> o["duration"].Num? && r.data.duration.value as real == o["duration"].n)
      && (r.data.rate.Some? <==> "rate" in o)
      && ("rate" in o ==> o["rate"].Num? && r.data.rate.value == o["rate"].n)
      && (r.data.poster.Some? <==> "poster" in o)
      && ("poster" in o ==> o["poster"].Str? && r.data.poster.value == o["poster"].s)
      && (r.data.genre.Some? <==> "genre" in o)
      && ("genre" in o ==> o["genre"].Arr? && GenreNames(o["genre"].items).Some?
                           && r.data.genre.value == GenreNames(o["genre"].items).value)
  {
    if body.Obj? then
      ParseObjectIssues(body.fields, true, isUrl);
      ParseObjectData(body.fields, true, isUrl);
      ParseObject(body.fields, true, isUrl)
    else
      SafeParse(body, true, isUrl)
  }

  /** Whatever passes full validation passes partial validation, with the same
      data except that a missing `rate` is not defaulted. */
  lemma FullImpliesPartial(body: Json, isUrl: string -> bool)
    requires ValidateMovie(body, isUrl).Ok?
    ensures ValidatePartialMovie(body, isUrl).Ok?
    ensures var full := ValidateMovie(body, isUrl).data;
      ValidatePartialMovie(body, isUrl).data ==
        full.(rate := if "rate" in body.fields then full.rate else None)
  {
  }

  /** Properties outside the schema (an `id`, say) change nothing in the result:
      they never reach the validated data. */
  lemma ExtraKeyIgnored(o: map<string, Json>, k: string, v: Json, partial: bool, isUrl: string -> bool)
    requires forall f :: Key(f) != k
    ensures SafeParse(Obj(o[k := v]), partial, isUrl) == SafeParse(Obj(o), partial, isUrl)
  {
    var o' := o[k := v];
    forall f
      ensures Lookup(o', f) == Lookup(o, f)
    {
      assert Key(f) != k;
    }
    assert forall f :: Rejects(o', f, partial, isUrl) == Rejects(o, f, partial, isUrl);
    var issues := set f | f in ALL_FIELDS && Rejects(o, f, partial, isUrl) :: Invalid(f);
    var issues' := set f | f in ALL_FIELDS && Rejects(o', f, partial, isUrl) :: Invalid(f);
    assert issues == issues';
  }

  /** The year range is inclusive at both ends and admits only integers. */
  lemma YearBounds()
    ensures CheckYear(Some(Num(1900.0))) == Accepted(1900)
    ensures CheckYear(Some(Num(2024.0))) == Accepted(2024)
    ensures CheckYear(Some(Num(1899.0))) == Rejected
    ensures CheckYear(Some(Num(2025.0))) == Rejected
    ensures CheckYear(Some(Num(2000.5))) == Rejected
  {
  }

  /** The rate range is inclusive at both ends; fractions are allowed. */
  lemma RateBounds()
    ensures CheckRate(Some(Num(0.0))) == Accepted(0.0)
    ensures CheckRate(Some(Num(10.0))) == Accepted(10.0)
    ensures CheckRate(Some(Num(8.5))) == Accepted(8.5)
    ensures CheckRate(Some(Num(10.5))) == Rejected
    ensures CheckRate(Some(Num(-0.5))) == Rejected
  {
  }

  /** One unknown genre rejects the whole list; an empty list is accepted. */
  lemma GenreListRule(items: seq<Json>, i: int)
    requires 0 <= i < |items|
    requires !(items[i].Str? && items[i].s in GENRES)
    ensures CheckGenre(Some(Arr(items))) == Rejected
    ensures CheckGenre(Some(Arr([]))) == Accepted([])
  {
  }

  /** Full validation of an object names a field when that field is missing
      (other than `rate`) or breaks its rule, whatever the other fields hold. */
  lemma FullFailureNamesField(o: map<string, Json>, f: Field, isUrl: string -> bool)
    requires !Satisfies(o, f, false, isUrl)
    ensures ValidateMovie(Obj(o), isUrl).Err?
    ensures Invalid(f) in ValidateMovie(Obj(o), isUrl).issues
  {
  }

  /** A missing title, a year out of range and an unknown genre are each reported. */
  lemma FullFailureExamples(o: map<string, Json>, isUrl: string -> bool)
    ensures "title" !in o ==> Invalid(Title) in ValidateMovie(Obj(o), isUrl).issues
    ensures "year" in o && (o["year"] == Num(1899.0) || o["year"] == Num(2025.0)) ==>
      Invalid(Year) in ValidateMovie(Obj(o), isUrl).issues
    ensures "genre" in o && o["genre"] == Arr([Str("Romance")]) ==>
      Invalid(Genre) in ValidateMovie(Obj(o), isUrl).issues
  {
  }
}
