/** The request pipeline of the Moviedex server: the bearer-token gate that
    every request passes first, the `/movie` route's three filter stages
    (genre, country, average vote) run in a fixed order with a fallback that
    returns the whole dataset, the `/` greeting, and the error handler that
    turns a failure into a 500 response whose body depends on NODE_ENV.

    Everything here is a function of the configuration, the request and the
    dataset; the dataset is a value, so no stage can change it, and the same
    request on the same dataset always gives the same response. */
module Moviedex {
  import opened Wrappers
  import opened Builtins

  // ---------------------------------------------------------------------
  // Data model
  // ---------------------------------------------------------------------

  /** One record of the movie dataset. `fields` holds the attributes the
      pipeline never looks at (title, year, ...), returned unchanged. */
  datatype Movie = Movie(genre: string, country: string, avgVote: real, fields: map<string, string>)

  /** A query parameter as Express parses it: one occurrence gives a string,
      a repeated key (`?genre=a&genre=b`) gives an array of strings. */
  datatype QueryValue = Str(text: string) | Multi(values: seq<string>)

  type Query = map<string, QueryValue>

  datatype Route = Root | MovieSearch | Unmatched(path: string)

  /** `authorization` is the result of `req.get('Authorization')`. */
  datatype Request = Request(route: Route, authorization: Option<string>, query: Query)

  /** The process environment the server reads: API_TOKEN and NODE_ENV. */
  datatype Config = Config(apiToken: Option<string>, nodeEnv: Option<string>)

  /** A JavaScript exception raised while handling a request. */
  datatype Failure = TypeError(message: string)

  /** The body of a 500 response: `{error: {message}}` in production,
      `{error}` carrying the raw failure otherwise. */
  datatype ErrorBody = Generic(message: string) | Raw(error: Failure)

  datatype Response =
    | Ok(movies: seq<Movie>)          // 200, JSON array of records
    | Greeting(text: string)          // 200, text body
    | BadRequest(text: string)        // 400, text body
    | Unauthorized(error: string)     // 401, JSON `{error}`
    | NotFound                        // 404, Express's default for an unrouted request
    | ServerError(body: ErrorBody)    // 500, JSON

  function Status(r: Response): int {
    match r
    case Ok(_) => 200
    case Greeting(_) => 200
    case BadRequest(_) => 400
    case Unauthorized(_) => 401
    case NotFound => 404
    case ServerError(_) => 500
  }

  /** How a request ends: with a response, or with an exception that the
      error handler will turn into one. */
  datatype Outcome = Completed(response: Response) | Threw(failure: Failure)

  /** What one middleware function does: call `next()` (Deferred) or end the
      request. */
  datatype StageResult = Deferred | Finished(outcome: Outcome)

  const AuthErrorMessage := "Please provide a valid Authorization Token"
  const AvgVoteErrorMessage := "avg_vote must be a number"
  const ServerErrorMessage := "server error"
  const HelloMessage := "Hello, world!"

  // ---------------------------------------------------------------------
  // Bearer-token gate
  // ---------------------------------------------------------------------

  /** `header.split(' ')[1]`, or None when there is no second segment. */
  function SecondSegment(header: string): Option<string> {
    var parts := Split(header, ' ');
    if |parts| >= 2 then Some(parts[1]) else None
  }

  /** `validateBearerToken`: an absent or empty header, or one whose second
      space-separated segment differs from API_TOKEN (both possibly
      undefined), ends the request with 401. */
  function ValidateBearerToken(apiToken: Option<string>, authorization: Option<string>): StageResult {
    match authorization
    case None => Finished(Completed(Unauthorized(AuthErrorMessage)))
    case Some(header) =>
      if header == "" || SecondSegment(header) != apiToken then
        Finished(Completed(Unauthorized(AuthErrorMessage)))
      else
        Deferred
  }

  /** The gate has exactly two outcomes: the fixed 401, or passing control on. */
  lemma GateOutcomes(apiToken: Option<string>, authorization: Option<string>)
    ensures ValidateBearerToken(apiToken, authorization) == Deferred
         || ValidateBearerToken(apiToken, authorization) == Finished(Completed(Unauthorized(AuthErrorMessage)))
    ensures ValidateBearerToken(apiToken, authorization) == Deferred
        <==> authorization.Some? && authorization.value != "" && SecondSegment(authorization.value) == apiToken
  {
  }

  /** With API_TOKEN set to `token`, a header passes exactly when it is made
      of space-free segments joined by single spaces, at least two of them,
      the second being `token`. */
  lemma GateAcceptsExactly(token: string, header: string)
    ensures ValidateBearerToken(Some(token), Some(header)) == Deferred
        <==> exists parts :: |parts| >= 2 && NoSeparator(parts, ' ') && parts[1] == token && Join(parts, ' ') == header
  {
    if ValidateBearerToken(Some(token), Some(header)) == Deferred {
      var parts := Split(header, ' ');
      JoinSplit(header, ' ');
      assert |parts| >= 2 && NoSeparator(parts, ' ') && parts[1] == token && Join(parts, ' ') == header;
    }
    if parts :| |parts| >= 2 && NoSeparator(parts, ' ') && parts[1] == token && Join(parts, ' ') == header {
      SplitJoin(parts, ' ');
      assert ' ' in Join(parts, ' ');
    }
  }

  /** With API_TOKEN unset, a header passes exactly when it is non-empty and
      has no space: then both sides of the comparison are undefined, while a
      header with a space has a second segment, which is never undefined. */
  lemma GateUnsetTokenAcceptsExactly(header: string)
    ensures ValidateBearerToken(None, Some(header)) == Deferred <==> header != "" && ' ' !in header
  {
    if ' ' in header {
      JoinSplit(header, ' ');
      assert |Split(header, ' ')| >= 2;
    } else {
      SplitNoSeparator(header, ' ');
    }
  }

  // ---------------------------------------------------------------------
  // Filter stages
  // ---------------------------------------------------------------------

  function Param(q: Query, key: string): Option<QueryValue> {
    if key in q then Some(q[key]) else None
  }

  /** JavaScript truthiness of a query parameter: undefined and '' are false,
      any other string and any array are true. */
  predicate Truthy(v: Option<QueryValue>) {
    match v
    case None => false
    case Some(Str(s)) => s != ""
    case Some(Multi(_)) => true
  }

  predicate GenreMatch(m: Movie, genre: string) {
    Includes(Lower(m.genre), Lower(genre))
  }

  predicate CountryMatch(m: Movie, country: string) {
    Includes(Lower(m.country), Lower(country))
  }

  predicate VoteAtLeast(m: Movie, threshold: real) {
    m.avgVote >= threshold
  }

  /** `handleGenreSearch`. An array-valued parameter has no `toLowerCase`, so
      the call throws. */
  function HandleGenreSearch(q: Query, data: seq<Movie>): StageResult {
    match Param(q, "genre")
    case None => Deferred
    case Some(Str(g)) =>
      if g == "" then Deferred
      else Finished(Completed(Ok(Filter(data, m => GenreMatch(m, g)))))
    case Some(Multi(_)) => Finished(Threw(TypeError("genre.toLowerCase is not a function")))
  }

  /** `handleCountrySearch`. */
  function HandleCountrySearch(q: Query, data: seq<Movie>): StageResult {
    match Param(q, "country")
    case None => Deferred
    case Some(Str(c)) =>
      if c == "" then Deferred
      else Finished(Completed(Ok(Filter(data, m => CountryMatch(m, c)))))
    case Some(Multi(_)) => Finished(Threw(TypeError("country.toLowerCase is not a function")))
  }

  /** `handleAvgVoteSearch`. `number` is JavaScript's `Number(...)`
      conversion, with None standing for NaN. */
  function HandleAvgVoteSearch(q: Query, data: seq<Movie>, number: QueryValue -> Option<real>): StageResult {
    var v := Param(q, "avg_vote");
    if !Truthy(v) then Deferred
    else match number(v.value)
      case None => Finished(Completed(BadRequest(AvgVoteErrorMessage)))
      case Some(t) => Finished(Completed(Ok(Filter(data, m => VoteAtLeast(m, t)))))
  }

  /** The genre stage defers exactly when `genre` is falsy. A string value
      selects exactly the records whose lowered genre contains the lowered
      parameter, in dataset order; an array value throws. */
  lemma GenreSearchSpec(q: Query, data: seq<Movie>)
    ensures HandleGenreSearch(q, data).Deferred? <==> !Truthy(Param(q, "genre"))
    ensures "genre" in q && q["genre"].Str? && q["genre"].text != "" ==>
      var g := q["genre"].text;
      && HandleGenreSearch(q, data).Finished?
      && HandleGenreSearch(q, data).outcome.Completed?
      && HandleGenreSearch(q, data).outcome.response.Ok?
      && ExactSelection(HandleGenreSearch(q, data).outcome.response.movies, data, m => GenreMatch(m, g))
    ensures "genre" in q && q["genre"].Multi? ==> HandleGenreSearch(q, data).Finished? && HandleGenreSearch(q, data).outcome.Threw?
  {
    if "genre" in q && q["genre"].Str? && q["genre"].text != "" {
      var g := q["genre"].text;
      FilterSelects(data, m => GenreMatch(m, g));
    }
  }

  /** The country stage: the same contract on the `country` field. */
  lemma CountrySearchSpec(q: Query, data: seq<Movie>)
    ensures HandleCountrySearch(q, data).Deferred? <==> !Truthy(Param(q, "country"))
    ensures "country" in q && q["country"].Str? && q["country"].text != "" ==>
      var c := q["country"].text;
      && HandleCountrySearch(q, data).Finished?
      && HandleCountrySearch(q, data).outcome.Completed?
      && HandleCountrySearch(q, data).outcome.response.Ok?
      && ExactSelection(HandleCountrySearch(q, data).outcome.response.movies, data, m => CountryMatch(m, c))
    ensures "country" in q && q["country"].Multi? ==> HandleCountrySearch(q, data).Finished? && HandleCountrySearch(q, data).outcome.Threw?
  {
    if "country" in q && q["country"].Str? && q["country"].text != "" {
      var c := q["country"].text;
      FilterSelects(data, m => CountryMatch(m, c));
    }
  }

  /** The average-vote stage defers exactly when `avg_vote` is falsy; a NaN
      conversion gives the 400 text; otherwise exactly the records with
      `avgVote >= threshold` are returned in dataset order, a record equal to
      the threshold included. */
  lemma AvgVoteSearchSpec(q: Query, data: seq<Movie>, number: QueryValue -> Option<real>)
    ensures HandleAvgVoteSearch(q, data, number).Deferred? <==> !Truthy(Param(q, "avg_vote"))
    ensures Truthy(Param(q, "avg_vote")) && number(q["avg_vote"]).None? ==>
      HandleAvgVoteSearch(q, data, number) == Finished(Completed(BadRequest(AvgVoteErrorMessage)))
    ensures Truthy(Param(q, "avg_vote")) && number(q["avg_vote"]).Some? ==>
      var t := number(q["avg_vote"]).value;
      var r := HandleAvgVoteSearch(q, data, number);
      && r.Finished? && r.outcome.Completed? && r.outcome.response.Ok?
      && ExactSelection(r.outcome.response.movies, data, m => VoteAtLeast(m, t))
      && forall m :: m in data && m.avgVote == t ==> m in r.outcome.response.movies
  {
    if Truthy(Param(q, "avg_vote")) && number(q["avg_vote"]).Some? {
      var t := number(q["avg_vote"]).value;
      FilterSelects(data, m => VoteAtLeast(m, t));
      SelectionMembership(Filter(data, m => VoteAtLeast(m, t)), data, m => VoteAtLeast(m, t));
    }
  }

  // ---------------------------------------------------------------------
  // The /movie chain and its fallback
  // ---------------------------------------------------------------------

  datatype Stage = GenreSearch | CountrySearch | AvgVoteSearch

  /** The order in which the `/movie` route registers its stages. */
  const MovieStages: seq<Stage> := [GenreSearch, CountrySearch, AvgVoteSearch]

  function RunStage(s: Stage, q: Query, data: seq<Movie>, number: QueryValue -> Option<real>): StageResult {
    match s
    case GenreSearch => HandleGenreSearch(q, data)
    case CountrySearch => HandleCountrySearch(q, data)
    case AvgVoteSearch => HandleAvgVoteSearch(q, data, number)
  }

  /** `getAllMovies`: the whole dataset. */
  function GetAllMovies(data: seq<Movie>): Response {
    Ok(data)
  }

  /** Runs `stages` in order; the first stage that does not defer decides the
      outcome, and when all defer the fallback returns the whole dataset. */
  function Chain(stages: seq<Stage>, q: Query, data: seq<Movie>, number: QueryValue -> Option<real>): (r: Outcome)
    ensures (forall i :: 0 <= i < |stages| ==> RunStage(stages[i], q, data, number).Deferred?) ==> r == Completed(GetAllMovies(data))
    ensures forall k :: 0 <= k < |stages| && RunStage(stages[k], q, data, number).Finished?
                        && (forall i :: 0 <= i < k ==> RunStage(stages[i], q, data, number).Deferred?)
                        ==> r == RunStage(stages[k], q, data, number).outcome
    decreases |stages|
  {
    if stages == [] then
      Completed(GetAllMovies(data))
    else
      match RunStage(stages[0], q, data, number)
      case Finished(o) => o
      case Deferred =>
        var r := Chain(stages[1..], q, data, number);
        assert forall i :: 0 <= i < |stages| - 1 ==> stages[1..][i] == stages[i + 1];
        r
  }

  /** The routes: `/movie` runs the chain, `/` greets, anything else is left
      to Express's 404. */
  function HandleRoute(req: Request, data: seq<Movie>, number: QueryValue -> Option<real>): Outcome {
    match req.route
    case MovieSearch => Chain(MovieStages, req.query, data, number)
    case Root => Completed(Greeting(HelloMessage))
    case Unmatched(_) => Completed(NotFound)
  }

  // ---------------------------------------------------------------------
  // Error handler and the whole server
  // ---------------------------------------------------------------------

  predicate IsProduction(nodeEnv: Option<string>) {
    nodeEnv == Some("production")
  }

  /** The four-argument error middleware. */
  function ErrorHandler(nodeEnv: Option<string>, error: Failure): Response {
    if IsProduction(nodeEnv) then ServerError(Generic(ServerErrorMessage)) else ServerError(Raw(error))
  }

  lemma ErrorHandlerSpec(nodeEnv: Option<string>, error: Failure)
    ensures Status(ErrorHandler(nodeEnv, error)) == 500
    ensures IsProduction(nodeEnv) ==> ErrorHandler(nodeEnv, error).body == Generic(ServerErrorMessage)
    ensures !IsProduction(nodeEnv) ==> ErrorHandler(nodeEnv, error).body == Raw(error)
  {
  }

  /** Where Express sends an outcome: a completed response as it is, a thrown
      failure to the error handler. */
  function Respond(nodeEnv: Option<string>, o: Outcome): Response {
    match o
    case Completed(r) => r
    case Threw(e) => ErrorHandler(nodeEnv, e)
  }

  /** The middleware stack as registered: the gate first, then the routes,
      with the error handler behind everything. */
  function Serve(cfg: Config, req: Request, data: seq<Movie>, number: QueryValue -> Option<real>): Response {
    var o := match ValidateBearerToken(cfg.apiToken, req.authorization)
      case Finished(gated) => gated
      case Deferred => HandleRoute(req, data, number);
    Respond(cfg.nodeEnv, o)
  }

  // ---------------------------------------------------------------------
  // Properties of the whole pipeline
  // ---------------------------------------------------------------------

  /** A request the gate rejects gets the fixed 401, whatever its route and
      query, and no route handler runs. */
  lemma RejectedRequestIsUnauthorized(cfg: Config, req: Request, data: seq<Movie>, number: QueryValue -> Option<real>)
    requires ValidateBearerToken(cfg.apiToken, req.authorization).Finished?
    ensures Serve(cfg, req, data, number) == Unauthorized(AuthErrorMessage)
    ensures Status(Serve(cfg, req, data, number)) == 401
  {
  }

  /** A request the gate accepts gets exactly what its route produces. */
  lemma AcceptedRequestIsRouted(cfg: Config, req: Request, data: seq<Movie>, number: QueryValue -> Option<real>)
    requires ValidateBearerToken(cfg.apiToken, req.authorization).Deferred?
    ensures Serve(cfg, req, data, number) == Respond(cfg.nodeEnv, HandleRoute(req, data, number))
  {
  }

  /** The root route is gated too: it greets only requests the gate accepts. */
  lemma RootIsGated(cfg: Config, authorization: Option<string>, q: Query, data: seq<Movie>, number: QueryValue -> Option<real>)
    ensures Serve(cfg, Request(Root, authorization, q), data, number)
         == if ValidateBearerToken(cfg.apiToken, authorization).Deferred? then Greeting(HelloMessage) else Unauthorized(AuthErrorMessage)
  {
  }

  /** A `/movie` request the gate accepts is decided by the first stage, in
      the order genre, country, avg_vote, whose parameter is truthy; when none
      is, the whole dataset is returned. */
  lemma MovieSearchPriority(cfg: Config, req: Request, data: seq<Movie>, number: QueryValue -> Option<real>)
    requires req.route == MovieSearch && ValidateBearerToken(cfg.apiToken, req.authorization).Deferred?
    ensures var q := req.query;
      Serve(cfg, req, data, number) ==
        if Truthy(Param(q, "genre")) then Respond(cfg.nodeEnv, HandleGenreSearch(q, data).outcome)
        else if Truthy(Param(q, "country")) then Respond(cfg.nodeEnv, HandleCountrySearch(q, data).outcome)
        else if Truthy(Param(q, "avg_vote")) then Respond(cfg.nodeEnv, HandleAvgVoteSearch(q, data, number).outcome)
        else Ok(data)
  {
    var q := req.query;
    GenreSearchSpec(q, data);
    CountrySearchSpec(q, data);
    AvgVoteSearchSpec(q, data, number);
    assert MovieStages[0] == GenreSearch && MovieStages[1] == CountrySearch && MovieStages[2] == AvgVoteSearch;
  }

  /** A non-empty `genre` string decides the response alone: the other
      parameters are ignored and the body is exactly the genre selection. */
  lemma GenreWins(cfg: Config, req: Request, data: seq<Movie>, number: QueryValue -> Option<real>)
    requires req.route == MovieSearch && ValidateBearerToken(cfg.apiToken, req.authorization).Deferred?
    requires "genre" in req.query && req.query["genre"].Str? && req.query["genre"].text != ""
    ensures Serve(cfg, req, data, number).Ok?
    ensures ExactSelection(Serve(cfg, req, data, number).movies, data, m => GenreMatch(m, req.query["genre"].text))
  {
    MovieSearchPriority(cfg, req, data, number);
    GenreSearchSpec(req.query, data);
  }

  /** Without truthy `genre`, `country` or `avg_vote` the response is the whole
      dataset in its order. */
  lemma FallbackReturnsAll(cfg: Config, req: Request, data: seq<Movie>, number: QueryValue -> Option<real>)
    requires req.route == MovieSearch && ValidateBearerToken(cfg.apiToken, req.authorization).Deferred?
    requires !Truthy(Param(req.query, "genre")) && !Truthy(Param(req.query, "country")) && !Truthy(Param(req.query, "avg_vote"))
    ensures Serve(cfg, req, data, number) == Ok(data)
  {
    MovieSearchPriority(cfg, req, data, number);
  }

  /** A repeated `genre` key makes the genre stage throw, and the error
      handler answers 500. */
  lemma RepeatedGenreIsServerError(cfg: Config, req: Request, data: seq<Movie>, number: QueryValue -> Option<real>)
    requires req.route == MovieSearch && ValidateBearerToken(cfg.apiToken, req.authorization).Deferred?
    requires "genre" in req.query && req.query["genre"].Multi?
    ensures Status(Serve(cfg, req, data, number)) == 500
    ensures Serve(cfg, req, data, number) == ErrorHandler(cfg.nodeEnv, TypeError("genre.toLowerCase is not a function"))
  {
    MovieSearchPriority(cfg, req, data, number);
  }

  /** Only the three recognised keys matter: two queries that agree on
      `genre`, `country` and `avg_vote` get the same outcome from the chain,
      whatever other parameters they carry. */
  lemma {:induction false} ChainIgnoresOtherKeys(stages: seq<Stage>, q1: Query, q2: Query, data: seq<Movie>, number: QueryValue -> Option<real>)
    requires Param(q1, "genre") == Param(q2, "genre")
    requires Param(q1, "country") == Param(q2, "country")
    requires Param(q1, "avg_vote") == Param(q2, "avg_vote")
    ensures Chain(stages, q1, data, number) == Chain(stages, q2, data, number)
    decreases |stages|
  {
    if stages != [] {
      assert RunStage(stages[0], q1, data, number) == RunStage(stages[0], q2, data, number);
      ChainIgnoresOtherKeys(stages[1..], q1, q2, data, number);
    }
  }

  // ---------------------------------------------------------------------
  // Concrete requests
  // ---------------------------------------------------------------------

  /** `GET /movie?genre=comedy` over a Comedy and a Drama record returns the
      Comedy record only, the lowered parameter matching "Comedy". */
  lemma ComedyExample(cfg: Config, authorization: Option<string>, number: QueryValue -> Option<real>)
    requires ValidateBearerToken(cfg.apiToken, authorization).Deferred?
    ensures var comedy := Movie("Comedy", "France", 6.5, map[]);
      var drama := Movie("Drama", "Italy", 7.0, map[]);
      Serve(cfg, Request(MovieSearch, authorization, map["genre" := Str("comedy")]), [comedy, drama], number) == Ok([comedy])
  {
    var comedy := Movie("Comedy", "France", 6.5, map[]);
    var drama := Movie("Drama", "Italy", 7.0, map[]);
    assert Lower("Comedy") == "comedy";
    assert Lower("comedy") == "comedy";
    assert OccursAt("comedy", "comedy", 0);
    assert GenreMatch(comedy, "comedy");
    assert !Includes(Lower("Drama"), "comedy");
    assert [comedy, drama][1..] == [drama] && [drama][1..] == [];
    var p := m => GenreMatch(m, "comedy");
    assert p(comedy) && !p(drama);
    assert Filter([drama], p) == Filter([], p) == [];
    assert Filter([comedy, drama], m => GenreMatch(m, "comedy")) == [comedy];
  }

  /** `GET /movie?avg_vote=7.5` over records voted 7.5, 6.0 and 8.0 returns
      the first and the last: the threshold itself is included. */
  lemma AvgVoteExample(cfg: Config, authorization: Option<string>, number: QueryValue -> Option<real>)
    requires ValidateBearerToken(cfg.apiToken, authorization).Deferred?
    requires number(Str("7.5")) == Some(7.5)
    ensures var a := Movie("Drama", "Spain", 7.5, map[]);
      var b := Movie("Drama", "Spain", 6.0, map[]);
      var c := Movie("Drama", "Spain", 8.0, map[]);
      Serve(cfg, Request(MovieSearch, authorization, map["avg_vote" := Str("7.5")]), [a, b, c], number) == Ok([a, c])
  {
    var a := Movie("Drama", "Spain", 7.5, map[]);
    var b := Movie("Drama", "Spain", 6.0, map[]);
    var c := Movie("Drama", "Spain", 8.0, map[]);
    var p := m => VoteAtLeast(m, 7.5);
    assert p(a) && !p(b) && p(c);
    assert [a, b, c][1..] == [b, c] && [b, c][1..] == [c] && [c][1..] == [];
    assert Filter([c], p) == [c] + Filter([], p) == [c];
    assert Filter([a, b, c], p) == [a] + Filter([b, c], p) == [a, c];
  }

  /** `GET /movie?avg_vote=notanumber` gets the 400 text. */
  lemma NotANumberExample(cfg: Config, authorization: Option<string>, data: seq<Movie>, number: QueryValue -> Option<real>)
    requires ValidateBearerToken(cfg.apiToken, authorization).Deferred?
    requires number(Str("notanumber")) == None
    ensures Serve(cfg, Request(MovieSearch, authorization, map["avg_vote" := Str("notanumber")]), data, number) == BadRequest(AvgVoteErrorMessage)
    ensures Status(Serve(cfg, Request(MovieSearch, authorization, map["avg_vote" := Str("notanumber")]), data, number)) == 400
  {
  }

  /** A `/movie` request without an Authorization header gets the 401 even
      when API_TOKEN is unset. */
  lemma MissingHeaderExample(cfg: Config, q: Query, data: seq<Movie>, number: QueryValue -> Option<real>)
    ensures Serve(cfg, Request(MovieSearch, None, q), data, number) == Unauthorized(AuthErrorMessage)
  {
  }

  /** A correct `Bearer <token>` header passes the gate. */
  lemma BearerHeaderExample(token: string)
    requires ' ' !in token
    ensures ValidateBearerToken(Some(token), Some("Bearer " + token)) == Deferred
  {
    assert "Bearer " + token == "Bearer" + [' '] + token;
    SplitHead("Bearer", ' ', token);
    SplitNoSeparator(token, ' ');
    assert Split("Bearer " + token, ' ') == ["Bearer", token];
  }
}
