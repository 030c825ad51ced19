# Moviedex request pipeline

A model of the request handling of the Moviedex server (`moviedexServer.js`),
a read-only HTTP API over a fixed movie dataset. Every request first passes the
bearer-token gate (`validateBearerToken`, registered with `app.use` before any
route), except `OPTIONS` requests, which `cors` answers first. `GET /movie` then runs three filter stages in a fixed order: genre,
country and `avg_vote`. The first stage whose query parameter is truthy ends the
request. If every stage defers, `getAllMovies` returns the whole dataset.
`GET /` answers `Hello, world!`. An exception raised by a handler reaches the
four-argument error middleware. It always answers 500, and the body depends on
`NODE_ENV`.

Files:

- `wrappers.dfy`: `Option`, standing for JavaScript's `undefined` and for NaN.
- `builtins.dfy`: the JavaScript built-ins the pipeline calls. These are
  `toLowerCase` (ASCII), `includes`, `split(' ')` and its inverse `join`, and
  `Array.prototype.filter`. Each has a characterising contract or lemma.
- `moviedex.dfy`: the data model, the gate, the three stages, the chain and
  fallback, the routes, the error handler, `Serve` (the whole middleware stack),
  and the properties of the whole pipeline.

The code is pure. Each handler is a guard on one query field followed by one
`filter` over a fresh copy of the dataset. So every handler is a function that
returns a `StageResult`: `Deferred` (it calls `next()`) or `Finished` with an
`Outcome`, which is a response or a thrown failure. The dataset is a
`seq<Movie>` parameter. No handler can change it, and the same request on the
same dataset always gets the same response, because `Serve` is a function.

Inputs from the environment are parameters:

- `Config` holds `API_TOKEN` and `NODE_ENV`, each `Option<string>`.
- `Request` holds the route, the `Authorization` header (`Option<string>`) and
  the parsed query, a map from keys to a string or, for a repeated key, an
  array of strings.
- `number` is JavaScript's `Number(...)` as an abstract function. `None` stands
  for NaN.

Some behaviours of the code a reader might not expect:

- The gate also covers `GET /`. It is registered before every route, so the
  greeting needs a valid token too (`RootIsGated`).
- With `API_TOKEN` unset, a non-empty header without a space passes the gate.
  Both sides of `split(' ')[1] !== API_TOKEN` are then `undefined`
  (`GateUnsetTokenAcceptsExactly`); a header with a space is then always rejected.
- A stage defers when its parameter is falsy, so an empty value such as
  `?genre=` defers just like an absent key.
- `avg_vote` is rejected only when `Number(...)` gives NaN. It is not rejected
  for every value that fails to be finite.
- A repeated `genre` or `country` key gives an array. Calling `toLowerCase` on
  it throws, and the request ends in a 500 response (`RepeatedGenreIsServerError`).

## Model

| member | source | states |
|---|---|---|
| Builtins.Lower | moviedexServer.js:33 | lowering keeps the length, leaves no upper-case ASCII letter, keeps every other character and shifts each upper-case letter to its lower-case form |
| Builtins.Includes | moviedexServer.js:35 | `includes` is true exactly when the needle occurs at some position of the string |
| Builtins.Split | moviedexServer.js:23 | `split(' ')` gives at least one segment, and no segment contains the separator |
| Builtins.JoinSplit | moviedexServer.js:23 | joining the segments of `split` with the separator gives back the header |
| Builtins.SplitJoin | moviedexServer.js:23 | splitting a join of separator-free segments gives back exactly those segments |
| Builtins.SplitNoSeparator | moviedexServer.js:23 | a string without a space splits into itself alone, so it has no second segment |
| Builtins.SplitHead | moviedexServer.js:23 | a space-free head followed by a space splits off as the first segment |
| Builtins.FilterSelects | moviedexServer.js:34-35 | `filter` on a copy of the dataset returns a subsequence that keeps every occurrence of each matching record and no other record |
| Builtins.SelectionMembership | moviedexServer.js:35 | a record is in the filtered result exactly when it is in the dataset and matches |
| Moviedex.GateOutcomes | moviedexServer.js:19-27 | the gate either answers 401 with the fixed token message or passes on; it passes exactly when the header is present, non-empty, and its second segment equals API_TOKEN, both possibly undefined |
| Moviedex.GateAcceptsExactly | moviedexServer.js:23 | with API_TOKEN set, a header passes exactly when it is space-free segments joined by spaces, at least two of them, the second equal to the token |
| Moviedex.GateUnsetTokenAcceptsExactly | moviedexServer.js:20-23 | with API_TOKEN unset, a header passes exactly when it is non-empty and has no space |
| Moviedex.GenreSearchSpec | moviedexServer.js:29-39 | the genre stage defers exactly when `genre` is falsy; for a string it returns 200 with exactly the records whose lowered genre contains the lowered parameter, in dataset order; an array value throws |
| Moviedex.CountrySearchSpec | moviedexServer.js:41-51 | the same contract on the `country` field |
| Moviedex.AvgVoteSearchSpec | moviedexServer.js:53-66 | the vote stage defers exactly when `avg_vote` is falsy; NaN gives 400 `avg_vote must be a number`; otherwise 200 with exactly the records voted at or above the threshold, in order, those equal to it included |
| Moviedex.Chain | moviedexServer.js:73 | the first stage that does not defer decides the outcome; when all defer, the outcome is the whole dataset |
| Moviedex.ErrorHandlerSpec | moviedexServer.js:80-88 | the error handler always answers 500; in production the body is `{error: {message: 'server error'}}`, otherwise it carries the raw error |
| Moviedex.RejectedRequestIsUnauthorized | moviedexServer.js:15 | a request the gate rejects gets the fixed 401 whatever its route and query, and no route handler runs |
| Moviedex.AcceptedRequestIsRouted | moviedexServer.js:15 | a request the gate accepts gets exactly what its route produces, passed through the error handler |
| Moviedex.RootIsGated | moviedexServer.js:75-77 | `GET /` answers `Hello, world!` only when the gate accepts, and 401 otherwise |
| Moviedex.MovieSearchPriority | moviedexServer.js:73 | an accepted `/movie` request is decided by genre if truthy, else country, else avg_vote, else the whole dataset |
| Moviedex.GenreWins | moviedexServer.js:29-39 | a non-empty `genre` string alone decides the response, whatever country or avg_vote say |
| Moviedex.FallbackReturnsAll | moviedexServer.js:68-70 | with no truthy genre, country or avg_vote, the response is the whole dataset in its order |
| Moviedex.RepeatedGenreIsServerError | moviedexServer.js:33 | a repeated `genre` key makes lowering throw, and the response is the error handler's 500 |
| Moviedex.ChainIgnoresOtherKeys | moviedexServer.js:29-66 | two queries that agree on genre, country and avg_vote get the same outcome from the chain, whatever other keys they carry |
| Moviedex.ComedyExample | moviedexServer.js:29-39 | `?genre=comedy` over a Comedy and a Drama record returns only the Comedy record |
| Moviedex.AvgVoteExample | moviedexServer.js:53-66 | `?avg_vote=7.5` over votes 7.5, 6.0 and 8.0 returns the records at 7.5 and 8.0 |
| Moviedex.NotANumberExample | moviedexServer.js:59-61 | an `avg_vote` that converts to NaN gets the 400 text |
| Moviedex.MissingHeaderExample | moviedexServer.js:23-24 | a request without an Authorization header gets the 401, even with API_TOKEN unset |
| Moviedex.BearerHeaderExample | moviedexServer.js:23 | the header `Bearer <token>` passes when the token has no space |

## Left out

- Express, morgan, helmet and cors set-up, and `dotenv` loading (lines 1-14) are library plumbing. Request logging is not modelled.
- Loading `movie-data.json` (line 6) is replaced by the `data` parameter. That file is not part of this model.
- Port binding and `app.listen` (lines 91-93) are I/O.
- `Number(...)` is an abstract parameter. Its grammar is not modelled: whitespace gives 0, `Infinity` and hex are accepted, and so on. The model keeps only the fact that NaN alone is rejected.
- Votes and thresholds are `real`. IEEE-754 rounding and NaN or missing votes in the dataset are not modelled.
- `toLowerCase` lowers ASCII letters only. Unicode case mapping is not modelled.
- JSON serialisation and the writing of the `res` object are not modelled: responses are a datatype. In development the raw error is carried as a value. Its JSON form (an `Error` serialises to `{}`) is not modelled.
- Query values that Express's parser turns into nested objects (`?genre[a]=b`) are not modelled. Only strings and arrays of strings are.
- HTTP methods are not modelled: every request is treated as a GET. An `OPTIONS` preflight request gets `cors`'s 204 without a token, since `cors` (line 14) runs before the gate. A path with no route gets Express's default 404 after the gate.
- Express's `next`/arity-based dispatch and the unused `response` import (lines 7, 79) are replaced by the explicit `StageResult`/`Outcome` values.
