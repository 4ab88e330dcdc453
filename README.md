# slack-nextbus: feed extraction and request routing

A model of the early, mostly stubbed `main.py` of a chat slash-command service for
NextBus arrival predictions. The network fetch and the XML parse are left out. What is
left is three small pieces of deterministic logic:

- **Feed-record extraction** (`Nextbus`). The four `nextbus_get_*` functions walk an
  already-parsed document and build lists of records in document order. The document is
  an `ElementTree.Element` value (tag, attribute dictionary, ordered children).
  `findall(tag)` is "the direct children with that tag, in order" and `find(tag)` is
  "the first of them".
  - Each extractor is a method with loops that append to an accumulator. Each is proved
    equal to a reference function:
    - `Collect` for a `for ...: xs.append(...)` loop that may raise;
    - `RouteInfoOf` for the route configuration;
    - `Select` over `Candidates` for the predictions.
  - Lemmas then state what the code promises about that function: one record per
    element, order kept, the optional `regionTitle`, the per-direction stop lists, and
    soundness and completeness of the `dirTag` filter.
  - Reading a missing required attribute raises `KeyError` in the code. The model
    returns `Err(MissingAttribute(name))` for the first element, in document order, that
    lacks one, reading attributes in the code's order. A document without a `route`
    element makes `nextbus_get_route_info` fail (`NoElement("route")`).
  - The three nested loops of `nextbus_get_predictions` are three methods:
    `GetPredictions` over the `predictions` elements, `ScanSet` over their `direction`
    children and `ScanDirection` over each direction's `prediction` children. Each level
    continues from the predictions gathered so far.
- **Shared-secret gate** (`Handlers.ValidateToken`). The configured secret is a
  parameter (`Option<string>`). Python truthiness applies, so an unset secret and an
  empty one both accept every token.
- **Command and callback routing** (`Handlers.Root`, `Handlers.Add`).
  - The request form is a dictionary.
  - `abort(status)` and an unhandled exception become `Abort(status)`.
  - `request.form[key]` on a missing key becomes `Abort(400)`, as the web framework
    answers.
  - `jsonify` becomes `Json(Text(...))` or `Json(Null)`.
  - `str.split(' ')` is `Strings.Split`, proved inverse to `Strings.Join`.

The model follows `main.py` as written:
- prediction times stay the raw `epochTime` attribute text, not integers;
- the route's stops are an ordered list of (tag, title) pairs, not a map;
- only the `add` subcommand exists.

## Model

| member | source | states |
|---|---|---|
| `ElementTree.Tagged` | main.py:62 | `findall`: every element returned is a child with the tag, every child with the tag is returned, never more than the children |
| `ElementTree.TaggedAppend` | main.py:62 | selecting by tag keeps document order: it distributes over concatenation of children |
| `ElementTree.FirstTagged` | main.py:85 | `find`: none exactly when no child has the tag; otherwise the earliest child with the tag |
| `ElementTree.FindIsHeadOfFindAll` | main.py:85 | `find(tag)` is the first element of `findall(tag)`, or `None` when that is empty |
| `Nextbus.CollectOk` | main.py:61-64 | a raising append-loop succeeds exactly when every element converts; it then holds one record per element, in order |
| `Nextbus.CollectErr` | main.py:61-64 | a failed append-loop reports the error of the first element that fails, every earlier one having converted |
| `Nextbus.CollectPrefixErr` | main.py:61-64 | once a prefix of the loop has raised, the whole loop raises the same error (the early exit is sound) |
| `Nextbus.GetAgencies` | main.py:61-64 | the loop over `findall("agency")` computes exactly the in-order, first-error traversal `Collect` with the per-agency record |
| `Nextbus.AgencyRecords` | main.py:61-64 | success iff every agency has `tag` and `title`; then one tuple per agency element in order, with `regionTitle` copied when present and `None` exactly when absent |
| `Nextbus.GetRoutes` | main.py:73-76 | the loop over `findall("route")` computes exactly `Collect` with the (tag, title) record |
| `Nextbus.RouteRecords` | main.py:73-76 | success iff every route element has `tag` and `title`; then exactly one (tag, title) per element in order; otherwise the first missing attribute's error |
| `Nextbus.DirectionStops` | main.py:94-96 | the inner loop yields the `tag` of every child of the direction, whatever its element name, in order, or the first missing `tag` |
| `Nextbus.GetRouteInfo` | main.py:85-99 | the method computes `RouteInfoOf`: no `route` element is an error, then stops, then directions, first error winning |
| `Nextbus.RouteInfoFromDocument` | main.py:85-99 | without a `route` element the result is `NoElement("route")`; success exactly when a route exists, every `stop` child has `tag` and `title`, and every `direction` child has `tag` and `title` with a `tag` on each of its children; on success one stop per `stop` child of the first route, one direction per `direction` child, each direction's stop list being its children's tags in order |
| `Nextbus.RouteInfoFailure` | main.py:85-99 | a failure carries the error of the first failing `stop` element in document order, or, when every stop converts, of the first failing `direction` element |
| `Nextbus.DirectionFailure` | main.py:91-97 | a direction fails exactly when it lacks `tag` or `title` or one of its children lacks `tag`; the error names `tag`, then `title`, then the first child without `tag` |
| `Nextbus.ScanDirection` | main.py:111-117 | the innermost loop extends the predictions gathered so far exactly as `Select` does over this direction's predictions |
| `Nextbus.ScanSet` | main.py:110-117 | the middle loop extends the predictions gathered so far exactly as `Select` does over all directions of one `predictions` element |
| `Nextbus.GetPredictions` | main.py:108-119 | the nested loops compute `Select` over every predictionSet → direction → prediction, in that nesting order |
| `Nextbus.CandidatesOfDocument` | main.py:109-111 | the candidates are exactly the `prediction` children of a `direction` child of a `predictions` child of the root, paired with that `predictions` element |
| `Nextbus.MatchIndices` | main.py:112-113 | the positions kept by the filter are increasing and are exactly the candidates whose `dirTag` equals the filter |
| `Nextbus.SelectShape` | main.py:108-119 | the filter loop succeeds iff every candidate screens without error; its output lines up one-to-one with `MatchIndices` |
| `Nextbus.PredictionsFiltered` | main.py:108-119 | every returned tuple comes from a matching prediction, every matching prediction is returned, in document order, each with the raw `epochTime` and the enclosing set's `routeTitle` and `stopTitle` |
| `Nextbus.PredictionsFailure` | main.py:112-116 | the loop raises exactly when some prediction lacks `dirTag`, or a matching one lacks `epochTime`, or its set lacks `routeTitle` or `stopTitle` |
| `Nextbus.PredictionsFirstError` | main.py:112-116 | a failed prediction loop reports the error of the first candidate, in document order, that fails to screen, every earlier one having screened |
| `Nextbus.PredictionsNoMatch` | main.py:108-119 | when no prediction matches the direction, the result is an empty list, not an error |
| `Strings.Split` | main.py:21-22 | `split(' ')` always yields at least one field and no field contains the separator, so `args[0]` always exists |
| `Strings.JoinSplit` | main.py:21 | joining the fields of a split with the separator gives back the text |
| `Strings.SplitJoin` | main.py:21 | splitting the join of separator-free fields gives back the fields |
| `Strings.FirstField` | main.py:21-22 | the first field is the longest separator-free prefix of the text |
| `Handlers.TokenGate` | main.py:9-15 | `validate_token` refuses (406) exactly when a secret is configured and the token differs; without a secret every token passes |
| `Handlers.RootGate` | main.py:13-19 | a request with no token is refused 400, one with a refused token 406, before any subcommand |
| `Handlers.SubcommandOfText` | main.py:21-24 | the subcommand is the text up to its first space, and is `add` exactly when the text is `add` or starts with `add ` |
| `Handlers.RootDispatch` | main.py:21-30 | past the gate `root` calls `add` exactly for `add`/`add ...` texts; otherwise it replies `Unknown command '<subcmd>'.`, with an empty subcommand for an empty or missing text |
| `Handlers.AddCallbacks` | main.py:35-49 | no callback id echoes `echoing: <text>`; `agency_select`, `route_select`, `alias_select` reply `null`; any other id is refused 406 |
| `Handlers.AddCommandEchoes` | main.py:24-39 | an accepted `add ...` command with no callback id replies with its whole text echoed |
| `Handlers.RootAsWrittenNeverDispatches` | main.py:21 | as written, every request either fails the gate or raises at line 21 (500) |
| `Handlers.RootAsWrittenDiffers` | main.py:21 | a concrete accepted `add home` request is echoed by the intended handler and answered 500 as written |

## Findings

| source | as written | input that shows it | evidently intended | confidence | as-written member | corrected member |
|---|---|---|---|---|---|---|
| main.py:21 | `response.form.get('text', '')`: `response` is not bound in `root`, so NameError and a 500 reply | secret `s3cret`, form `token=s3cret`, `text=add home` | `request.form.get('text', '')`, dispatching on the first word | high (not executed) | `Handlers.RootAsWrittenDiffers` | `Handlers.RootDispatch` |

`Handlers.RootAsWritten` models line 21 as written. `Handlers.Root` models the intended
read of the request form, and the rest of the model uses it.

## Left out

- The web framework: the app object, the route decorator, `request`, `jsonify` and `abort` are replaced by the `Form` and `Response` values.
- The HTTP requests to the NextBus endpoint. They are network I/O. The agency, route and stop arguments only parametrise that request, so the extractors take the parsed document instead.
- The XML parse (`defusedxml`). It is a foreign library. Element text, tail and namespaces are not modelled because the code never reads them.
- Reading `SLACK_NEXTBUS_TOKEN` from the environment and the start-up warning on stderr. The configured secret is a parameter.
- `user_routes`, a module-level dictionary that nothing uses.
- The memoization cache, the selection wizard, the saved-route registry and the countdown formatting. None of them exists in `main.py`.
