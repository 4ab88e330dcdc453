/**
 The NextBus feed client after the HTTP request and the XML parse: each extractor
 walks an already-parsed document and collects typed records in document order.

 Reading a required attribute that an element lacks raises in the client
 (`attrib['tag']` is a KeyError), so every extractor returns a `Result`: the records
 when every attribute it reads is present, otherwise the error of the first element,
 in document order, that lacks one.
 */
module Nextbus {
  import opened Wrappers
  import opened ElementTree

  /** Why an extractor raised: a missing required attribute, or a missing element. */
  datatype FeedError = MissingAttribute(name: string) | NoElement(tag: string)

  /** (agencyTag, agencyTitle, regionTitle); regionTitle is the one optional attribute. */
  datatype Agency = Agency(tag: string, title: string, regionTitle: Option<string>)

  /** (routeTag, routeTitle) */
  datatype Route = Route(tag: string, title: string)

  /** (stopTag, stopTitle) */
  datatype Stop = Stop(tag: string, title: string)

  /** (directionTag, directionTitle, [stopTag, ...]) */
  datatype Direction = Direction(tag: string, title: string, stopTags: seq<string>)

  /** `{ 'stops': [...], 'directions': [...] }` */
  datatype RouteInfo = RouteInfo(stops: seq<Stop>, directions: seq<Direction>)

  /** (epochTime, routeTitle, stopTitle); epochTime is the raw attribute text. */
  datatype Prediction = Prediction(epochTime: string, routeTitle: string, stopTitle: string)

  // ---------------------------------------------------------------------------
  // One record per element, reading attributes in the order the client does
  // ---------------------------------------------------------------------------

  function AgencyRecord(e: Element): Result<Agency, FeedError>
  {
    if "tag" !in e.attrib then Err(MissingAttribute("tag"))
    else if "title" !in e.attrib then Err(MissingAttribute("title"))
    else Ok(Agency(e.attrib["tag"], e.attrib["title"], Get(e.attrib, "regionTitle")))
  }

  function RouteRecord(e: Element): Result<Route, FeedError>
  {
    if "tag" !in e.attrib then Err(MissingAttribute("tag"))
    else if "title" !in e.attrib then Err(MissingAttribute("title"))
    else Ok(Route(e.attrib["tag"], e.attrib["title"]))
  }

  function StopRecord(e: Element): Result<Stop, FeedError>
  {
    if "tag" !in e.attrib then Err(MissingAttribute("tag"))
    else if "title" !in e.attrib then Err(MissingAttribute("title"))
    else Ok(Stop(e.attrib["tag"], e.attrib["title"]))
  }

  /** The stop tag of one child of a direction element. */
  function ChildTag(e: Element): Result<string, FeedError>
  {
    if "tag" in e.attrib then Ok(e.attrib["tag"]) else Err(MissingAttribute("tag"))
  }

  /** A direction: its tag, its title, then the tag of every child, whatever its element name. */
  function DirectionRecord(d: Element): Result<Direction, FeedError>
  {
    if "tag" !in d.attrib then Err(MissingAttribute("tag"))
    else if "title" !in d.attrib then Err(MissingAttribute("title"))
    else match Collect(d.children, ChildTag)
      case Err(e) => Err(e)
      case Ok(tags) => Ok(Direction(d.attrib["tag"], d.attrib["title"], tags))
  }

  // ---------------------------------------------------------------------------
  // The reference meaning of a `for ... : xs.append(...)` loop that may raise
  // ---------------------------------------------------------------------------

  /** Map `f` over `s` in order, stopping at the first element on which `f` fails. */
  function Collect<A, T>(s: seq<A>, f: A -> Result<T, FeedError>): Result<seq<T>, FeedError>
    decreases |s|
  {
    if s == [] then Ok([])
    else match Collect(s[..|s| - 1], f)
      case Err(e) => Err(e)
      case Ok(front) =>
        match f(s[|s| - 1])
        case Err(e) => Err(e)
        case Ok(x) => Ok(front + [x])
  }

  /** Once a prefix has failed, the whole traversal fails with the same error. */
  lemma {:induction false} CollectPrefixErr<A, T>(s: seq<A>, n: nat, f: A -> Result<T, FeedError>)
    requires n <= |s|
    requires Collect(s[..n], f).Err?
    ensures Collect(s, f) == Collect(s[..n], f)
    decreases |s|
  {
    if n < |s| {
      var front := s[..|s| - 1];
      assert front[..n] == s[..n];
      CollectPrefixErr(front, n, f);
    } else {
      assert s[..n] == s;
    }
  }

  /**
   A traversal succeeds exactly when `f` succeeds on every element; it then holds one
   result per element, in the same order.
   */
  lemma {:induction false} CollectOk<A, T>(s: seq<A>, f: A -> Result<T, FeedError>)
    ensures Collect(s, f).Ok? <==> forall k :: 0 <= k < |s| ==> f(s[k]).Ok?
    ensures Collect(s, f).Ok? ==>
      |Collect(s, f).value| == |s| &&
      forall k :: 0 <= k < |s| ==> f(s[k]) == Ok(Collect(s, f).value[k])
    decreases |s|
  {
    if s != [] {
      var front := s[..|s| - 1];
      CollectOk(front, f);
      assert forall k :: 0 <= k < |front| ==> s[k] == front[k];
    }
  }

  /** A failed traversal reports the error of the first element on which `f` fails. */
  lemma {:induction false} CollectErr<A, T>(s: seq<A>, f: A -> Result<T, FeedError>)
    requires Collect(s, f).Err?
    ensures exists k :: 0 <= k < |s| && f(s[k]) == Err(Collect(s, f).error) &&
                        forall j :: 0 <= j < k ==> f(s[j]).Ok?
    decreases |s|
  {
    var front := s[..|s| - 1];
    assert forall k :: 0 <= k < |front| ==> s[k] == front[k];
    if Collect(front, f).Err? {
      CollectErr(front, f);
      var k :| 0 <= k < |front| && f(front[k]) == Err(Collect(front, f).error) &&
               forall j :: 0 <= j < k ==> f(front[j]).Ok?;
      assert f(s[k]) == Err(Collect(s, f).error);
    } else {
      CollectOk(front, f);
      assert f(s[|s| - 1]) == Err(Collect(s, f).error);
    }
  }

  // ---------------------------------------------------------------------------
  // nextbus_get_agencies, nextbus_get_routes
  // ---------------------------------------------------------------------------

  /** `nextbus_get_agencies`: one record per `agency` child of the document root. */
  method GetAgencies(doc: Element) returns (r: Result<seq<Agency>, FeedError>)
    ensures r == Collect(FindAll(doc, "agency"), AgencyRecord)
  {
    var agencies: seq<Agency> := [];
    var elements := FindAll(doc, "agency");
    for i := 0 to |elements|
      invariant Collect(elements[..i], AgencyRecord) == Ok(agencies)
    {
      assert elements[..i + 1][..i] == elements[..i];
      match AgencyRecord(elements[i])
      case Err(e) =>
        CollectPrefixErr(elements, i + 1, AgencyRecord);
        return Err(e);
      case Ok(agency) =>
        agencies := agencies + [agency];
    }
    assert elements[..|elements|] == elements;
    return Ok(agencies);
  }

  /**
   What `nextbus_get_agencies` promises of the `agency` elements `els`: it fails exactly
   when one lacks `tag` or `title`; otherwise it yields one tuple per element, in
   document order, whose region title is absent exactly when the attribute is.
   */
  lemma AgencyRecords(els: seq<Element>)
    ensures Collect(els, AgencyRecord).Ok? <==>
            forall k :: 0 <= k < |els| ==> "tag" in els[k].attrib && "title" in els[k].attrib
    ensures Collect(els, AgencyRecord).Ok? ==> |Collect(els, AgencyRecord).value| == |els|
    ensures Collect(els, AgencyRecord).Ok? ==>
      forall k :: 0 <= k < |els| ==>
        var a := Collect(els, AgencyRecord).value[k];
        && a.tag == els[k].attrib["tag"]
        && a.title == els[k].attrib["title"]
        && (a.regionTitle.None? <==> "regionTitle" !in els[k].attrib)
        && ("regionTitle" in els[k].attrib ==> a.regionTitle == Some(els[k].attrib["regionTitle"]))
  {
    CollectOk(els, AgencyRecord);
  }

  /** `nextbus_get_routes`: one record per `route` child of the document root. */
  method GetRoutes(doc: Element) returns (r: Result<seq<Route>, FeedError>)
    ensures r == Collect(FindAll(doc, "route"), RouteRecord)
  {
    var routes: seq<Route> := [];
    var elements := FindAll(doc, "route");
    for i := 0 to |elements|
      invariant Collect(elements[..i], RouteRecord) == Ok(routes)
    {
      assert elements[..i + 1][..i] == elements[..i];
      match RouteRecord(elements[i])
      case Err(e) =>
        CollectPrefixErr(elements, i + 1, RouteRecord);
        return Err(e);
      case Ok(route) =>
        routes := routes + [route];
    }
    assert elements[..|elements|] == elements;
    return Ok(routes);
  }

  /**
   What `nextbus_get_routes` promises of the `route` elements `els`: exactly one
   (tag, title) per element, in document order, or the first missing attribute's error.
   */
  lemma RouteRecords(els: seq<Element>)
    ensures Collect(els, RouteRecord).Ok? <==>
            forall k :: 0 <= k < |els| ==> "tag" in els[k].attrib && "title" in els[k].attrib
    ensures Collect(els, RouteRecord).Ok? ==>
      && |Collect(els, RouteRecord).value| == |els|
      && forall k :: 0 <= k < |els| ==>
           Collect(els, RouteRecord).value[k] == Route(els[k].attrib["tag"], els[k].attrib["title"])
    ensures Collect(els, RouteRecord).Err? ==>
      exists k :: 0 <= k < |els| && RouteRecord(els[k]) == Err(Collect(els, RouteRecord).error) &&
                  forall j :: 0 <= j < k ==> RouteRecord(els[j]).Ok?
  {
    CollectOk(els, RouteRecord);
    if Collect(els, RouteRecord).Err? {
      CollectErr(els, RouteRecord);
    }
  }

  // ---------------------------------------------------------------------------
  // nextbus_get_route_info
  // ---------------------------------------------------------------------------

  /** The reference meaning of `nextbus_get_route_info` on a parsed document. */
  function RouteInfoOf(doc: Element): Result<RouteInfo, FeedError>
  {
    match Find(doc, "route")
    case None => Err(NoElement("route"))
    case Some(route) =>
      match Collect(FindAll(route, "stop"), StopRecord)
      case Err(e) => Err(e)
      case Ok(stops) =>
        match Collect(FindAll(route, "direction"), DirectionRecord)
        case Err(e) => Err(e)
        case Ok(directions) => Ok(RouteInfo(stops, directions))
  }

  /** The inner loop of `nextbus_get_route_info`: the tag of every child of a direction. */
  method DirectionStops(direction: Element) returns (r: Result<seq<string>, FeedError>)
    ensures r == Collect(direction.children, ChildTag)
  {
    var dirStops: seq<string> := [];
    var children := direction.children;
    for j := 0 to |children|
      invariant Collect(children[..j], ChildTag) == Ok(dirStops)
    {
      assert children[..j + 1][..j] == children[..j];
      var stop := children[j];
      if "tag" !in stop.attrib {
        CollectPrefixErr(children, j + 1, ChildTag);
        return Err(MissingAttribute("tag"));
      }
      dirStops := dirStops + [stop.attrib["tag"]];
    }
    assert children[..|children|] == children;
    return Ok(dirStops);
  }

  /** `nextbus_get_route_info`: stops, then directions, of the first `route` element. */
  method GetRouteInfo(doc: Element) returns (r: Result<RouteInfo, FeedError>)
    ensures r == RouteInfoOf(doc)
  {
    var found := Find(doc, "route");
    if found.None? {
      return Err(NoElement("route"));
    }
    var route := found.value;

    var stops: seq<Stop> := [];
    var stopElements := FindAll(route, "stop");
    for i := 0 to |stopElements|
      invariant Collect(stopElements[..i], StopRecord) == Ok(stops)
    {
      assert stopElements[..i + 1][..i] == stopElements[..i];
      match StopRecord(stopElements[i])
      case Err(e) =>
        CollectPrefixErr(stopElements, i + 1, StopRecord);
        return Err(e);
      case Ok(stop) =>
        stops := stops + [stop];
    }
    assert stopElements[..|stopElements|] == stopElements;

    var directions: seq<Direction> := [];
    var dirElements := FindAll(route, "direction");
    for i := 0 to |dirElements|
      invariant Collect(dirElements[..i], DirectionRecord) == Ok(directions)
    {
      assert dirElements[..i + 1][..i] == dirElements[..i];
      var direction := dirElements[i];
      if "tag" !in direction.attrib || "title" !in direction.attrib {
        CollectPrefixErr(dirElements, i + 1, DirectionRecord);
        return Err(MissingAttribute(if "tag" !in direction.attrib then "tag" else "title"));
      }
      var dirTag := direction.attrib["tag"];
      var dirTitle := direction.attrib["title"];
      var dirStops := DirectionStops(direction);
      if dirStops.Err? {
        CollectPrefixErr(dirElements, i + 1, DirectionRecord);
        return Err(dirStops.error);
      }
      directions := directions + [Direction(dirTag, dirTitle, dirStops.value)];
    }
    assert dirElements[..|dirElements|] == dirElements;
    return Ok(RouteInfo(stops, directions));
  }

  /**
   What `nextbus_get_route_info` promises: without a `route` element it fails; with
   one, a success holds one stop per `stop` child of the first `route` element and one
   direction per `direction` child, each listing the tag of every child of that
   direction element, all in document order.
   */
  /** Every `stop` child of the route carries `tag` and `title`. */
  predicate StopsComplete(route: Element)
  {
    var stopEls := FindAll(route, "stop");
    forall k :: 0 <= k < |stopEls| ==> "tag" in stopEls[k].attrib && "title" in stopEls[k].attrib
  }

  /** Every `direction` child of the route carries `tag` and `title`, and each of its children `tag`. */
  predicate DirectionsComplete(route: Element)
  {
    var dirEls := FindAll(route, "direction");
    forall k :: 0 <= k < |dirEls| ==>
      && "tag" in dirEls[k].attrib && "title" in dirEls[k].attrib
      && forall j :: 0 <= j < |dirEls[k].children| ==> "tag" in dirEls[k].children[j].attrib
  }

  lemma RouteInfoFromDocument(doc: Element)
    ensures Find(doc, "route").None? ==> RouteInfoOf(doc) == Err(NoElement("route"))
    ensures RouteInfoOf(doc).Ok? <==>
      && Find(doc, "route").Some?
      && StopsComplete(Find(doc, "route").value)
      && DirectionsComplete(Find(doc, "route").value)
    ensures RouteInfoOf(doc).Ok? ==>
      var route := Find(doc, "route").value;
      var info := RouteInfoOf(doc).value;
      var stopEls := FindAll(route, "stop");
      && |info.stops| == |stopEls|
      && forall k :: 0 <= k < |stopEls| ==>
           && "tag" in stopEls[k].attrib && "title" in stopEls[k].attrib
           && info.stops[k] == Stop(stopEls[k].attrib["tag"], stopEls[k].attrib["title"])
    ensures RouteInfoOf(doc).Ok? ==>
      var route := Find(doc, "route").value;
      var info := RouteInfoOf(doc).value;
      var dirEls := FindAll(route, "direction");
      && |info.directions| == |dirEls|
      && forall k :: 0 <= k < |dirEls| ==>
           var d := info.directions[k];
           && "tag" in dirEls[k].attrib && "title" in dirEls[k].attrib
           && d.tag == dirEls[k].attrib["tag"] && d.title == dirEls[k].attrib["title"]
           && |d.stopTags| == |dirEls[k].children|
           && forall j :: 0 <= j < |d.stopTags| ==>
                "tag" in dirEls[k].children[j].attrib && d.stopTags[j] == dirEls[k].children[j].attrib["tag"]
  {
    if Find(doc, "route").Some? {
      var route := Find(doc, "route").value;
      var stopEls := FindAll(route, "stop");
      var dirEls := FindAll(route, "direction");
      CollectOk(stopEls, StopRecord);
      CollectOk(dirEls, DirectionRecord);
      forall k | 0 <= k < |dirEls| {
        CollectOk(dirEls[k].children, ChildTag);
      }
      if RouteInfoOf(doc).Ok? {
        forall k | 0 <= k < |dirEls|
          ensures Collect(dirEls[k].children, ChildTag).Ok? &&
                  DirectionRecord(dirEls[k]).value.stopTags == Collect(dirEls[k].children, ChildTag).value
        {
          assert DirectionRecord(dirEls[k]).Ok?;
        }
      }
    }
  }

  /**
   Which error `nextbus_get_route_info` raises: the first `stop` element, in document
   order, that fails; only when every stop converts, the first failing `direction`.
   */
  lemma RouteInfoFailure(doc: Element)
    ensures Find(doc, "route").Some? && RouteInfoOf(doc).Err? ==>
      var route := Find(doc, "route").value;
      var stopEls := FindAll(route, "stop");
      var dirEls := FindAll(route, "direction");
      var e := RouteInfoOf(doc).error;
      || (exists k :: 0 <= k < |stopEls| && StopRecord(stopEls[k]) == Err(e) &&
                      forall j :: 0 <= j < k ==> StopRecord(stopEls[j]).Ok?)
      || ((forall k :: 0 <= k < |stopEls| ==> StopRecord(stopEls[k]).Ok?) &&
          exists k :: 0 <= k < |dirEls| && DirectionRecord(dirEls[k]) == Err(e) &&
                      forall j :: 0 <= j < k ==> DirectionRecord(dirEls[j]).Ok?)
  {
    if Find(doc, "route").Some? && RouteInfoOf(doc).Err? {
      var route := Find(doc, "route").value;
      var stopEls := FindAll(route, "stop");
      var dirEls := FindAll(route, "direction");
      CollectOk(stopEls, StopRecord);
      if Collect(stopEls, StopRecord).Err? {
        CollectErr(stopEls, StopRecord);
      } else {
        CollectErr(dirEls, DirectionRecord);
      }
    }
  }

  /**
   Which error one direction raises: a missing `tag`, then a missing `title`, then the
   first child, in document order, without a `tag`.
   */
  lemma DirectionFailure(d: Element)
    ensures DirectionRecord(d).Err? <==>
      "tag" !in d.attrib || "title" !in d.attrib ||
      exists j :: 0 <= j < |d.children| && "tag" !in d.children[j].attrib
    ensures "tag" !in d.attrib ==> DirectionRecord(d) == Err(MissingAttribute("tag"))
    ensures "tag" in d.attrib && "title" !in d.attrib ==> DirectionRecord(d) == Err(MissingAttribute("title"))
    ensures "tag" in d.attrib && "title" in d.attrib && DirectionRecord(d).Err? ==>
      && DirectionRecord(d) == Err(MissingAttribute("tag"))
      && exists j :: 0 <= j < |d.children| && "tag" !in d.children[j].attrib &&
                     forall i :: 0 <= i < j ==> "tag" in d.children[i].attrib
  {
    CollectOk(d.children, ChildTag);
    if "tag" in d.attrib && "title" in d.attrib && Collect(d.children, ChildTag).Err? {
      CollectErr(d.children, ChildTag);
    }
  }

  // ---------------------------------------------------------------------------
  // nextbus_get_predictions
  // ---------------------------------------------------------------------------

  /** A `prediction` element together with the `predictions` element that encloses it. */
  datatype Candidate = Candidate(group: Element, prediction: Element)

  /** Each prediction paired with its enclosing group, in order. */
  function Pairs(group: Element, ps: seq<Element>): (r: seq<Candidate>)
  {
    seq(|ps|, k requires 0 <= k < |ps| => Candidate(group, ps[k]))
  }

  /** The predictions under the given `direction` elements of one group, in document order. */
  function DirsCandidates(group: Element, dirs: seq<Element>): seq<Candidate>
    decreases |dirs|
  {
    if dirs == [] then []
    else DirsCandidates(group, dirs[..|dirs| - 1]) + Pairs(group, FindAll(dirs[|dirs| - 1], "prediction"))
  }

  /** The predictions under the given `predictions` elements, in document order. */
  function SetsCandidates(sets: seq<Element>): seq<Candidate>
    decreases |sets|
  {
    if sets == [] then []
    else
      var group := sets[|sets| - 1];
      SetsCandidates(sets[..|sets| - 1]) + DirsCandidates(group, FindAll(group, "direction"))
  }

  /** Every predictionSet → direction → prediction of the document, in nesting order. */
  function Candidates(doc: Element): seq<Candidate>
  {
    SetsCandidates(FindAll(doc, "predictions"))
  }

  /** The filter: case-sensitive exact equality of `dirTag` with the requested direction. */
  predicate Matches(c: Candidate, filterDirection: string)
  {
    "dirTag" in c.prediction.attrib && c.prediction.attrib["dirTag"] == filterDirection
  }

  /**
   One step of the innermost loop: `dirTag` is read first (and must exist); a prediction
   of another direction is skipped; a matching one yields its raw `epochTime` and the
   `routeTitle` and `stopTitle` of its enclosing group.
   */
  function Screen(c: Candidate, filterDirection: string): Result<Option<Prediction>, FeedError>
  {
    var p := c.prediction;
    if "dirTag" !in p.attrib then Err(MissingAttribute("dirTag"))
    else if p.attrib["dirTag"] != filterDirection then Ok(None)
    else if "epochTime" !in p.attrib then Err(MissingAttribute("epochTime"))
    else if "routeTitle" !in c.group.attrib then Err(MissingAttribute("routeTitle"))
    else if "stopTitle" !in c.group.attrib then Err(MissingAttribute("stopTitle"))
    else Ok(Some(Prediction(p.attrib["epochTime"], c.group.attrib["routeTitle"], c.group.attrib["stopTitle"])))
  }

  /** What one screened candidate does to the predictions collected so far. */
  function Extend(acc: Result<seq<Prediction>, FeedError>, step: Result<Option<Prediction>, FeedError>)
    : Result<seq<Prediction>, FeedError>
  {
    match acc
    case Err(e) => Err(e)
    case Ok(front) =>
      match step
      case Err(e) => Err(e)
      case Ok(None) => Ok(front)
      case Ok(Some(x)) => Ok(front + [x])
  }

  /** The reference meaning of the filtering loop over a sequence of candidates. */
  function Select(cs: seq<Candidate>, filterDirection: string): Result<seq<Prediction>, FeedError>
    decreases |cs|
  {
    if cs == [] then Ok([])
    else Extend(Select(cs[..|cs| - 1], filterDirection), Screen(cs[|cs| - 1], filterDirection))
  }

  lemma SelectSnoc(front: seq<Candidate>, c: Candidate, filterDirection: string)
    ensures Select(front + [c], filterDirection) == Extend(Select(front, filterDirection), Screen(c, filterDirection))
  {
    assert (front + [c])[..|front|] == front;
  }

  /** The positions of the matching candidates: increasing, and exactly the matching ones. */
  function MatchIndices(cs: seq<Candidate>, filterDirection: string): (m: seq<nat>)
    ensures forall i :: 0 <= i < |m| ==> m[i] < |cs| && Matches(cs[m[i]], filterDirection)
    ensures forall i, j :: 0 <= i < j < |m| ==> m[i] < m[j]
    ensures forall k :: 0 <= k < |cs| && Matches(cs[k], filterDirection) ==> k in m
    decreases |cs|
  {
    if cs == [] then []
    else
      var front := cs[..|cs| - 1];
      var m := MatchIndices(front, filterDirection);
      assert forall k :: 0 <= k < |front| ==> cs[k] == front[k];
      m + if Matches(cs[|cs| - 1], filterDirection) then [|cs| - 1] else []
  }

  lemma {:induction false} SelectPrefixErr(cs: seq<Candidate>, p: seq<Candidate>, filterDirection: string)
    requires p <= cs
    requires Select(p, filterDirection).Err?
    ensures Select(cs, filterDirection) == Select(p, filterDirection)
    decreases |cs|
  {
    if |p| < |cs| {
      var front := cs[..|cs| - 1];
      assert p <= front;
      SelectPrefixErr(front, p, filterDirection);
    } else {
      assert p == cs;
    }
  }

  lemma {:induction false} PairsPrefix(group: Element, ps: seq<Element>, k: nat)
    requires k < |ps|
    ensures Pairs(group, ps[..k + 1]) == Pairs(group, ps[..k]) + [Candidate(group, ps[k])]
    ensures Pairs(group, ps[..k + 1]) <= Pairs(group, ps)
  {
  }

  lemma {:induction false} DirsPrefix(group: Element, dirs: seq<Element>, n: nat)
    requires n <= |dirs|
    ensures DirsCandidates(group, dirs[..n]) <= DirsCandidates(group, dirs)
    decreases |dirs|
  {
    if n < |dirs| {
      var front := dirs[..|dirs| - 1];
      assert front[..n] == dirs[..n];
      DirsPrefix(group, front, n);
    } else {
      assert dirs[..n] == dirs;
    }
  }

  lemma {:induction false} SetsPrefix(sets: seq<Element>, n: nat)
    requires n <= |sets|
    ensures SetsCandidates(sets[..n]) <= SetsCandidates(sets)
    decreases |sets|
  {
    if n < |sets| {
      var front := sets[..|sets| - 1];
      assert front[..n] == sets[..n];
      SetsPrefix(front, n);
    } else {
      assert sets[..n] == sets;
    }
  }

  /** Once a prefix of the candidates has failed, so has every extension of it. */
  lemma ExtensionErr(seen: seq<Candidate>, part: seq<Candidate>, whole: seq<Candidate>, filterDirection: string)
    requires part <= whole
    requires Select(seen + part, filterDirection).Err?
    ensures Select(seen + whole, filterDirection) == Select(seen + part, filterDirection)
  {
    PrefixUnderConcat(seen, part, whole);
    SelectPrefixErr(seen + whole, seen + part, filterDirection);
  }

  lemma PrefixUnderConcat<T>(a: seq<T>, b: seq<T>, c: seq<T>)
    requires b <= c
    ensures a + b <= a + c
  {
    assert a + c == (a + b) + c[|b|..];
  }

  lemma SnocAssoc<T>(a: seq<T>, b: seq<T>, x: T)
    ensures a + (b + [x]) == a + b + [x]
  {
  }

  lemma DirsSnoc(group: Element, dirs: seq<Element>, j: nat)
    requires j < |dirs|
    ensures DirsCandidates(group, dirs[..j + 1]) ==
            DirsCandidates(group, dirs[..j]) + Pairs(group, FindAll(dirs[j], "prediction"))
  {
    assert dirs[..j + 1][..j] == dirs[..j];
  }

  lemma SetsSnoc(sets: seq<Element>, i: nat)
    requires i < |sets|
    ensures SetsCandidates(sets[..i + 1]) ==
            SetsCandidates(sets[..i]) + DirsCandidates(sets[i], FindAll(sets[i], "direction"))
  {
    assert sets[..i + 1][..i] == sets[..i];
  }

  /**
   The innermost loop of `nextbus_get_predictions`, over the `prediction` elements `ps`
   of one direction of `predictionSet`, continuing from the predictions `acc` already
   collected from the candidates `seen`.
   */
  method ScanDirection(predictionSet: Element, ps: seq<Element>, filterDirection: string,
                       acc: seq<Prediction>, ghost seen: seq<Candidate>)
    returns (r: Result<seq<Prediction>, FeedError>)
    requires Select(seen, filterDirection) == Ok(acc)
    ensures r == Select(seen + Pairs(predictionSet, ps), filterDirection)
  {
    var predictions := acc;
    ghost var visited := seen;
    assert ps[..0] == [];
    for k := 0 to |ps|
      invariant visited == seen + Pairs(predictionSet, ps[..k])
      invariant Select(visited, filterDirection) == Ok(predictions)
    {
      var prediction := ps[k];
      ghost var c := Candidate(predictionSet, prediction);
      PairsPrefix(predictionSet, ps, k);
      SelectSnoc(visited, c, filterDirection);
      SnocAssoc(seen, Pairs(predictionSet, ps[..k]), c);
      visited := visited + [c];
      if Screen(c, filterDirection).Err? {
        ExtensionErr(seen, Pairs(predictionSet, ps[..k + 1]), Pairs(predictionSet, ps), filterDirection);
      }
      if "dirTag" !in prediction.attrib {
        return Err(MissingAttribute("dirTag"));
      }
      if prediction.attrib["dirTag"] != filterDirection {
        continue;
      }
      if "epochTime" !in prediction.attrib {
        return Err(MissingAttribute("epochTime"));
      }
      var epochTime := prediction.attrib["epochTime"];
      if "routeTitle" !in predictionSet.attrib {
        return Err(MissingAttribute("routeTitle"));
      }
      var routeTitle := predictionSet.attrib["routeTitle"];
      if "stopTitle" !in predictionSet.attrib {
        return Err(MissingAttribute("stopTitle"));
      }
      var stopTitle := predictionSet.attrib["stopTitle"];
      predictions := predictions + [Prediction(epochTime, routeTitle, stopTitle)];
    }
    assert ps[..|ps|] == ps;
    return Ok(predictions);
  }

  /**
   The middle loop of `nextbus_get_predictions`, over the `direction` children of one
   `predictions` element, continuing from `acc` collected from the candidates `seen`.
   */
  method ScanSet(predictionSet: Element, filterDirection: string, acc: seq<Prediction>, ghost seen: seq<Candidate>)
    returns (r: Result<seq<Prediction>, FeedError>)
    requires Select(seen, filterDirection) == Ok(acc)
    ensures r == Select(seen + DirsCandidates(predictionSet, FindAll(predictionSet, "direction")), filterDirection)
  {
    var predictions := acc;
    var dirs := FindAll(predictionSet, "direction");
    ghost var visited := seen;
    assert dirs[..0] == [];
    for j := 0 to |dirs|
      invariant visited == seen + DirsCandidates(predictionSet, dirs[..j])
      invariant Select(visited, filterDirection) == Ok(predictions)
    {
      var ps := FindAll(dirs[j], "prediction");
      var step := ScanDirection(predictionSet, ps, filterDirection, predictions, visited);
      DirsSnoc(predictionSet, dirs, j);
      assert visited + Pairs(predictionSet, ps) == seen + DirsCandidates(predictionSet, dirs[..j + 1]);
      if step.Err? {
        DirsPrefix(predictionSet, dirs, j + 1);
        ExtensionErr(seen, DirsCandidates(predictionSet, dirs[..j + 1]), DirsCandidates(predictionSet, dirs),
                     filterDirection);
        return step;
      }
      predictions := step.value;
      visited := visited + Pairs(predictionSet, ps);
    }
    assert dirs[..|dirs|] == dirs;
    return Ok(predictions);
  }

  /**
   `nextbus_get_predictions`: every `prediction` of every direction of every
   `predictions` element whose `dirTag` equals `filterDirection`, in document order.
   */
  method GetPredictions(doc: Element, filterDirection: string) returns (r: Result<seq<Prediction>, FeedError>)
    ensures r == Select(Candidates(doc), filterDirection)
  {
    var predictions: seq<Prediction> := [];
    var sets := FindAll(doc, "predictions");
    ghost var visited: seq<Candidate> := [];
    for i := 0 to |sets|
      invariant visited == SetsCandidates(sets[..i])
      invariant Select(visited, filterDirection) == Ok(predictions)
    {
      var step := ScanSet(sets[i], filterDirection, predictions, visited);
      SetsSnoc(sets, i);
      if step.Err? {
        SetsPrefix(sets, i + 1);
        SelectPrefixErr(Candidates(doc), SetsCandidates(sets[..i + 1]), filterDirection);
        return step;
      }
      predictions := step.value;
      visited := SetsCandidates(sets[..i + 1]);
    }
    assert sets[..|sets|] == sets;
    return Ok(predictions);
  }

  // ---------------------------------------------------------------------------
  // What nextbus_get_predictions promises
  // ---------------------------------------------------------------------------

  lemma {:induction false} SelectShape(cs: seq<Candidate>, filterDirection: string)
    ensures Select(cs, filterDirection).Ok? <==> forall k :: 0 <= k < |cs| ==> Screen(cs[k], filterDirection).Ok?
    ensures Select(cs, filterDirection).Ok? ==>
      var s := Select(cs, filterDirection).value;
      var m := MatchIndices(cs, filterDirection);
      |s| == |m| && forall i :: 0 <= i < |s| ==> Screen(cs[m[i]], filterDirection) == Ok(Some(s[i]))
    decreases |cs|
  {
    if cs != [] {
      var front := cs[..|cs| - 1];
      SelectShape(front, filterDirection);
      assert forall k :: 0 <= k < |front| ==> cs[k] == front[k];
    }
  }

  /**
   Soundness, completeness and order of the direction filter: a successful result
   holds, in document order, one tuple for each candidate whose `dirTag` equals the
   filter (`MatchIndices` lists exactly those positions, increasing), carrying that
   prediction's raw `epochTime` and its enclosing set's `routeTitle` and `stopTitle`.
   */
  lemma PredictionsFiltered(cs: seq<Candidate>, filterDirection: string)
    requires Select(cs, filterDirection).Ok?
    ensures var s := Select(cs, filterDirection).value;
      var m := MatchIndices(cs, filterDirection);
      && |s| == |m|
      && forall i :: 0 <= i < |s| ==>
           var c := cs[m[i]];
           && Matches(c, filterDirection)
           && "epochTime" in c.prediction.attrib
           && "routeTitle" in c.group.attrib && "stopTitle" in c.group.attrib
           && s[i] == Prediction(c.prediction.attrib["epochTime"], c.group.attrib["routeTitle"], c.group.attrib["stopTitle"])
  {
    SelectShape(cs, filterDirection);
  }

  /**
   The filter fails exactly when some candidate lacks `dirTag`, or some matching
   candidate lacks `epochTime` or its set lacks `routeTitle` or `stopTitle`.
   */
  lemma PredictionsFailure(cs: seq<Candidate>, filterDirection: string)
    ensures Select(cs, filterDirection).Err? <==>
      exists k :: 0 <= k < |cs| &&
        ("dirTag" !in cs[k].prediction.attrib ||
         (Matches(cs[k], filterDirection) &&
          ("epochTime" !in cs[k].prediction.attrib ||
           "routeTitle" !in cs[k].group.attrib || "stopTitle" !in cs[k].group.attrib)))
  {
    SelectShape(cs, filterDirection);
  }

  /** A failed filter loop reports the error of the first candidate that fails to screen. */
  lemma {:induction false} PredictionsFirstError(cs: seq<Candidate>, filterDirection: string)
    requires Select(cs, filterDirection).Err?
    ensures exists k :: 0 <= k < |cs| && Screen(cs[k], filterDirection) == Err(Select(cs, filterDirection).error) &&
                        forall j :: 0 <= j < k ==> Screen(cs[j], filterDirection).Ok?
    decreases |cs|
  {
    var front := cs[..|cs| - 1];
    assert forall k :: 0 <= k < |front| ==> cs[k] == front[k];
    if Select(front, filterDirection).Err? {
      PredictionsFirstError(front, filterDirection);
      var k :| 0 <= k < |front| && Screen(front[k], filterDirection) == Err(Select(front, filterDirection).error) &&
               forall j :: 0 <= j < k ==> Screen(front[j], filterDirection).Ok?;
      assert Screen(cs[k], filterDirection) == Err(Select(cs, filterDirection).error);
    } else {
      SelectShape(front, filterDirection);
      assert Screen(cs[|cs| - 1], filterDirection) == Err(Select(cs, filterDirection).error);
    }
  }

  /** No matching prediction gives an empty list, not an error. */
  lemma {:induction false} PredictionsNoMatch(cs: seq<Candidate>, filterDirection: string)
    requires forall k :: 0 <= k < |cs| ==>
      "dirTag" in cs[k].prediction.attrib && cs[k].prediction.attrib["dirTag"] != filterDirection
    ensures Select(cs, filterDirection) == Ok([])
    decreases |cs|
  {
    if cs != [] {
      var front := cs[..|cs| - 1];
      assert forall k :: 0 <= k < |front| ==> cs[k] == front[k];
      PredictionsNoMatch(front, filterDirection);
    }
  }

  lemma PairsMember(group: Element, ps: seq<Element>, c: Candidate)
    ensures c in Pairs(group, ps) <==> c.group == group && c.prediction in ps
  {
    if c.group == group && c.prediction in ps {
      var k :| 0 <= k < |ps| && ps[k] == c.prediction;
      assert Pairs(group, ps)[k] == c;
    }
  }

  lemma {:induction false} DirsCandidatesMember(group: Element, dirs: seq<Element>, c: Candidate)
    ensures c in DirsCandidates(group, dirs) <==>
      c.group == group && exists d :: d in dirs && c.prediction in FindAll(d, "prediction")
    decreases |dirs|
  {
    if dirs != [] {
      var front := dirs[..|dirs| - 1];
      var last := dirs[|dirs| - 1];
      DirsCandidatesMember(group, front, c);
      PairsMember(group, FindAll(last, "prediction"), c);
      assert dirs == front + [last];
    }
  }

  lemma {:induction false} SetsCandidatesMember(sets: seq<Element>, c: Candidate)
    ensures c in SetsCandidates(sets) <==>
      c.group in sets && exists d :: d in FindAll(c.group, "direction") && c.prediction in FindAll(d, "prediction")
    decreases |sets|
  {
    if sets != [] {
      var front := sets[..|sets| - 1];
      var last := sets[|sets| - 1];
      SetsCandidatesMember(front, c);
      DirsCandidatesMember(last, FindAll(last, "direction"), c);
      assert sets == front + [last];
    }
  }

  /**
   The candidates of a document are exactly the `prediction` elements found under a
   `direction` child of a `predictions` child of the root, each paired with that
   `predictions` element.
   */
  lemma CandidatesOfDocument(doc: Element, c: Candidate)
    ensures c in Candidates(doc) <==>
      && c.group in FindAll(doc, "predictions")
      && exists d :: d in FindAll(c.group, "direction") && c.prediction in FindAll(d, "prediction")
  {
    SetsCandidatesMember(FindAll(doc, "predictions"), c);
  }
}
