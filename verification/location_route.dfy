/** The player-location API (`app/api/location/route.ts`): `POST` validates a
    location update and upserts it by user id; `GET` validates the viewer's
    coordinates and builds the geospatial query for nearby players, newest
    first and at most fifty. The database is represented by its behaviour and
    contents. */
module LocationRoute {
  import opened Wrappers
  import opened JsNumbers
  import opened Json
  import opened Http
  import Sorting

  /** How the database behaves for one request: the connection fails, the
      query or update throws, or it works. */
  datatype DbBehaviour = Unreachable | QueryThrows | Works

  /** The update object the route hands to `findOneAndUpdate`;
      `lastSeen` is a timestamp in milliseconds. `level` and `achievements`
      are `None` when the body leaves them out: the key is then `undefined`,
      and Mongoose drops it from the update. */
  datatype LocationUpdate = LocationUpdate(
    userId: Json,
    username: Json,
    game: Json,
    location: Json,
    isOnline: Json,
    lastSeen: int,
    level: Option<Json>,
    achievements: Option<Json>,
    userAgent: string,
    platform: string)

  /** A stored player location (its `_id` and timestamps are not modelled). */
  datatype LocationDoc = LocationDoc(
    userId: Json,
    username: Json,
    game: Json,
    location: Json,
    isOnline: Json,
    lastSeen: int,
    level: Json,
    achievements: Json,
    userAgent: string,
    platform: string)

  // ---------------------------------------------------------------------
  // POST

  /** Some required field of the update is falsy. */
  predicate MissingRequired(body: Json)
    requires !body.JNull?
  {
    || !TruthyValue(Field(body, "userId"))
    || !TruthyValue(Field(body, "username"))
    || !TruthyValue(Field(body, "game"))
    || !TruthyValue(Field(body, "location"))
  }

  /** The update built from a valid body at time `now`. `isOnline` defaults
      to `true` only when the field is absent; the device fields come from
      the request headers. */
  function UpdateDoc(body: Json, headers: map<string, string>, now: int): (u: LocationUpdate)
    requires !body.JNull? && !MissingRequired(body)
    ensures Field(body, "isOnline").None? ==> u.isOnline == JBool(true)
    ensures Field(body, "isOnline").Some? ==> u.isOnline == Field(body, "isOnline").value
    ensures Some(u.userId) == Field(body, "userId") && Some(u.username) == Field(body, "username")
    ensures Some(u.game) == Field(body, "game") && Some(u.location) == Field(body, "location")
    ensures u.level == Field(body, "level") && u.achievements == Field(body, "achievements")
    ensures u.lastSeen == now
  {
    LocationUpdate(
      Field(body, "userId").value,
      Field(body, "username").value,
      Field(body, "game").value,
      Field(body, "location").value,
      Field(body, "isOnline").GetOr(JBool(true)),
      now,
      Field(body, "level"),
      Field(body, "achievements"),
      ParamOr(headers, "user-agent", ""),
      ParamOr(headers, "sec-ch-ua-platform", ""))
  }

  /** The document after `findOneAndUpdate(..., { upsert: true, new: true })`.
      An update without operators is applied as `$set`: the fields it carries
      overwrite the stored ones, and a field it leaves out keeps its stored
      value. When nothing is stored yet, the schema defaults fill the gaps:
      `level` 1 and an empty `achievements` array. */
  function Upsert(existing: Option<LocationDoc>, u: LocationUpdate): (d: LocationDoc)
    ensures d.userId == u.userId && d.username == u.username && d.game == u.game
    ensures d.location == u.location && d.isOnline == u.isOnline && d.lastSeen == u.lastSeen
    ensures d.userAgent == u.userAgent && d.platform == u.platform
    ensures u.level.Some? ==> d.level == u.level.value
    ensures u.level.None? && existing.Some? ==> d.level == existing.value.level
    ensures u.level.None? && existing.None? ==> d.level == JNumber(1.0)
    ensures u.achievements.Some? ==> d.achievements == u.achievements.value
    ensures u.achievements.None? && existing.Some? ==> d.achievements == existing.value.achievements
    ensures u.achievements.None? && existing.None? ==> d.achievements == JArray([])
  {
    var defaults := match existing
      case Some(e) => (e.level, e.achievements)
      case None => (JNumber(1.0), JArray([]));
    LocationDoc(u.userId, u.username, u.game, u.location, u.isOnline, u.lastSeen,
                u.level.GetOr(defaults.0), u.achievements.GetOr(defaults.1),
                u.userAgent, u.platform)
  }

  /** Repeating an update changes nothing further. */
  lemma UpsertIdempotent(existing: Option<LocationDoc>, u: LocationUpdate)
    ensures Upsert(Some(Upsert(existing, u)), u) == Upsert(existing, u)
  {
  }

  /** An update that carries every optional field leaves no trace of the
      stored document: the result is the same whether or not, and whatever,
      was stored before. */
  lemma FullUpdateForgetsExisting(existing: Option<LocationDoc>, u: LocationUpdate)
    requires u.level.Some? && u.achievements.Some?
    ensures Upsert(existing, u) == Upsert(None, u)
  {
  }

  /** The stored document for a user id, if any. */
  function Lookup(store: map<Json, LocationDoc>, userId: Json): Option<LocationDoc> {
    if userId in store then Some(store[userId]) else None
  }

  datatype PostOutcome = PostOutcome(reply: Reply<LocationDoc>, store: map<Json, LocationDoc>)

  /** `POST`. `body` is what `request.json()` produced (`None` when the text is
      not JSON). Destructuring a `null` body throws, so it answers 500 like any
      other failure. A body missing a required field answers 400 and changes
      nothing; a failing update answers 500 and changes nothing; otherwise the
      update is merged into the document for the user id (or creates it), that
      document is answered, and every other user's document is left as it
      was. */
  function Post(db: DbBehaviour, body: Option<Json>, headers: map<string, string>, now: int,
                store: map<Json, LocationDoc>): (out: PostOutcome)
    ensures out.reply.status != 200 ==> out.store == store
    ensures db.Unreachable? || body.None? || body == Some(JNull) ==>
      out.reply == Error(500, "Failed to update location")
    ensures db.Works? && body.Some? && !body.value.JNull? ==>
      (out.reply == Error(400, "Missing required fields") <==> MissingRequired(body.value))
    ensures db.QueryThrows? && body.Some? && !body.value.JNull? && !MissingRequired(body.value) ==>
      out.reply == Error(500, "Failed to update location")
    ensures out.reply.status == 200 ==>
      && db.Works? && body.Some? && !body.value.JNull? && !MissingRequired(body.value)
      && var u := UpdateDoc(body.value, headers, now);
      && out.reply.body == Payload(Upsert(Lookup(store, u.userId), u))
      && out.store.Keys == store.Keys + {u.userId}
      && out.store[u.userId] == out.reply.body.data
      && forall k :: k in store && k != u.userId ==> out.store[k] == store[k]
    ensures db.Works? && body.Some? && !body.value.JNull? && !MissingRequired(body.value) ==>
      out.reply.status == 200
  {
    if db.Unreachable? || body.None? || body.value.JNull? then
      PostOutcome(Error(500, "Failed to update location"), store)
    else if MissingRequired(body.value) then
      PostOutcome(Error(400, "Missing required fields"), store)
    else if db.QueryThrows? then
      PostOutcome(Error(500, "Failed to update location"), store)
    else
      var u := UpdateDoc(body.value, headers, now);
      var doc := Upsert(Lookup(store, u.userId), u);
      PostOutcome(Ok(doc), store[u.userId := doc])
  }

  // ---------------------------------------------------------------------
  // GET

  /** The query parameters of `GET` as the handler reads them: the three
      numbers through `parseFloat` with the texts `'0'`, `'0'` and `'10'` as
      fallbacks, the game as given (`null` when absent), and whether
      `onlineOnly` is exactly the text `'true'`. */
  datatype NearParams = NearParams(
    lat: Number,
    lng: Number,
    maxDistance: Number,
    game: Option<string>,
    onlineOnly: bool)

  /** Reads the parameters. A missing or empty coordinate reads as 0, a
      missing or empty radius as 10, and any parameter written as the decimal
      text of a whole number reads as that number. */
  function ReadNearParams(params: map<string, string>): (r: NearParams)
    ensures "lat" !in params || params["lat"] == "" ==> r.lat == Finite(0.0)
    ensures "lng" !in params || params["lng"] == "" ==> r.lng == Finite(0.0)
    ensures "maxDistance" !in params || params["maxDistance"] == "" ==> r.maxDistance == Finite(10.0)
    ensures forall n: nat :: "lat" in params && params["lat"] == NatToString(n) ==> r.lat == Finite(n as real)
    ensures forall n: nat :: "lng" in params && params["lng"] == NatToString(n) ==> r.lng == Finite(n as real)
    ensures forall n: nat :: "maxDistance" in params && params["maxDistance"] == NatToString(n) ==>
      r.maxDistance == Finite(n as real)
    ensures "lat" in params && params["lat"] != "" ==> r.lat == ParseFloat(params["lat"])
    ensures "lng" in params && params["lng"] != "" ==> r.lng == ParseFloat(params["lng"])
    ensures "maxDistance" in params && params["maxDistance"] != "" ==> r.maxDistance == ParseFloat(params["maxDistance"])
    ensures r.game.Some? <==> "game" in params
    ensures r.game.Some? ==> r.game.value == params["game"]
    ensures r.onlineOnly <==> "onlineOnly" in params && params["onlineOnly"] == "true"
  {
    NearParams(NumberParam(params, "lat", 0), NumberParam(params, "lng", 0),
               NumberParam(params, "maxDistance", 10),
               if "game" in params then Some(params["game"]) else None,
               "onlineOnly" in params && params["onlineOnly"] == "true")
  }

  /** `parseFloat(searchParams.get(key) || fallback)` for a whole-number
      fallback: a missing or empty parameter reads as the fallback, and the
      decimal text of a whole number reads as that number. */
  function NumberParam(params: map<string, string>, key: string, fallback: nat): (x: Number)
    ensures key !in params || params[key] == "" ==> x == Finite(fallback as real)
    ensures key in params && params[key] != "" ==> x == ParseFloat(params[key])
    ensures forall n: nat :: key in params && params[key] == NatToString(n) ==> x == Finite(n as real)
  {
    ParseFloatOfNatToString(fallback);
    forall n: nat | key in params && params[key] == NatToString(n)
      ensures ParseFloat(params[key]) == Finite(n as real)
    {
      ParseFloatOfNatToString(n);
    }
    ParseFloat(ParamOr(params, key, NatToString(fallback)))
  }

  /** The nearby-player query: a `$near` point given as `[lng, lat]` with a
      radius in metres, and the optional game and status constraints. */
  datatype NearQuery = NearQuery(
    coordinates: seq<Number>,
    maxDistanceMetres: Number,
    game: Option<string>,
    isOnline: Option<bool>)

  /** Builds the query, or `None` when the latitude or longitude is falsy
      (zero or NaN). The radius is converted from kilometres to metres; the
      game constraint is present exactly when a game other than `''` and
      `'all'` is given; the online constraint exactly when asked for. */
  function BuildNearQuery(p: NearParams): (q: Option<NearQuery>)
    ensures q.None? <==> !Truthy(p.lat) || !Truthy(p.lng)
    ensures q.Some? ==> q.value.coordinates == [p.lng, p.lat]
    ensures q.Some? && p.maxDistance.Finite? ==>
      q.value.maxDistanceMetres == Finite(p.maxDistance.value * 1000.0)
    ensures q.Some? && !p.maxDistance.Finite? ==> q.value.maxDistanceMetres == p.maxDistance
    ensures q.Some? ==>
      (q.value.game.Some? <==> p.game.Some? && p.game.value != "" && p.game.value != "all")
    ensures q.Some? && q.value.game.Some? ==> q.value.game == p.game
    ensures q.Some? ==> (q.value.isOnline.Some? <==> p.onlineOnly)
    ensures q.Some? && q.value.isOnline.Some? ==> q.value.isOnline.value
  {
    if !Truthy(p.lat) || !Truthy(p.lng) then None
    else
      var game := if p.game.Some? && p.game.value != "" && p.game.value != "all" then p.game else None;
      var online := if p.onlineOnly then Some(true) else None;
      Some(NearQuery([p.lng, p.lat], Mul(p.maxDistance, Finite(1000.0)), game, online))
  }

  /** A viewer exactly on the equator or the prime meridian is turned away:
      the coordinate `"0"` is falsy. */
  lemma EquatorRejected(params: map<string, string>)
    requires ("lat" in params && params["lat"] == "0") || ("lng" in params && params["lng"] == "0")
    ensures BuildNearQuery(ReadNearParams(params)).None?
  {
    var p := ReadNearParams(params);
    assert NatToString(0) == "0";
    assert p.lat == Finite(0.0) || p.lng == Finite(0.0);
  }

  /** A request without a latitude or without a longitude is turned away. */
  lemma MissingCoordinateRejected(params: map<string, string>)
    requires "lat" !in params || "lng" !in params
    ensures BuildNearQuery(ReadNearParams(params)).None?
  {
    var p := ReadNearParams(params);
    assert p.lat == Finite(0.0) || p.lng == Finite(0.0);
  }

  /** With only non-zero whole coordinates given, east or west, north or
      south, the radius is the 10 km default in metres and neither the game
      nor the status is constrained. */
  lemma DefaultNearQuery(lat: int, lng: int)
    requires lat != 0 && lng != 0
    ensures var q := BuildNearQuery(ReadNearParams(map["lat" := IntToString(lat), "lng" := IntToString(lng)]));
      q == Some(NearQuery([Finite(lng as real), Finite(lat as real)], Finite(10000.0), None, None))
  {
    var params := map["lat" := IntToString(lat), "lng" := IntToString(lng)];
    assert params["lat"] == IntToString(lat) && params["lng"] == IntToString(lng);
    assert params["lat"] != "" && params["lng"] != "" by {
      assert |NatToString(if lat < 0 then -lat else lat)| > 0;
      assert |NatToString(if lng < 0 then -lng else lng)| > 0;
    }
    ParseFloatOfIntToString(lat);
    ParseFloatOfIntToString(lng);
    assert "maxDistance" !in params && "game" !in params && "onlineOnly" !in params;
    var p := ReadNearParams(params);
    assert p.lat == Finite(lat as real) && p.lng == Finite(lng as real);
    assert p.maxDistance == Finite(10.0) && p.game.None? && !p.onlineOnly;
    assert Truthy(p.lat) && Truthy(p.lng);
  }

  /** Fractional coordinates west of Greenwich are read with their fraction
      and sign, and the request is accepted. */
  lemma FractionalCoordinatesAccepted()
    ensures var q := BuildNearQuery(ReadNearParams(map["lat" := "40.7128", "lng" := "-74.0060"]));
      q == Some(NearQuery([Finite(-74.006), Finite(40.7128)], Finite(10000.0), None, None))
  {
    var params := map["lat" := "40.7128", "lng" := "-74.0060"];
    assert params["lat"] == "40.7128" && params["lng"] == "-74.0060";
    assert "maxDistance" !in params && "game" !in params && "onlineOnly" !in params;
    ParseFloatLatitude();
    ParseFloatWesternLongitude();
    var p := ReadNearParams(params);
    assert p.lat == Finite(40.7128) && p.lng == Finite(-74.006);
    assert p.maxDistance == Finite(10.0) && p.game.None? && !p.onlineOnly;
  }

  /** A coordinate that is not a number reads as NaN, which is falsy, so the
      request is rejected. */
  lemma NonNumericCoordinateRejected(params: map<string, string>)
    requires "lat" in params && params["lat"] != ""
    requires forall i :: 0 <= i < |params["lat"]| ==> !IsDecimalDigit(params["lat"][i]) && params["lat"][i] != 'I'
    ensures BuildNearQuery(ReadNearParams(params)).None?
  {
    ParseFloatWithoutDigits(params["lat"]);
  }

  /** At most this many players are answered. */
  const NearbyLimit: nat := 50

  /** The sort key of `sort({ lastSeen: -1 })`: newest first. */
  function NewestFirst(d: LocationDoc): real {
    -(d.lastSeen as real)
  }

  /** `.sort({ lastSeen: -1 }).limit(50)` over the matching documents: the
      fifty most recently seen, newest first. */
  function NewestFifty(matches: seq<LocationDoc>): (r: seq<LocationDoc>)
    ensures |r| == if |matches| < NearbyLimit then |matches| else NearbyLimit
    ensures forall i, j :: 0 <= i < j < |r| ==> r[i].lastSeen >= r[j].lastSeen
    ensures multiset(r) <= multiset(matches)
    ensures forall d, i :: d in multiset(matches) - multiset(r) && 0 <= i < |r| ==>
      d.lastSeen <= r[i].lastSeen
  {
    var sorted := Sorting.SortBy(matches, NewestFirst);
    var k := if |sorted| < NearbyLimit then |sorted| else NearbyLimit;
    NewestPrefix(matches, sorted, k);
    sorted[..k]
  }

  /** A prefix of the documents sorted newest first is in non-increasing
      `lastSeen` order, is drawn from the documents, and is at least as new
      as every document it leaves out. */
  lemma NewestPrefix(matches: seq<LocationDoc>, sorted: seq<LocationDoc>, k: nat)
    requires Sorting.SortedBy(sorted, NewestFirst) && multiset(sorted) == multiset(matches)
    requires k <= |sorted|
    ensures var r := sorted[..k];
      && (forall i, j :: 0 <= i < j < |r| ==> r[i].lastSeen >= r[j].lastSeen)
      && multiset(r) <= multiset(matches)
      && (forall d, i :: d in multiset(matches) - multiset(r) && 0 <= i < |r| ==>
            d.lastSeen <= r[i].lastSeen)
  {
    var r := sorted[..k];
    Sorting.SortedPrefixIsLeast(matches, sorted, NewestFirst, k);
    forall d, i | d in multiset(matches) - multiset(r) && 0 <= i < |r|
      ensures d.lastSeen <= r[i].lastSeen
    {
      NewerFirst(sorted[i], d);
    }
    forall i, j | 0 <= i < j < |r| ensures r[i].lastSeen >= r[j].lastSeen {
      NewerFirst(sorted[i], sorted[j]);
    }
  }

  /** A smaller sort key means a later `lastSeen`. */
  lemma NewerFirst(a: LocationDoc, b: LocationDoc)
    ensures NewestFirst(a) <= NewestFirst(b) <==> a.lastSeen >= b.lastSeen
  {
  }

  datatype NearbyResults = NearbyResults(data: seq<LocationDoc>, count: nat)

  /** `GET`, given the parameters as `ReadNearParams` reads them. `matches`
      are the stored documents the query selects (the geospatial selection
      itself is the database's). A failed connection answers 500; a falsy
      coordinate answers 400 before the database is queried; a failing query
      answers 500; otherwise the newest fifty matches come back with their
      count. */
  function Get(db: DbBehaviour, p: NearParams, matches: seq<LocationDoc>): (reply: Reply<NearbyResults>)
    ensures db.Unreachable? ==> reply == Error(500, "Failed to fetch nearby players")
    ensures !db.Unreachable? && (!Truthy(p.lat) || !Truthy(p.lng)) ==>
      reply == Error(400, "Latitude and longitude are required")
    ensures db.QueryThrows? && Truthy(p.lat) && Truthy(p.lng) ==>
      reply == Error(500, "Failed to fetch nearby players")
    ensures db.Works? && Truthy(p.lat) && Truthy(p.lng) ==>
      reply == Ok(NearbyResults(NewestFifty(matches), |NewestFifty(matches)|))
  {
    if db.Unreachable? then Error(500, "Failed to fetch nearby players")
    else match BuildNearQuery(p)
      case None => Error(400, "Latitude and longitude are required")
      case Some(_) =>
        if db.QueryThrows? then Error(500, "Failed to fetch nearby players")
        else
          var data := NewestFifty(matches);
          Ok(NearbyResults(data, |data|))
  }
}
