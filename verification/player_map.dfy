/** The nearby-player map component (`components/map/player-map.tsx`): its own
    copies of the filter, game list and mock generator, the start-up sequence
    with its fallback origin, and the filter state with the effect that keeps
    the displayed list in step with it. */
module PlayerMap {
  import opened Wrappers
  import opened Players
  import opened JsStrings
  import MapUtils

  // ---------------------------------------------------------------------
  // The component's copies of the helpers

  /** The component's `filterPlayers`, run as the loop `players.filter`
      performs; it keeps exactly what the library filter keeps. */
  method FilterPlayers(ps: seq<Player>, f: Filters) returns (r: seq<Player>)
    ensures r == MapUtils.FilterPlayers(ps, f)
  {
    r := [];
    var i := 0;
    while i < |ps|
      invariant 0 <= i <= |ps|
      invariant r + MapUtils.FilterPlayers(ps[i..], f) == MapUtils.FilterPlayers(ps, f)
    {
      var p := ps[i];
      var keep := KeepPlayer(p, f);
      FilterStep(ps, f, i, r);
      if keep {
        r := r + [p];
      }
      i := i + 1;
    }
  }

  /** The loop step: appending the player at `i` when it is kept moves the
      split point of the filtered list one place on. */
  lemma FilterStep(ps: seq<Player>, f: Filters, i: nat, r: seq<Player>)
    requires i < |ps|
    requires r + MapUtils.FilterPlayers(ps[i..], f) == MapUtils.FilterPlayers(ps, f)
    ensures (if MapUtils.Keep(ps[i], f) then r + [ps[i]] else r) + MapUtils.FilterPlayers(ps[i + 1..], f)
      == MapUtils.FilterPlayers(ps, f)
  {
    MapUtils.FilterUnfold(ps[i..], f);
    assert ps[i..][0] == ps[i] && ps[i..][1..] == ps[i + 1..];
    if MapUtils.Keep(ps[i], f) {
      assert r + [ps[i]] + MapUtils.FilterPlayers(ps[i + 1..], f)
        == r + ([ps[i]] + MapUtils.FilterPlayers(ps[i + 1..], f));
    }
  }

  /** The body of the component's filter callback: its early-return chain
      keeps a player exactly when the library's criteria do. */
  method KeepPlayer(p: Player, f: Filters) returns (keep: bool)
    ensures keep == MapUtils.Keep(p, f)
  {
    keep := true;
    if |f.searchTerm| > 0 {
      var searchLower := LowerStr(f.searchTerm);
      var matchesSearch := Includes(LowerStr(p.name), searchLower)
                           || Includes(LowerStr(p.game), searchLower);
      if !matchesSearch {
        keep := false;
      }
    }
    if keep && f.selectedGame != "all" && p.game != f.selectedGame {
      keep := false;
    }
    if keep && p.distance > f.maxDistance {
      keep := false;
    }
    if keep && f.onlineOnly && !p.isOnline {
      keep := false;
    }
  }

  /** The component's `getUniqueGames`, run as inserting each game into a
      `Set` and reading the set back in insertion order; it yields exactly the
      library's list. */
  method GetUniqueGames(ps: seq<Player>) returns (r: seq<string>)
    ensures r == MapUtils.GetUniqueGames(ps)
  {
    ghost var gs := MapUtils.Games(ps);
    var seen: set<string> := {};
    r := [];
    var i := 0;
    while i < |ps|
      invariant 0 <= i <= |ps|
      invariant r + MapUtils.Distinct(gs[i..], seen) == MapUtils.Distinct(gs, {})
    {
      var g := ps[i].game;
      DistinctStep(gs, i, seen, r);
      if g !in seen {
        r := r + [g];
        seen := seen + {g};
      }
      i := i + 1;
    }
  }

  /** The loop step: a game not seen before is appended and becomes seen;
      a seen one is skipped. */
  lemma DistinctStep(gs: seq<string>, i: nat, seen: set<string>, r: seq<string>)
    requires i < |gs|
    requires r + MapUtils.Distinct(gs[i..], seen) == MapUtils.Distinct(gs, {})
    ensures gs[i] !in seen ==>
      r + [gs[i]] + MapUtils.Distinct(gs[i + 1..], seen + {gs[i]}) == MapUtils.Distinct(gs, {})
    ensures gs[i] in seen ==> r + MapUtils.Distinct(gs[i + 1..], seen) == MapUtils.Distinct(gs, {})
  {
    assert gs[i..][0] == gs[i] && gs[i..][1..] == gs[i + 1..];
    if gs[i] !in seen {
      assert r + [gs[i]] + MapUtils.Distinct(gs[i + 1..], seen + {gs[i]})
        == r + ([gs[i]] + MapUtils.Distinct(gs[i + 1..], seen + {gs[i]}));
    }
  }

  // ---------------------------------------------------------------------
  // Mock players

  const Games: seq<string> := [
    "FIFA 24", "Call of Duty", "Fortnite", "Apex Legends", "Valorant",
    "League of Legends", "Dota 2", "CS:GO"]
  const Names: seq<string> := [
    "Alex_Gamer", "Sarah_Pro", "Mike_Player", "Emma_Gamer", "John_Doe",
    "Lisa_Player", "David_Pro", "Anna_Gamer", "Tom_Player", "Kate_Pro",
    "Chris_Elite", "Maria_Queen", "Jake_Slayer", "Sophie_Pro", "Ryan_Gamer"]
  const Achievements: seq<string> := ["First Win", "Team Player", "MVP", "Kill Leader", "Survivor"]
  const PlayerCount: nat := 15

  /** What one generated player draws. The angle and radius draws enter only
      through the trigonometric placement, so they are represented by its
      results: the degree offsets from the viewer and the Haversine distance.
      The remaining four are `Math.random()` values in [0, 1). */
  datatype PlacedDraw = PlacedDraw(latOffset: real, lngOffset: real, distance: real,
                                   online: real, minutes: real, level: real,
                                   achievements: real)

  predicate ValidDraw(d: PlacedDraw) {
    && 0.0 <= d.online < 1.0 && 0.0 <= d.minutes < 1.0
    && 0.0 <= d.level < 1.0 && 0.0 <= d.achievements < 1.0
  }

  /** The player generated at `index` around (`lat`, `lng`). */
  function MockPlayer(index: nat, lat: real, lng: real, d: PlacedDraw): (p: Player)
    requires ValidDraw(d)
    ensures p.level.Some? && 1 <= p.level.value <= 100
    ensures p.achievements.Some? && 1 <= |p.achievements.value| <= 3
    ensures p.achievements.value == Achievements[..|p.achievements.value|]
  {
    Player(
      MapUtils.PlayerId(index),
      Names[index % |Names|],
      Games[index % |Games|],
      Location(lat + d.latOffset, lng + d.lngOffset),
      d.distance,
      d.online > 0.3,
      MapUtils.LastSeenText(MapUtils.Scale(d.minutes, 60)),
      None,
      Some(MapUtils.MockLevel(d.level)),
      Some(MapUtils.MockAchievementList(Achievements, d.achievements)))
  }

  /** The component's `generateMockPlayers`: fifteen players with distinct ids
      `player-1`..`player-15`, names and games assigned cyclically from the
      component's larger lists, placed at the drawn offsets from the viewer,
      with a level in 1..100 and one to three of the five achievement labels. */
  function GenerateMockPlayers(lat: real, lng: real, draws: seq<PlacedDraw>): (r: seq<Player>)
    requires |draws| == PlayerCount
    requires forall i :: 0 <= i < |draws| ==> ValidDraw(draws[i])
    ensures |r| == PlayerCount
    ensures forall i :: 0 <= i < |r| ==>
      && r[i].id == MapUtils.PlayerId(i)
      && r[i].name == Names[i % 15]
      && r[i].game == Games[i % 8]
      && r[i].location == Location(lat + draws[i].latOffset, lng + draws[i].lngOffset)
      && r[i].distance == draws[i].distance
      && r[i].level.Some? && 1 <= r[i].level.value <= 100
      && r[i].achievements.Some? && 1 <= |r[i].achievements.value| <= 3
      && r[i].achievements.value == Achievements[..|r[i].achievements.value|]
    ensures forall i, j :: 0 <= i < j < |r| ==> r[i].id != r[j].id
  {
    var r := seq(PlayerCount, i requires 0 <= i < PlayerCount => MockPlayer(i, lat, lng, draws[i]));
    assert |Names| == 15 && |Games| == 8;
    assert forall i :: 0 <= i < |r| ==> r[i] == MockPlayer(i, lat, lng, draws[i]);
    forall i, j | 0 <= i < j < |r| ensures r[i].id != r[j].id {
      MapUtils.PlayerIdInjective(i, j);
    }
    r
  }

  // ---------------------------------------------------------------------
  // Component state

  /** What the browser's geolocation request produced. */
  datatype Geolocation = Unsupported | Failed | Located(lat: real, lng: real)

  /** The fallback origin used when no position is available. */
  const DefaultLocation: Location := Location(40.7128, -74.0060)

  /** The initial filter state: empty search, every game, 10 km, all players. */
  const InitialFilters: Filters := Filters("", "all", 10.0, false)

  /** The component's state variables. */
  datatype MapState = MapState(
    players: seq<Player>,
    filteredPlayers: seq<Player>,
    filters: Filters,
    userLocation: Option<Location>,
    isLoading: bool)

  /** The state before the geolocation request answers. */
  const InitialState: MapState := MapState([], [], InitialFilters, None, true)

  /** The initial filters keep exactly the players within 10 km. */
  lemma InitialFiltersKeepWithinTenKm(ps: seq<Player>)
    ensures forall p :: p in MapUtils.FilterPlayers(ps, InitialFilters) <==> p in ps && p.distance <= 10.0
  {
  }

  /** The start-up effect's geolocation callback, applied to the state `s`
      the component is in when the position arrives (the filter controls may
      have been used while it was pending): the position (or, when
      geolocation fails or is unsupported, the fallback origin) becomes the
      origin, players are generated around it and sorted by distance, both
      lists show them, and the criteria are left as they are. */
  function Mount(s: MapState, g: Geolocation, draws: seq<PlacedDraw>): (s': MapState)
    requires |draws| == PlayerCount
    requires forall i :: 0 <= i < |draws| ==> ValidDraw(draws[i])
    ensures g.Located? ==> s'.userLocation == Some(Location(g.lat, g.lng))
    ensures !g.Located? ==> s'.userLocation == Some(DefaultLocation)
    ensures multiset(s'.players) == multiset(GenerateMockPlayers(s'.userLocation.value.lat, s'.userLocation.value.lng, draws))
    ensures |s'.players| == PlayerCount
    ensures forall i, j :: 0 <= i < j < |s'.players| ==> s'.players[i].distance <= s'.players[j].distance
    ensures s'.filteredPlayers == s'.players
    ensures s'.filters == s.filters && !s'.isLoading
  {
    var origin := if g.Located? then Location(g.lat, g.lng) else DefaultLocation;
    var mockPlayers := GenerateMockPlayers(origin.lat, origin.lng, draws);
    var sortedPlayers := MapUtils.SortPlayersByDistance(mockPlayers);
    assert |sortedPlayers| == |multiset(sortedPlayers)| == |mockPlayers|;
    s.(userLocation := Some(origin), players := sortedPlayers,
       filteredPlayers := sortedPlayers, isLoading := false)
  }

  /** The displayed list is the filter of the players by the current criteria. */
  predicate Consistent(s: MapState) {
    s.filteredPlayers == MapUtils.FilterPlayers(s.players, s.filters)
  }

  /** The filtering effect, re-run whenever the criteria or players change. */
  function Refilter(s: MapState): (s': MapState)
    ensures Consistent(s')
    ensures s'.players == s.players && s'.filters == s.filters
    ensures s'.userLocation == s.userLocation && s'.isLoading == s.isLoading
  {
    s.(filteredPlayers := MapUtils.FilterPlayers(s.players, s.filters))
  }

  /** A user action on the filter controls. `DistanceSelected` carries the
      numeric value of one of the options 2, 5, 10, 25 or 50. */
  datatype Event =
    | SearchTyped(term: string)
    | GameSelected(game: string)
    | DistanceSelected(km: real)
    | OnlineToggled

  /** One action followed by the filtering effect: only the touched criterion
      changes, the players stay, and the displayed list is again the filter
      of the players. */
  function Step(s: MapState, e: Event): (s': MapState)
    ensures Consistent(s')
    ensures s'.players == s.players && s'.userLocation == s.userLocation && s'.isLoading == s.isLoading
    ensures e.SearchTyped? ==> s'.filters == s.filters.(searchTerm := e.term)
    ensures e.GameSelected? ==> s'.filters == s.filters.(selectedGame := e.game)
    ensures e.DistanceSelected? ==> s'.filters == s.filters.(maxDistance := e.km)
    ensures e.OnlineToggled? ==> s'.filters == s.filters.(onlineOnly := !s.filters.onlineOnly)
  {
    var f := s.filters;
    var f' := match e
      case SearchTyped(t) => f.(searchTerm := t)
      case GameSelected(g) => f.(selectedGame := g)
      case DistanceSelected(km) => f.(maxDistance := km)
      case OnlineToggled => f.(onlineOnly := !f.onlineOnly);
    Refilter(s.(filters := f'))
  }

  /** When the criteria are still the initial ones, the filtering effect that
      re-runs after start-up leaves the sorted list on display unchanged,
      provided every generated player lies within 10 km. */
  lemma {:induction false} MountThenRefilter(s0: MapState, g: Geolocation, draws: seq<PlacedDraw>)
    requires s0.filters == InitialFilters
    requires |draws| == PlayerCount
    requires forall i :: 0 <= i < |draws| ==> ValidDraw(draws[i])
    requires forall i :: 0 <= i < |draws| ==> draws[i].distance <= 10.0
    ensures Refilter(Mount(s0, g, draws)) == Mount(s0, g, draws)
  {
    var s := Mount(s0, g, draws);
    var gen := GenerateMockPlayers(s.userLocation.value.lat, s.userLocation.value.lng, draws);
    forall p | p in s.players ensures p.distance <= 10.0 {
      assert p in multiset(gen);
      var i :| 0 <= i < |gen| && gen[i] == p;
    }
    MapUtils.FilterWithOpenCriteria(s.players, s.filters);
  }

  /** The options of the game selector: `'all'` followed by the games of the
      players, each once, in order of first appearance. */
  function GameOptions(s: MapState): (opts: seq<string>)
    ensures |opts| >= 1 && opts[0] == "all"
    ensures forall g :: g in opts[1..] <==> exists p :: p in s.players && p.game == g
    ensures forall i, j :: 1 <= i < j < |opts| ==> opts[i] != opts[j]
    ensures opts[1..] == MapUtils.GetUniqueGames(s.players)
  {
    var games := MapUtils.GetUniqueGames(s.players);
    assert (["all"] + games)[1..] == games;
    ["all"] + games
  }
}
