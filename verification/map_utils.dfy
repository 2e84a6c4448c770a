/** The nearby-player helpers of `lib/map-utils.ts`: filtering, sorting by
    distance, the list of games, distance annotation, mock generation and the
    unit choice of distance formatting. */
module MapUtils {
  import opened Wrappers
  import opened Players
  import opened JsStrings
  import opened JsNumbers
  import Sorting

  // ---------------------------------------------------------------------
  // Filtering

  /** The search criterion: an empty term matches everyone; otherwise the
      lower-cased name or game contains the lower-cased term. */
  predicate MatchesSearch(p: Player, term: string) {
    |term| == 0
    || Includes(LowerStr(p.name), LowerStr(term))
    || Includes(LowerStr(p.game), LowerStr(term))
  }

  /** The game criterion: `'all'` matches every game, anything else exactly. */
  predicate MatchesGame(p: Player, selected: string) {
    selected == "all" || p.game == selected
  }

  /** The distance criterion, inclusive of the ceiling. */
  predicate WithinDistance(p: Player, maxDistance: real) {
    p.distance <= maxDistance
  }

  /** The status criterion. */
  predicate MatchesStatus(p: Player, onlineOnly: bool) {
    !onlineOnly || p.isOnline
  }

  /** The conjunction of the four criteria. */
  predicate SatisfiesAll(p: Player, f: Filters) {
    && MatchesSearch(p, f.searchTerm)
    && MatchesGame(p, f.selectedGame)
    && WithinDistance(p, f.maxDistance)
    && MatchesStatus(p, f.onlineOnly)
  }

  /** The callback handed to `players.filter`, with its early returns in
      source order. It accepts exactly the players meeting all four criteria. */
  predicate Keep(p: Player, f: Filters)
    ensures Keep(p, f) <==> SatisfiesAll(p, f)
  {
    if |f.searchTerm| > 0
       && !(Includes(LowerStr(p.name), LowerStr(f.searchTerm))
            || Includes(LowerStr(p.game), LowerStr(f.searchTerm)))
    then false
    else if f.selectedGame != "all" && p.game != f.selectedGame then false
    else if p.distance > f.maxDistance then false
    else if f.onlineOnly && !p.isOnline then false
    else true
  }

  /** `a` is `b` with some elements left out, in the same relative order. */
  ghost predicate IsSubsequence<T>(a: seq<T>, b: seq<T>)
    decreases |b|
  {
    if |a| == 0 then true
    else if |b| == 0 then false
    else (a[0] == b[0] && IsSubsequence(a[1..], b[1..])) || IsSubsequence(a, b[1..])
  }

  /** `filterPlayers`: a stable filter. The result keeps the input order and
      holds exactly the input players that meet all four criteria. */
  function FilterPlayers(ps: seq<Player>, f: Filters): (r: seq<Player>)
    ensures IsSubsequence(r, ps)
    ensures forall p :: p in r <==> p in ps && SatisfiesAll(p, f)
    ensures forall p {:trigger SatisfiesAll(p, f), multiset(r)[p]} ::
      multiset(r)[p] == if SatisfiesAll(p, f) then multiset(ps)[p] else 0
  {
    if |ps| == 0 then []
    else
      var rest := FilterPlayers(ps[1..], f);
      assert forall p :: p in ps <==> p == ps[0] || p in ps[1..];
      assert ps == [ps[0]] + ps[1..];
      assert multiset(ps) == multiset{ps[0]} + multiset(ps[1..]);
      if Keep(ps[0], f) then [ps[0]] + rest else rest
  }

  /** One step of the filter: the first player is kept or dropped, and the
      rest is filtered. */
  lemma FilterUnfold(ps: seq<Player>, f: Filters)
    requires |ps| > 0
    ensures FilterPlayers(ps, f) == (if Keep(ps[0], f) then [ps[0]] else []) + FilterPlayers(ps[1..], f)
  {
  }

  /** Filtering a list whose players all meet the criteria changes nothing. */
  lemma {:induction false} FilterKeepsAll(ps: seq<Player>, f: Filters)
    requires forall p :: p in ps ==> SatisfiesAll(p, f)
    ensures FilterPlayers(ps, f) == ps
  {
    if |ps| > 0 {
      assert ps[0] in ps;
      assert forall p :: p in ps[1..] ==> p in ps;
      FilterKeepsAll(ps[1..], f);
      assert ps == [ps[0]] + ps[1..];
    }
  }

  /** Filtering is idempotent. */
  lemma {:induction false} FilterIdempotent(ps: seq<Player>, f: Filters)
    ensures FilterPlayers(FilterPlayers(ps, f), f) == FilterPlayers(ps, f)
  {
    FilterKeepsAll(FilterPlayers(ps, f), f);
  }

  /** With an empty search, every game, no status restriction and a ceiling at
      or above every distance, the filter is the identity. */
  lemma {:induction false} FilterWithOpenCriteria(ps: seq<Player>, f: Filters)
    requires f.searchTerm == "" && f.selectedGame == "all" && !f.onlineOnly
    requires forall p :: p in ps ==> p.distance <= f.maxDistance
    ensures FilterPlayers(ps, f) == ps
  {
    FilterKeepsAll(ps, f);
  }

  /** The ceiling is inclusive: a player exactly at the maximum distance who
      meets the other criteria is kept. */
  lemma FilterKeepsPlayerAtCeiling(ps: seq<Player>, f: Filters, p: Player)
    requires p in ps && p.distance == f.maxDistance
    requires MatchesSearch(p, f.searchTerm) && MatchesGame(p, f.selectedGame)
    requires MatchesStatus(p, f.onlineOnly)
    ensures p in FilterPlayers(ps, f)
  {
  }

  /** The search is case-insensitive: lower-casing the term first changes
      nothing. */
  lemma {:induction false} FilterIgnoresTermCase(ps: seq<Player>, f: Filters)
    ensures FilterPlayers(ps, f.(searchTerm := LowerStr(f.searchTerm))) == FilterPlayers(ps, f)
  {
    if |ps| > 0 {
      LowerStrIdempotent(f.searchTerm);
      FilterIgnoresTermCase(ps[1..], f);
    }
  }

  // ---------------------------------------------------------------------
  // Sorting and the list of games

  /** The sort key of `sortPlayersByDistance`. */
  function DistanceOf(p: Player): real {
    p.distance
  }

  /** `sortPlayersByDistance`: a sorted copy. The result is a permutation of
      the input, non-decreasing by distance; the input value is untouched. */
  function SortPlayersByDistance(ps: seq<Player>): (r: seq<Player>)
    ensures multiset(r) == multiset(ps)
    ensures forall i, j :: 0 <= i < j < |r| ==> r[i].distance <= r[j].distance
  {
    var r := Sorting.SortBy(ps, DistanceOf);
    assert forall i, j :: 0 <= i < j < |r| ==> DistanceOf(r[i]) <= DistanceOf(r[j]);
    r
  }

  /** The index of the first occurrence of `x` in `s`. */
  function FirstIndex<T(==)>(s: seq<T>, x: T): (k: nat)
    requires x in s
    ensures k < |s| && s[k] == x && x !in s[..k]
  {
    if s[0] == x then 0
    else
      var k := FirstIndex(s[1..], x);
      assert s[..k + 1] == [s[0]] + s[1..][..k];
      k + 1
  }

  /** The elements of `s` not in `seen`, each once, in order of first
      occurrence: what iterating a JavaScript `Set` built from `s` yields. */
  function Distinct(s: seq<string>, seen: set<string>): (r: seq<string>)
    ensures forall x :: x in r <==> x in s && x !in seen
    ensures forall i, j :: 0 <= i < j < |r| ==> r[i] != r[j]
    ensures forall i, j :: 0 <= i < j < |r| ==> FirstIndex(s, r[i]) < FirstIndex(s, r[j])
  {
    if |s| == 0 then []
    else
      assert forall x :: x in s <==> x == s[0] || x in s[1..];
      if s[0] in seen then
        var r := Distinct(s[1..], seen);
        assert forall i :: 0 <= i < |r| ==> r[i] != s[0] && FirstIndex(s, r[i]) == FirstIndex(s[1..], r[i]) + 1;
        r
      else
        var t := Distinct(s[1..], seen + {s[0]});
        assert forall i :: 0 <= i < |t| ==> t[i] != s[0] && FirstIndex(s, t[i]) == FirstIndex(s[1..], t[i]) + 1;
        [s[0]] + t
  }

  /** `players.map(player => player.game)`. */
  function Games(ps: seq<Player>): (gs: seq<string>)
    ensures |gs| == |ps| && forall i :: 0 <= i < |ps| ==> gs[i] == ps[i].game
  {
    if |ps| == 0 then [] else [ps[0].game] + Games(ps[1..])
  }

  /** `getUniqueGames`: every game played by some player, each once, in the
      order the games first appear in the list. */
  function GetUniqueGames(ps: seq<Player>): (r: seq<string>)
    ensures forall g :: g in r <==> exists p :: p in ps && p.game == g
    ensures forall i, j :: 0 <= i < j < |r| ==> r[i] != r[j]
    ensures forall i :: 0 <= i < |r| ==> r[i] in Games(ps)
    ensures forall i, j :: 0 <= i < j < |r| ==>
      FirstIndex(Games(ps), r[i]) < FirstIndex(Games(ps), r[j])
  {
    var gs := Games(ps);
    assert forall g :: g in gs <==> exists p :: p in ps && p.game == g by {
      forall g | g in gs ensures exists p :: p in ps && p.game == g {
        var i :| 0 <= i < |gs| && gs[i] == g;
        assert ps[i] in ps;
      }
      forall g | exists p :: p in ps && p.game == g ensures g in gs {
        var p :| p in ps && p.game == g;
        var i :| 0 <= i < |ps| && ps[i] == p;
        assert gs[i] == g;
      }
    }
    Distinct(gs, {})
  }

  // ---------------------------------------------------------------------
  // Distances

  /** `calculatePlayerDistances`: each player is copied with its distance from
      the viewer replaced; `distance` stands for the Haversine formula. */
  function CalculatePlayerDistances(ps: seq<Player>, viewer: Location,
                                    distance: (Location, Location) -> real): (r: seq<Player>)
    ensures |r| == |ps|
    ensures forall i :: 0 <= i < |ps| ==>
      r[i].(distance := ps[i].distance) == ps[i]
      && r[i].distance == distance(viewer, ps[i].location)
  {
    if |ps| == 0 then []
    else
      [ps[0].(distance := distance(viewer, ps[0].location))]
      + CalculatePlayerDistances(ps[1..], viewer, distance)
  }

  /** The unit `formatDistance` chooses; the decimal text of kilometres is not
      modelled. */
  datatype DistanceText = Metres(metres: int) | Kilometres(km: real)

  /** `formatDistance`: under one kilometre the distance is shown as rounded
      metres, otherwise in kilometres. */
  function FormatDistance(d: real): (t: DistanceText)
    ensures t.Metres? <==> d < 1.0
    ensures t.Metres? ==> d * 1000.0 - 0.5 < t.metres as real <= d * 1000.0 + 0.5
    ensures 0.0 <= d < 1.0 ==> 0 <= t.metres <= 1000
    ensures t.Kilometres? ==> t.km == d
  {
    if d < 1.0 then Metres(Round(d * 1000.0)) else Kilometres(d)
  }

  /** A distance just under one kilometre is shown as "1000m". */
  lemma FormatDistanceJustUnderOneKm()
    ensures FormatDistance(0.9996) == Metres(1000)
  {
  }

  // ---------------------------------------------------------------------
  // Mock players

  /** The `Math.random()` draws made for one generated player, in call order;
      each lies in [0, 1). */
  datatype Draw = Draw(latShift: real, lngShift: real, online: real,
                       minutes: real, level: real, achievements: real)

  predicate ValidDraw(d: Draw) {
    && 0.0 <= d.latShift < 1.0 && 0.0 <= d.lngShift < 1.0
    && 0.0 <= d.online < 1.0 && 0.0 <= d.minutes < 1.0
    && 0.0 <= d.level < 1.0 && 0.0 <= d.achievements < 1.0
  }

  const MockGames: seq<string> := ["FIFA 24", "Call of Duty", "Fortnite", "Apex Legends", "Valorant"]
  const MockNames: seq<string> := [
    "Alex_Gamer", "Sarah_Pro", "Mike_Player", "Emma_Gamer", "John_Doe",
    "Lisa_Player", "David_Pro", "Anna_Gamer", "Tom_Player", "Kate_Pro"]
  const MockAchievements: seq<string> := ["First Win", "Team Player", "MVP"]
  const MockPlayerCount: nat := 10

  /** The id of the player generated at `index`: `player-${index + 1}`. */
  function PlayerId(index: nat): string {
    "player-" + NatToString(index + 1)
  }

  /** Different indices give different ids. */
  lemma PlayerIdInjective(i: nat, j: nat)
    ensures PlayerId(i) == PlayerId(j) ==> i == j
  {
    if PlayerId(i) == PlayerId(j) {
      assert NatToString(i + 1) == PlayerId(i)[7..];
      assert NatToString(j + 1) == PlayerId(j)[7..];
      NatToStringInjective(i + 1, j + 1);
    }
  }

  /** `Math.floor(r * n)` for a draw `r` in [0, 1) lies in [0, n). */
  function Scale(r: real, n: nat): (k: nat)
    requires 0.0 <= r < 1.0 && n > 0
    ensures k < n
  {
    var x := r * n as real;
    assert 0.0 <= x < n as real by {
      assert (1.0 - r) * (n as real) > 0.0;
    }
    x.Floor
  }

  /** `${Math.floor(r * 60)} minutes ago`. */
  function LastSeenText(minutes: nat): string {
    NatToString(minutes) + " minutes ago"
  }

  /** `Math.floor(r * 100) + 1`. */
  function MockLevel(r: real): (level: int)
    requires 0.0 <= r < 1.0
    ensures 1 <= level <= 100
  {
    Scale(r, 100) + 1
  }

  /** `labels.slice(0, Math.floor(r * 3) + 1)`: a non-empty prefix of at most
      three labels. */
  function MockAchievementList(labels: seq<string>, r: real): (a: seq<string>)
    requires 0.0 <= r < 1.0 && |labels| >= 3
    ensures 1 <= |a| <= 3 && a == labels[..|a|]
  {
    labels[..Scale(r, 3) + 1]
  }

  /** The player generated at `index` around `viewer`. */
  function MockPlayer(index: nat, viewer: Location, d: Draw): (p: Player)
    requires ValidDraw(d)
    ensures viewer.lat - 0.05 <= p.location.lat < viewer.lat + 0.05
    ensures viewer.lng - 0.05 <= p.location.lng < viewer.lng + 0.05
    ensures p.level.Some? && 1 <= p.level.value <= 100
    ensures p.achievements.Some? && 1 <= |p.achievements.value| <= 3
    ensures p.achievements.value == MockAchievements[..|p.achievements.value|]
  {
    Player(
      PlayerId(index),
      MockNames[index % |MockNames|],
      MockGames[index % |MockGames|],
      Location(viewer.lat + (d.latShift - 0.5) * 0.1, viewer.lng + (d.lngShift - 0.5) * 0.1),
      0.0,
      d.online > 0.3,
      LastSeenText(Scale(d.minutes, 60)),
      None,
      Some(MockLevel(d.level)),
      Some(MockAchievementList(MockAchievements, d.achievements)))
  }

  /** `generateMockPlayers`: ten players with ids `player-1`..`player-10`,
      names and games assigned cyclically, positions within 0.05 degrees of
      the viewer on each axis, distance 0 (filled in later), a level in
      1..100 and one to three achievements. */
  function GenerateMockPlayers(viewer: Location, draws: seq<Draw>): (r: seq<Player>)
    requires |draws| == MockPlayerCount
    requires forall i :: 0 <= i < |draws| ==> ValidDraw(draws[i])
    ensures |r| == MockPlayerCount
    ensures forall i :: 0 <= i < |r| ==>
      && r[i].id == PlayerId(i)
      && r[i].name == MockNames[i % 10]
      && r[i].game == MockGames[i % 5]
      && r[i].distance == 0.0
      && viewer.lat - 0.05 <= r[i].location.lat < viewer.lat + 0.05
      && viewer.lng - 0.05 <= r[i].location.lng < viewer.lng + 0.05
      && (r[i].isOnline <==> draws[i].online > 0.3)
      && r[i].level.Some? && 1 <= r[i].level.value <= 100
      && r[i].achievements.Some? && 1 <= |r[i].achievements.value| <= 3
      && r[i].achievements.value == MockAchievements[..|r[i].achievements.value|]
    ensures forall i, j :: 0 <= i < j < |r| ==> r[i].id != r[j].id
  {
    var r := seq(MockPlayerCount, i requires 0 <= i < MockPlayerCount => MockPlayer(i, viewer, draws[i]));
    assert |MockNames| == 10 && |MockGames| == 5;
    assert forall i :: 0 <= i < |r| ==> r[i] == MockPlayer(i, viewer, draws[i]);
    forall i, j | 0 <= i < j < |r| ensures r[i].id != r[j].id {
      PlayerIdInjective(i, j);
    }
    r
  }
}
