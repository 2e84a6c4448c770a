/** The nearby-player data shapes of `types/map.ts`. */
module Players {
  import opened Wrappers

  /** A latitude/longitude pair in degrees. */
  datatype Location = Location(lat: real, lng: real)

  /** A nearby player. `distance` is kilometres from the viewer; `lastSeen` is
      display text, not a timestamp. */
  datatype Player = Player(
    id: string,
    name: string,
    game: string,
    location: Location,
    distance: real,
    isOnline: bool,
    lastSeen: string,
    avatar: Option<string>,
    level: Option<int>,
    achievements: Option<seq<string>>)

  /** The criteria `filterPlayers` receives. */
  datatype Filters = Filters(
    searchTerm: string,
    selectedGame: string,
    maxDistance: real,
    onlineOnly: bool)
}
