/** Values shared by the tournament resolver and the route handlers: the
    records the system passes around, the untyped values that come out of
    JSON, the key/value store and the caches, the schema guards that turn
    the latter into the former, and the outside world (files and network)
    as oracles. */
module Values {

  datatype Option<T> = None | Some(value: T)

  /** The exceptions the modelled code can throw. */
  datatype Error =
    | MissingGroupField           // `parts[1]` is undefined, so `parts[1].trim()` throws a TypeError
    | InvalidKvRecord             // "Tournament info found in KV for <id> but invalid"
    | InvalidDefaultDocument      // "Tournament info read from <path> but invalid"
    | ReadFailed(path: string)    // `Deno.readTextFile` or `JSON.parse` throws
    | FetchFailed(url: string)    // `fetch` rejects, or its body cannot be read or parsed

  /** A computation that either returns a value or throws. */
  datatype Result<T> = Ok(value: T) | Err(error: Error)

  /** A roster entry. `group` is None when the source leaves it `undefined`. */
  datatype Player = Player(username: string, group: Option<string>)

  datatype DateRange = DateRange(start: string, end: string)

  /** Tournament metadata; the tournament-type-specific fields are not modelled. */
  datatype TournamentInfo = TournamentInfo(
    name: string,
    infoUrl: string,
    dateRange: DateRange,
    players: seq<Player>)

  /** A game of the remote games API; opaque to this core. */
  datatype Game = Game(id: nat)

  datatype Group = Group(name: string, winner: Option<string>, winnerMethod: Option<string>)

  /** The output of the external analysis; only the fields the handler reads. */
  datatype Status = Status(tournamentType: string, groups: seq<Group>, players: seq<Player>)

  /** An untyped JavaScript value, as produced by `JSON.parse`, read from the
      key/value store or held by a cache. Each object case carries the fields
      of the record it is shaped like; whether it really is one is for a
      schema guard to decide. */
  datatype Value =
    | Nullish                        // null or undefined
    | Scalar(truthy: bool)           // a boolean, number or string, with its truthiness
    | InfoDoc(info: TournamentInfo)  // an object shaped like tournament info
    | GameList(items: seq<Game>)     // an object shaped like a games API response
    | StatusDoc(status: Status)      // an object shaped like a tournament status
    | OtherObject                    // any other object or array

  /** JavaScript truthiness: every object is truthy. */
  predicate Truthy(v: Value) {
    match v
    case Nullish => false
    case Scalar(t) => t
    case _ => true
  }

  /** The schema guards imported from modules this core cannot see. Each one
      decides, for a value of the right shape, whether it is safe to trust. */
  datatype Guards = Guards(
    tournamentInfo: TournamentInfo -> bool,
    tournamentInfoFromJson: TournamentInfo -> bool,
    tournamentStatus: Status -> bool,
    gameListResponse: seq<Game> -> bool)

  predicate IsTournamentInfo(g: Guards, v: Value) {
    v.InfoDoc? && g.tournamentInfo(v.info)
  }

  predicate IsTournamentInfoFromJson(g: Guards, v: Value) {
    v.InfoDoc? && g.tournamentInfoFromJson(v.info)
  }

  predicate IsTournamentStatus(g: Guards, v: Value) {
    v.StatusDoc? && g.tournamentStatus(v.status)
  }

  predicate IsGameListResponse(g: Guards, v: Value) {
    v.GameList? && g.gameListResponse(v.items)
  }

  /** An entry of a bundled tournament table. */
  datatype Descriptor = Descriptor(infoPath: string, playersCsvUrl: Option<string>)

  /** `tournamentData.playersCsvUrl` is truthy: present and not the empty string. */
  predicate HasRosterUrl(d: Descriptor) {
    d.playersCsvUrl.Some? && d.playersCsvUrl.value != ""
  }

  predicate Distinct<T(==)>(s: seq<T>) {
    forall i, j :: 0 <= i < j < |s| ==> s[i] != s[j]
  }

  /** A bundled table of known tournaments: a JavaScript object literal, with
      its keys in `Object.keys` order and its entries. */
  datatype Table = Table(ids: seq<string>, entries: map<string, Descriptor>) {
    predicate Valid() {
      Distinct(ids) && entries.Keys == set id | id in ids
    }
  }

  /** The outside world seen by the resolver and the handlers. A missing key
      means the corresponding call throws. */
  datatype Env = Env(
    guards: Guards,
    files: map<string, Value>,   // path -> JSON.parse(await Deno.readTextFile(path))
    texts: map<string, string>,  // url -> await (await fetch(url)).text()
    api: map<string, Value>)     // url -> await (await fetch(url)).json()
}
