/** The data side of the web routes in routes.ts: the roster parser that
    skips a header line, the read-through cache of the games API, the
    assembly of a tournament's data with its memoised status, and the
    choice of reply (status code or page with its group projection) made by
    the `/tournaments/:id` handler. */
module Routes {
  import opened Values
  import opened Text
  import opened Stores
  import TournamentModel

  // ---------------------------------------------------------------------
  // Roster parsing: the first line is a header, fields are not trimmed

  /** One roster line: the first and second comma-separated fields of the
      trimmed line, as they are. A line without a comma has no second field,
      and the group is left undefined. */
  function Row(line: string): (p: Player)
    ensures p.group.None? <==> ',' !in Trim(line)
    ensures p.group.None? ==> p.username == Trim(line)
    ensures ',' !in p.username
    ensures p.group.Some? ==> ',' !in p.group.value
  {
    var parts := Split(Trim(line), ',');
    Player(parts[0], if |parts| >= 2 then Some(parts[1]) else None)
  }

  /** `parsePlayersCsv`: one player per line of the trimmed document except
      the first, in order. It never throws, and `filter(Boolean)` drops no
      row, since every row is an array. */
  function ParsePlayersCsv(doc: string): (players: seq<Player>)
    ensures |players| == |Lines(doc)| - 1
    ensures forall i :: 0 <= i < |players| ==> players[i] == Row(Lines(doc)[i + 1])
  {
    var lines := Lines(doc);
    seq(|lines| - 1, i requires 0 <= i < |lines| - 1 => Row(lines[i + 1]))
  }

  /** A row is its first two comma-separated fields exactly as written,
      surrounding spaces included; the fields after the second are ignored. */
  lemma RowFields(line: string, username: string, group: string, extra: seq<string>)
    requires Free([username, group] + extra, ',')
    requires Trim(line) == Join([username, group] + extra, ',')
    ensures Row(line) == Player(username, Some(group))
  {
    SplitJoin([username, group] + extra, ',');
  }

  /** A document whose trimmed text is a header line and then the rows,
      joined by "\n", yields one player per row, in order: the header is
      skipped and nothing else is. */
  lemma ParsePlayersCsvRows(doc: string, header: string, rows: seq<string>)
    requires Free([header] + rows, '\n')
    requires Trim(doc) == Join([header] + rows, '\n')
    ensures |ParsePlayersCsv(doc)| == |rows|
    ensures forall i :: 0 <= i < |rows| ==> ParsePlayersCsv(doc)[i] == Row(rows[i])
  {
    SplitJoin([header] + rows, '\n');
    assert Lines(doc) == [header] + rows;
  }

  /** On a line both variants accept, the row of the models variant is this
      variant's row with both fields trimmed. */
  lemma RowsAgreeUpToTrim(line: string)
    requires TournamentModel.ParseRow(line).Ok?
    ensures Row(line).group.Some?
    ensures TournamentModel.ParseRow(line).value
         == Player(Trim(Row(line).username), Some(Trim(Row(line).group.value)))
  {
  }

  /** Where the models variant parses a document, this variant yields the
      same players except the first, with untrimmed fields. */
  lemma {:induction false} HeaderDropped(doc: string)
    requires TournamentModel.ParsePlayersCsv(doc).Ok?
    ensures var all := TournamentModel.ParsePlayersCsv(doc).value;
      && |ParsePlayersCsv(doc)| == |all| - 1
      && forall i :: 0 <= i < |ParsePlayersCsv(doc)| ==>
           all[i + 1] == Player(Trim(ParsePlayersCsv(doc)[i].username),
                                Some(Trim(ParsePlayersCsv(doc)[i].group.value)))
  {
    var all := TournamentModel.ParsePlayersCsv(doc).value;
    var lines := Lines(doc);
    var players := ParsePlayersCsv(doc);
    forall i | 0 <= i < |players|
      ensures all[i + 1] == Player(Trim(players[i].username), Some(Trim(players[i].group.value)))
    {
      assert TournamentModel.ParseRow(lines[i + 1]) == Ok(all[i + 1]);
      RowsAgreeUpToTrim(lines[i + 1]);
    }
  }

  // ---------------------------------------------------------------------
  // The games API behind `ApiResponseCache`

  /** Every entry of a cache passes the games-list guard. */
  ghost predicate AllGameLists(g: Guards, entries: map<string, Value>) {
    forall k :: k in entries ==> IsGameListResponse(g, entries[k])
  }

  /** What `fetchGamesResponse(url)` returns: a cached value passing the
      guard (every such value is truthy); otherwise the fetched payload when
      it passes the guard, `null` when it does not, and the exception when
      the fetch fails. Whatever it returns passes the guard. */
  function FetchOutcome(url: string, cached: map<string, Value>, env: Env): (r: Result<Option<Value>>)
    ensures IsGameListResponse(env.guards, Lookup(cached, url)) ==> r == Ok(Some(cached[url]))
    ensures r.Err? <==> !IsGameListResponse(env.guards, Lookup(cached, url)) && url !in env.api
    ensures r.Err? ==> r.error == FetchFailed(url)
    ensures r == Ok(None) <==>
      !IsGameListResponse(env.guards, Lookup(cached, url)) && url in env.api
      && !IsGameListResponse(env.guards, env.api[url])
    ensures !IsGameListResponse(env.guards, Lookup(cached, url)) && url in env.api
            && IsGameListResponse(env.guards, env.api[url]) ==>
      r == Ok(Some(env.api[url]))
    ensures r.Ok? && r.value.Some? ==> IsGameListResponse(env.guards, r.value.value)
  {
    var hit := Lookup(cached, url);
    if Truthy(hit) && IsGameListResponse(env.guards, hit) then Ok(Some(hit))
    else if url !in env.api then Err(FetchFailed(url))
    else if !IsGameListResponse(env.guards, env.api[url]) then Ok(None)
    else Ok(Some(env.api[url]))
  }

  /** The cache after `fetchGamesResponse(url)`: only a fetched payload that
      passes the guard is written, at `url`, and no other key changes. */
  function CacheAfterFetch(url: string, cached: map<string, Value>, env: Env): (c: map<string, Value>)
    ensures forall k :: k != url ==> (k in c <==> k in cached) && (k in cached ==> c[k] == cached[k])
    ensures c != cached ==>
      && !IsGameListResponse(env.guards, Lookup(cached, url))
      && url in c && FetchOutcome(url, cached, env) == Ok(Some(c[url]))
    ensures FetchOutcome(url, cached, env).Ok? && FetchOutcome(url, cached, env).value.Some? ==>
      url in c && c[url] == FetchOutcome(url, cached, env).value.value
    ensures AllGameLists(env.guards, cached) ==> AllGameLists(env.guards, c)
  {
    var hit := Lookup(cached, url);
    if Truthy(hit) && IsGameListResponse(env.guards, hit) then cached
    else if url in env.api && IsGameListResponse(env.guards, env.api[url]) then cached[url := env.api[url]]
    else cached
  }

  /** Once a fetch has succeeded, the next call for the same url is a hit:
      it returns the same value, fetches nothing and writes nothing, whatever
      the network would now answer. */
  lemma SecondFetchHits(url: string, cached: map<string, Value>, env: Env, api: map<string, Value>)
    requires FetchOutcome(url, cached, env).Ok? && FetchOutcome(url, cached, env).value.Some?
    ensures var after := CacheAfterFetch(url, cached, env);
      && FetchOutcome(url, after, env.(api := api)) == FetchOutcome(url, cached, env)
      && CacheAfterFetch(url, after, env.(api := api)) == after
  {
  }

  /** `fetchGamesResponse`, reading and writing `ApiResponseCache`. */
  method FetchGamesResponse(url: string, cache: Store<string>, env: Env) returns (r: Result<Option<Value>>)
    modifies cache
    ensures r == FetchOutcome(url, old(cache.entries), env)
    ensures cache.entries == CacheAfterFetch(url, old(cache.entries), env)
  {
    var cachedResponse := cache.Get(url);
    if Truthy(cachedResponse) && IsGameListResponse(env.guards, cachedResponse) {
      return Ok(Some(cachedResponse));
    }
    if url !in env.api {
      return Err(FetchFailed(url));
    }
    var response := env.api[url];
    if !IsGameListResponse(env.guards, response) {
      return Ok(None);
    }
    cache.Set(url, response);
    return Ok(Some(response));
  }

  // ---------------------------------------------------------------------
  // Tournament data with a memoised status

  /** The object `getTournamentData` returns; `error` None is `null` or
      absent. */
  datatype TournamentData = TournamentData(
    tournamentInfo: Option<TournamentInfo>,
    status: Option<Status>,
    error: Option<int>)

  /** `{ error: code }`. */
  function ErrorData(code: int): TournamentData {
    TournamentData(None, None, Some(code))
  }

  /** A call of `getTournamentData`: its outcome and both caches afterwards. */
  datatype Step = Step(
    result: Result<TournamentData>,
    apiCache: map<string, Value>,
    statusCache: map<string, Value>)

  /** The analysis of a tournament's progress from its info and the games. */
  type Analyzer = (TournamentInfo, seq<Game>) -> Status

  /** `getTournamentData(id)` as a function of the known tournaments, the
      games API url, the analysis, the outside world and the two caches. */
  function GetData(id: string, known: Table, apiUrl: string, analyze: Analyzer, env: Env,
                   api: map<string, Value>, statuses: map<string, Value>): (s: Step)
    // unknown id: 404, nothing read and nothing written
    ensures id !in known.entries ==> s == Step(Ok(ErrorData(404)), api, statuses)
    // the info document cannot be read: the exception propagates
    ensures id in known.entries && known.entries[id].infoPath !in env.files ==>
      s == Step(Err(ReadFailed(known.entries[id].infoPath)), api, statuses)
    // the info document fails the guard: 400, no cache touched
    ensures id in known.entries && known.entries[id].infoPath in env.files
            && !IsTournamentInfoFromJson(env.guards, env.files[known.entries[id].infoPath]) ==>
      s == Step(Ok(ErrorData(400)), api, statuses)
    // no roster url: the info without a status, no cache touched
    ensures id in known.entries && known.entries[id].infoPath in env.files
            && IsTournamentInfoFromJson(env.guards, env.files[known.entries[id].infoPath])
            && !HasRosterUrl(known.entries[id]) ==>
      s == Step(Ok(TournamentData(Some(env.files[known.entries[id].infoPath].info), None, None)),
                api, statuses)
    // a memoised status that passes the guard: returned as is, no fetch, no write
    ensures id in known.entries && known.entries[id].infoPath in env.files
            && IsTournamentInfoFromJson(env.guards, env.files[known.entries[id].infoPath])
            && HasRosterUrl(known.entries[id])
            && IsTournamentStatus(env.guards, Lookup(statuses, id)) ==>
      s == Step(Ok(TournamentData(Some(env.files[known.entries[id].infoPath].info),
                                  Some(statuses[id].status), None)),
                api, statuses)
    // a memoised status that is missing or fails the guard: the games are
    // fetched through the cache, then the roster, and the computed status
    // is written at id
    ensures id in known.entries && known.entries[id].infoPath in env.files
            && IsTournamentInfoFromJson(env.guards, env.files[known.entries[id].infoPath])
            && HasRosterUrl(known.entries[id])
            && !IsTournamentStatus(env.guards, Lookup(statuses, id)) ==>
      var info := env.files[known.entries[id].infoPath].info;
      var url := known.entries[id].playersCsvUrl.value;
      var games := FetchOutcome(apiUrl, api, env);
      var api' := CacheAfterFetch(apiUrl, api, env);
      && (games.Err? ==> s == Step(Err(games.error), api', statuses))
      && (games == Ok(None) ==> s == Step(Ok(ErrorData(400)), api', statuses))
      && (games.Ok? && games.value.Some? && url !in env.texts ==>
            s == Step(Err(FetchFailed(url)), api', statuses))
      && (games.Ok? && games.value.Some? && url in env.texts ==>
            var info' := info.(players := ParsePlayersCsv(env.texts[url]));
            var status := analyze(info', games.value.value.items);
            s == Step(Ok(TournamentData(Some(info'), Some(status), None)),
                      api', statuses[id := StatusDoc(status)]))
    // the status cache changes only at id, and only to a freshly computed status
    // from the roster and the games
    ensures s.statusCache != statuses ==>
      && id in known.entries && HasRosterUrl(known.entries[id])
      && known.entries[id].playersCsvUrl.value in env.texts
      && FetchOutcome(apiUrl, api, env).Ok? && FetchOutcome(apiUrl, api, env).value.Some?
      && s.result.Ok? && s.result.value.tournamentInfo.Some? && s.result.value.status.Some?
      && s.result.value.tournamentInfo.value.players
         == ParsePlayersCsv(env.texts[known.entries[id].playersCsvUrl.value])
      && s.result.value.status.value
         == analyze(s.result.value.tournamentInfo.value, FetchOutcome(apiUrl, api, env).value.value.items)
      && s.statusCache == statuses[id := StatusDoc(s.result.value.status.value)]
    // the games cache changes only as a fetch of the games API changes it
    ensures s.apiCache == api || s.apiCache == CacheAfterFetch(apiUrl, api, env)
    // an error carries no info, and a success always does
    ensures s.result.Ok? ==> (s.result.value.error.Some? <==> s.result.value.tournamentInfo.None?)
    ensures s.result.Ok? && s.result.value.error.Some? ==> s.result.value.error.value in {400, 404}
  {
    if id !in known.entries then Step(Ok(ErrorData(404)), api, statuses)
    else
      var d := known.entries[id];
      if d.infoPath !in env.files then Step(Err(ReadFailed(d.infoPath)), api, statuses)
      else
        var doc := env.files[d.infoPath];
        if !IsTournamentInfoFromJson(env.guards, doc) then Step(Ok(ErrorData(400)), api, statuses)
        else if !HasRosterUrl(d) then Step(Ok(TournamentData(Some(doc.info), None, None)), api, statuses)
        else
          var cachedStatus := Lookup(statuses, id);
          if Truthy(cachedStatus) && IsTournamentStatus(env.guards, cachedStatus) then
            Step(Ok(TournamentData(Some(doc.info), Some(cachedStatus.status), None)), api, statuses)
          else
            var api' := CacheAfterFetch(apiUrl, api, env);
            match FetchOutcome(apiUrl, api, env)
            case Err(e) => Step(Err(e), api', statuses)
            case Ok(None) => Step(Ok(ErrorData(400)), api', statuses)
            case Ok(Some(gamesResponse)) =>
              var url := d.playersCsvUrl.value;
              if url !in env.texts then Step(Err(FetchFailed(url)), api', statuses)
              else
                var info := doc.info.(players := ParsePlayersCsv(env.texts[url]));
                var status := analyze(info, gamesResponse.items);
                Step(Ok(TournamentData(Some(info), Some(status), None)), api', statuses[id := StatusDoc(status)])
  }

  /** Memoisation: once a status has been computed and passes the guard, the
      next request for the same tournament returns it without fetching the
      games or the roster, whatever the network would now answer, and
      writes nothing. */
  lemma StatusMemoised(id: string, known: Table, apiUrl: string, analyze: Analyzer, env: Env,
                       api: map<string, Value>, statuses: map<string, Value>,
                       later: Env)
    requires later.guards == env.guards && later.files == env.files
    requires var s := GetData(id, known, apiUrl, analyze, env, api, statuses);
      s.statusCache != statuses && IsTournamentStatus(env.guards, s.statusCache[id])
    ensures var s := GetData(id, known, apiUrl, analyze, env, api, statuses);
      var t := GetData(id, known, apiUrl, analyze, later, s.apiCache, s.statusCache);
      && t == Step(Ok(TournamentData(Some(env.files[known.entries[id].infoPath].info),
                                     s.result.value.status, None)),
                   s.apiCache, s.statusCache)
      && t.result.value.status == s.result.value.status
  {
  }

  /** A memoised status that fails the guard is as good as none: the
      outcome and the games cache are those of a call with no status
      memoised for the tournament. */
  lemma InvalidStatusIgnored(id: string, known: Table, apiUrl: string, analyze: Analyzer, env: Env,
                             api: map<string, Value>, statuses: map<string, Value>)
    requires !IsTournamentStatus(env.guards, Lookup(statuses, id))
    ensures var s := GetData(id, known, apiUrl, analyze, env, api, statuses);
      var t := GetData(id, known, apiUrl, analyze, env, api, statuses - {id});
      s.result == t.result && s.apiCache == t.apiCache
  {
  }

  /** `getTournamentData`, reading and writing `ApiResponseCache` and
      `GeneratedTournamentStatusCache`. */
  method GetTournamentData(id: string, known: Table, apiUrl: string, analyze: Analyzer, env: Env,
                           apiCache: Store<string>, statusCache: Store<string>) returns (r: Result<TournamentData>)
    requires apiCache != statusCache
    modifies apiCache, statusCache
    ensures Step(r, apiCache.entries, statusCache.entries)
         == GetData(id, known, apiUrl, analyze, env, old(apiCache.entries), old(statusCache.entries))
  {
    if id !in known.entries {
      return Ok(ErrorData(404));
    }
    var tournamentData := known.entries[id];
    if tournamentData.infoPath !in env.files {
      return Err(ReadFailed(tournamentData.infoPath));
    }
    var tournamentInfoFromJson := env.files[tournamentData.infoPath];
    if !IsTournamentInfoFromJson(env.guards, tournamentInfoFromJson) {
      return Ok(ErrorData(400));
    }
    var tournamentInfo := tournamentInfoFromJson.info;
    var status: Option<Status> := None;
    if HasRosterUrl(tournamentData) {
      var cachedStatus := statusCache.Get(id);
      if Truthy(cachedStatus) && IsTournamentStatus(env.guards, cachedStatus) {
        status := Some(cachedStatus.status);
      } else {
        var gamesResponse := FetchGamesResponse(apiUrl, apiCache, env);
        if gamesResponse.Err? {
          return Err(gamesResponse.error);
        }
        if gamesResponse.value.None? {
          return Ok(ErrorData(400));
        }
        var games := gamesResponse.value.value.items;
        var url := tournamentData.playersCsvUrl.value;
        if url !in env.texts {
          return Err(FetchFailed(url));
        }
        tournamentInfo := tournamentInfo.(players := ParsePlayersCsv(env.texts[url]));
        var computed := analyze(tournamentInfo, games);
        status := Some(computed);
        statusCache.Set(id, StatusDoc(computed));
      }
    }
    return Ok(TournamentData(Some(tournamentInfo), status, None));
  }

  // ---------------------------------------------------------------------
  // The `/tournaments/:id` handler: group projection and reply

  /** The players of `players` whose group is `name`, in their original
      order; a player whose group is undefined is in no group. */
  function PlayersInGroup(players: seq<Player>, name: string): (r: seq<Player>)
    ensures forall p :: p in r <==> p in players && p.group == Some(name)
    ensures |r| <= |players|
  {
    if players == [] then []
    else
      var rest := PlayersInGroup(players[1..], name);
      assert forall p :: p in players <==> p == players[0] || p in players[1..];
      if players[0].group == Some(name) then [players[0]] + rest else rest
  }

  /** The selection keeps the order of the players: selecting from a
      concatenation concatenates the selections. */
  lemma {:induction false} PlayersInGroupAppend(a: seq<Player>, b: seq<Player>, name: string)
    ensures PlayersInGroup(a + b, name) == PlayersInGroup(a, name) + PlayersInGroup(b, name)
  {
    if a != [] {
      assert (a + b)[1..] == a[1..] + b;
      PlayersInGroupAppend(a[1..], b, name);
    } else {
      assert a + b == b;
    }
  }

  /** One group of the projection handed to the page. */
  datatype GroupView = GroupView(
    name: string,
    players: seq<Player>,
    winner: Option<string>,
    winnerMethod: Option<string>)

  /** `groupStatus`: for a group-stage status, one view per group, in order,
      with the group's players; for any other status, or none, nothing. */
  function GroupStatus(status: Option<Status>): (r: Option<seq<GroupView>>)
    ensures r.Some? <==> status.Some? && status.value.tournamentType == "groupStage"
    ensures r.Some? ==> |r.value| == |status.value.groups|
    ensures r.Some? ==> forall i :: 0 <= i < |r.value| ==>
      && r.value[i].name == status.value.groups[i].name
      && r.value[i].winner == status.value.groups[i].winner
      && r.value[i].winnerMethod == status.value.groups[i].winnerMethod
      && (forall p :: p in r.value[i].players <==>
            p in status.value.players && p.group == Some(status.value.groups[i].name))
    ensures r.Some? ==> forall i :: 0 <= i < |r.value| ==>
      r.value[i].players == PlayersInGroup(status.value.players, status.value.groups[i].name)
  {
    if status.Some? && status.value.tournamentType == "groupStage" then
      var st := status.value;
      Some(seq(|st.groups|, i requires 0 <= i < |st.groups| =>
        GroupView(st.groups[i].name, PlayersInGroup(st.players, st.groups[i].name),
                  st.groups[i].winner, st.groups[i].winnerMethod)))
    else None
  }

  /** What the handler answers: a bare status code, or the tournament page
      with the name, the info link and the group projection. */
  datatype Reply =
    | Code(status: int)
    | Page(name: string, infoUrl: string, groupStatus: Option<seq<GroupView>>)

  /** The page of a tournament that has info. */
  function PageOf(info: TournamentInfo, status: Option<Status>): Reply {
    Page(info.name, info.infoUrl, GroupStatus(status))
  }

  /** The handler's choice as written: a missing info is checked first, so a
      result `{ error: 400 }`, which has no info, is answered 404. */
  function RespondAsWritten(d: TournamentData): (reply: Reply)
    ensures d.tournamentInfo.None? ==> reply == Code(404)
    ensures reply.Page? <==> d.tournamentInfo.Some? && (d.error.None? || d.error.value == 0)
  {
    if d.tournamentInfo.None? then Code(404)
    else if d.error.Some? && d.error.value != 0 then Code(d.error.value)
    else PageOf(d.tournamentInfo.value, d.status)
  }

  /** As written, no request is ever answered 400: an invalid info document
      for a known tournament gets 404, like an unknown tournament. */
  lemma InvalidDocumentAnswered404(id: string, known: Table, apiUrl: string, analyze: Analyzer,
                                   env: Env, api: map<string, Value>, statuses: map<string, Value>)
    requires id in known.entries && known.entries[id].infoPath in env.files
    requires !IsTournamentInfoFromJson(env.guards, env.files[known.entries[id].infoPath])
    ensures var s := GetData(id, known, apiUrl, analyze, env, api, statuses);
      s.result.Ok? && s.result.value.error == Some(400) && RespondAsWritten(s.result.value) == Code(404)
  {
  }

  /** As written, the error code of a result is never the reply. */
  lemma {:induction false} NeverAnswered400(id: string, known: Table, apiUrl: string, analyze: Analyzer,
                                            env: Env, api: map<string, Value>, statuses: map<string, Value>)
    ensures var s := GetData(id, known, apiUrl, analyze, env, api, statuses);
      s.result.Ok? ==> RespondAsWritten(s.result.value) != Code(400)
  {
    var s := GetData(id, known, apiUrl, analyze, env, api, statuses);
    if s.result.Ok? && s.result.value.tournamentInfo.Some? {
      assert s.result.value.error.None?;
    }
  }

  /** The handler's choice with the error checked first: an error result is
      answered with its own code, and a result with info but no error with
      the page. */
  function Respond(d: TournamentData): (reply: Reply)
    ensures d.error.Some? && d.error.value != 0 ==> reply == Code(d.error.value)
    ensures (d.error.None? || d.error.value == 0) && d.tournamentInfo.None? ==> reply == Code(404)
    ensures reply.Page? <==> d.tournamentInfo.Some? && (d.error.None? || d.error.value == 0)
  {
    if d.error.Some? && d.error.value != 0 then Code(d.error.value)
    else if d.tournamentInfo.None? then Code(404)
    else PageOf(d.tournamentInfo.value, d.status)
  }

  /** With the error checked first, a request is answered 404 exactly when
      the tournament is unknown, and 400 exactly when its info document
      fails the guard or the games API answers with an invalid payload. */
  lemma {:induction false} ReplyCodes(id: string, known: Table, apiUrl: string, analyze: Analyzer,
                                      env: Env, api: map<string, Value>, statuses: map<string, Value>)
    ensures var s := GetData(id, known, apiUrl, analyze, env, api, statuses);
      s.result.Ok? ==>
        && (Respond(s.result.value) == Code(404) <==> id !in known.entries)
        && (Respond(s.result.value) == Code(400) <==>
              id in known.entries && known.entries[id].infoPath in env.files
              && var doc := env.files[known.entries[id].infoPath];
                 (!IsTournamentInfoFromJson(env.guards, doc)
                  || (HasRosterUrl(known.entries[id])
                      && !IsTournamentStatus(env.guards, Lookup(statuses, id))
                      && FetchOutcome(apiUrl, api, env) == Ok(None))))
  {
  }
}
