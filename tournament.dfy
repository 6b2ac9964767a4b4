/** The tournament resolver of src/models/tournament.ts: the namespaced store
    key, the roster parser that keeps every line, and the `Tournament` class
    that resolves metadata from the key/value store, then from the bundled
    default data (with roster enrichment), and that saves and lists it. */
module TournamentModel {
  import opened Values
  import opened Text
  import opened Stores

  /** The namespace of tournament records in the key/value store. */
  const Key: seq<string> := ["tournament-info"]

  /** The store key of tournament `id`: the namespace followed by the id. */
  function KeyOfId(id: string): (k: seq<string>)
    ensures Key < k && |k| == |Key| + 1 && k[|Key|] == id
  {
    Key + [id]
  }

  /** Different ids never share a store key. */
  lemma KeyOfIdInjective(a: string, b: string)
    ensures KeyOfId(a) == KeyOfId(b) <==> a == b
  {
    assert KeyOfId(a)[|Key|] == a && KeyOfId(b)[|Key|] == b;
  }

  // ---------------------------------------------------------------------
  // Roster parsing: every line is a row, every field is trimmed

  /** One roster line: its trimmed first and second comma-separated fields,
      each trimmed again. A line without a comma has no second field, and
      `parts[1].trim()` throws. */
  function ParseRow(line: string): (r: Result<Player>)
    ensures r.Ok? <==> ',' in Trim(line)
    ensures r.Err? ==> r.error == MissingGroupField
    ensures r.Ok? ==> r.value.group.Some?
    ensures r.Ok? ==> Clean(r.value.username) && ',' !in r.value.username
    ensures r.Ok? ==> Clean(r.value.group.value) && ',' !in r.value.group.value
  {
    var parts := Split(Trim(line), ',');
    if |parts| < 2 then Err(MissingGroupField)
    else Ok(Player(Trim(parts[0]), Some(Trim(parts[1]))))
  }

  /** The rows in order, or the first row's exception: `rows.map(f)` with an
      `f` that may throw, given the outcome of `f` on each row. */
  function Collect(rows: seq<Result<Player>>): (r: Result<seq<Player>>)
    ensures r.Ok? <==> forall i :: 0 <= i < |rows| ==> rows[i].Ok?
    ensures r.Err? ==> exists i :: 0 <= i < |rows| && rows[i] == Err(r.error)
    ensures r.Ok? ==> |r.value| == |rows|
    ensures r.Ok? ==> forall i :: 0 <= i < |rows| ==> rows[i] == Ok(r.value[i])
  {
    if rows == [] then Ok([])
    else if rows[0].Err? then Err(rows[0].error)
    else
      var rest := Collect(rows[1..]);
      if rest.Err? then
        ghost var i :| 0 <= i < |rows[1..]| && rows[1..][i] == Err(rest.error);
        assert rows[i + 1] == Err(rest.error);
        rest
      else
        var ps := [rows[0].value] + rest.value;
        assert forall i :: 1 <= i < |rows| ==> rows[i] == rows[1..][i - 1];
        Ok(ps)
  }

  /** `parsePlayersCsv`: one player per line of the trimmed document, in
      order, no header skipped and no line dropped (`filter(Boolean)` sees
      only arrays, which are always truthy). It throws exactly when some
      line has no comma. */
  function ParsePlayersCsv(doc: string): (r: Result<seq<Player>>)
    ensures r.Ok? <==> forall i :: 0 <= i < |Lines(doc)| ==> ',' in Trim(Lines(doc)[i])
    ensures r.Err? ==> r.error == MissingGroupField
    ensures r.Ok? ==> |r.value| == |Lines(doc)|
    ensures r.Ok? ==> forall i :: 0 <= i < |r.value| ==> ParseRow(Lines(doc)[i]) == Ok(r.value[i])
  {
    var lines := Lines(doc);
    var rows := seq(|lines|, i requires 0 <= i < |lines| => ParseRow(lines[i]));
    var r := Collect(rows);
    assert r.Ok? ==> forall i :: 0 <= i < |lines| ==> ParseRow(lines[i]) == Ok(r.value[i]) by {
      if r.Ok? {
        forall i | 0 <= i < |lines| ensures ParseRow(lines[i]) == Ok(r.value[i]) {
          assert rows[i] == ParseRow(lines[i]);
        }
      }
    }
    r
  }

  /** A row is its first two comma-separated fields, trimmed; the fields
      after the second are ignored. */
  lemma ParseRowFields(line: string, username: string, group: string, extra: seq<string>)
    requires Free([username, group] + extra, ',')
    requires Trim(line) == Join([username, group] + extra, ',')
    ensures ParseRow(line) == Ok(Player(Trim(username), Some(Trim(group))))
  {
    SplitJoin([username, group] + extra, ',');
  }

  /** A document whose trimmed text is the rows joined by "\n" yields one
      player per row, in order, and throws exactly when a row has no comma. */
  lemma ParsePlayersCsvRows(doc: string, rows: seq<string>)
    requires |rows| >= 1 && Free(rows, '\n')
    requires Trim(doc) == Join(rows, '\n')
    ensures ParsePlayersCsv(doc).Ok? <==> forall i :: 0 <= i < |rows| ==> ',' in Trim(rows[i])
    ensures ParsePlayersCsv(doc).Ok? ==>
      |ParsePlayersCsv(doc).value| == |rows| &&
      forall i :: 0 <= i < |rows| ==> ParseRow(rows[i]) == Ok(ParsePlayersCsv(doc).value[i])
  {
    SplitJoin(rows, '\n');
  }

  /** A blank document is one empty line, which has no comma: parsing throws. */
  lemma BlankDocumentThrows(doc: string)
    requires AllWhitespace(doc)
    ensures ParsePlayersCsv(doc) == Err(MissingGroupField)
  {
    assert Trim(doc) == [];
    assert Lines(doc) == Split([], '\n') == [[]];
    assert Trim([]) == [];
  }

  /** A clean row of two clean fields parses to exactly those fields. */
  lemma CleanRow(username: string, group: string)
    requires username != [] && group != [] && Clean(username) && Clean(group)
    requires ',' !in username && ',' !in group
    ensures ParseRow(username + "," + group) == Ok(Player(username, Some(group)))
  {
    var line := username + "," + group;
    assert line[0] == username[0] && line[|line| - 1] == group[|group| - 1];
    TrimClean(line);
    assert line == Join([username, group] + [], ',');
    ParseRowFields(line, username, group, []);
    TrimClean(username);
    TrimClean(group);
  }

  /** A trailing newline after a clean text is trimmed away. */
  lemma TrimTrailingNewline(body: string)
    requires body != [] && Clean(body)
    ensures Trim(body + "\n") == body
  {
    var doc := body + "\n";
    assert doc[0] == body[0];
    assert doc[..|doc| - 1] == body;
    assert TrailingSpace(doc) == 1;
  }

  /** The lines of a document of two rows, each ended by a newline, are the
      two rows: the last newline is trimmed away, not read as an empty line. */
  lemma TwoLines(row1: string, row2: string)
    requires row1 != [] && row2 != [] && Clean(row1) && Clean(row2)
    requires '\n' !in row1 && '\n' !in row2
    ensures Lines(row1 + "\n" + row2 + "\n") == [row1, row2]
  {
    var body := row1 + "\n" + row2;
    assert body[0] == row1[0] && body[|body| - 1] == row2[|row2| - 1];
    TrimTrailingNewline(body);
    assert body == Join([row1, row2], '\n');
    SplitJoin([row1, row2], '\n');
  }

  /** A roster of two rows, each ended by a newline, gives the players of
      the two rows, in order. */
  lemma TwoRows(row1: string, row2: string, p1: Player, p2: Player)
    requires row1 != [] && row2 != [] && Clean(row1) && Clean(row2)
    requires '\n' !in row1 && '\n' !in row2
    requires ParseRow(row1) == Ok(p1) && ParseRow(row2) == Ok(p2)
    ensures ParsePlayersCsv(row1 + "\n" + row2 + "\n") == Ok([p1, p2])
  {
    TwoLines(row1, row2);
    ParsedTwo(row1 + "\n" + row2 + "\n", row1, row2, p1, p2);
  }

  /** A document whose two lines parse gives their two players. */
  lemma ParsedTwo(doc: string, row1: string, row2: string, p1: Player, p2: Player)
    requires Lines(doc) == [row1, row2]
    requires ParseRow(row1) == Ok(p1) && ParseRow(row2) == Ok(p2)
    ensures ParsePlayersCsv(doc) == Ok([p1, p2])
  {
    ParsedRows(doc, [p1, p2]);
  }

  /** A document whose every line parses gives the players of its lines. */
  lemma ParsedRows(doc: string, players: seq<Player>)
    requires |Lines(doc)| == |players|
    requires forall i :: 0 <= i < |players| ==> ParseRow(Lines(doc)[i]) == Ok(players[i])
    ensures ParsePlayersCsv(doc) == Ok(players)
  {
    var r := ParsePlayersCsv(doc);
    assert r.Ok?;
    assert forall i :: 0 <= i < |players| ==> Ok(r.value[i]) == Ok(players[i]);
    assert r.value == players;
  }

  // ---------------------------------------------------------------------
  // Resolution, as functions of the store contents and the outside world

  /** The outcome of `loadInfoFromKv`: no store or no truthy value gives
      `Ok(None)` (it returns false), a value failing the guard throws, and a
      valid value is the info. */
  function KvLookup(store: Option<map<seq<string>, Value>>, id: string, g: Guards)
    : (r: Result<Option<TournamentInfo>>)
    ensures r == Ok(None) <==> store.None? || !Truthy(Lookup(store.value, KeyOfId(id)))
    ensures r.Err? <==>
      store.Some? && Truthy(Lookup(store.value, KeyOfId(id)))
      && !IsTournamentInfo(g, Lookup(store.value, KeyOfId(id)))
    ensures r.Err? ==> r.error == InvalidKvRecord
    ensures r.Ok? && r.value.Some? ==>
      store.Some? && IsTournamentInfo(g, Lookup(store.value, KeyOfId(id)))
      && Lookup(store.value, KeyOfId(id)) == InfoDoc(r.value.value)
  {
    if store.None? then Ok(None)
    else
      var v := Lookup(store.value, KeyOfId(id));
      if !Truthy(v) then Ok(None)
      else if !IsTournamentInfo(g, v) then Err(InvalidKvRecord)
      else Ok(Some(v.info))
  }

  /** The outcome of `loadInfoFromDefaultData`: an unknown id gives
      `Ok(None)`; otherwise the bundled document is read and must pass the
      guard, and its players are replaced by the fetched roster only when
      they are empty and a roster URL is declared. */
  function DefaultLookup(id: string, defaults: Table, env: Env): (r: Result<Option<TournamentInfo>>)
    ensures id !in defaults.entries <==> r == Ok(None)
    ensures r.Ok? && r.value.Some? ==>
      var d := defaults.entries[id];
      && d.infoPath in env.files
      && IsTournamentInfo(env.guards, env.files[d.infoPath])
      && r.value.value == env.files[d.infoPath].info.(players := r.value.value.players)
      && (if |env.files[d.infoPath].info.players| == 0 && HasRosterUrl(d)
          then d.playersCsvUrl.value in env.texts
               && ParsePlayersCsv(env.texts[d.playersCsvUrl.value]) == Ok(r.value.value.players)
          else r.value.value.players == env.files[d.infoPath].info.players)
    ensures id in defaults.entries && defaults.entries[id].infoPath !in env.files ==>
      r == Err(ReadFailed(defaults.entries[id].infoPath))
    ensures id in defaults.entries && defaults.entries[id].infoPath in env.files
            && !IsTournamentInfo(env.guards, env.files[defaults.entries[id].infoPath]) ==>
      r == Err(InvalidDefaultDocument)
    // a valid document that needs no enrichment is the info, as read
    ensures id in defaults.entries && defaults.entries[id].infoPath in env.files
            && IsTournamentInfo(env.guards, env.files[defaults.entries[id].infoPath])
            && !(|env.files[defaults.entries[id].infoPath].info.players| == 0
                 && HasRosterUrl(defaults.entries[id])) ==>
      r == Ok(Some(env.files[defaults.entries[id].infoPath].info))
    // a valid document with no players and a roster url: the roster is
    // fetched and parsed, and either step may throw
    ensures id in defaults.entries && defaults.entries[id].infoPath in env.files
            && IsTournamentInfo(env.guards, env.files[defaults.entries[id].infoPath])
            && |env.files[defaults.entries[id].infoPath].info.players| == 0
            && HasRosterUrl(defaults.entries[id]) ==>
      var url := defaults.entries[id].playersCsvUrl.value;
      && (url !in env.texts ==> r == Err(FetchFailed(url)))
      && (url in env.texts && ParsePlayersCsv(env.texts[url]).Err? ==> r == Err(MissingGroupField))
      && (url in env.texts && ParsePlayersCsv(env.texts[url]).Ok? ==>
            r == Ok(Some(env.files[defaults.entries[id].infoPath].info.(
                      players := ParsePlayersCsv(env.texts[url]).value))))
  {
    if id !in defaults.entries then Ok(None)
    else
      var d := defaults.entries[id];
      if d.infoPath !in env.files then Err(ReadFailed(d.infoPath))
      else
        var doc := env.files[d.infoPath];
        if !IsTournamentInfo(env.guards, doc) then Err(InvalidDefaultDocument)
        else if |doc.info.players| == 0 && HasRosterUrl(d) then
          var url := d.playersCsvUrl.value;
          if url !in env.texts then Err(FetchFailed(url))
          else
            match ParsePlayersCsv(env.texts[url])
            case Err(e) => Err(e)
            case Ok(players) => Ok(Some(doc.info.(players := players)))
        else Ok(Some(doc.info))
  }

  /** What `load` ends with: the store's record when it holds a valid one,
      nothing when it holds an invalid one (the exception is caught and the
      default data is not tried), and otherwise the default data, with any
      exception there also giving nothing. */
  function Resolve(store: Option<map<seq<string>, Value>>, id: string, defaults: Table, env: Env)
    : (r: Option<TournamentInfo>)
    ensures store.Some? && IsTournamentInfo(env.guards, Lookup(store.value, KeyOfId(id))) ==>
      r == Some(Lookup(store.value, KeyOfId(id)).info)
    ensures KvLookup(store, id, env.guards).Err? ==> r == None
    ensures KvLookup(store, id, env.guards) == Ok(None) ==>
      r == (if DefaultLookup(id, defaults, env).Ok? then DefaultLookup(id, defaults, env).value else None)
  {
    match KvLookup(store, id, env.guards)
    case Err(_) => None
    case Ok(Some(info)) => Some(info)
    case Ok(None) =>
      match DefaultLookup(id, defaults, env)
      case Err(_) => None
      case Ok(found) => found
  }

  /** A valid store record wins: neither the default table, nor the files,
      nor the network are consulted. */
  lemma StoreRecordWins(store: map<seq<string>, Value>, id: string, defaults: Table, env: Env,
                        otherDefaults: Table, files: map<string, Value>, texts: map<string, string>)
    requires IsTournamentInfo(env.guards, Lookup(store, KeyOfId(id)))
    ensures Resolve(Some(store), id, defaults, env)
         == Resolve(Some(store), id, otherDefaults, env.(files := files, texts := texts))
         == Some(Lookup(store, KeyOfId(id)).info)
  {
  }

  /** An invalid store record makes resolution fail even when the default
      data would have succeeded. */
  lemma InvalidRecordIsFatal(store: map<seq<string>, Value>, id: string, defaults: Table, env: Env)
    requires Truthy(Lookup(store, KeyOfId(id)))
    requires !IsTournamentInfo(env.guards, Lookup(store, KeyOfId(id)))
    ensures Resolve(Some(store), id, defaults, env) == None
  {
  }

  /** Enrichment only fills gaps: when the bundled document already has
      players, or no roster URL is declared, the roster is never fetched. */
  lemma NoFetchWhenPlayersPresent(id: string, defaults: Table, env: Env, texts: map<string, string>)
    requires id in defaults.entries
    requires var d := defaults.entries[id];
      d.infoPath in env.files && env.files[d.infoPath].InfoDoc?
      && (|env.files[d.infoPath].info.players| > 0 || !HasRosterUrl(d))
    ensures DefaultLookup(id, defaults, env) == DefaultLookup(id, defaults, env.(texts := texts))
    ensures DefaultLookup(id, defaults, env).Ok? ==>
      DefaultLookup(id, defaults, env) == Ok(Some(env.files[defaults.entries[id].infoPath].info))
  {
  }

  /** The fallback: a tournament the store does not hold, listed in the
      default table with a readable valid document that needs no roster,
      resolves to that document. */
  lemma DefaultFallback(store: Option<map<seq<string>, Value>>, id: string, defaults: Table, env: Env)
    requires store.None? || !Truthy(Lookup(store.value, KeyOfId(id)))
    requires id in defaults.entries
    requires var d := defaults.entries[id];
      d.infoPath in env.files && IsTournamentInfo(env.guards, env.files[d.infoPath])
      && (|env.files[d.infoPath].info.players| > 0 || !HasRosterUrl(d))
    ensures Resolve(store, id, defaults, env) == Some(env.files[defaults.entries[id].infoPath].info)
  {
  }

  /** One roster line without a comma makes loading fail: the exception of
      `parts[1].trim()` is caught and `load` reports false. */
  lemma BadRosterLineFails(store: Option<map<seq<string>, Value>>, id: string, defaults: Table,
                           env: Env, i: nat)
    requires store.None? || !Truthy(Lookup(store.value, KeyOfId(id)))
    requires id in defaults.entries
    requires var d := defaults.entries[id];
      && d.infoPath in env.files && IsTournamentInfo(env.guards, env.files[d.infoPath])
      && |env.files[d.infoPath].info.players| == 0 && HasRosterUrl(d)
      && d.playersCsvUrl.value in env.texts
      && i < |Lines(env.texts[d.playersCsvUrl.value])|
      && ',' !in Trim(Lines(env.texts[d.playersCsvUrl.value])[i])
    ensures Resolve(store, id, defaults, env) == None
  {
  }

  /** After a successful save, resolving the id gives back the saved record. */
  lemma SavedRecordResolves(store: map<seq<string>, Value>, id: string, data: Value,
                            defaults: Table, env: Env)
    requires IsTournamentInfo(env.guards, data)
    ensures Resolve(Some(store[KeyOfId(id) := data]), id, defaults, env) == Some(data.info)
  {
  }

  // ---------------------------------------------------------------------
  // Listing

  /** The keys `kv.list({ prefix: Key })` yields: those strictly under the
      namespace. */
  function Listed(entries: map<seq<string>, Value>): (keys: set<seq<string>>)
    ensures forall k :: k in keys <==> k in entries && Key < k
  {
    set k | k in entries && Key < k
  }

  /** The ids recorded in the store: `entry.key[1]` of every listed entry. */
  function StoredIds(entries: map<seq<string>, Value>): (ids: set<string>)
    ensures forall id :: KeyOfId(id) in entries ==> id in ids
    ensures forall k :: k in Listed(entries) ==> k[1] in ids
    ensures forall id :: id in ids ==> exists k :: k in Listed(entries) && k[1] == id
  {
    set k | k in Listed(entries) :: k[1]
  }

  /** The outcome of `loadInfoFromKv` or `loadInfoFromDefaultData` as the
      boolean it returns. */
  function Flag(r: Result<Option<TournamentInfo>>): Result<bool> {
    match r
    case Ok(found) => Ok(found.Some?)
    case Err(e) => Err(e)
  }

  /** The `info` field after such a call: assigned on success, kept otherwise. */
  function Assigned(prev: Option<TournamentInfo>, r: Result<Option<TournamentInfo>>): Option<TournamentInfo> {
    if r.Ok? && r.value.Some? then r.value else prev
  }

  /** A tournament being resolved: its id, the optional store, and the info
      once one has been loaded. */
  class Tournament {
    const kv: Store?<seq<string>>
    const id: string
    var info: Option<TournamentInfo>

    constructor (id: string, kv: Store?<seq<string>>)
      ensures this.id == id && this.kv == kv && info == None
    {
      this.kv := kv;
      this.id := id;
      info := None;
    }

    /** The store contents, or None when there is no store. */
    function Store(): Option<map<seq<string>, Value>>
      reads kv
    {
      if kv == null then None else Some(kv.entries)
    }

    /** `loadInfoFromKv`. */
    method LoadInfoFromKv(g: Guards) returns (r: Result<bool>)
      modifies this
      ensures r == Flag(KvLookup(Store(), id, g))
      ensures info == Assigned(old(info), KvLookup(Store(), id, g))
    {
      if kv == null {
        return Ok(false);
      }
      var value := kv.Get(KeyOfId(id));
      if !Truthy(value) {
        return Ok(false);
      }
      if !IsTournamentInfo(g, value) {
        return Err(InvalidKvRecord);
      }
      info := Some(value.info);
      return Ok(true);
    }

    /** `loadInfoFromDefaultData`. */
    method LoadInfoFromDefaultData(defaults: Table, env: Env) returns (r: Result<bool>)
      modifies this
      ensures r == Flag(DefaultLookup(id, defaults, env))
      ensures info == Assigned(old(info), DefaultLookup(id, defaults, env))
    {
      if id !in defaults.entries {
        return Ok(false);
      }
      var tournamentData := defaults.entries[id];
      if tournamentData.infoPath !in env.files {
        return Err(ReadFailed(tournamentData.infoPath));
      }
      var doc := env.files[tournamentData.infoPath];
      if !IsTournamentInfo(env.guards, doc) {
        return Err(InvalidDefaultDocument);
      }
      var tournamentInfo := doc.info;
      if |tournamentInfo.players| == 0 && HasRosterUrl(tournamentData) {
        var url := tournamentData.playersCsvUrl.value;
        if url !in env.texts {
          return Err(FetchFailed(url));
        }
        var players := ParsePlayersCsv(env.texts[url]);
        if players.Err? {
          return Err(players.error);
        }
        tournamentInfo := tournamentInfo.(players := players.value);
      }
      info := Some(tournamentInfo);
      return Ok(true);
    }

    /** `load`: the store first, then the default data; any exception is
      caught and reported as false. It writes nothing to the store. */
    method Load(defaults: Table, env: Env) returns (ok: bool)
      modifies this
      ensures ok <==> Resolve(Store(), id, defaults, env).Some?
      ensures info == if ok then Resolve(Store(), id, defaults, env) else old(info)
      ensures kv != null ==> kv.entries == old(kv.entries)
    {
      var fromKv := LoadInfoFromKv(env.guards);
      if fromKv.Err? {
        return false;
      }
      if fromKv.value {
        return true;
      }
      var fromDefaults := LoadInfoFromDefaultData(defaults, env);
      if fromDefaults.Err? {
        return false;
      }
      return fromDefaults.value;
    }

    /** The static `load`: a fresh tournament, loaded; its info is the
      resolution, or none. */
    static method LoadNew(id: string, kv: Store?<seq<string>>, defaults: Table, env: Env) returns (t: Tournament)
      ensures fresh(t) && t.id == id && t.kv == kv
      ensures t.info == Resolve(t.Store(), id, defaults, env)
    {
      t := new Tournament(id, kv);
      var _ := t.Load(defaults, env);
    }

    /** The static `save`: invalid data is refused and nothing is written;
      valid data is stored under the id's key and nothing else changes. */
    static method Save(id: string, data: Value, kv: Store<seq<string>>, g: Guards) returns (ok: bool)
      modifies kv
      ensures ok <==> IsTournamentInfo(g, data)
      ensures kv.entries == if ok then old(kv.entries)[KeyOfId(id) := data] else old(kv.entries)
    {
      if !IsTournamentInfo(g, data) {
        return false;
      }
      kv.Set(KeyOfId(id), data);
      return true;
    }

    /** The static `listAllIds`: every default id, in table order, followed by
      every id recorded in the store that is not already there; no id twice. */
    static method ListAllIds(kv: Store<seq<string>>, defaults: Table) returns (ids: seq<string>)
      requires defaults.Valid()
      ensures Distinct(ids)
      ensures forall x :: x in ids <==> x in defaults.ids || x in StoredIds(kv.entries)
      ensures |defaults.ids| <= |ids| && ids[..|defaults.ids|] == defaults.ids
    {
      // kvIds plays the JavaScript Set: insertion-ordered and duplicate-free
      var kvIds: seq<string> := [];
      var pending := Listed(kv.entries);
      ghost var seen: set<seq<string>> := {};
      while pending != {}
        invariant pending !! seen && pending + seen == Listed(kv.entries)
        invariant Distinct(kvIds)
        invariant forall x :: x in kvIds <==> x in (set k | k in seen :: k[1])
        decreases pending
      {
        var key :| key in pending;
        var x := key[1];
        if x !in kvIds {
          kvIds := kvIds + [x];
        }
        pending := pending - {key};
        seen := seen + {key};
      }
      assert seen == Listed(kv.entries);

      // [...new Set([...defaultIds, ...kvIds])]
      var all := defaults.ids + kvIds;
      ids := [];
      for i := 0 to |all|
        invariant Distinct(ids)
        invariant forall x :: x in ids <==> x in all[..i]
        invariant i <= |defaults.ids| ==> ids == all[..i]
        invariant i > |defaults.ids| ==> |defaults.ids| <= |ids| && ids[..|defaults.ids|] == defaults.ids
      {
        if all[i] !in ids {
          ids := ids + [all[i]];
        }
      }
      assert all[..|all|] == all;
    }
  }
}
