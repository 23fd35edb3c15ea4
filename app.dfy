/** The renderer's session state (`App`): connection status, console log, ban
    list, roster and the polling timer, and the handlers that change them.

    What the renderer asks of the main process is recorded as a sequence of
    requests. Timers are explicit: scheduling one counts it as pending, and a
    separate method is the timer firing. Geolocation lookups and the clock are
    parameters. */
module Renderer {
  import opened Text
  import opened BanList
  import opened Roster
  import opened Classifier
  import opened Geo

  /** The console keeps at most this many lines. */
  const LogCap: nat := 1000

  /** `connectionStatus`. */
  datatype Status = Disconnected | Connecting | Connected | Errored

  /** The connection settings the handlers read. */
  datatype Config = Config(ip: string, rconPort: int, password: string)

  /** A connect, disconnect or send call on `window.api`; geolocation calls
      are the `lookup` function instead. */
  datatype Request = ConnectRcon(host: string, port: int, password: string) | DisconnectRcon | SendRcon(command: string)

  /** `ban` or `kick` from the moderation dialog. */
  datatype Action = Kick | Ban

  /** `.slice(-1000)`: the newest lines, at most the cap. */
  function Capped(lines: seq<string>): (r: seq<string>)
    ensures |r| == if |lines| <= LogCap then |lines| else LogCap
    ensures r == lines[|lines| - |r|..]
  {
    if |lines| <= LogCap then lines else lines[|lines| - LogCap..]
  }

  /** Appending a line and capping keeps the log within the cap, the new line
      last, and the lines before it in order: the newest ones survive. */
  lemma CappedAppend(logs: seq<string>, line: string)
    ensures var r := Capped(logs + [line]);
      && |r| <= LogCap && r != [] && r[|r| - 1] == line
      && r[..|r| - 1] == logs[|logs| - (|r| - 1)..]
  {
    var r := Capped(logs + [line]);
    assert (logs + [line])[|logs| + 1 - |r|..|logs|] == logs[|logs| - (|r| - 1)..];
  }

  /** Missing settings: `!ip || !rconPort || !password`. */
  predicate Incomplete(c: Config) {
    c.ip == "" || c.rconPort == 0 || c.password == ""
  }

  /** `[SYSTEM] Connecting to ${ip}:${rconPort} via WebRCON...`. */
  function ConnectingLine(c: Config): string {
    "[SYSTEM] Connecting to " + c.ip + ":" + IntToString(c.rconPort) + " via WebRCON..."
  }

  /** `${type} ${steamId} "${reason}"`. */
  function ModerationCommand(action: Action, steamId: string, reason: string): string {
    (if action == Kick then "kick" else "ban") + " " + steamId + " \"" + reason + "\""
  }

  /** Restored history: every stored entry starts offline. */
  function Restored(history: seq<Player>): (r: seq<Player>)
    ensures |r| == |history|
    ensures forall k | 0 <= k < |r| :: r[k] == history[k].(isOnline := false)
  {
    seq(|history|, k requires 0 <= k < |history| => history[k].(isOnline := false))
  }

  /** The first loop of `updatePlayerList`, over a copy of the roster: each
      record updates the entry with its SteamID in place, by index, or appends
      a new entry. */
  method MergeSnapshot(roster: seq<Player>, raws: seq<RawPlayer>, lookup: string -> Option<GeoInfo>, now: int)
    returns (cur: seq<Player>)
    ensures cur == AbsorbAll(roster, raws, lookup, now)
  {
    cur := roster;
    var i := 0;
    while i < |raws|
      invariant 0 <= i <= |raws|
      invariant AbsorbAll(cur, raws[i..], lookup, now) == AbsorbAll(roster, raws, lookup, now)
    {
      ghost var before := cur;
      var raw := raws[i];
      var ipOnly := BeforeFirst(raw.Address, ':');
      var k := FindIndex(cur, raw.SteamID);
      if k != -1 {
        var p := cur[k];
        var country, code, city := p.country, p.countryCode, p.city;
        if country == "" || country == "Unknown" || country == "Local" {
          var geo := FetchGeoInfo(lookup(ipOnly));
          if geo.country != "Unknown" {
            country, code, city := geo.country, geo.countryCode, geo.city;
          }
        }
        var q := p.(name := raw.DisplayName, ping := raw.Ping, connectedSeconds := raw.ConnectedSeconds,
                    sessionPlaytime := FormatTime(raw.ConnectedSeconds), isOnline := true,
                    lastSeen := At(now), country := country, countryCode := code, city := city);
        assert q == Refreshed(p, raw, lookup, now);
        cur := cur[k := q];
      } else {
        var geo := FetchGeoInfo(lookup(ipOnly));
        var q := Player(raw.SteamID, raw.DisplayName, geo.country, geo.countryCode, geo.city,
                        raw.SteamID, ipOnly, raw.Ping, "Loading...", raw.ConnectedSeconds,
                        FormatTime(raw.ConnectedSeconds), true, At(now));
        assert q == NewPlayer(raw, lookup, now);
        cur := cur + [q];
      }
      assert AbsorbAll(before, raws[i..], lookup, now) == AbsorbAll(cur, raws[i + 1..], lookup, now) by {
        assert raws[i..][0] == raw && raws[i..][1..] == raws[i + 1..];
        assert cur == Absorb(before, raw, lookup, now);
      }
      i := i + 1;
    }
  }

  /** The second loop of `updatePlayerList`: every entry whose SteamID is not
      in `online` has `isOnline` cleared, in place; the others stay as they are. */
  method MarkMissingOffline(roster: seq<Player>, online: set<string>) returns (cur: seq<Player>)
    ensures cur == MarkOffline(roster, online)
  {
    cur := roster;
    var j := 0;
    while j < |cur|
      invariant 0 <= j <= |cur| == |roster|
      invariant forall m | 0 <= m < j :: cur[m] == Offlined(roster[m], online)
      invariant forall m | j <= m < |cur| :: cur[m] == roster[m]
    {
      if cur[j].steamId !in online && cur[j].isOnline {
        cur := cur[j := cur[j].(isOnline := false)];
      }
      j := j + 1;
    }
  }

  class App {
    var config: Config
    var status: Status
    var logs: seq<string>
    var banned: seq<BannedPlayer>
    var players: seq<Player>
    /** `pollingTimerRef.current !== null`. */
    var polling: bool
    /** Intervals created and not cleared. */
    ghost var liveIntervals: nat
    /** The connect, disconnect and send calls made on `window.api`, in order. */
    var requests: seq<Request>
    /** Scheduled and not yet fired: connect timeouts, reconnect delays and
        ban-list refreshes. */
    var pendingTimeouts: nat
    var pendingReconnects: nat
    var pendingBanRefreshes: nat

    /** At most one polling interval exists, and it is the one in the slot;
        no SteamID is banned twice. */
    ghost predicate Valid()
      reads this
    {
      && liveIntervals == (if polling then 1 else 0)
      && UniqueIds(banned)
    }

    /** Start-up: the saved settings and the saved roster, all offline. */
    constructor(saved: Config, history: seq<Player>)
      ensures Valid()
      ensures config == saved && status == Disconnected && logs == [] && banned == []
      ensures players == Restored(history) && forall k | 0 <= k < |players| :: !players[k].isOnline
      ensures !polling && requests == []
      ensures pendingTimeouts == 0 && pendingReconnects == 0 && pendingBanRefreshes == 0
    {
      config := saved;
      status := Disconnected;
      logs := [];
      banned := [];
      players := Restored(history);
      polling := false;
      liveIntervals := 0;
      requests := [];
      pendingTimeouts := 0;
      pendingReconnects := 0;
      pendingBanRefreshes := 0;
    }

    /** A line for the console from the log handler, which caps the log. */
    method AppendCapped(line: string)
      requires Valid()
      modifies this
      ensures Valid()
      ensures logs == Capped(old(logs) + [line])
      ensures status == old(status) && banned == old(banned) && players == old(players)
      ensures polling == old(polling) && requests == old(requests)
      ensures unchanged(this`config, this`liveIntervals, this`pendingTimeouts, this`pendingReconnects, this`pendingBanRefreshes)
    {
      logs := Capped(logs + [line]);
    }

    /** `onRconLog`: classify the line and apply the decision. `parse` is what
        `JSON.parse(log)` would make of it, `lookup` answers `get-geo`, and
        `now` is the clock. */
    method OnRconLog(log: string, parse: SnapshotParse, lookup: string -> Option<GeoInfo>, now: int)
      requires Valid()
      modifies this
      ensures Valid()
      ensures var d := Classify(log, parse);
        && logs == (if d.Logged? then Capped(old(logs) + [log]) else old(logs))
        && banned == (if d.BanRow? then AddBan(old(banned), d.entry) else old(banned))
        && players == (if d.Snapshot? then Reconcile(old(players), d.records, lookup, now) else old(players))
      ensures status == old(status) && polling == old(polling) && requests == old(requests)
      ensures unchanged(this`config, this`pendingTimeouts, this`pendingReconnects, this`pendingBanRefreshes)
    {
      var d := Classify(log, parse);
      match d {
        case Ignored =>
        case Unusable =>
        case Snapshot(rs) => UpdatePlayerList(rs, lookup, now);
        case BanRow(e) => banned := AddBan(banned, e);
        case Logged => AppendCapped(log);
      }
    }

    /** `updatePlayerList`: merge a snapshot into a copy of the roster, entry by
        entry, then mark the entries the snapshot lacks as offline. */
    method UpdatePlayerList(raws: seq<RawPlayer>, lookup: string -> Option<GeoInfo>, now: int)
      requires Valid()
      modifies this`players
      ensures Valid()
      ensures players == Reconcile(old(players), raws, lookup, now)
    {
      var cur := MergeSnapshot(players, raws, lookup, now);
      var online := set r | r in raws :: r.SteamID;
      assert online == SnapshotIds(raws);
      cur := MarkMissingOffline(cur, online);
      players := cur;
    }

    /** `startPolling`: clear the running interval, ask for the player list,
        and start a new interval. */
    method StartPolling()
      requires Valid()
      modifies this`polling, this`liveIntervals, this`requests
      ensures Valid()
      ensures polling && liveIntervals == 1
      ensures requests == old(requests) + [SendRcon("playerlist")]
    {
      if polling {
        liveIntervals := liveIntervals - 1;
      }
      requests := requests + [SendRcon("playerlist")];
      polling := true;
      liveIntervals := liveIntervals + 1;
    }

    /** `stopPolling`: clear the running interval, if any. */
    method StopPolling()
      requires Valid()
      modifies this`polling, this`liveIntervals
      ensures Valid()
      ensures !polling && liveIntervals == 0
    {
      if polling {
        polling := false;
        liveIntervals := liveIntervals - 1;
      }
    }

    /** The polling interval fires: ask for the player list again. */
    method PollTick()
      requires Valid() && polling
      modifies this`requests
      ensures Valid()
      ensures requests == old(requests) + [SendRcon("playerlist")]
    {
      requests := requests + [SendRcon("playerlist")];
    }

    /** `onRconConnected`. */
    method OnConnected()
      requires Valid()
      modifies this
      ensures Valid()
      ensures status == Connected && logs == old(logs) + ["[SYSTEM] Connected successfully."]
      ensures polling && requests == old(requests) + [SendRcon("playerlist")]
      ensures banned == old(banned) && players == old(players)
      ensures unchanged(this`config, this`pendingTimeouts, this`pendingReconnects, this`pendingBanRefreshes)
    {
      status := Connected;
      logs := logs + ["[SYSTEM] Connected successfully."];
      StartPolling();
    }

    /** `onRconDisconnected`. */
    method OnDisconnected()
      requires Valid()
      modifies this
      ensures Valid()
      ensures status == Disconnected && logs == old(logs) + ["[SYSTEM] Disconnected."]
      ensures !polling && requests == old(requests)
      ensures banned == old(banned) && players == old(players)
      ensures unchanged(this`config, this`pendingTimeouts, this`pendingReconnects, this`pendingBanRefreshes)
    {
      status := Disconnected;
      logs := logs + ["[SYSTEM] Disconnected."];
      StopPolling();
    }

    /** `onRconError`. */
    method OnError(err: string)
      requires Valid()
      modifies this
      ensures Valid()
      ensures status == Errored && logs == old(logs) + ["[ERROR] " + err]
      ensures !polling && requests == old(requests)
      ensures banned == old(banned) && players == old(players)
      ensures unchanged(this`config, this`pendingTimeouts, this`pendingReconnects, this`pendingBanRefreshes)
    {
      status := Errored;
      logs := logs + ["[ERROR] " + err];
      StopPolling();
    }

    /** `onRconStatus`: the main process sets the status directly. */
    method OnStatus(s: Status)
      requires Valid()
      modifies this`status
      ensures Valid() && status == s
    {
      status := s;
    }

    /** `handleToggleConnection`. Without `force`, a connected or connecting
        session is closed. Otherwise, or from a closed session, a connection
        is opened when the settings are complete, with a 10 s timeout. */
    method ToggleConnection(force: bool)
      requires Valid()
      modifies this
      ensures Valid()
      ensures !force && old(status) in {Connected, Connecting} ==>
        && status == Disconnected && requests == old(requests) + [DisconnectRcon]
        && logs == old(logs) + ["[SYSTEM] Connection closed/canceled by user."]
        && pendingTimeouts == old(pendingTimeouts)
      ensures (force || old(status) !in {Connected, Connecting}) && Incomplete(config) ==>
        && status == old(status) && requests == old(requests)
        && logs == old(logs) + ["[SYSTEM] Error: IP, Port, or Password is missing."]
        && pendingTimeouts == old(pendingTimeouts)
      ensures (force || old(status) !in {Connected, Connecting}) && !Incomplete(config) ==>
        && status == Connecting && logs == old(logs) + [ConnectingLine(config)]
        && requests == old(requests) + [ConnectRcon(config.ip, config.rconPort, config.password)]
        && pendingTimeouts == old(pendingTimeouts) + 1
      ensures banned == old(banned) && players == old(players) && polling == old(polling)
      ensures unchanged(this`config, this`pendingReconnects, this`pendingBanRefreshes)
    {
      if !force && (status == Connected || status == Connecting) {
        requests := requests + [DisconnectRcon];
        status := Disconnected;
        logs := logs + ["[SYSTEM] Connection closed/canceled by user."];
      } else if config.ip == "" || config.rconPort == 0 || config.password == "" {
        logs := logs + ["[SYSTEM] Error: IP, Port, or Password is missing."];
      } else {
        status := Connecting;
        logs := logs + [ConnectingLine(config)];
        requests := requests + [ConnectRcon(config.ip, config.rconPort, config.password)];
        pendingTimeouts := pendingTimeouts + 1;
      }
    }

    /** A connect timeout fires: it acts only while the status is still
        `connecting`, whichever attempt scheduled it. */
    method ConnectTimeoutFires()
      requires Valid() && pendingTimeouts > 0
      modifies this
      ensures Valid()
      ensures pendingTimeouts == old(pendingTimeouts) - 1
      ensures old(status) == Connecting ==>
        && status == Errored && requests == old(requests) + [DisconnectRcon]
        && logs == old(logs) + ["[SYSTEM] Connection timed out (10s)."]
      ensures old(status) != Connecting ==> status == old(status) && requests == old(requests) && logs == old(logs)
      ensures banned == old(banned) && players == old(players) && polling == old(polling)
      ensures unchanged(this`config, this`pendingReconnects, this`pendingBanRefreshes)
    {
      pendingTimeouts := pendingTimeouts - 1;
      if status == Connecting {
        logs := logs + ["[SYSTEM] Connection timed out (10s)."];
        requests := requests + [DisconnectRcon];
        status := Errored;
      }
    }

    /** `handleReconnect`: from a connected session, disconnect and connect
        again a second later; otherwise connect now. */
    method Reconnect()
      requires Valid()
      modifies this
      ensures Valid()
      ensures old(status) == Connected ==>
        && status == Disconnected && requests == old(requests) + [DisconnectRcon]
        && logs == old(logs) + ["[SYSTEM] Reconnecting..."]
        && pendingReconnects == old(pendingReconnects) + 1
        && pendingTimeouts == old(pendingTimeouts)
      ensures old(status) != Connected && Incomplete(config) ==>
        && status == old(status) && requests == old(requests)
        && logs == old(logs) + ["[SYSTEM] Error: IP, Port, or Password is missing."]
        && pendingTimeouts == old(pendingTimeouts) && pendingReconnects == old(pendingReconnects)
      ensures old(status) != Connected && !Incomplete(config) ==>
        && status == Connecting && logs == old(logs) + [ConnectingLine(config)]
        && requests == old(requests) + [ConnectRcon(config.ip, config.rconPort, config.password)]
        && pendingTimeouts == old(pendingTimeouts) + 1 && pendingReconnects == old(pendingReconnects)
      ensures banned == old(banned) && players == old(players) && polling == old(polling)
      ensures unchanged(this`config, this`pendingBanRefreshes)
    {
      if status == Connected {
        requests := requests + [DisconnectRcon];
        status := Disconnected;
        logs := logs + ["[SYSTEM] Reconnecting..."];
        pendingReconnects := pendingReconnects + 1;
      } else {
        ToggleConnection(true);
      }
    }

    /** The reconnect delay fires: connect, whatever the status is now. */
    method ReconnectDelayFires()
      requires Valid() && pendingReconnects > 0
      modifies this
      ensures Valid()
      ensures pendingReconnects == old(pendingReconnects) - 1
      ensures Incomplete(config) ==>
        && status == old(status) && requests == old(requests)
        && logs == old(logs) + ["[SYSTEM] Error: IP, Port, or Password is missing."]
        && pendingTimeouts == old(pendingTimeouts)
      ensures !Incomplete(config) ==>
        && status == Connecting && logs == old(logs) + [ConnectingLine(config)]
        && requests == old(requests) + [ConnectRcon(config.ip, config.rconPort, config.password)]
        && pendingTimeouts == old(pendingTimeouts) + 1
      ensures banned == old(banned) && players == old(players) && polling == old(polling)
      ensures unchanged(this`config, this`pendingBanRefreshes)
    {
      pendingReconnects := pendingReconnects - 1;
      ToggleConnection(true);
    }

    /** `refreshBanList`: empty the ban list, then ask for it. */
    method RefreshBanList()
      requires Valid()
      modifies this`banned, this`requests
      ensures Valid()
      ensures banned == [] && requests == old(requests) + [SendRcon("banlist")]
    {
      banned := [];
      requests := requests + [SendRcon("banlist")];
    }

    /** Opening the ban-list tab refreshes the list when connected. */
    method ShowBanTab()
      requires Valid()
      modifies this`banned, this`requests
      ensures Valid()
      ensures status == Connected ==> banned == [] && requests == old(requests) + [SendRcon("banlist")]
      ensures status != Connected ==> banned == old(banned) && requests == old(requests)
    {
      if status == Connected {
        RefreshBanList();
      }
    }

    /** A scheduled ban-list refresh fires. */
    method BanRefreshFires()
      requires Valid() && pendingBanRefreshes > 0
      modifies this`banned, this`requests, this`pendingBanRefreshes
      ensures Valid()
      ensures pendingBanRefreshes == old(pendingBanRefreshes) - 1
      ensures banned == [] && requests == old(requests) + [SendRcon("banlist")]
    {
      pendingBanRefreshes := pendingBanRefreshes - 1;
      RefreshBanList();
    }

    /** `executeUnban`, once confirmed: send `unban <id>`, drop that SteamID
        from the list, and refresh the list a second later. */
    method ExecuteUnban(steamId: string, confirmed: bool)
      requires Valid()
      modifies this`banned, this`requests, this`pendingBanRefreshes
      ensures Valid()
      ensures confirmed ==>
        && requests == old(requests) + [SendRcon("unban " + steamId)]
        && banned == Unban(old(banned), steamId)
        && pendingBanRefreshes == old(pendingBanRefreshes) + 1
      ensures !confirmed ==>
        requests == old(requests) && banned == old(banned) && pendingBanRefreshes == old(pendingBanRefreshes)
    {
      if confirmed {
        requests := requests + [SendRcon("unban " + steamId)];
        UnbanKeepsUnique(banned, steamId);
        banned := Unban(banned, steamId);
        pendingBanRefreshes := pendingBanRefreshes + 1;
      }
    }

    /** `executeModalAction`: log and send the kick or ban command; a ban also
        schedules a ban-list refresh. */
    method ExecuteModeration(action: Action, steamId: string, reason: string)
      requires Valid()
      modifies this
      ensures Valid()
      ensures requests == old(requests) + [SendRcon(ModerationCommand(action, steamId, reason))]
      ensures logs == old(logs) + ["[ADMIN] Executing: " + ModerationCommand(action, steamId, reason)]
      ensures pendingBanRefreshes == old(pendingBanRefreshes) + (if action == Ban then 1 else 0)
      ensures status == old(status) && banned == old(banned) && players == old(players) && polling == old(polling)
      ensures unchanged(this`config, this`pendingTimeouts, this`pendingReconnects)
    {
      var command := ModerationCommand(action, steamId, reason);
      logs := logs + ["[ADMIN] Executing: " + command];
      requests := requests + [SendRcon(command)];
      if action == Ban {
        pendingBanRefreshes := pendingBanRefreshes + 1;
      }
    }

    /** `handleSendCommand`: send the input as typed unless it is blank. */
    method SendCommand(input: string)
      requires Valid()
      modifies this`requests
      ensures Valid()
      ensures Trim(input) == "" ==> requests == old(requests)
      ensures Trim(input) != "" ==> requests == old(requests) + [SendRcon(input)]
    {
      if Trim(input) != "" {
        requests := requests + [SendRcon(input)];
      }
    }
  }
}
