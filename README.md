# Rust RCON client: console, ban list, roster and connection model

This project models the logic inside an Electron desktop client for the
WebRCON console of Rust game servers. The client has two processes.

- The **main process** (`src/main/index.ts`) holds one WebSocket to the
  server. It:
  - builds the `ws://host:port/password` URL;
  - routes every inbound frame to the window: as a message when it parses
    and its `Message` is truthy, and as its raw text otherwise;
  - writes commands as `{Identifier: 1001, Message, Name: 'WebRcon'}` packets,
    and only to an open socket;
  - resolves player addresses to a location through a cascade of three
    geolocation services.
- The **renderer** (`src/renderer/src/App.tsx`) keeps the session state. It:
  - sorts each inbound console line into a decision: dropped echo or header,
    JSON player snapshot, protected event, ban-list row, or plain console text;
  - accumulates the ban list without duplicate SteamIDs;
  - reconciles player snapshots into a persistent roster;
  - runs the connection state machine: disconnected, connecting, connected,
    error, with a 10-second connect timeout, reconnect and one polling timer.

Modules, one per file:

| file | module | what it holds |
|---|---|---|
| `text.dfy` | `Text` | JavaScript string operations the code relies on: `trim`, `includes`, `startsWith`, `/…/i` search, `split(':')[0]`, number formatting |
| `geo.dfy` | `Geo` | the `get-geo` handler over given provider outcomes, and a reference cascade |
| `bridge.dfy` | `Bridge` | frame routing, the command packet, the URL, and class `MainProcess` with the socket slot |
| `classifier.dfy` | `Classifier` | the ban-row regular expression as a scanner plus its declarative meaning, and the `onRconLog` decision list |
| `banlist.dfy` | `BanList` | ban-list insertion and the unban filter |
| `roster.dfy` | `Roster` | `formatTime`, `updatePlayerList` as a function on values and its properties, and the players-tab partition and sort |
| `app.dfy` | `Renderer` | class `App`: the renderer's state and every handler, imperative where the code is |

The outside world is modelled as parameters:

- What `JSON.parse` makes of a line is a parameter of type `SnapshotParse` or
  `Option<Json>`.
- A provider's response is an `Outcome`: failed or threw, or a response body.
- `get-geo` as seen from the renderer is a function `lookup`.
- The clock is an integer `now`, read once per snapshot.
- Socket events and timer expiries are method calls.
- The connect, disconnect and send calls the renderer makes on `window.api` are
  appended to `requests`; its `getGeo` calls are the `lookup` function
  parameter, answered at once.

## Model

| member | source | states |
|---|---|---|
| Text.Trim | src/renderer/src/App.tsx:178 | the result is the input minus its leading and trailing JavaScript white space, and it neither starts nor ends with white space |
| Text.TrimIdempotent | src/renderer/src/App.tsx:178 | trimming twice is trimming once |
| Text.FoldedSearch | src/renderer/src/App.tsx:196 | for a lower-case word, a case-insensitive search gives the same answer on the text and on its lower-cased copy |
| Text.BeforeFirst | src/renderer/src/App.tsx:286 | `split(sep)[0]` is a prefix of the text, contains no separator, and ends at the first separator or at the end |
| Text.BeforeFirstOfJoin | src/main/index.ts:121 | a text without the separator comes back from `split(sep)[0]` unchanged, with or without a suffix after a separator |
| Text.NatToStringRoundTrip | src/renderer/src/App.tsx:170 | decimal digits of a natural number read back as that number |
| Text.IntToString | src/renderer/src/App.tsx:368 | the printed integer starts with `-` exactly when it is negative, and the digits (after the sign) read back as its magnitude |
| Geo.StripPort | src/main/index.ts:121 | the address used is the prefix of the given one that ends at its first `:`, or all of it when there is none |
| Geo.IsLocal | src/main/index.ts:124-126 | the local-address test; what it decides is stated by `Geo.GetGeo`: no provider is consulted exactly when it holds, and the answer is then `Local` |
| Geo.WhoIsResult | src/main/index.ts:131-140 | ipwho.is succeeds exactly when it answered a body whose `success` is true, and then gives its country, country code and city |
| Geo.IpApiResult | src/main/index.ts:144-153 | ip-api.com succeeds exactly when it answered a body whose `status` is `success`, and then gives its country, code and city |
| Geo.IpapiCoResult | src/main/index.ts:156-165 | ipapi.co succeeds exactly when it answered a non-empty `country_name`, and then gives it with code and city |
| Geo.GetGeo | src/main/index.ts:119-169 | no provider is consulted exactly when the address is local, which answers `Local`; at most three are consulted; all three failing answers `Unknown` after consulting all three |
| Geo.Cascade | src/main/index.ts:130-168 | reference cascade: the providers consulted are a prefix of the list, every one before the last failed, and the answer is the last one's result or the fallback when all failed |
| Geo.GetGeoIsCascade | src/main/index.ts:119-169 | for a non-local address the handler equals the cascade over ipwho.is, ip-api.com, ipapi.co in that order with fallback `Unknown` |
| Geo.PortIsIgnored | src/main/index.ts:121 | an address with a port gives the same answer and the same queries as the address alone |
| Bridge.Member | src/main/index.ts:65-67 | a key lookup in a parsed object is absent exactly when no field has that key, and otherwise gives the value of the last field with that key |
| Bridge.RouteFrame | src/main/index.ts:62-76 | a frame is forwarded as its `Message` plus the whole object exactly when it parsed and its `Message` is truthy; otherwise as its full text only |
| Bridge.Packet | src/main/index.ts:105-109 | the `rcon-send` packet with identifier 1001; what it carries is stated by `Bridge.PacketRoutesBack` |
| Bridge.PacketRoutesBack | src/main/index.ts:103-110 | a packet with a non-empty command, read back as a frame, is routed as the command text plus the packet; an empty command is routed as the frame's text |
| Bridge.Url | src/main/index.ts:51 | the `ws://host:port/password` URL; that it carries its three parts is stated by `Bridge.UrlReadsBack` |
| Bridge.UrlReadsBack | src/main/index.ts:51 | host, port and password can be read back from the `ws://` URL when the host holds no `:` |
| Bridge.Shut | src/main/index.ts:47 | closing a socket makes it not live and keeps its URL and what was written to it |
| Bridge.MainProcess.Connect | src/main/index.ts:43-93 | the old socket is closed and dropped before a new one to the built URL fills the slot; a setup failure leaves the slot empty and reports its message or `Connection setup failed`; at most one live socket, the slot's |
| Bridge.MainProcess.OpenSocket | src/main/index.ts:54 | a new connecting socket to the URL fills the empty slot; with no other socket live, exactly one live socket results, the slot's |
| Bridge.MainProcess.Disconnect | src/main/index.ts:95-101 | always answers true; the slot is empty and no socket is live afterwards |
| Bridge.MainProcess.Send | src/main/index.ts:103-114 | answers true exactly when the slot holds an open socket, then writes exactly the command packet to it; otherwise nothing is written |
| Bridge.MainProcess.OnOpen | src/main/index.ts:57-60 | the socket becomes open and the window is told it connected |
| Bridge.MainProcess.OnMessage | src/main/index.ts:62-76 | the window receives exactly what `RouteFrame` routes |
| Bridge.MainProcess.OnError | src/main/index.ts:78-81 | the window receives the error's message |
| Bridge.MainProcess.OnCloseAsWritten | src/main/index.ts:83-87 | as written: any socket's close empties the slot and tells the window it disconnected |
| Bridge.MainProcess.OnClose | src/main/index.ts:83-87 | corrected: only the slot's own socket empties the slot, so the one-live-socket invariant is kept; a socket already replaced in the slot closes without telling the window, any other close reports the disconnect |
| Bridge.StaleCloseAsWritten | src/main/index.ts:83-87 | with the handler as written, a stale close leaves an open socket unreachable, `rcon-send` refusing, and the window told it disconnected |
| Bridge.StaleCloseCorrected | src/main/index.ts:83-87 | with the corrected handler, the same events leave the command written to the open socket, and the window only told it connected |
| Classifier.SkipSpaces | src/renderer/src/App.tsx:201 | `\s+` scanning stops at the first non-space |
| Classifier.ScanToQuote | src/renderer/src/App.tsx:201 | `[^"]*` scanning stops at the first quote |
| Classifier.QuotedField | src/renderer/src/App.tsx:201 | a found `\s+"…"` field lies strictly inside the text |
| Classifier.FindFrom | src/renderer/src/App.tsx:201 | the regex search finds the first position where a ban row matches, and none before it |
| Classifier.BanRowAtMeaning | src/renderer/src/App.tsx:201 | the scanner reads a row at a position exactly when the text there spells 17 digits, spaces, a non-empty quoted name, spaces and a quoted reason |
| Classifier.BanRowAtSound | src/renderer/src/App.tsx:201 | every row the scanner reads is spelled by the text |
| Classifier.BanRowAtComplete | src/renderer/src/App.tsx:201 | every row the text spells is read by the scanner |
| Classifier.MatchesAtMeaning | src/renderer/src/App.tsx:201 | the regex matches at a position exactly when it is the start of the text or follows white space and a row is spelled there |
| Classifier.FirstBanRow | src/renderer/src/App.tsx:201 | `log.match` of the ban-row pattern; its meaning is stated by `Classifier.FirstBanRowMeaning` |
| Classifier.FirstBanRowMeaning | src/renderer/src/App.tsx:201-206 | `log.match` gives a row at a position exactly when it is the leftmost match, and gives nothing exactly when no match exists |
| Classifier.BanLineReadsBack | src/renderer/src/App.tsx:201-206 | a ban-list line printed from an entry is matched at 0 and yields that entry |
| Classifier.Classify | src/renderer/src/App.tsx:176-222 | the decision the log handler takes on a line, written as the code's sequence of early returns; each decision is characterised both ways by `Classifier.ClassifyDecides` |
| Classifier.ClassifyDecides | src/renderer/src/App.tsx:176-222 | the first-match decision list, each decision with both directions: echoes and headers are dropped; a snapshot line goes to `updatePlayerList` when it parses, is dropped when the update fails, and is logged when parsing throws; a protected line is always logged; otherwise the leftmost ban row is taken, or the line is logged when there is none |
| Classifier.IsProtected | src/renderer/src/App.tsx:196 | the protected-word test; its case-insensitivity is stated by `Classifier.ProtectedIgnoresCase` and its precedence over ban rows by `Classifier.ClassifyDecides` |
| Classifier.ProtectedIgnoresCase | src/renderer/src/App.tsx:196 | the protected-word test gives the same answer on a line and on its lower-cased copy |
| Classifier.BanLineClassified | src/renderer/src/App.tsx:196-214 | a printed ban line that is not a header becomes that ban row, unless it holds a protected word, in which case it is logged |
| BanList.AddBan | src/renderer/src/App.tsx:208-211 | the list is unchanged when the SteamID is already banned and gains the row at the end otherwise; existing entries keep their order; distinct SteamIDs stay distinct |
| BanList.Unban | src/renderer/src/App.tsx:435 | the result holds exactly the entries whose SteamID differs |
| BanList.UnbanAbsent | src/renderer/src/App.tsx:435 | unbanning an absent SteamID changes nothing |
| BanList.UnbanRemovesOne | src/renderer/src/App.tsx:435 | in a list without repeats, unbanning entry k removes exactly it and keeps the others in order |
| BanList.UnbanKeepsUnique | src/renderer/src/App.tsx:435 | unbanning keeps SteamIDs distinct |
| Roster.JsRem | src/renderer/src/App.tsx:169 | JavaScript `%` agrees with Dafny's on a non-negative dividend; on a negative one it lies in (-b, 0] and is Dafny's remainder less `b`, or 0 when that remainder is 0 |
| Roster.FormatTime | src/renderer/src/App.tsx:167-171 | `formatTime`; what it prints is stated by `Roster.FormatTimeReadsBack` |
| Roster.FormatTimeReadsBack | src/renderer/src/App.tsx:167-171 | `formatTime` of non-negative seconds reads back as `Xh Ym` with X·3600 + Y·60 ≤ seconds < X·3600 + Y·60 + 60 and Y < 60 |
| Roster.FetchGeoInfo | src/renderer/src/App.tsx:160-165 | `fetchGeoInfo`: the answer, or `Unknown` when the request fails; what entries then hold is stated by `Roster.Refreshed` and `Roster.NewPlayer` |
| Roster.Refreshed | src/renderer/src/App.tsx:289-316 | a seen entry takes the record's name, ping, session and online flag and `now`; it keeps id, SteamID, ip and total; its location is kept when resolved; when unresolved it becomes the lookup answer if that is not `Unknown`, and is kept otherwise |
| Roster.NewPlayer | src/renderer/src/App.tsx:317-334 | a new entry carries the record's fields, the address without port, the looked-up location, and total playtime `Loading...` |
| Roster.FindIndex | src/renderer/src/App.tsx:287 | `findIndex` gives the first entry with that SteamID, or -1 when there is none |
| Roster.MarkOffline | src/renderer/src/App.tsx:337-341 | entries whose SteamID is missing are set offline, the others are untouched |
| Roster.NewcomersFacts | src/renderer/src/App.tsx:317-334 | the SteamIDs a snapshot appends are distinct, were not in the roster, and cover every SteamID of the snapshot not already there |
| Roster.AbsorbIds | src/renderer/src/App.tsx:287-334 | one record either keeps the SteamID list or appends its SteamID, and keeps every existing entry's identity |
| Roster.AbsorbAllIdentity | src/renderer/src/App.tsx:285-335 | the snapshot loop never shortens the roster and keeps every existing entry's identity at its index |
| Roster.AbsorbAllIds | src/renderer/src/App.tsx:285-335 | the SteamIDs after the loop are the old ones followed by the first sightings in snapshot order |
| Roster.AbsorbAllUntouched | src/renderer/src/App.tsx:285-335 | an entry whose SteamID the snapshot lacks is not touched by the loop |
| Roster.AbsorbStep | src/renderer/src/App.tsx:287-334 | one record keeps SteamIDs distinct and leaves the entry with its SteamID reflecting it |
| Roster.AbsorbAllDistinct | src/renderer/src/App.tsx:285-335 | the loop keeps SteamIDs distinct, whatever repeats the snapshot holds |
| Roster.AbsorbAllAppendsSeen | src/renderer/src/App.tsx:317-334 | every appended entry's SteamID is in the snapshot |
| Roster.AbsorbAllRefreshes | src/renderer/src/App.tsx:305-316 | an entry the snapshot names reflects the last record for its SteamID |
| Roster.AbsorbAllGeo | src/renderer/src/App.tsx:292-316 | an existing entry's location is kept when resolved, and otherwise is kept or is a lookup answer not `Unknown` for one of its records |
| Roster.AbsorbResolves | src/renderer/src/App.tsx:287-316 | one record whose lookup answers `g`, not `Unknown`, locates its entry at `g` when that entry was unresolved or already at `g` |
| Roster.AbsorbAllResolves | src/renderer/src/App.tsx:285-335 | when every lookup for an entry's SteamID answers the same `g`, not `Unknown`, an entry at `g`, or unresolved and named by the snapshot, ends at `g` |
| Roster.Reconcile | src/renderer/src/App.tsx:281-344 | `updatePlayerList` on values: the roster never shrinks, and an entry is online afterwards only when the snapshot names it |
| Roster.ReconcileKeepsEntries | src/renderer/src/App.tsx:281-344 | no entry is removed; existing entries keep index, SteamID, id and ip; new entries follow in snapshot order, one per new SteamID |
| Roster.ReconcileOnlineExactly | src/renderer/src/App.tsx:283-341 | for a roster without repeated SteamIDs: they stay distinct, each snapshot SteamID has an entry, an entry is online exactly when the snapshot names it, and such an entry reflects the last record for it |
| Roster.ReconcileAbsent | src/renderer/src/App.tsx:337-341 | an entry the snapshot lacks ends offline with every other field unchanged |
| Roster.ReconcileGeo | src/renderer/src/App.tsx:292-316 | an existing entry's location is kept when resolved, and otherwise changes only to a lookup answer for that player that is not `Unknown` |
| Roster.ReconcileResolves | src/renderer/src/App.tsx:292-316 | in a roster without repeats, an unresolved entry that the snapshot names ends at `g` when all its lookups answer `g` and `g` is not `Unknown` |
| Roster.Keep | src/renderer/src/App.tsx:577-578 | a filtered list holds only entries with the requested online flag; a single entry is kept exactly when its flag matches |
| Roster.KeepInOrder | src/renderer/src/App.tsx:577-578 | filtering a concatenation is the concatenation of the filtered parts, so `filter` keeps roster order |
| Roster.Insert | src/renderer/src/App.tsx:578-582 | inserting into a list sorted by descending last sighting keeps it sorted and adds exactly that entry |
| Roster.InsertStable | src/renderer/src/App.tsx:578-582 | the inserted entry goes ahead of every entry with the same sort key, which keep their order |
| Roster.SortByLastSeen | src/renderer/src/App.tsx:578-582 | the history is sorted by descending last sighting, invalid dates as 0, and is a permutation of its input |
| Roster.SortStable | src/renderer/src/App.tsx:578-582 | the sort is stable, like `Array.prototype.sort`: the entries sharing any one sort key come out in their input order |
| Roster.KeepSplits | src/renderer/src/App.tsx:577-578 | the online and offline filters together hold every entry exactly once |
| Roster.PlayersTabPartition | src/renderer/src/App.tsx:577-582 | the online list and the history list partition the roster; the history is offline only and sorted by descending last sighting |
| Renderer.Capped | src/renderer/src/App.tsx:221 | `slice(-1000)` keeps the newest entries, at most 1000 |
| Renderer.CappedAppend | src/renderer/src/App.tsx:221 | after appending, the log holds at most 1000 entries, the new line last and the older ones the newest preceding lines in order |
| Renderer.Restored | src/renderer/src/App.tsx:140-145 | restored roster entries are the stored ones with `isOnline` false |
| Renderer.MergeSnapshot | src/renderer/src/App.tsx:282-335 | the loop over the snapshot, updating entries in place by index or appending, computes `AbsorbAll` of the roster |
| Renderer.MarkMissingOffline | src/renderer/src/App.tsx:337-341 | the in-place offline pass computes `MarkOffline` |
| Renderer.App.constructor | src/renderer/src/App.tsx:140-146 | start-up state: disconnected, empty log and ban list, restored roster all offline, no timers |
| Renderer.App.AppendCapped | src/renderer/src/App.tsx:221 | the log becomes the capped log with the line appended; nothing else changes |
| Renderer.App.OnRconLog | src/renderer/src/App.tsx:176-222 | per the decision: only the log changes for a logged line, only the ban list for a ban row, only the roster (reconciled) for a snapshot, nothing otherwise |
| Renderer.App.UpdatePlayerList | src/renderer/src/App.tsx:281-344 | the loop that merges records in place and then clears `isOnline` leaves the roster equal to `Reconcile` of the old one |
| Renderer.App.StartPolling | src/renderer/src/App.tsx:255-261 | any running interval is cleared first, `playerlist` is sent, and exactly one interval runs |
| Renderer.App.StopPolling | src/renderer/src/App.tsx:263-268 | no interval runs afterwards |
| Renderer.App.PollTick | src/renderer/src/App.tsx:258-260 | each tick sends `playerlist` |
| Renderer.App.OnConnected | src/renderer/src/App.tsx:224-229 | status connected, the success line logged, polling started |
| Renderer.App.OnDisconnected | src/renderer/src/App.tsx:231-235 | status disconnected, the line logged, polling stopped |
| Renderer.App.OnError | src/renderer/src/App.tsx:237-241 | status error, `[ERROR] ` and the message logged, polling stopped |
| Renderer.App.OnStatus | src/renderer/src/App.tsx:243-247 | the status is set to the one received |
| Renderer.App.ToggleConnection | src/renderer/src/App.tsx:351-387 | unforced from connected or connecting: disconnect requested and status disconnected; otherwise with a missing setting: only the error line, status unchanged; otherwise: status connecting, the line logged, connect requested, one timeout scheduled |
| Renderer.App.ConnectTimeoutFires | src/renderer/src/App.tsx:376-385 | while still connecting: the timeout line, a disconnect request and status error; in any other status nothing changes |
| Renderer.App.Reconnect | src/renderer/src/App.tsx:389-399 | when connected: disconnect, status disconnected, the line logged and a delayed connect scheduled, no timeout; otherwise a forced connect now: with a missing setting only the error line, otherwise status connecting, the line logged, connect requested and one timeout scheduled; settings untouched |
| Renderer.App.ReconnectDelayFires | src/renderer/src/App.tsx:395 | the delayed forced connect: with a missing setting only the error line, status unchanged; otherwise status connecting, the line logged, connect requested and one timeout scheduled; settings and ban refreshes untouched |
| Renderer.App.RefreshBanList | src/renderer/src/App.tsx:270-273 | the ban list is emptied and then `banlist` is requested |
| Renderer.App.ShowBanTab | src/renderer/src/App.tsx:275-279 | opening the ban tab refreshes the list only when connected |
| Renderer.App.BanRefreshFires | src/renderer/src/App.tsx:427 | a delayed refresh empties the list and requests `banlist` |
| Renderer.App.ExecuteUnban | src/renderer/src/App.tsx:431-438 | once confirmed: `unban <id>` is sent, exactly that SteamID's entries are dropped, a refresh is scheduled; unconfirmed: nothing |
| Renderer.App.ExecuteModeration | src/renderer/src/App.tsx:416-429 | the `kick`/`ban` command is logged and sent; a ban schedules a ban-list refresh; status, settings, lists and other timers are untouched |
| Renderer.App.SendCommand | src/renderer/src/App.tsx:401-406 | a blank input sends nothing; any other input is sent as typed, untrimmed |

Every `App` method also keeps `Valid()`. That means at most one polling
interval exists and it is the one in `pollingTimerRef`, and no SteamID is
banned twice. Every `MainProcess` method except `OnCloseAsWritten` also keeps
its `Valid()`: the slot's socket is the only live one.

## Left out

- User interface: rendering, tabs, modals, clipboard copy, auto-scroll,
  translations and the preload bridge. They hold no logic to verify.
- Persistence: storage of settings and roster in `localStorage`, and its JSON
  encoding. Only the fact that restored entries start offline is modelled
  (`Renderer.Restored`).
- Electron and the network: window plumbing, `fetch`, and JSON text encoding
  and decoding. Parse results and provider outcomes are parameters.
- Presence checks on `window.api` and `mainWindow` are left out. The model
  assumes both exist.
- Concurrency: the renderer's `await`s and the unawaited `updatePlayerList`
  are modelled as running to completion, one event at a time. Interleavings
  between an awaited geolocation lookup and other events are not modelled.
- Roster.Reconcile (with `Roster.AbsorbAll`, `Roster.Refreshed`,
  `Roster.NewPlayer` and `Renderer.MergeSnapshot`): one clock reading `now`
  stamps every record of a snapshot. The code reads the clock per record,
  after that record's lookup (App.tsx:297, 312, 318, 332). So entries of one
  snapshot get increasing `lastSeen` values there, and the history sort can
  order them differently: two newcomers A then B that later go offline
  together are listed B above A by the code, and A above B by the model.
- Renderer.App.UpdatePlayerList: the same single clock reading as
  `Roster.Reconcile`.
- Real timers: a timer is a pending count plus a method for its expiry. The
  order in which several pending timers fire is up to the caller.
- Renderer.App.ReconnectDelayFires: the delayed connect reads the settings
  captured when it was scheduled. The model reads the current settings, which
  no modelled handler changes.
- Bridge.MainProcess.Connect: creating a socket that throws is modelled by the
  `setupError` parameter. The socket library's own state changes are
  preconditions of the event methods.
- Dates are integers, and an invalid date is `InvalidDate` (sort key 0).
  Numbers are integers; the fractional seconds `formatTime` might receive are
  not modelled.
- Renderer.App.OnStatus: only the four statuses are modelled, though the
  handler accepts any value from the main process.
- Bridge.RouteFrame: a truthy `Message` that is not a string is forwarded
  as a JSON value. The renderer model takes log lines as strings only.
- Bridge.UrlReadsBack: the host must not contain `:`, so bracketed IPv6
  hosts fall outside the read-back property.
- Geolocation fields the services leave undefined are the empty string.
  Both are falsy, and the renderer only tests truthiness and equality with
  `Unknown` and `Local`.
- A line that looks like a snapshot but fails `JSON.parse` is logged at
  once: the exception skips the protected-word and ban-row checks and lands
  in the empty `catch` (App.tsx:188-191, 217-220). `Classifier.Classify` does
  the same.
- The 1000-line cap applies only to lines from the server. System,
  error and admin lines are appended without the cap, as in the code.
- A connect timeout is never cancelled, as in the code. One scheduled by an
  earlier attempt can fire during a later attempt while it is `connecting`.
- Closing the connection from the toggle does not stop polling. Polling
  stops when the main process reports the disconnect.

## Findings

| source | as written | input that shows it | evidently intended | confidence | as-written member | corrected member |
|---|---|---|---|---|---|---|
| src/main/index.ts:83-87 | the `close` handler of every socket sets `rconSocket = null`, including a socket already replaced by `rcon-connect` | connect, open, connect again (the first socket is closed and replaced), the second socket opens, then the first socket's `close` event arrives: the slot is empty while the second socket stays open, so every `rcon-send` returns false and the window is told it disconnected | ignore the close of a socket that has already been replaced: clear the slot and report the disconnect only otherwise | high, not executed | Bridge.StaleCloseAsWritten | Bridge.StaleCloseCorrected |
