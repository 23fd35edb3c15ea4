/** The renderer's player roster: the records it keeps, the specification of
    `updatePlayerList` (how one `playerlist` snapshot is merged into the
    roster), `formatTime`, `fetchGeoInfo`'s fallback, and the online/history
    split of the players tab.

    The reconciliation is specified here as functions on values; the method
    that runs it step by step, in place, is `Renderer.App.UpdatePlayerList`. */
module Roster {
  import opened Text
  import opened Geo

  /** One element of the server's `playerlist` JSON reply. */
  datatype RawPlayer = RawPlayer(SteamID: string, DisplayName: string, Ping: int, Address: string,
                                 ConnectedSeconds: int, Health: int)

  /** A `Date`: milliseconds since the epoch, or an invalid date. */
  datatype Instant = At(ms: int) | InvalidDate

  /** A roster entry, online or history. */
  datatype Player = Player(id: string, name: string, country: string, countryCode: string, city: string,
                           steamId: string, ip: string, ping: int, totalPlaytime: string,
                           connectedSeconds: int, sessionPlaytime: string, isOnline: bool,
                           lastSeen: Instant)

  /** JavaScript's `%`, whose result takes the sign of the dividend: the one
      value of that sign, smaller than `b` in magnitude, that differs from `a`
      by a multiple of `b`. */
  function JsRem(a: int, b: int): (r: int)
    requires b > 0
    ensures a >= 0 ==> r == a % b
    ensures a < 0 ==> -b < r <= 0 && r == (if a % b == 0 then 0 else a % b - b)
  {
    if a >= 0 then a % b
    else
      NegativeRemainder(a, b);
      -((-a) % b)
  }

  /** For a negative dividend, truncating division leaves the floored
      remainder, less `b` unless it is zero. */
  lemma NegativeRemainder(a: int, b: int)
    requires b > 0 && a < 0
    ensures -((-a) % b) == (if a % b == 0 then 0 else a % b - b)
  {
    var q, m := (-a) / b, (-a) % b;
    assert -a == q * b + m;
    if m == 0 {
      assert a == (-q) * b + 0;
      RemainderUnique(a, b, -q, 0);
    } else {
      assert a == (-q - 1) * b + (b - m);
      RemainderUnique(a, b, -q - 1, b - m);
    }
  }

  /** A remainder in `[0, b)` is Dafny's `%`. */
  lemma RemainderUnique(a: int, b: int, q: int, m: int)
    requires b > 0 && 0 <= m < b && a == q * b + m
    ensures a % b == m
  {
    var q', m' := a / b, a % b;
    assert a == q' * b + m';
    if q' > q {
      assert (q' - q) * b == q' * b - q * b;
      MultipleAtLeast(q' - q, b);
    } else if q' < q {
      assert (q - q') * b == q * b - q' * b;
      MultipleAtLeast(q - q', b);
    }
  }

  lemma {:induction false} MultipleAtLeast(x: int, b: int)
    requires x >= 1 && b > 0
    ensures x * b >= b
    decreases x
  {
    if x > 1 {
      MultipleAtLeast(x - 1, b);
      assert x * b == (x - 1) * b + b;
    }
  }

  /** `formatTime`: `${Math.floor(s / 3600)}h ${Math.floor((s % 3600) / 60)}m`.
      Dafny's `/` by a positive divisor already rounds down, like `Math.floor`. */
  function FormatTime(seconds: int): string {
    IntToString(seconds / 3600) + "h " + IntToString(JsRem(seconds, 3600) / 60) + "m"
  }

  /** Reads back the hours and minutes of a `formatTime` text. */
  function ReadDuration(s: string): Option<(nat, nat)> {
    var hs := BeforeFirst(s, 'h');
    if |s| < |hs| + 3 || s[|hs|..|hs| + 2] != "h " || s[|s| - 1] != 'm' then None
    else
      var h, m := ParseNat(hs), ParseNat(s[|hs| + 2..|s| - 1]);
      if h.Some? && m.Some? then Some((h.value, m.value)) else None
  }

  /** Whole hours and remaining whole minutes bracket a duration to the minute. */
  lemma HoursMinutes(seconds: nat)
    ensures var h, m := seconds / 3600, (seconds % 3600) / 60;
      m < 60 && h * 3600 + m * 60 <= seconds < h * 3600 + m * 60 + 60
  {
    var h, r := seconds / 3600, seconds % 3600;
    assert seconds == h * 3600 + r && 0 <= r < 3600;
    var m, q := r / 60, r % 60;
    assert r == m * 60 + q && 0 <= q < 60;
  }

  /** For a non-negative duration, `formatTime` writes the whole hours and the
      remaining whole minutes: reading them back brackets the duration to the
      minute, and the minutes are below 60. */
  lemma FormatTimeReadsBack(seconds: int)
    requires seconds >= 0
    ensures ReadDuration(FormatTime(seconds)).Some?
    ensures var (h, m) := ReadDuration(FormatTime(seconds)).value;
      m < 60 && h * 3600 + m * 60 <= seconds < h * 3600 + m * 60 + 60
  {
    var h, m := seconds / 3600, (seconds % 3600) / 60;
    assert JsRem(seconds, 3600) == seconds % 3600;
    assert FormatTime(seconds) == NatToString(h) + ['h'] + (" " + NatToString(m) + "m");
    DurationReadsBack(h, m);
    HoursMinutes(seconds);
  }

  /** `Xh Ym` written from two numbers reads back as those numbers. */
  lemma DurationReadsBack(h: nat, m: nat)
    ensures ReadDuration(NatToString(h) + ['h'] + (" " + NatToString(m) + "m")) == Some((h, m))
  {
    NatToStringRoundTrip(h);
    NatToStringRoundTrip(m);
    DigitsReadBack(NatToString(h), NatToString(m));
  }

  /** Two digit strings joined as `Xh Ym` are read back as their values. */
  lemma DigitsReadBack(hs: string, ms: string)
    requires hs != [] && AllDigits(hs) && ms != [] && AllDigits(ms)
    ensures ReadDuration(hs + ['h'] + (" " + ms + "m")) == Some((ParseNat(hs).value, ParseNat(ms).value))
  {
    DurationShape(hs, ms);
  }

  /** Where the hours, the `h `, the minutes and the `m` sit in `Xh Ym`. */
  lemma DurationShape(hs: string, ms: string)
    requires AllDigits(hs)
    ensures var s := hs + ['h'] + (" " + ms + "m");
      && BeforeFirst(s, 'h') == hs && |s| == |hs| + |ms| + 3 && s[|s| - 1] == 'm'
      && s[|hs|..|hs| + 2] == "h " && s[|hs| + 2..|s| - 1] == ms
  {
    var s := hs + ['h'] + (" " + ms + "m");
    assert 'h' !in hs by {
      forall i | 0 <= i < |hs| ensures hs[i] != 'h' { assert IsDigit(hs[i]); }
    }
    BeforeFirstOfJoin(hs, 'h', " " + ms + "m");
    assert s[|hs|..|hs| + 2] == "h ";
    assert s[|hs| + 2..|s| - 1] == ms;
  }

  /** `fetchGeoInfo`: the answer of the main process's `get-geo`, or, when that
      request failed, `Unknown` with city `Unknown`. */
  function FetchGeoInfo(reply: Option<GeoInfo>): GeoInfo {
    match reply
    case Some(g) => g
    case None => GeoInfo("Unknown", "", "Unknown")
  }

  /** The geolocation fields of an entry. */
  function GeoOf(p: Player): GeoInfo {
    GeoInfo(p.country, p.countryCode, p.city)
  }

  /** `!country || country === 'Unknown' || country === 'Local'`: the entry's
      location is still to be resolved. */
  predicate Unresolved(country: string) {
    country == "" || country == "Unknown" || country == "Local"
  }

  /** The address of a snapshot record without its port. */
  function IpOnly(raw: RawPlayer): string {
    BeforeFirst(raw.Address, ':')
  }

  /** The fields a snapshot record sets on its entry, at time `now`. */
  predicate Reflects(p: Player, raw: RawPlayer, now: int) {
    && p.name == raw.DisplayName && p.ping == raw.Ping
    && p.connectedSeconds == raw.ConnectedSeconds
    && p.sessionPlaytime == FormatTime(raw.ConnectedSeconds)
    && p.isOnline && p.lastSeen == At(now)
  }

  /** The fields no update ever touches. */
  predicate SameIdentity(p: Player, q: Player) {
    p.id == q.id && p.steamId == q.steamId && p.ip == q.ip && p.totalPlaytime == q.totalPlaytime
  }

  /** An existing entry seen again in a snapshot (App.tsx, the `existingIndex !== -1`
      branch). `lookup` answers `get-geo` for an address. */
  function Refreshed(p: Player, raw: RawPlayer, lookup: string -> Option<GeoInfo>, now: int): (q: Player)
    ensures Reflects(q, raw, now) && SameIdentity(q, p)
    ensures !Unresolved(p.country) ==> GeoOf(q) == GeoOf(p)
    ensures GeoOf(q) == GeoOf(p) || GeoOf(q) == FetchGeoInfo(lookup(IpOnly(raw)))
    ensures GeoOf(q) != GeoOf(p) ==> q.country != "Unknown"
    ensures Unresolved(p.country) && FetchGeoInfo(lookup(IpOnly(raw))).country != "Unknown" ==>
      GeoOf(q) == FetchGeoInfo(lookup(IpOnly(raw)))
  {
    var g :=
      if Unresolved(p.country) then
        var geo := FetchGeoInfo(lookup(IpOnly(raw)));
        if geo.country != "Unknown" then geo else GeoOf(p)
      else GeoOf(p);
    p.(name := raw.DisplayName, ping := raw.Ping, connectedSeconds := raw.ConnectedSeconds,
       sessionPlaytime := FormatTime(raw.ConnectedSeconds), isOnline := true, lastSeen := At(now),
       country := g.country, countryCode := g.countryCode, city := g.city)
  }

  /** A first sighting: a new entry, located by an unconditional lookup. */
  function NewPlayer(raw: RawPlayer, lookup: string -> Option<GeoInfo>, now: int): (q: Player)
    ensures Reflects(q, raw, now)
    ensures q.steamId == raw.SteamID && q.id == raw.SteamID && q.ip == IpOnly(raw)
    ensures q.totalPlaytime == "Loading..."
    ensures GeoOf(q) == FetchGeoInfo(lookup(IpOnly(raw)))
  {
    var geo := FetchGeoInfo(lookup(IpOnly(raw)));
    Player(raw.SteamID, raw.DisplayName, geo.country, geo.countryCode, geo.city, raw.SteamID, IpOnly(raw),
           raw.Ping, "Loading...", raw.ConnectedSeconds, FormatTime(raw.ConnectedSeconds), true, At(now))
  }

  /** `findIndex(p => p.steamId === id)`: the first entry with that SteamID, or -1. */
  function FindIndex(ps: seq<Player>, id: string): (r: int)
    ensures -1 <= r < |ps|
    ensures r >= 0 ==> ps[r].steamId == id
    ensures forall k | 0 <= k < |ps| && (r == -1 || k < r) :: ps[k].steamId != id
  {
    if ps == [] then -1
    else if ps[0].steamId == id then 0
    else
      var k := FindIndex(ps[1..], id);
      if k == -1 then -1 else k + 1
  }

  /** One pass of the snapshot loop: update the entry in place by index, or
      append a new one. */
  function Absorb(cur: seq<Player>, raw: RawPlayer, lookup: string -> Option<GeoInfo>, now: int): seq<Player> {
    var i := FindIndex(cur, raw.SteamID);
    if i != -1 then cur[i := Refreshed(cur[i], raw, lookup, now)]
    else cur + [NewPlayer(raw, lookup, now)]
  }

  /** The whole snapshot loop, records taken in order. */
  function AbsorbAll(cur: seq<Player>, raws: seq<RawPlayer>, lookup: string -> Option<GeoInfo>, now: int): seq<Player>
    decreases |raws|
  {
    if raws == [] then cur
    else AbsorbAll(Absorb(cur, raws[0], lookup, now), raws[1..], lookup, now)
  }

  /** The SteamIDs of a snapshot, in order (with repeats). */
  function RawIds(raws: seq<RawPlayer>): (r: seq<string>)
    ensures |r| == |raws| && forall k | 0 <= k < |raws| :: r[k] == raws[k].SteamID
  {
    seq(|raws|, k requires 0 <= k < |raws| => raws[k].SteamID)
  }

  /** `new Set(rawList.map(r => r.SteamID))`. */
  function SnapshotIds(raws: seq<RawPlayer>): set<string> {
    set r | r in raws :: r.SteamID
  }

  /** The second loop's step: an online entry missing from the snapshot goes
      to history. */
  function Offlined(p: Player, online: set<string>): (q: Player)
    ensures q == if p.steamId !in online then p.(isOnline := false) else p
  {
    if p.steamId !in online && p.isOnline then p.(isOnline := false) else p
  }

  function MarkOffline(ps: seq<Player>, online: set<string>): (r: seq<Player>)
    ensures |r| == |ps| && forall k | 0 <= k < |ps| :: r[k] == Offlined(ps[k], online)
  {
    seq(|ps|, k requires 0 <= k < |ps| => Offlined(ps[k], online))
  }

  /** `updatePlayerList` on values: the new roster for a snapshot. Nothing is
      dropped, and no entry is left online unless the snapshot names it. */
  function Reconcile(roster: seq<Player>, raws: seq<RawPlayer>, lookup: string -> Option<GeoInfo>, now: int): (r: seq<Player>)
    ensures |r| >= |roster|
    ensures forall k | 0 <= k < |r| && r[k].isOnline :: r[k].steamId in SnapshotIds(raws)
  {
    AbsorbAllIdentity(roster, raws, lookup, now);
    MarkOffline(AbsorbAll(roster, raws, lookup, now), SnapshotIds(raws))
  }

  // ---------------------------------------------------------------------------
  // Properties of the reconciliation

  /** The SteamIDs of a roster, in roster order. */
  function Ids(ps: seq<Player>): (r: seq<string>)
    ensures |r| == |ps| && forall k | 0 <= k < |ps| :: r[k] == ps[k].steamId
  {
    seq(|ps|, k requires 0 <= k < |ps| => ps[k].steamId)
  }

  predicate Distinct(xs: seq<string>) {
    forall i, j | 0 <= i < j < |xs| :: xs[i] != xs[j]
  }

  /** The SteamIDs a snapshot adds to a roster that already holds `known`:
      first sightings only, in snapshot order. */
  function Newcomers(known: seq<string>, ids: seq<string>): seq<string>
    decreases |ids|
  {
    if ids == [] then []
    else if ids[0] in known then Newcomers(known, ids[1..])
    else [ids[0]] + Newcomers(known + [ids[0]], ids[1..])
  }

  /** Newcomers are distinct, new, and cover every SteamID of the snapshot
      that was not known. */
  lemma {:induction false} NewcomersFacts(known: seq<string>, ids: seq<string>)
    ensures Distinct(Newcomers(known, ids))
    ensures forall x | x in Newcomers(known, ids) :: x !in known && x in ids
    ensures forall x | x in ids :: x in known || x in Newcomers(known, ids)
    decreases |ids|
  {
    if ids != [] {
      if ids[0] in known {
        NewcomersFacts(known, ids[1..]);
      } else {
        var known' := known + [ids[0]];
        NewcomersFacts(known', ids[1..]);
        var rest := Newcomers(known', ids[1..]);
        var r := [ids[0]] + rest;
        assert r == Newcomers(known, ids);
        forall i, j | 0 <= i < j < |r| ensures r[i] != r[j] {
          assert r[j] == rest[j - 1] && rest[j - 1] in rest;
          if i > 0 { assert r[i] == rest[i - 1]; }
        }
      }
    }
  }

  /** One pass of the loop keeps every entry's SteamID at its index, and
      appends the record's SteamID exactly when it was not there. */
  lemma AbsorbIds(cur: seq<Player>, raw: RawPlayer, lookup: string -> Option<GeoInfo>, now: int)
    ensures Ids(Absorb(cur, raw, lookup, now)) ==
      if raw.SteamID in Ids(cur) then Ids(cur) else Ids(cur) + [raw.SteamID]
    ensures forall k | 0 <= k < |cur| :: SameIdentity(Absorb(cur, raw, lookup, now)[k], cur[k])
  {
    var i := FindIndex(cur, raw.SteamID);
    if i == -1 {
      assert raw.SteamID !in Ids(cur);
    } else {
      assert Ids(cur)[i] == raw.SteamID;
    }
  }

  /** The snapshot loop removes nothing and keeps every entry's identity
      (SteamID, id, address, total playtime) at its index. */
  lemma {:induction false} AbsorbAllIdentity(cur: seq<Player>, raws: seq<RawPlayer>, lookup: string -> Option<GeoInfo>, now: int)
    ensures |AbsorbAll(cur, raws, lookup, now)| >= |cur|
    ensures forall k | 0 <= k < |cur| :: SameIdentity(AbsorbAll(cur, raws, lookup, now)[k], cur[k])
    decreases |raws|
  {
    if raws != [] {
      var cur' := Absorb(cur, raws[0], lookup, now);
      AbsorbIds(cur, raws[0], lookup, now);
      AbsorbAllIdentity(cur', raws[1..], lookup, now);
      var r := AbsorbAll(cur', raws[1..], lookup, now);
      forall k | 0 <= k < |cur| ensures SameIdentity(r[k], cur[k]) {
        assert SameIdentity(r[k], cur'[k]) && SameIdentity(cur'[k], cur[k]);
      }
    }
  }

  /** Regrouping a concatenation; stated separately so the proof below stays
      within the solver's budget. */
  lemma AppendAssoc(a: seq<string>, b: seq<string>, c: seq<string>)
    ensures (a + b) + c == a + (b + c)
  {
  }

  /** The SteamIDs after the snapshot loop: those of the roster, in place,
      followed by the newcomers in snapshot order. */
  lemma {:induction false} AbsorbAllIds(cur: seq<Player>, raws: seq<RawPlayer>, lookup: string -> Option<GeoInfo>, now: int)
    ensures Ids(AbsorbAll(cur, raws, lookup, now)) == Ids(cur) + Newcomers(Ids(cur), RawIds(raws))
    decreases |raws|
  {
    if raws != [] {
      var x := raws[0].SteamID;
      var cur' := Absorb(cur, raws[0], lookup, now);
      AbsorbIds(cur, raws[0], lookup, now);
      AbsorbAllIds(cur', raws[1..], lookup, now);
      var ids := RawIds(raws);
      assert ids[0] == x && ids[1..] == RawIds(raws[1..]);
      var n' := Newcomers(Ids(cur'), RawIds(raws[1..]));
      if x in Ids(cur) {
        assert Newcomers(Ids(cur), ids) == n';
      } else {
        var known := Ids(cur);
        assert Ids(cur') == known + [x];
        assert Newcomers(known, ids) == [x] + n';
        AppendAssoc(known, [x], n');
      }
    }
  }

  /** Entries whose SteamID the snapshot does not mention are left exactly as
      they were by the snapshot loop. */
  lemma {:induction false} AbsorbAllUntouched(cur: seq<Player>, raws: seq<RawPlayer>, lookup: string -> Option<GeoInfo>, now: int, k: nat)
    requires k < |cur| && cur[k].steamId !in SnapshotIds(raws)
    ensures k < |AbsorbAll(cur, raws, lookup, now)| && AbsorbAll(cur, raws, lookup, now)[k] == cur[k]
    decreases |raws|
  {
    if raws != [] {
      var cur' := Absorb(cur, raws[0], lookup, now);
      assert raws[0] in raws;
      assert SnapshotIds(raws[1..]) <= SnapshotIds(raws);
      AbsorbAllUntouched(cur', raws[1..], lookup, now, k);
    }
  }

  /** The last record of a snapshot that carries a given SteamID. */
  function LastRecord(raws: seq<RawPlayer>, id: string): (r: RawPlayer)
    requires id in SnapshotIds(raws)
    ensures r in raws && r.SteamID == id
    decreases |raws|
  {
    if id in SnapshotIds(raws[1..]) then LastRecord(raws[1..], id) else raws[0]
  }

  /** One pass of the loop keeps SteamIDs distinct, and leaves the record's
      fields on the entry for its SteamID. */
  lemma AbsorbStep(cur: seq<Player>, raw: RawPlayer, lookup: string -> Option<GeoInfo>, now: int)
    requires Distinct(Ids(cur))
    ensures Distinct(Ids(Absorb(cur, raw, lookup, now)))
    ensures var cur' := Absorb(cur, raw, lookup, now);
      forall k | 0 <= k < |cur'| && cur'[k].steamId == raw.SteamID :: Reflects(cur'[k], raw, now)
  {
    var cur' := Absorb(cur, raw, lookup, now);
    var i := FindIndex(cur, raw.SteamID);
    AbsorbIds(cur, raw, lookup, now);
    if i == -1 {
      assert raw.SteamID !in Ids(cur);
      assert Ids(cur') == Ids(cur) + [raw.SteamID];
      assert cur' == cur + [NewPlayer(raw, lookup, now)];
      forall k | 0 <= k < |cur'| && cur'[k].steamId == raw.SteamID
        ensures Reflects(cur'[k], raw, now)
      {
        assert k == |cur|;
      }
    } else {
      assert Ids(cur') == Ids(cur);
      assert cur' == cur[i := Refreshed(cur[i], raw, lookup, now)];
      forall k | 0 <= k < |cur'| && cur'[k].steamId == raw.SteamID
        ensures Reflects(cur'[k], raw, now)
      {
        assert Ids(cur)[k] == Ids(cur)[i];
      }
    }
  }

  /** The snapshot loop keeps SteamIDs distinct, even when the snapshot repeats
      one. */
  lemma {:induction false} AbsorbAllDistinct(cur: seq<Player>, raws: seq<RawPlayer>, lookup: string -> Option<GeoInfo>, now: int)
    requires Distinct(Ids(cur))
    ensures Distinct(Ids(AbsorbAll(cur, raws, lookup, now)))
    decreases |raws|
  {
    if raws != [] {
      AbsorbStep(cur, raws[0], lookup, now);
      AbsorbAllDistinct(Absorb(cur, raws[0], lookup, now), raws[1..], lookup, now);
    }
  }

  /** The snapshot loop appends only SteamIDs the snapshot mentions. */
  lemma {:induction false} AbsorbAllAppendsSeen(cur: seq<Player>, raws: seq<RawPlayer>, lookup: string -> Option<GeoInfo>, now: int, k: nat)
    requires |cur| <= k < |AbsorbAll(cur, raws, lookup, now)|
    ensures AbsorbAll(cur, raws, lookup, now)[k].steamId in SnapshotIds(raws)
    decreases |raws|
  {
    var cur' := Absorb(cur, raws[0], lookup, now);
    AbsorbIds(cur, raws[0], lookup, now);
    assert raws[0] in raws;
    if k < |cur'| {
      AbsorbAllIdentity(cur', raws[1..], lookup, now);
      assert Ids(cur')[k] == raws[0].SteamID;
    } else {
      AbsorbAllAppendsSeen(cur', raws[1..], lookup, now, k);
      assert SnapshotIds(raws[1..]) <= SnapshotIds(raws);
    }
  }

  /** In a roster without repeated SteamIDs, an entry the snapshot mentions
      carries the fields of the last record for it, is online, and was seen
      `now`. */
  lemma {:induction false} AbsorbAllRefreshes(cur: seq<Player>, raws: seq<RawPlayer>, lookup: string -> Option<GeoInfo>, now: int, k: nat)
    requires Distinct(Ids(cur))
    requires k < |AbsorbAll(cur, raws, lookup, now)|
    requires AbsorbAll(cur, raws, lookup, now)[k].steamId in SnapshotIds(raws)
    ensures var p := AbsorbAll(cur, raws, lookup, now)[k];
      Reflects(p, LastRecord(raws, p.steamId), now)
    decreases |raws|
  {
    var cur' := Absorb(cur, raws[0], lookup, now);
    var r := AbsorbAll(cur', raws[1..], lookup, now);
    assert r == AbsorbAll(cur, raws, lookup, now);
    var id := r[k].steamId;
    AbsorbStep(cur, raws[0], lookup, now);
    if id in SnapshotIds(raws[1..]) {
      AbsorbAllRefreshes(cur', raws[1..], lookup, now, k);
      assert LastRecord(raws, id) == LastRecord(raws[1..], id);
    } else {
      assert LastRecord(raws, id) == raws[0];
      AbsorbAllIdentity(cur', raws[1..], lookup, now);
      if k >= |cur'| {
        AbsorbAllAppendsSeen(cur', raws[1..], lookup, now, k);
      }
      assert cur'[k].steamId == id;
      AbsorbAllUntouched(cur', raws[1..], lookup, now, k);
    }
  }

  /** The addresses' lookups a snapshot makes for one SteamID. */
  function Lookups(raws: seq<RawPlayer>, id: string, lookup: string -> Option<GeoInfo>): set<GeoInfo> {
    set r | r in raws && r.SteamID == id :: FetchGeoInfo(lookup(IpOnly(r)))
  }

  /** An existing entry's location is kept when it was resolved; otherwise it
      can only be replaced by the answer of a lookup for one of that player's
      snapshot records, and never by an `Unknown` one. */
  lemma {:induction false} AbsorbAllGeo(cur: seq<Player>, raws: seq<RawPlayer>, lookup: string -> Option<GeoInfo>, now: int, k: nat)
    requires k < |cur|
    ensures k < |AbsorbAll(cur, raws, lookup, now)|
    ensures var g := GeoOf(AbsorbAll(cur, raws, lookup, now)[k]);
      g == GeoOf(cur[k]) ||
      (Unresolved(cur[k].country) && g.country != "Unknown" && g in Lookups(raws, cur[k].steamId, lookup))
    decreases |raws|
  {
    if raws != [] {
      var cur' := Absorb(cur, raws[0], lookup, now);
      AbsorbIds(cur, raws[0], lookup, now);
      AbsorbAllGeo(cur', raws[1..], lookup, now, k);
      assert Lookups(raws[1..], cur[k].steamId, lookup) <= Lookups(raws, cur[k].steamId, lookup) by {
        forall g | g in Lookups(raws[1..], cur[k].steamId, lookup)
          ensures g in Lookups(raws, cur[k].steamId, lookup)
        {
          var r :| r in raws[1..] && r.SteamID == cur[k].steamId && g == FetchGeoInfo(lookup(IpOnly(r)));
          assert r in raws;
        }
      }
      var i := FindIndex(cur, raws[0].SteamID);
      if i == k {
        assert raws[0] in raws;
        assert GeoOf(cur'[k]) == GeoOf(cur[k]) ||
          (Unresolved(cur[k].country) && GeoOf(cur'[k]).country != "Unknown" &&
           GeoOf(cur'[k]) in Lookups(raws, cur[k].steamId, lookup));
      } else {
        assert cur'[k] == cur[k];
      }
    }
  }

  /** In a roster without repeated SteamIDs, an entry whose location is `g`,
      or is unresolved and which the snapshot mentions, ends located at `g`
      when every lookup the snapshot makes for it answers `g` and `g` is not
      `Unknown`. */
  lemma {:induction false} AbsorbAllResolves(cur: seq<Player>, raws: seq<RawPlayer>, lookup: string -> Option<GeoInfo>, now: int, k: nat, g: GeoInfo)
    requires Distinct(Ids(cur)) && k < |cur|
    requires Lookups(raws, cur[k].steamId, lookup) <= {g} && g.country != "Unknown"
    requires GeoOf(cur[k]) == g || (Unresolved(cur[k].country) && cur[k].steamId in SnapshotIds(raws))
    ensures k < |AbsorbAll(cur, raws, lookup, now)|
    ensures GeoOf(AbsorbAll(cur, raws, lookup, now)[k]) == g
    decreases |raws|
  {
    AbsorbAllIdentity(cur, raws, lookup, now);
    if raws != [] {
      var id := cur[k].steamId;
      var cur' := Absorb(cur, raws[0], lookup, now);
      AbsorbStep(cur, raws[0], lookup, now);
      AbsorbIds(cur, raws[0], lookup, now);
      SnapshotTail(raws, id, lookup);
      if raws[0].SteamID == id {
        AbsorbResolves(cur, raws[0], lookup, now, k, g);
      } else {
        assert cur'[k] == cur[k];
      }
      AbsorbAllResolves(cur', raws[1..], lookup, now, k, g);
    }
  }

  /** How a snapshot's lookups and SteamIDs split over its first record and
      the rest. */
  lemma SnapshotTail(raws: seq<RawPlayer>, id: string, lookup: string -> Option<GeoInfo>)
    requires raws != []
    ensures Lookups(raws[1..], id, lookup) <= Lookups(raws, id, lookup)
    ensures raws[0].SteamID == id ==> FetchGeoInfo(lookup(IpOnly(raws[0]))) in Lookups(raws, id, lookup)
    ensures raws[0].SteamID != id && id in SnapshotIds(raws) ==> id in SnapshotIds(raws[1..])
  {
    forall h | h in Lookups(raws[1..], id, lookup)
      ensures h in Lookups(raws, id, lookup)
    {
      var r :| r in raws[1..] && r.SteamID == id && h == FetchGeoInfo(lookup(IpOnly(r)));
      assert r in raws;
    }
    assert raws[0] in raws;
    if raws[0].SteamID != id && id in SnapshotIds(raws) {
      var r :| r in raws && r.SteamID == id;
      assert r in raws[1..];
    }
  }

  /** One pass of the loop locates the entry for the record's SteamID at the
      lookup's answer `g` when that entry was at `g` already or unresolved. */
  lemma AbsorbResolves(cur: seq<Player>, raw: RawPlayer, lookup: string -> Option<GeoInfo>, now: int, k: nat, g: GeoInfo)
    requires Distinct(Ids(cur)) && k < |cur| && raw.SteamID == cur[k].steamId
    requires FetchGeoInfo(lookup(IpOnly(raw))) == g && g.country != "Unknown"
    requires GeoOf(cur[k]) == g || Unresolved(cur[k].country)
    ensures k < |Absorb(cur, raw, lookup, now)| && GeoOf(Absorb(cur, raw, lookup, now)[k]) == g
  {
    var i := FindIndex(cur, raw.SteamID);
    assert i == k by {
      assert i != -1 ==> Ids(cur)[i] == Ids(cur)[k];
    }
  }

  /** After reconciliation nothing is removed, existing entries keep their
      index and identity (SteamID, id, ip), and new entries follow them, one
      per SteamID first seen, in snapshot order. */
  lemma ReconcileKeepsEntries(roster: seq<Player>, raws: seq<RawPlayer>, lookup: string -> Option<GeoInfo>, now: int)
    ensures var r := Reconcile(roster, raws, lookup, now);
      && |r| >= |roster|
      && (forall k | 0 <= k < |roster| :: SameIdentity(r[k], roster[k]))
      && Ids(r) == Ids(roster) + Newcomers(Ids(roster), RawIds(raws))
  {
    AbsorbAllIdentity(roster, raws, lookup, now);
    AbsorbAllIds(roster, raws, lookup, now);
    var a := AbsorbAll(roster, raws, lookup, now);
    assert Ids(Reconcile(roster, raws, lookup, now)) == Ids(a);
  }

  /** In a roster without repeated SteamIDs: afterwards SteamIDs are still
      distinct, every SteamID of the snapshot has exactly one entry, and an
      entry is online exactly when its SteamID is in the snapshot; the entries
      the snapshot mentions carry the last record's name, ping and session and
      were seen `now`. */
  lemma ReconcileOnlineExactly(roster: seq<Player>, raws: seq<RawPlayer>, lookup: string -> Option<GeoInfo>, now: int)
    requires Distinct(Ids(roster))
    ensures var r := Reconcile(roster, raws, lookup, now);
      && Distinct(Ids(r))
      && (forall id | id in SnapshotIds(raws) :: exists k | 0 <= k < |r| :: r[k].steamId == id)
      && (forall k | 0 <= k < |r| :: r[k].isOnline <==> r[k].steamId in SnapshotIds(raws))
      && (forall k | 0 <= k < |r| && r[k].steamId in SnapshotIds(raws) ::
            Reflects(r[k], LastRecord(raws, r[k].steamId), now))
  {
    var a := AbsorbAll(roster, raws, lookup, now);
    var r := Reconcile(roster, raws, lookup, now);
    AbsorbAllDistinct(roster, raws, lookup, now);
    forall k | 0 <= k < |r| && r[k].steamId in SnapshotIds(raws)
      ensures Reflects(r[k], LastRecord(raws, r[k].steamId), now)
    {
      AbsorbAllRefreshes(roster, raws, lookup, now, k);
    }
    AbsorbAllIds(roster, raws, lookup, now);
    NewcomersFacts(Ids(roster), RawIds(raws));
    assert Ids(r) == Ids(a);
    forall id | id in SnapshotIds(raws) ensures exists k | 0 <= k < |r| :: r[k].steamId == id {
      var raw :| raw in raws && raw.SteamID == id;
      var j :| 0 <= j < |raws| && raws[j] == raw;
      assert RawIds(raws)[j] == id;
      assert id in Ids(a);
      var k :| 0 <= k < |a| && Ids(a)[k] == id;
      assert r[k].steamId == id;
    }
  }

  /** An entry whose SteamID is missing from the snapshot ends offline with
      every other field, `lastSeen` included, unchanged. */
  lemma ReconcileAbsent(roster: seq<Player>, raws: seq<RawPlayer>, lookup: string -> Option<GeoInfo>, now: int, k: nat)
    requires k < |roster| && roster[k].steamId !in SnapshotIds(raws)
    ensures k < |Reconcile(roster, raws, lookup, now)|
    ensures Reconcile(roster, raws, lookup, now)[k] == roster[k].(isOnline := false)
  {
    AbsorbAllUntouched(roster, raws, lookup, now, k);
  }

  /** Geolocation of an existing entry: kept when its country was resolved
      (non-empty and neither `Unknown` nor `Local`); otherwise replaced only by
      a lookup answer for that player whose country is not `Unknown`. */
  lemma ReconcileGeo(roster: seq<Player>, raws: seq<RawPlayer>, lookup: string -> Option<GeoInfo>, now: int, k: nat)
    requires k < |roster|
    ensures k < |Reconcile(roster, raws, lookup, now)|
    ensures var g := GeoOf(Reconcile(roster, raws, lookup, now)[k]);
      && (!Unresolved(roster[k].country) ==> g == GeoOf(roster[k]))
      && (g != GeoOf(roster[k]) ==> g.country != "Unknown" && g in Lookups(raws, roster[k].steamId, lookup))
  {
    AbsorbAllGeo(roster, raws, lookup, now, k);
  }

  /** In a roster without repeated SteamIDs, an unresolved entry ends located
      at `g` when the snapshot looks it up and every lookup for it answers the
      same `g`, not `Unknown`. */
  lemma ReconcileResolves(roster: seq<Player>, raws: seq<RawPlayer>, lookup: string -> Option<GeoInfo>, now: int, k: nat, g: GeoInfo)
    requires Distinct(Ids(roster)) && k < |roster| && Unresolved(roster[k].country)
    requires Lookups(raws, roster[k].steamId, lookup) == {g} && g.country != "Unknown"
    ensures k < |Reconcile(roster, raws, lookup, now)|
    ensures GeoOf(Reconcile(roster, raws, lookup, now)[k]) == g
  {
    assert roster[k].steamId in SnapshotIds(raws) by {
      assert g in Lookups(raws, roster[k].steamId, lookup);
      var r :| r in raws && r.SteamID == roster[k].steamId && g == FetchGeoInfo(lookup(IpOnly(r)));
    }
    AbsorbAllResolves(roster, raws, lookup, now, k, g);
  }

  // ---------------------------------------------------------------------------
  // The players tab: online players, and history sorted by last sighting

  /** The time the history sort compares: an invalid date counts as 0. */
  function SortKey(p: Player): int {
    match p.lastSeen
    case At(ms) => ms
    case InvalidDate => 0
  }

  /** Newest first. */
  predicate Descending(ps: seq<Player>) {
    forall i, j | 0 <= i < j < |ps| :: SortKey(ps[i]) >= SortKey(ps[j])
  }

  /** `players.filter(p => p.isOnline === online)`, in roster order: one entry
      is kept exactly when its flag matches, and `KeepInOrder` extends that to
      any list. */
  function Keep(ps: seq<Player>, online: bool): (r: seq<Player>)
    ensures forall p | p in r :: p.isOnline == online
    ensures |r| <= |ps|
    ensures |ps| == 1 ==> r == if ps[0].isOnline == online then ps else []
  {
    if ps == [] then []
    else if ps[0].isOnline == online then [ps[0]] + Keep(ps[1..], online)
    else Keep(ps[1..], online)
  }

  /** Inserts `p` before the first entry not newer than it, so that among equal
      times the earlier roster entry stays first (see `InsertStable`). */
  function Insert(p: Player, sorted: seq<Player>): (r: seq<Player>)
    requires Descending(sorted)
    ensures Descending(r)
    ensures multiset(r) == multiset(sorted) + multiset{p}
    ensures |r| == |sorted| + 1
    ensures r[0] == p || (sorted != [] && r[0] == sorted[0])
  {
    if sorted == [] || SortKey(p) >= SortKey(sorted[0]) then [p] + sorted
    else
      var rest := Insert(p, sorted[1..]);
      assert sorted == [sorted[0]] + sorted[1..];
      [sorted[0]] + rest
  }

  /** The comparator sort of the history list: newest first, a permutation of
      its input, and stable like `Array.prototype.sort` (see `SortStable`). */
  function SortByLastSeen(ps: seq<Player>): (r: seq<Player>)
    ensures Descending(r)
    ensures multiset(r) == multiset(ps)
  {
    if ps == [] then []
    else
      assert ps == [ps[0]] + ps[1..];
      Insert(ps[0], SortByLastSeen(ps[1..]))
  }

  function OnlinePlayers(ps: seq<Player>): seq<Player> { Keep(ps, true) }

  function HistoryPlayers(ps: seq<Player>): seq<Player> { SortByLastSeen(Keep(ps, false)) }

  /** The two tables split the roster: every entry is shown exactly once, the
      online table holds only online entries and the history table only
      offline ones, newest first. */
  lemma {:induction false} PlayersTabPartition(ps: seq<Player>)
    ensures multiset(OnlinePlayers(ps)) + multiset(HistoryPlayers(ps)) == multiset(ps)
    ensures forall p | p in OnlinePlayers(ps) :: p.isOnline
    ensures forall p | p in HistoryPlayers(ps) :: !p.isOnline
    ensures Descending(HistoryPlayers(ps))
  {
    KeepSplits(ps);
    forall p | p in HistoryPlayers(ps) ensures !p.isOnline {
      assert p in multiset(Keep(ps, false));
    }
  }

  /** Filtering by `isOnline` and by `!isOnline` splits a list into two parts
      that together hold every entry once. */
  lemma {:induction false} KeepSplits(ps: seq<Player>)
    ensures multiset(Keep(ps, true)) + multiset(Keep(ps, false)) == multiset(ps)
  {
    if ps != [] {
      KeepSplits(ps[1..]);
      assert ps == [ps[0]] + ps[1..];
    }
  }

  /** The filter keeps the order: filtering a concatenation filters each part
      and joins the results. With `Keep`'s own clause for a single entry this
      fixes the filter's result entirely. */
  lemma {:induction false} KeepInOrder(a: seq<Player>, b: seq<Player>, online: bool)
    ensures Keep(a + b, online) == Keep(a, online) + Keep(b, online)
    decreases |a|
  {
    if a == [] {
      assert a + b == b;
    } else {
      KeepInOrder(a[1..], b, online);
      assert (a + b)[1..] == a[1..] + b;
    }
  }

  /** The entries with sort key `t`, in order. */
  function WithKey(ps: seq<Player>, t: int): (r: seq<Player>)
    ensures forall p | p in r :: SortKey(p) == t
  {
    if ps == [] then []
    else if SortKey(ps[0]) == t then [ps[0]] + WithKey(ps[1..], t)
    else WithKey(ps[1..], t)
  }

  /** Inserting places `p` ahead of every entry with its own key. */
  lemma {:induction false} InsertStable(p: Player, sorted: seq<Player>, t: int)
    requires Descending(sorted)
    ensures WithKey(Insert(p, sorted), t) == (if SortKey(p) == t then [p] else []) + WithKey(sorted, t)
    decreases |sorted|
  {
    var r := Insert(p, sorted);
    if sorted == [] || SortKey(p) >= SortKey(sorted[0]) {
      assert r == [p] + sorted && r[1..] == sorted;
    } else {
      InsertStable(p, sorted[1..], t);
      var rest := Insert(p, sorted[1..]);
      assert r == [sorted[0]] + rest && r[1..] == rest;
    }
  }

  /** The history sort is stable: the entries sharing any one key keep their
      input order. */
  lemma {:induction false} SortStable(ps: seq<Player>, t: int)
    ensures WithKey(SortByLastSeen(ps), t) == WithKey(ps, t)
    decreases |ps|
  {
    if ps != [] {
      SortStable(ps[1..], t);
      InsertStable(ps[0], SortByLastSeen(ps[1..]), t);
    }
  }
}
