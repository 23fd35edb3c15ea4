/** The renderer's classification of one console line (`onRconLog`): command
    echoes and the ban-list header are dropped, a `playerlist` reply is handed
    to the roster, kill-feed and connection lines are always shown, a ban-list
    row is added to the ban list and hidden, and everything else is shown.

    The ban-row regular expression
      (?:^|\s)(\d{17})\s+"([^"]+)"\s+"([^"]*)"
    is modelled twice: as a left-to-right scanner (`FirstBanRow`), and as a
    declarative description of the text it accepts (`Spells`, `LeftmostRow`);
    lemmas show the two agree. */
module Classifier {
  import opened Text
  import opened BanList
  import opened Roster

  /** The width of a SteamID64 in the ban-list dump: `\d{17}`. */
  const IdLength: nat := 17

  // ---------------------------------------------------------------------------
  // The ban-row regular expression, as a scanner

  /** `\s*` from `i`: the index of the first non-space at or after `i`. */
  function SkipSpaces(s: string, i: nat): (j: nat)
    requires i <= |s|
    ensures i <= j <= |s| && AllSpace(s[i..j])
    ensures j < |s| ==> !IsSpace(s[j])
    decreases |s| - i
  {
    if i == |s| || !IsSpace(s[i]) then i
    else
      var j := SkipSpaces(s, i + 1);
      assert s[i..j] == [s[i]] + s[i + 1..j];
      j
  }

  /** `[^"]*` from `i`: the index of the first quote at or after `i`, or `|s|`. */
  function ScanToQuote(s: string, i: nat): (j: nat)
    requires i <= |s|
    ensures i <= j <= |s| && '"' !in s[i..j]
    ensures j < |s| ==> s[j] == '"'
    decreases |s| - i
  {
    if i == |s| || s[i] == '"' then i
    else
      var j := ScanToQuote(s, i + 1);
      assert s[i..j] == [s[i]] + s[i + 1..j];
      j
  }

  /** `\s+"([^"]*)"` from index `i`: where the opening and the closing quote
      are, when the text there has that shape. */
  function QuotedField(s: string, i: nat): (r: Option<(nat, nat)>)
    requires i <= |s|
    ensures r.Some? ==> i < r.value.0 < r.value.1 < |s|
  {
    var a := SkipSpaces(s, i);
    if a == i || a == |s| || s[a] != '"' then None
    else
      var b := ScanToQuote(s, a + 1);
      if b == |s| then None else Some((a, b))
  }

  /** The part of the pattern after `(?:^|\s)`, tried with the 17 digits at
      index `d`: each quantifier is forced (`\s+` must stop at a quote and
      `[^"]` cannot cross one), so there is at most one way to match. */
  function BanRowAt(s: string, d: nat): Option<BannedPlayer>
    requires d <= |s|
  {
    if d + IdLength >= |s| || !AllDigits(s[d..d + IdLength]) then None
    else
      match QuotedField(s, d + IdLength)
      case None => None
      case Some((a, b)) =>
        if b == a + 1 then None
        else
          match QuotedField(s, b + 1)
          case None => None
          case Some((c, e)) => Some(BannedPlayer(s[d..d + IdLength], s[a + 1..b], s[c + 1..e]))
  }

  /** `(?:^|\s)` before index `d`: the start of the text, or a whitespace. */
  predicate Boundary(s: string, d: nat) {
    d == 0 || (d <= |s| && IsSpace(s[d - 1]))
  }

  /** The pattern matches with its digits at index `d`. */
  predicate MatchesAt(s: string, d: nat) {
    d <= |s| && Boundary(s, d) && BanRowAt(s, d).Some?
  }

  /** A match of the pattern: where the 17 digits start, and the three groups. */
  datatype BanMatch = BanMatch(at: nat, row: BannedPlayer)

  /** The leftmost match whose digits start at `d` or later. */
  function FindFrom(s: string, d: nat): (r: Option<BanMatch>)
    requires d <= |s|
    ensures r.Some? ==>
      d <= r.value.at <= |s| && Boundary(s, r.value.at) && BanRowAt(s, r.value.at) == Some(r.value.row)
    ensures r.Some? ==> forall k | d <= k < r.value.at :: !MatchesAt(s, k)
    ensures r.None? ==> forall k | d <= k <= |s| :: !MatchesAt(s, k)
    decreases |s| - d
  {
    if Boundary(s, d) && BanRowAt(s, d).Some? then Some(BanMatch(d, BanRowAt(s, d).value))
    else if d == |s| then None
    else FindFrom(s, d + 1)
  }

  /** `log.match(...)`. A match starting at index `p` has its digits at `p`
      (through `^`, only when `p == 0`) or at `p + 1` (through `\s`); `^` is
      tried first, so the leftmost match is the one whose digits come first. */
  function FirstBanRow(s: string): Option<BanMatch> {
    FindFrom(s, 0)
  }

  // ---------------------------------------------------------------------------
  // The same pattern, described declaratively

  /** The pattern's shape with its pieces at explicit positions: 17 digits at
      `d`; one or more spaces; a quote at `a`; a non-empty run of non-quotes;
      a quote at `b`; one or more spaces; a quote at `c`; a run of non-quotes;
      a quote at `e`. */
  predicate RowShape(s: string, d: nat, a: nat, b: nat, c: nat, e: nat) {
    && d + IdLength < a && a + 1 < b && b + 1 < c && c < e < |s|
    && AllDigits(s[d..d + IdLength]) && AllSpace(s[d + IdLength..a]) && s[a] == '"'
    && '"' !in s[a + 1..b] && s[b] == '"'
    && AllSpace(s[b + 1..c]) && s[c] == '"'
    && '"' !in s[c + 1..e] && s[e] == '"'
  }

  /** The text from index `d` on begins with a ban row spelling `row`. */
  ghost predicate Spells(s: string, d: nat, row: BannedPlayer) {
    exists a: nat, b: nat, c: nat, e: nat :: RowShape(s, d, a, b, c, e) &&
      row == BannedPlayer(s[d..d + IdLength], s[a + 1..b], s[c + 1..e])
  }

  /** Some ban row begins at index `d`. */
  ghost predicate RowAt(s: string, d: nat) {
    exists row :: Spells(s, d, row)
  }

  /** The match the regular expression reports: a row at a boundary `d`, and no
      row at any boundary before it. */
  ghost predicate LeftmostRow(s: string, d: nat, row: BannedPlayer) {
    && d <= |s| && Boundary(s, d) && Spells(s, d, row)
    && forall k: nat | k < d :: !(Boundary(s, k) && RowAt(s, k))
  }

  /** The text holds a ban row somewhere. */
  ghost predicate HasBanRow(s: string) {
    exists d: nat | d <= |s| :: Boundary(s, d) && RowAt(s, d)
  }

  /** `\s*` stops at the first non-space, wherever the run starts. */
  lemma {:induction false} SkipSpacesStops(s: string, i: nat, a: nat)
    requires i <= a < |s| && AllSpace(s[i..a]) && !IsSpace(s[a])
    ensures SkipSpaces(s, i) == a
    decreases a - i
  {
    if i < a {
      assert IsSpace(s[i..a][0]);
      assert s[i + 1..a] == s[i..a][1..];
      SkipSpacesStops(s, i + 1, a);
    }
  }

  /** `[^"]*` stops at the first quote. */
  lemma {:induction false} ScanToQuoteStops(s: string, i: nat, b: nat)
    requires i <= b < |s| && '"' !in s[i..b] && s[b] == '"'
    ensures ScanToQuote(s, i) == b
    decreases b - i
  {
    if i < b {
      assert s[i..b][0] == s[i];
      assert s[i + 1..b] == s[i..b][1..];
      ScanToQuoteStops(s, i + 1, b);
    }
  }

  /** `\s+"([^"]*)"` has a single way to match. */
  lemma QuotedFieldStops(s: string, i: nat, a: nat, b: nat)
    requires i < a < b < |s| && AllSpace(s[i..a]) && s[a] == '"' && '"' !in s[a + 1..b] && s[b] == '"'
    ensures QuotedField(s, i) == Some((a, b))
  {
    SkipSpacesStops(s, i, a);
    ScanToQuoteStops(s, a + 1, b);
  }

  /** What the scanner accepts at `d` is a row the pattern spells there. */
  lemma BanRowAtSound(s: string, d: nat)
    requires d <= |s| && BanRowAt(s, d).Some?
    ensures Spells(s, d, BanRowAt(s, d).value)
  {
    var (a, b) := QuotedField(s, d + IdLength).value;
    var (c, e) := QuotedField(s, b + 1).value;
    assert RowShape(s, d, a, b, c, e);
  }

  /** A row laid out at explicit positions is what the scanner accepts. */
  lemma RowShapeScanned(s: string, d: nat, a: nat, b: nat, c: nat, e: nat)
    requires RowShape(s, d, a, b, c, e)
    ensures d <= |s| && BanRowAt(s, d) == Some(BannedPlayer(s[d..d + IdLength], s[a + 1..b], s[c + 1..e]))
  {
    QuotedFieldStops(s, d + IdLength, a, b);
    QuotedFieldStops(s, b + 1, c, e);
  }

  /** A row the pattern spells at `d` is what the scanner accepts there: the
      pattern leaves no choice of where its pieces end. */
  lemma BanRowAtComplete(s: string, d: nat, row: BannedPlayer)
    requires d <= |s| && Spells(s, d, row)
    ensures BanRowAt(s, d) == Some(row)
  {
    var a: nat, b: nat, c: nat, e: nat :| RowShape(s, d, a, b, c, e) &&
      row == BannedPlayer(s[d..d + IdLength], s[a + 1..b], s[c + 1..e]);
    RowShapeScanned(s, d, a, b, c, e);
  }

  /** The scanner accepts at `d` exactly the rows the pattern spells there. */
  lemma BanRowAtMeaning(s: string, d: nat, row: BannedPlayer)
    requires d <= |s|
    ensures BanRowAt(s, d) == Some(row) <==> Spells(s, d, row)
  {
    if BanRowAt(s, d) == Some(row) {
      BanRowAtSound(s, d);
    }
    if Spells(s, d, row) {
      BanRowAtComplete(s, d, row);
    }
  }

  /** The scanner finds a row at `d` exactly when the pattern matches there. */
  lemma MatchesAtMeaning(s: string, d: nat)
    requires d <= |s|
    ensures MatchesAt(s, d) <==> Boundary(s, d) && RowAt(s, d)
  {
    if BanRowAt(s, d).Some? {
      BanRowAtMeaning(s, d, BanRowAt(s, d).value);
    }
    if RowAt(s, d) {
      var row :| Spells(s, d, row);
      BanRowAtMeaning(s, d, row);
    }
  }

  /** `log.match` reports the leftmost row, and reports nothing exactly when
      the text holds no row. */
  lemma FirstBanRowMeaning(s: string)
    ensures forall d: nat, row :: FirstBanRow(s) == Some(BanMatch(d, row)) <==> LeftmostRow(s, d, row)
    ensures FirstBanRow(s).None? <==> !HasBanRow(s)
  {
    forall k: nat | k <= |s| ensures MatchesAt(s, k) <==> Boundary(s, k) && RowAt(s, k) {
      MatchesAtMeaning(s, k);
    }
    forall d: nat, row ensures FirstBanRow(s) == Some(BanMatch(d, row)) <==> LeftmostRow(s, d, row) {
      if d <= |s| {
        BanRowAtMeaning(s, d, row);
      }
      if LeftmostRow(s, d, row) && FirstBanRow(s).Some? {
        var m := FirstBanRow(s).value;
        BanRowAtMeaning(s, m.at, m.row);
        assert m.at == d;
      }
    }
  }

  /** A ban-list row as the server writes it: the SteamID, a space, the
      quoted name, a space, the quoted reason. */
  function BanLine(e: BannedPlayer): string {
    e.steamId + " \"" + e.name + "\" \"" + e.reason + "\""
  }

  /** Reading a row back: any entry with a 17-digit SteamID, a non-empty name
      and quote-free fields is recovered from its line, matched at index 0. */
  lemma BanLineReadsBack(e: BannedPlayer)
    requires |e.steamId| == IdLength && AllDigits(e.steamId)
    requires e.name != [] && '"' !in e.name && '"' !in e.reason
    ensures FirstBanRow(BanLine(e)) == Some(BanMatch(0, e))
  {
    var s := BanLine(e);
    var a := IdLength + 1;
    var b := a + 1 + |e.name|;
    var c := b + 2;
    var t := c + 1 + |e.reason|;
    assert s == e.steamId + [' '] + ['"'] + e.name + ['"'] + [' '] + ['"'] + e.reason + ['"'];
    assert s[..IdLength] == e.steamId && s[IdLength..a] == " " && s[a] == '"';
    assert s[a + 1..b] == e.name && s[b] == '"' && s[b + 1..c] == " " && s[c] == '"';
    assert s[c + 1..t] == e.reason && s[t] == '"' && t == |s| - 1;
    assert RowShape(s, 0, a, b, c, t);
    BanRowAtMeaning(s, 0, e);
  }

  // ---------------------------------------------------------------------------
  // The decision list

  /** What `JSON.parse(log)` made of a snapshot line: it threw, it gave
      something `updatePlayerList` fails on, or it gave the records. */
  datatype SnapshotParse = NotJson | Malformed | Records(players: seq<RawPlayer>)

  /** What `onRconLog` does with a line: drop it, hand the records to
      `updatePlayerList`, drop it after a failed update, add a ban row, or
      append the line to the console. */
  datatype Decision = Ignored | Snapshot(records: seq<RawPlayer>) | Unusable | BanRow(entry: BannedPlayer) | Logged

  /** The words of the protected-event alternation, lower case. */
  const ProtectedWords: seq<string> :=
    ["killed", "died", "suicide", "bleeding", "wounded", "landmine",
     "joined", "connected", "disconnected", "left", "disconnecting"]

  /** `/killed|died|.../i.test(t)`. */
  predicate IsProtected(t: string) {
    exists w | w in ProtectedWords :: ContainsIgnoringCase(t, w)
  }

  /** The echo of one of the two commands the client sends by itself. */
  predicate IsEcho(t: string) {
    t == "playerlist" || t == "banlist"
  }

  /** The header of the ban-list dump. */
  predicate IsBanHeader(t: string) {
    Contains(t, "SteamID") && Contains(t, "Username") && Contains(t, "Reason") && !StartsWith(t, "[")
  }

  /** The JSON reply to `playerlist`. */
  predicate IsSnapshotLine(t: string) {
    StartsWith(t, "[") && Contains(t, "\"SteamID\"")
  }

  /** Neither dropped outright nor a snapshot: such a line is shown unless it is
      a ban row. */
  predicate FreeText(t: string) {
    !IsEcho(t) && !IsBanHeader(t) && !IsSnapshotLine(t)
  }

  /** `onRconLog`'s decision for `log`, given what `JSON.parse(log)` would make
      of it. The trimmed text is tested, except by the ban-row pattern, which
      runs on the line as received. */
  function Classify(log: string, parse: SnapshotParse): Decision {
    var t := Trim(log);
    if IsEcho(t) || IsBanHeader(t) then Ignored
    else if IsSnapshotLine(t) then
      match parse
      case NotJson => Logged
      case Malformed => Unusable
      case Records(rs) => Snapshot(rs)
    else if IsProtected(t) then Logged
    else
      match FirstBanRow(log)
      case Some(m) => BanRow(m.row)
      case None => Logged
  }

  /** The decision list, first match wins: an echo or the ban-list header is
      dropped; a snapshot line is handed to `updatePlayerList` when it parses,
      dropped when the update fails and logged when parsing throws; a line
      with a protected word is logged whatever else it holds; a remaining
      line with a ban row yields its leftmost row, and any other is logged. */
  lemma ClassifyDecides(log: string, parse: SnapshotParse)
    ensures var r, t := Classify(log, parse), Trim(log);
      && (r.Ignored? <==> IsEcho(t) || IsBanHeader(t))
      && (r.Snapshot? <==> !IsEcho(t) && !IsBanHeader(t) && IsSnapshotLine(t) && parse.Records?)
      && (r.Snapshot? ==> r.records == parse.players)
      && (r.Unusable? <==> !IsEcho(t) && !IsBanHeader(t) && IsSnapshotLine(t) && parse.Malformed?)
      && (r.BanRow? <==> FreeText(t) && !IsProtected(t) && HasBanRow(log))
      && (r.BanRow? ==> exists d: nat :: LeftmostRow(log, d, r.entry))
      && (FreeText(t) && IsProtected(t) ==> r.Logged?)
      && (FreeText(t) && !IsProtected(t) && !HasBanRow(log) ==> r.Logged?)
  {
    FirstBanRowMeaning(log);
  }

  /** A word without upper-case letters is its own case folding. */
  lemma FoldKeepsLower(w: string)
    requires forall i | 0 <= i < |w| :: !('A' <= w[i] <= 'Z')
    ensures Fold(w) == w
  {
    assert forall i | 0 <= i < |w| :: Fold(w)[i] == w[i];
  }

  /** The protected words are written in lower case. */
  lemma ProtectedWordsLower()
    ensures forall w | w in ProtectedWords :: Fold(w) == w
  {
    forall w | w in ProtectedWords ensures Fold(w) == w {
      FoldKeepsLower(w);
    }
  }

  /** The keyword test ignores letter case: a line and its upper- or mixed-case
      variants are protected alike. */
  lemma ProtectedIgnoresCase(t: string)
    ensures IsProtected(Fold(t)) <==> IsProtected(t)
  {
    ProtectedWordsLower();
    forall w | w in ProtectedWords
      ensures ContainsIgnoringCase(Fold(t), w) <==> ContainsIgnoringCase(t, w)
    {
      FoldedSearch(t, w);
    }
  }

  /** A line that starts with a digit is neither an echo nor a snapshot. */
  lemma DigitLineIsFree(s: string)
    requires s != [] && IsDigit(s[0])
    ensures !IsEcho(Trim(s)) && !IsSnapshotLine(Trim(s))
  {
    assert !IsSpace(s[0]) && LeadingSpaces(s) == 0;
    var t := Trim(s);
    assert t != [] && t[0] == s[0];
    assert t[0] != '[' && t[0] != 'p' && t[0] != 'b';
  }

  /** On a line that is neither dropped nor a snapshot, the decision is made
      by the protected words and then by the leftmost ban row. */
  lemma ClassifyFreeLine(log: string, parse: SnapshotParse, m: BanMatch)
    requires FreeText(Trim(log)) && FirstBanRow(log) == Some(m)
    ensures Classify(log, parse) == if IsProtected(Trim(log)) then Logged else BanRow(m.row)
  {
  }

  /** A ban row written as the server writes it is hidden from the console
      and added to the ban list, unless the name or the reason contains a
      protected word, in which case the whole line is shown. */
  lemma BanLineClassified(e: BannedPlayer, parse: SnapshotParse)
    requires |e.steamId| == IdLength && AllDigits(e.steamId)
    requires e.name != [] && '"' !in e.name && '"' !in e.reason
    requires !IsBanHeader(Trim(BanLine(e)))
    ensures Classify(BanLine(e), parse) == if IsProtected(Trim(BanLine(e))) then Logged else BanRow(e)
  {
    BanLineReadsBack(e);
    assert BanLine(e)[0] == e.steamId[0] && IsDigit(BanLine(e)[0]);
    DigitLineIsFree(BanLine(e));
    ClassifyFreeLine(BanLine(e), parse, BanMatch(0, e));
  }
}
