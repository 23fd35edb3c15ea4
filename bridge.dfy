/** The main process's side of the console connection: one socket slot that
    `rcon-connect` fills and `rcon-disconnect` empties, the send gate and the
    packet it writes, the routing of incoming frames to the window, and the
    socket events it forwards.

    Sockets are kept in a sequence, indexed by the order they were created in,
    so that the events of a socket that is no longer in the slot can still be
    stated. How a socket moves between its ready states is the socket
    library's business; the handlers here only react to it. */
module Bridge {
  import opened Text

  /** A parsed JSON value. Numbers are integers here. */
  datatype Json =
    | JNull | JBool(b: bool) | JNumber(n: int) | JString(s: string)
    | JArray(items: seq<Json>) | JObject(fields: seq<(string, Json)>)

  /** JavaScript truthiness of a parsed value. */
  predicate Truthy(v: Json) {
    match v
    case JNull => false
    case JBool(b) => b
    case JNumber(n) => n != 0
    case JString(s) => s != ""
    case _ => true
  }

  /** A property of a parsed object: `JSON.parse` keeps the last of repeated
      keys. */
  function Member(fields: seq<(string, Json)>, key: string): (r: Option<Json>)
    ensures r.None? <==> forall i | 0 <= i < |fields| :: fields[i].0 != key
    ensures r.Some? ==> exists i | 0 <= i < |fields| :: fields[i] == (key, r.value) &&
                          forall j | i < j < |fields| :: fields[j].0 != key
  {
    if fields == [] then None
    else if fields[|fields| - 1].0 == key then Some(fields[|fields| - 1].1)
    else
      var init := fields[..|fields| - 1];
      assert forall i | 0 <= i < |init| :: init[i] == fields[i];
      Member(init, key)
  }

  /** `parsed.Message`. Only an object has the property; reading it from `null`
      throws, and the handler's catch then does what its else branch does. */
  function MessageOf(v: Json): Option<Json> {
    if v.JObject? then Member(v.fields, "Message") else None
  }

  /** What the main process sends the window. */
  datatype Notification =
    | Connected | Log(line: Json) | Message(frame: Json) | Error(message: string) | Disconnected

  /** The `message` handler: a frame whose parsed `Message` is truthy is sent
      as that log line and as a structured message; any other frame, parsed
      or not, is sent as its own text. `parsed` is what `JSON.parse` made of
      `text`, or `None` when it threw. */
  function RouteFrame(text: string, parsed: Option<Json>): (r: seq<Notification>)
    ensures 1 <= |r| <= 2 && r[0].Log?
    ensures |r| == 2 <==> parsed.Some? && MessageOf(parsed.value).Some? && Truthy(MessageOf(parsed.value).value)
    ensures |r| == 2 ==> r[0] == Log(MessageOf(parsed.value).value) && r[1] == Message(parsed.value)
    ensures |r| == 1 ==> r[0] == Log(JString(text))
  {
    match parsed
    case Some(v) =>
      var m := MessageOf(v);
      if m.Some? && Truthy(m.value) then [Log(m.value), Message(v)] else [Log(JString(text))]
    case None => [Log(JString(text))]
  }

  /** The identifier every outgoing packet carries. */
  const PacketIdentifier := 1001

  /** The packet `rcon-send` writes for a command. */
  function Packet(command: string): Json {
    JObject([("Identifier", JNumber(PacketIdentifier)), ("Message", JString(command)), ("Name", JString("WebRcon"))])
  }

  /** A packet read back as a frame carries its command: a non-empty command
      is logged as itself alongside the packet; an empty one is logged as the
      frame's text. */
  lemma PacketRoutesBack(text: string, command: string)
    ensures RouteFrame(text, Some(Packet(command))) ==
      if command == "" then [Log(JString(text))] else [Log(JString(command)), Message(Packet(command))]
  {
    var fields := Packet(command).fields;
    assert fields[..|fields| - 1][|fields| - 2].0 == "Message";
    assert MessageOf(Packet(command)) == Some(JString(command));
  }

  /** `ws://${host}:${port}/${password}`, nothing escaped. */
  function Url(host: string, port: int, password: string): string {
    "ws://" + host + ":" + IntToString(port) + "/" + password
  }

  /** Reads host, port and password back out of a connection URL. */
  function ParseUrl(url: string): Option<(string, nat, string)> {
    if !StartsWith(url, "ws://") then None
    else
      var rest := url[5..];
      var host := BeforeFirst(rest, ':');
      if |host| == |rest| then None
      else
        var after := rest[|host| + 1..];
        var portText := BeforeFirst(after, '/');
        if |portText| == |after| then None
        else
          match ParseNat(portText)
          case None => None
          case Some(p) => Some((host, p, after[|portText| + 1..]))
  }

  /** Reading a URL assembled from parts gives the parts back, the port as
      whatever its text reads as, provided the host has no `:` and the port
      text no `/`. */
  lemma ParseUrlParts(host: string, portText: string, password: string)
    requires ':' !in host && '/' !in portText
    ensures ParseUrl("ws://" + host + ":" + portText + "/" + password) ==
      match ParseNat(portText)
      case None => None
      case Some(p) => Some((host, p, password))
  {
    var url := "ws://" + host + ":" + portText + "/" + password;
    var tail := portText + "/" + password;
    assert url == "ws://" + (host + [':'] + tail);
    assert StartsWith(url, "ws://");
    var rest := url[5..];
    assert rest == host + [':'] + tail;
    BeforeFirstOfJoin(host, ':', tail);
    var after := rest[|host| + 1..];
    assert after == portText + ['/'] + password;
    BeforeFirstOfJoin(portText, '/', password);
    assert after[|portText| + 1..] == password;
  }

  /** The URL carries the connection settings faithfully as long as the host
      has no `:` (an IPv6 literal would be cut at its first colon). The
      password may contain anything, `/` included. */
  lemma UrlReadsBack(host: string, port: nat, password: string)
    requires ':' !in host
    ensures ParseUrl(Url(host, port, password)) == Some((host, port, password))
  {
    var digits := NatToString(port);
    assert '/' !in digits by {
      forall i | 0 <= i < |digits| ensures digits[i] != '/' { assert IsDigit(digits[i]); }
    }
    ParseUrlParts(host, digits, password);
    NatToStringRoundTrip(port);
  }

  /** A socket's `readyState`. */
  datatype ReadyState = Connecting | Open | Closing | Closed

  /** One socket the main process created: where it connects, its state, and
      the packets written to it. */
  datatype Socket = Socket(url: string, state: ReadyState, sent: seq<Json>)

  /** A socket that has not begun to close. */
  predicate Live(s: Socket) {
    s.state == Connecting || s.state == Open
  }

  /** `close()`: a connecting or open socket starts closing; closing it again
      does nothing. */
  function Shut(s: Socket): (r: Socket)
    ensures !Live(r) && r.url == s.url && r.sent == s.sent
    ensures !Live(s) ==> r == s
  {
    if Live(s) then s.(state := Closing) else s
  }

  class MainProcess {
    /** Every socket created so far, in creation order. */
    var sockets: seq<Socket>
    /** `rconSocket`: the index of the current socket, if any. */
    var slot: Option<nat>
    /** Everything sent to the window, in order. */
    var sentToWindow: seq<Notification>

    /** The slot names a socket that exists. */
    ghost predicate Indexed()
      reads this
    {
      slot.Some? ==> slot.value < |sockets|
    }

    /** The slot names a live socket, and every live socket is the one in the
        slot: at most one connection is ever live, and it is reachable. */
    ghost predicate Valid()
      reads this
    {
      && Indexed()
      && (slot.Some? ==> Live(sockets[slot.value]))
      && forall i | 0 <= i < |sockets| && Live(sockets[i]) :: slot == Some(i)
    }

    constructor()
      ensures Valid() && sockets == [] && slot == None && sentToWindow == []
    {
      sockets := [];
      slot := None;
      sentToWindow := [];
    }

    /** The sockets after closing the one in the slot, if any. */
    ghost function ShutSlot(): seq<Socket>
      reads this
      requires Indexed()
    {
      if slot.Some? then sockets[slot.value := Shut(sockets[slot.value])] else sockets
    }

    /** `rcon-connect`: close and forget the current socket, then open one to
        the settings' URL. `setupError` is what creating the socket threw, if
        it threw: the window is then told the error's message, or
        `Connection setup failed` when it has none, and the slot stays empty. */
    method Connect(host: string, port: int, password: string, setupError: Option<string>)
      requires Valid()
      modifies this
      ensures Valid()
      ensures setupError.None? ==>
        && sockets == old(ShutSlot()) + [Socket(Url(host, port, password), Connecting, [])]
        && slot == Some(|sockets| - 1) && sentToWindow == old(sentToWindow)
      ensures setupError.Some? ==>
        && sockets == old(ShutSlot()) && slot == None
        && sentToWindow == old(sentToWindow) +
             [Error(if setupError.value == "" then "Connection setup failed" else setupError.value)]
    {
      // The first step is exactly `rcon-disconnect`'s.
      var _ := Disconnect();
      match setupError {
        case None =>
          OpenSocket(Url(host, port, password));
        case Some(m) =>
          sentToWindow := sentToWindow + [Error(if m == "" then "Connection setup failed" else m)];
      }
    }

    /** `new WebSocket(url)` stored in the empty slot, when no socket is live. */
    method OpenSocket(url: string)
      requires Indexed() && slot == None
      requires forall i | 0 <= i < |sockets| :: !Live(sockets[i])
      modifies this
      ensures Valid()
      ensures sockets == old(sockets) + [Socket(url, Connecting, [])]
      ensures slot == Some(|sockets| - 1) && sentToWindow == old(sentToWindow)
    {
      var before := sockets;
      sockets := sockets + [Socket(url, Connecting, [])];
      slot := Some(|sockets| - 1);
      assert forall i | 0 <= i < |sockets| - 1 :: sockets[i] == before[i];
    }

    /** `rcon-disconnect`: close and forget the current socket; always answers
        true. */
    method Disconnect() returns (r: bool)
      requires Valid()
      modifies this
      ensures Valid() && r
      ensures sockets == old(ShutSlot()) && slot == None && sentToWindow == old(sentToWindow)
      ensures forall i | 0 <= i < |sockets| :: !Live(sockets[i])
    {
      if slot.Some? {
        sockets := sockets[slot.value := Shut(sockets[slot.value])];
        slot := None;
      }
      r := true;
    }

    /** `rcon-send`: write the command's packet when the current socket is
        open, and say whether it was written. */
    method Send(command: string) returns (ok: bool)
      requires Indexed()
      modifies this
      ensures Indexed() && (old(Valid()) ==> Valid())
      ensures ok <==> old(slot).Some? && old(sockets)[old(slot).value].state == Open
      ensures slot == old(slot) && sentToWindow == old(sentToWindow)
      ensures ok ==> sockets == old(sockets)[slot.value := old(sockets)[slot.value].(sent := old(sockets)[slot.value].sent + [Packet(command)])]
      ensures !ok ==> sockets == old(sockets)
    {
      ok := slot.Some? && sockets[slot.value].state == Open;
      if ok {
        var h := slot.value;
        sockets := sockets[h := sockets[h].(sent := sockets[h].sent + [Packet(command)])];
      }
    }

    /** The socket `h` finished its handshake: the window is told, whichever
        socket it was. */
    method OnOpen(h: nat)
      requires Valid() && h < |sockets| && sockets[h].state == Connecting
      modifies this
      ensures Valid()
      ensures sockets == old(sockets)[h := old(sockets)[h].(state := Open)]
      ensures slot == old(slot) && sentToWindow == old(sentToWindow) + [Connected]
    {
      sockets := sockets[h := sockets[h].(state := Open)];
      sentToWindow := sentToWindow + [Connected];
    }

    /** A frame arrived on some socket: it is routed to the window. */
    method OnMessage(text: string, parsed: Option<Json>)
      requires Valid()
      modifies this
      ensures Valid() && sockets == old(sockets) && slot == old(slot)
      ensures sentToWindow == old(sentToWindow) + RouteFrame(text, parsed)
    {
      sentToWindow := sentToWindow + RouteFrame(text, parsed);
    }

    /** A socket reported an error: its message goes to the window. */
    method OnError(message: string)
      requires Valid()
      modifies this
      ensures Valid() && sockets == old(sockets) && slot == old(slot)
      ensures sentToWindow == old(sentToWindow) + [Error(message)]
    {
      sentToWindow := sentToWindow + [Error(message)];
    }

    /** The `close` handler as written: whichever socket closed, the window is
        told and the slot is emptied, even when the slot holds a newer socket. */
    method OnCloseAsWritten(h: nat)
      requires Valid() && h < |sockets| && sockets[h].state != Closed
      modifies this
      ensures Indexed()
      ensures sockets == old(sockets)[h := old(sockets)[h].(state := Closed)]
      ensures slot == None && sentToWindow == old(sentToWindow) + [Disconnected]
    {
      sockets := sockets[h := sockets[h].(state := Closed)];
      slot := None;
      sentToWindow := sentToWindow + [Disconnected];
    }

    /** The `close` handler, corrected: a socket that another one has replaced
        in the slot closes silently; otherwise the slot is emptied when it is
        that socket's, and the window is told the connection closed. */
    method OnClose(h: nat)
      requires Valid() && h < |sockets| && sockets[h].state != Closed
      modifies this
      ensures Valid()
      ensures sockets == old(sockets)[h := old(sockets)[h].(state := Closed)]
      ensures slot == (if old(slot) == Some(h) then None else old(slot))
      ensures sentToWindow == old(sentToWindow) + (if old(slot).Some? && old(slot) != Some(h) then [] else [Disconnected])
    {
      sockets := sockets[h := sockets[h].(state := Closed)];
      if slot == Some(h) {
        slot := None;
      }
      if slot == None {
        sentToWindow := sentToWindow + [Disconnected];
      }
    }
  }

  /** Connect, reconnect before the first socket has finished closing, and let
      the new socket open; then the first socket's close arrives. With the
      handler as written, the open socket is no longer reachable,
      `rcon-send` refuses, and the window is told the connection closed. */
  method StaleCloseAsWritten() returns (ok: bool, orphaned: bool, told: seq<Notification>)
    ensures orphaned && !ok
    ensures told == [Connected, Connected, Disconnected]
  {
    var m := new MainProcess();
    m.Connect("203.0.113.7", 28016, "secret", None);
    m.OnOpen(0);
    m.Connect("203.0.113.7", 28016, "secret", None);
    m.OnOpen(1);
    m.OnCloseAsWritten(0);
    orphaned := m.slot.None? && Live(m.sockets[1]);
    told := m.sentToWindow;
    ok := m.Send("playerlist");
  }

  /** The same events with the corrected handler: the new socket stays in the
      slot, the command is written to it, and the window only ever heard that
      it connected. */
  method StaleCloseCorrected() returns (ok: bool, written: seq<Json>, told: seq<Notification>)
    ensures ok && written == [Packet("playerlist")]
    ensures told == [Connected, Connected]
  {
    var m := new MainProcess();
    m.Connect("203.0.113.7", 28016, "secret", None);
    m.OnOpen(0);
    m.Connect("203.0.113.7", 28016, "secret", None);
    m.OnOpen(1);
    m.OnClose(0);
    told := m.sentToWindow;
    ok := m.Send("playerlist");
    written := m.sockets[1].sent;
  }
}
