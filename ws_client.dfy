/** The browser side of the realtime channel, as both single-page apps run it: a provider
    that opens a WebSocket for the logged-in user, tracks whether it is connected and the
    last event received, shows toasts (student app only), and reconnects after a close.

    The browser and React are the environment: sockets, timers and the token effect are
    driven by events (socket open, message, close, error; timer fired; token changed;
    provider unmounted). Every socket ever created stays in `sockets`, in creation order,
    so the model can speak about sockets the provider no longer references. Each socket
    and each timer carries what its handlers captured when they were created: the access
    token passed to `connectForUser`, the auth `token` and the user's role of that render. */
module RealtimeClient {
  import opened Common

  // ---------------------------------------------------------------------
  // The connection URL

  /** Where the page runs and how the build was configured. */
  datatype Env = Env(apiUrl: string, pageProtocol: string, pageHost: string)

  /** `apiUrl.replace(/^http/, 'ws')`: only a leading "http" is rewritten. */
  function ToWsScheme(apiUrl: string): (r: string)
    ensures "https://" <= apiUrl ==> "wss://" <= r
    ensures "http://" <= apiUrl ==> "ws://" <= r
    ensures !("http" <= apiUrl) ==> r == apiUrl
  {
    if "http" <= apiUrl then "ws" + apiUrl[4..] else apiUrl
  }

  const WsPath: string := "/api/v1/ws"

  /** The socket URL: the configured API URL with its scheme rewritten, or else the page's
      own host under `wss:` exactly when the page is served over `https:`; then the path,
      then the token as a query parameter, not encoded. */
  function WsUrl(env: Env, accessToken: string): (r: string)
    ensures env.apiUrl != "" ==> r == ToWsScheme(env.apiUrl) + WsPath + "?token=" + accessToken
    ensures env.apiUrl == "" && env.pageProtocol == "https:" ==>
      r == "wss://" + env.pageHost + WsPath + "?token=" + accessToken
    ensures env.apiUrl == "" && env.pageProtocol != "https:" ==>
      r == "ws://" + env.pageHost + WsPath + "?token=" + accessToken
  {
    var protocol := if env.pageProtocol == "https:" then "wss:" else "ws:";
    var base := if env.apiUrl != "" then ToWsScheme(env.apiUrl) + WsPath
                else protocol + "//" + env.pageHost + WsPath;
    base + "?token=" + accessToken
  }

  /** The URL always ends with the token verbatim, after "?token=". */
  lemma {:induction false} WsUrlEndsWithToken(env: Env, accessToken: string)
    ensures var r := WsUrl(env, accessToken);
      |r| >= |"?token="| + |accessToken| && r[|r| - |accessToken|..] == accessToken &&
      r[|r| - |accessToken| - 7..|r| - |accessToken|] == "?token="
  {
    var base := if env.apiUrl != "" then ToWsScheme(env.apiUrl) + WsPath
                else (if env.pageProtocol == "https:" then "wss:" else "ws:") + "//" + env.pageHost + WsPath;
    var r := WsUrl(env, accessToken);
    assert r == base + "?token=" + accessToken;
    assert r[|base|..|base| + 7] == "?token=";
    assert r[|base| + 7..] == accessToken;
  }

  /** An http(s) API URL gives the matching ws(s) scheme; without one, the page decides. */
  lemma SecureSchemeFollows(env: Env, accessToken: string)
    ensures "https://" <= env.apiUrl ==> "wss://" <= WsUrl(env, accessToken)
    ensures "http://" <= env.apiUrl ==> "ws://" <= WsUrl(env, accessToken)
    ensures env.apiUrl == "" ==> ("wss://" <= WsUrl(env, accessToken) <==> env.pageProtocol == "https:")
  {
    var r := WsUrl(env, accessToken);
    if "https://" <= env.apiUrl {
      assert r[..6] == ToWsScheme(env.apiUrl)[..6];
    } else if "http://" <= env.apiUrl {
      assert r[..5] == ToWsScheme(env.apiUrl)[..5];
    }
    if env.apiUrl == "" && env.pageProtocol != "https:" {
      assert r[2] == ':';
    }
  }

  // ---------------------------------------------------------------------
  // Messages and toasts

  /** Which app the provider belongs to: the student app shows toasts, the admin app none. */
  datatype App = StudentApp | AdminApp

  /** A parsed message: its `event` and its `data` object (`None` when `data` is missing). */
  datatype Message = Message(event: string, data: Option<map<string, string>>)

  /** `lastEvent`: the message's event and data with the time it arrived. */
  datatype WsEvent = WsEvent(event: string, data: Option<map<string, string>>, timestamp: int)

  /** A toast: its text and its duration in milliseconds, when one is given. */
  datatype Toast = Toast(text: string, duration: Option<nat>)

  /** A property of `data` as a template string shows it. */
  function Field(data: map<string, string>, key: string): string
  {
    if key in data then data[key] else "undefined"
  }

  const ToastDuration: nat := 5000

  /** The toasts one message raises, given the role the handler captured. Reading a property
      of missing `data` throws inside the handler and the error is swallowed, so no toast. */
  function ToastsFor(app: App, role: Option<string>, m: Message): (r: seq<Toast>)
    ensures |r| <= 1
    ensures app == AdminApp ==> r == []
    ensures m.event !in {"job_posted", "application_submitted", "status_updated"} ==> r == []
    ensures r != [] && m.event == "application_submitted" ==> role == Some("admin")
    ensures r != [] && m.event != "application_submitted" ==> role == Some("student") && m.data.Some?
    ensures app == StudentApp && m.event == "job_posted" && role == Some("student") && m.data.Some? ==>
      r == [Toast("New Job Posted: " + Field(m.data.value, "title"), Some(ToastDuration))]
    ensures app == StudentApp && m.event == "status_updated" && role == Some("student") && m.data.Some? ==>
      r == [Toast(if Field(m.data.value, "status") == "accepted" then AcceptedText else UpdatedText,
                  Some(ToastDuration))]
  {
    if app == AdminApp then []
    else if m.event == "job_posted" then
      if role == Some("student") && m.data.Some? then
        [Toast("New Job Posted: " + Field(m.data.value, "title"), Some(ToastDuration))]
      else []
    else if m.event == "application_submitted" then
      if role == Some("admin") then [Toast("New Application Received!", None)] else []
    else if m.event == "status_updated" then
      if role == Some("student") && m.data.Some? then
        [Toast(if Field(m.data.value, "status") == "accepted" then AcceptedText else UpdatedText,
               Some(ToastDuration))]
      else []
    else []
  }

  const AcceptedText: string := "\U{1F389} Application Accepted!"
  const UpdatedText: string := "\U{2139}\U{FE0F} Application Status Updated"

  // ---------------------------------------------------------------------
  // The connection bookkeeping as a state machine

  datatype SocketState = Connecting | Open | Closing | Closed

  /** A socket and what its handlers captured. */
  datatype Socket = Socket(url: string, accessToken: string, token: Option<string>, role: Option<string>,
                           state: SocketState)

  datatype TimerState = Pending | Fired | Cleared

  /** A reconnect timer and what its callback captured. */
  datatype Timer = Timer(accessToken: string, token: Option<string>, role: Option<string>, state: TimerState)

  /** The provider: the auth state of the last render, every socket and timer so far,
      `socketRef`, `reconnectTimeoutRef` (indices), `isConnected`, `lastEvent`, toasts shown. */
  datatype Client = Client(
    app: App,
    env: Env,
    token: Option<string>,
    role: Option<string>,
    sockets: seq<Socket>,
    socketRef: Option<nat>,
    timers: seq<Timer>,
    reconnectRef: Option<nat>,
    isConnected: bool,
    lastEvent: Option<WsEvent>,
    toasts: seq<Toast>)

  /** JavaScript truthiness of the token: `null` and "" are falsy. */
  predicate Truthy(token: Option<string>)
  {
    token.Some? && token.value != ""
  }

  /** The references point into the histories, `socketRef` only ever at the newest socket,
      and every handler's access token is the token it captured. */
  ghost predicate Valid(c: Client)
  {
    (c.socketRef.Some? ==> c.socketRef.value + 1 == |c.sockets|) &&
    (c.reconnectRef.Some? ==> c.reconnectRef.value < |c.timers|) &&
    (forall i :: 0 <= i < |c.sockets| ==> c.sockets[i].token == Some(c.sockets[i].accessToken)) &&
    (forall i :: 0 <= i < |c.timers| ==> c.timers[i].token == Some(c.timers[i].accessToken))
  }

  /** The environment's events. */
  datatype Event =
    | Opened(socket: nat)
    | Received(socket: nat, message: Option<Message>, now: int)
    | SocketClosed(socket: nat)
    | SocketError(socket: nat)
    | TimerFired(timer: nat)
    | TokenChanged(newToken: Option<string>, newRole: Option<string>)
    | Unmounted

  /** When the browser can deliver each event: open only while connecting, messages only
      while open, an error before the socket is closed, the close event once, a timer
      while pending. */
  predicate Enabled(c: Client, e: Event)
  {
    match e
    case Opened(s) => s < |c.sockets| && c.sockets[s].state == Connecting
    case Received(s, _, _) => s < |c.sockets| && c.sockets[s].state == Open
    case SocketClosed(s) => s < |c.sockets| && c.sockets[s].state != Closed
    case SocketError(s) => s < |c.sockets| && c.sockets[s].state in {Connecting, Open}
    case TimerFired(t) => t < |c.timers| && c.timers[t].state == Pending
    case TokenChanged(_, _) => true
    case Unmounted => true
  }

  /** `ws.close()`: a connecting or open socket starts closing; otherwise nothing. */
  function CloseSocket(sockets: seq<Socket>, i: nat): (r: seq<Socket>)
    requires i < |sockets|
    ensures |r| == |sockets| && forall j :: 0 <= j < |r| && j != i ==> r[j] == sockets[j]
    ensures r[i] == sockets[i].(state := if sockets[i].state in {Connecting, Open} then Closing else sockets[i].state)
  {
    if sockets[i].state in {Connecting, Open} then sockets[i := sockets[i].(state := Closing)] else sockets
  }

  /** `if (socketRef.current) socketRef.current.close()`. */
  function CloseRef(c: Client): (r: Client)
    requires Valid(c)
    ensures Valid(r) && r == c.(sockets := r.sockets)
    ensures c.socketRef.None? ==> r == c
    ensures c.socketRef.Some? ==> r.sockets == CloseSocket(c.sockets, c.socketRef.value)
  {
    if c.socketRef.Some? then c.(sockets := CloseSocket(c.sockets, c.socketRef.value)) else c
  }

  /** `connectForUser(accessToken)` of the render that captured `token` and `role`: close the
      referenced socket, open a new one, and reference it. */
  function ConnectForUser(c: Client, accessToken: string, token: Option<string>, role: Option<string>): (r: Client)
    requires Valid(c) && token == Some(accessToken)
    ensures Valid(r)
    ensures |r.sockets| == |c.sockets| + 1 && r.socketRef == Some(|c.sockets|)
    ensures r.sockets[|c.sockets|] == Socket(WsUrl(c.env, accessToken), accessToken, token, role, Connecting)
    ensures r.sockets[..|c.sockets|] == CloseRef(c).sockets
    ensures r == c.(sockets := r.sockets, socketRef := r.socketRef)
  {
    var closed := CloseRef(c);
    var ws := Socket(WsUrl(c.env, accessToken), accessToken, token, role, Connecting);
    assert (closed.sockets + [ws])[..|c.sockets|] == closed.sockets;
    closed.(sockets := closed.sockets + [ws], socketRef := Some(|c.sockets|))
  }

  /** The effect cleanup: close the referenced socket, clear the last scheduled timer. */
  function Cleanup(c: Client): (r: Client)
    requires Valid(c)
    ensures Valid(r) && r == c.(sockets := r.sockets, timers := r.timers)
    ensures r.sockets == CloseRef(c).sockets
    ensures |r.timers| == |c.timers|
    ensures forall t :: 0 <= t < |c.timers| && Some(t) != c.reconnectRef ==> r.timers[t] == c.timers[t]
    ensures c.reconnectRef.Some? ==>
      var t := c.reconnectRef.value;
      r.timers[t] == c.timers[t].(state := if c.timers[t].state == Pending then Cleared else c.timers[t].state)
  {
    var closed := CloseRef(c);
    if c.reconnectRef.Some? && c.timers[c.reconnectRef.value].state == Pending then
      var t := c.reconnectRef.value;
      closed.(timers := c.timers[t := c.timers[t].(state := Cleared)])
    else closed
  }

  /** The token effect body: connect with a truthy token, else close the referenced socket. */
  function Effect(c: Client): (r: Client)
    requires Valid(c)
    ensures Valid(r)
    ensures r == c.(sockets := r.sockets, socketRef := r.socketRef)
    ensures |r.sockets| >= |c.sockets| && r.sockets[..|c.sockets|] == CloseRef(c).sockets
    ensures Truthy(c.token) ==>
      |r.sockets| == |c.sockets| + 1 && r.socketRef == Some(|c.sockets|) &&
      r.sockets[|c.sockets|] == Socket(WsUrl(c.env, c.token.value), c.token.value, c.token, c.role, Connecting)
    ensures !Truthy(c.token) ==> |r.sockets| == |c.sockets| && r.socketRef == c.socketRef
  {
    if Truthy(c.token) then ConnectForUser(c, c.token.value, c.token, c.role) else CloseRef(c)
  }

  /** The provider as first rendered, its effect run once. */
  function Mount(app: App, env: Env, token: Option<string>, role: Option<string>): (r: Client)
    ensures Valid(r) && r.app == app && r.token == token
    ensures !r.isConnected && r.lastEvent.None? && r.toasts == [] && r.timers == []
    ensures Truthy(token) <==> |r.sockets| == 1
    ensures Truthy(token) ==>
      (r.socketRef == Some(0) && r.sockets[0].state == Connecting && r.sockets[0].accessToken == token.value)
  {
    Effect(Client(app, env, token, role, [], None, [], None, false, None, []))
  }

  /** One event. */
  function Step(c: Client, e: Event): (r: Client)
    requires Valid(c) && Enabled(c, e)
    ensures Valid(r)
    ensures r.app == c.app && r.env == c.env
    ensures |r.sockets| >= |c.sockets| && |r.timers| >= |c.timers|
  {
    match e
    case Opened(s) =>
      c.(sockets := c.sockets[s := c.sockets[s].(state := Open)], isConnected := true)
    case Received(s, message, now) =>
      if message.None? then c
      else
        var m := message.value;
        c.(lastEvent := Some(WsEvent(m.event, m.data, now)),
           toasts := c.toasts + ToastsFor(c.app, c.sockets[s].role, m))
    case SocketClosed(s) =>
      var ws := c.sockets[s];
      var closed := c.(sockets := c.sockets[s := ws.(state := Closed)], isConnected := false, socketRef := None);
      if Truthy(ws.token) then
        closed.(timers := c.timers + [Timer(ws.accessToken, ws.token, ws.role, Pending)],
                reconnectRef := Some(|c.timers|))
      else closed
    case SocketError(s) =>
      c.(sockets := CloseSocket(c.sockets, s))
    case TimerFired(t) =>
      var timer := c.timers[t];
      var fired := c.(timers := c.timers[t := timer.(state := Fired)]);
      ConnectForUser(fired, timer.accessToken, timer.token, timer.role)
    case TokenChanged(newToken, newRole) =>
      if newToken == c.token then c.(role := newRole)
      else Effect(Cleanup(c).(token := newToken, role := newRole))
    case Unmounted =>
      Cleanup(c)
  }

  /** Whether the browser still holds a socket open or opening. */
  predicate Live(s: Socket)
  {
    s.state == Connecting || s.state == Open
  }

  // ---------------------------------------------------------------------
  // What the handlers do and do not guarantee

  /** The open handler marks that socket open and the provider connected, and nothing else:
      the reference, the timers and every other socket stay as they were, so the open event
      of a socket the provider has already replaced also sets `isConnected`. */
  lemma OpenedStep(c: Client, s: nat)
    requires Valid(c) && Enabled(c, Opened(s))
    ensures var r := Step(c, Opened(s));
      r == c.(sockets := c.sockets[s := c.sockets[s].(state := Open)], isConnected := true) &&
      r.sockets[s].state == Open && r.isConnected && r.socketRef == c.socketRef &&
      |r.sockets| == |c.sockets| && forall j :: 0 <= j < |c.sockets| && j != s ==> r.sockets[j] == c.sockets[j]
  {
  }

  /** The error handler only starts closing its socket: `isConnected`, the reference, the
      timers and the other sockets are untouched, and the close event is what follows. */
  lemma ErrorStep(c: Client, s: nat)
    requires Valid(c) && Enabled(c, SocketError(s))
    ensures var r := Step(c, SocketError(s));
      r == c.(sockets := CloseSocket(c.sockets, s)) && r.sockets[s].state == Closing &&
      r.isConnected == c.isConnected && r.socketRef == c.socketRef && r.timers == c.timers &&
      r.reconnectRef == c.reconnectRef && Enabled(r, SocketClosed(s))
  {
  }

  /** A message that does not parse changes nothing. */
  lemma UnparsedMessageIgnored(c: Client, s: nat, now: int)
    requires Valid(c) && Enabled(c, Received(s, None, now))
    ensures Step(c, Received(s, None, now)) == c
  {
  }

  /** A parsed message becomes `lastEvent` with its arrival time; the admin app shows no toast. */
  lemma ParsedMessageRecorded(c: Client, s: nat, m: Message, now: int)
    requires Valid(c) && Enabled(c, Received(s, Some(m), now))
    ensures Step(c, Received(s, Some(m), now)).lastEvent == Some(WsEvent(m.event, m.data, now))
    ensures c.app == AdminApp ==> Step(c, Received(s, Some(m), now)).toasts == c.toasts
  {
  }

  /** The close handler of ANY socket, also one the provider has already replaced, clears
      `socketRef` and `isConnected`. */
  lemma StaleCloseClearsRef(c: Client, s: nat)
    requires Valid(c) && Enabled(c, SocketClosed(s))
    ensures Step(c, SocketClosed(s)).socketRef.None? && !Step(c, SocketClosed(s)).isConnected
  {
  }

  /** A reconnect always uses the access token its socket was opened with, whatever the
      current token is; and a closing socket whose captured token was truthy always
      schedules one. */
  lemma ReconnectKeepsCapturedToken(c: Client, s: nat)
    requires Valid(c) && Enabled(c, SocketClosed(s)) && Truthy(c.sockets[s].token)
    ensures var r := Step(c, SocketClosed(s));
      |r.timers| == |c.timers| + 1 && r.reconnectRef == Some(|c.timers|) &&
      r.timers[|c.timers|] == Timer(c.sockets[s].accessToken, c.sockets[s].token, c.sockets[s].role, Pending)
  {
  }

  /** Firing a timer opens a socket for the timer's access token, not the current token. */
  lemma TimerConnectsCapturedToken(c: Client, t: nat)
    requires Valid(c) && Enabled(c, TimerFired(t))
    ensures var r := Step(c, TimerFired(t));
      r.socketRef == Some(|c.sockets|) && r.sockets[|c.sockets|].accessToken == c.timers[t].accessToken &&
      r.sockets[|c.sockets|].url == WsUrl(c.env, c.timers[t].accessToken) && r.token == c.token
  {
  }

  /** Number of live sockets. */
  function LiveCount(sockets: seq<Socket>): (n: nat)
    ensures n <= |sockets|
  {
    Count(sockets, (s: Socket) => Live(s))
  }

  /** The provider mounted with token A, its socket open, then switched to token B: the
      cleanup has closed the socket for A and the effect has opened one for B. */
  function SwitchedTokens(app: App, env: Env, a: string, b: string, role: Option<string>): (c: Client)
    requires a != "" && b != "" && a != b
    ensures Valid(c) && c.token == Some(b) && c.timers == [] && c.socketRef == Some(1) && |c.sockets| == 2
    ensures c.sockets[0].state == Closing && c.sockets[0].token == Some(a) && c.sockets[0].accessToken == a
    ensures c.sockets[1].state == Connecting && c.sockets[1].accessToken == b
  {
    var c0 := Mount(app, env, Some(a), role);
    var c1 := Step(c0, Opened(0));
    assert c1.sockets[0].state == Open;
    Step(c1, TokenChanged(Some(b), role))
  }

  /** The first half of the switch scenario: the new socket opens, then the old one's close
      event arrives, clearing the reference and scheduling a reconnect with A. */
  lemma OldCloseAfterSwitch(app: App, env: Env, a: string, b: string, role: Option<string>)
    requires a != "" && b != "" && a != b
    ensures var c3 := Step(SwitchedTokens(app, env, a, b, role), Opened(1));
      var c4 := Step(c3, SocketClosed(0));
      c3.sockets[1].state == Open && c3.sockets[1].accessToken == b &&
      c4.socketRef.None? && !c4.isConnected && c4.token == Some(b) &&
      c4.sockets == [c3.sockets[0].(state := Closed), c3.sockets[1]] &&
      c4.timers == [Timer(a, Some(a), role, Pending)]
  {
    var c3 := Step(SwitchedTokens(app, env, a, b, role), Opened(1));
    assert c3.sockets[1].state == Open;
  }

  /** Switching from token A to token B (both set): the old socket is closing, the new one
      opens; when the old one's close event then arrives it clears the reference to the new
      socket, reports the provider disconnected although the new socket is open, and
      schedules a reconnect with A. Once that timer fires, two sockets are live, one for A
      and one for B: the provider does not keep a single live socket. */
  lemma {:induction false} TokenSwitchLeavesTwoLiveSockets(app: App, env: Env, a: string, b: string,
                                                          role: Option<string>)
    requires a != "" && b != "" && a != b
    ensures var c2 := SwitchedTokens(app, env, a, b, role);
      var c3 := Step(c2, Opened(1));
      var c4 := Step(c3, SocketClosed(0));
      var c5 := Step(c4, TimerFired(0));
      c4.socketRef.None? && !c4.isConnected && c4.sockets[1].state == Open &&
      c5.sockets[1].state == Open && c5.sockets[1].accessToken == b &&
      c5.sockets[2].state == Connecting && c5.sockets[2].accessToken == a &&
      c5.token == Some(b) && LiveCount(c5.sockets) == 2
  {
    OldCloseAfterSwitch(app, env, a, b, role);
    ReconnectAfterOldClose(app, env, a, b, role);
    var c4 := Step(Step(SwitchedTokens(app, env, a, b, role), Opened(1)), SocketClosed(0));
    var c5 := Step(c4, TimerFired(0));
    assert c5.sockets == [c4.sockets[0], c4.sockets[1], c5.sockets[2]];
    LiveCountOfThree(c4.sockets[0], c4.sockets[1], c5.sockets[2]);
  }

  /** The second half: the reconnect timer opens a third socket, with A, beside the two. */
  lemma ReconnectAfterOldClose(app: App, env: Env, a: string, b: string, role: Option<string>)
    requires a != "" && b != "" && a != b
    ensures var c4 := Step(Step(SwitchedTokens(app, env, a, b, role), Opened(1)), SocketClosed(0));
      var c5 := Step(c4, TimerFired(0));
      |c5.sockets| == 3 && c5.sockets[..2] == c4.sockets && c5.token == Some(b) &&
      c5.sockets[2].state == Connecting && c5.sockets[2].accessToken == a
  {
    OldCloseAfterSwitch(app, env, a, b, role);
  }

  /** Three sockets of which only the last two are live. */
  lemma LiveCountOfThree(x: Socket, y: Socket, z: Socket)
    requires !Live(x) && Live(y) && Live(z)
    ensures LiveCount([x, y, z]) == 2
  {
    var p := (s: Socket) => Live(s);
    assert [x, y, z][1..] == [y, z] && [y, z][1..] == [z] && [z][1..] == [];
    assert Count([z], p) == 1;
    assert Count([y, z], p) == 2;
    assert Count([x, y, z], p) == 2;
  }

  /** Logging out while connected: the cleanup closes the socket and has no timer to clear;
      the close event then tests the token captured at login, still truthy, and schedules a
      reconnect; when it fires, a socket opens with the old token although the provider's
      token is now null. */
  lemma {:induction false} LogoutStillReconnects(app: App, env: Env, a: string, role: Option<string>)
    requires a != ""
    ensures var c0 := Mount(app, env, Some(a), role);
      var c1 := Step(c0, Opened(0));
      var c2 := Step(c1, TokenChanged(None, None));
      var c3 := Step(c2, SocketClosed(0));
      var c4 := Step(c3, TimerFired(0));
      c2.sockets[0].state == Closing && c3.timers == [Timer(a, Some(a), role, Pending)] &&
      c4.token.None? && c4.socketRef == Some(1) &&
      c4.sockets[1].state == Connecting && c4.sockets[1].accessToken == a
  {
    var c0 := Mount(app, env, Some(a), role);
    var c1 := Step(c0, Opened(0));
    var c2 := Step(c1, TokenChanged(None, None));
    assert c2.sockets[0].state == Closing;
    var c3 := Step(c2, SocketClosed(0));
    assert c3.timers == [Timer(a, Some(a), role, Pending)];
  }

  // ---------------------------------------------------------------------
  // The provider as written: refs and state setters updated in the handlers

  class WebSocketProvider {
    const app: App
    const env: Env
    var token: Option<string>
    var role: Option<string>
    var sockets: seq<Socket>
    var socketRef: Option<nat>
    var timers: seq<Timer>
    var reconnectRef: Option<nat>
    var isConnected: bool
    var lastEvent: Option<WsEvent>
    var toasts: seq<Toast>

    /** The provider's fields as one value. */
    function State(): Client
      reads this
    {
      Client(app, env, token, role, sockets, socketRef, timers, reconnectRef, isConnected, lastEvent, toasts)
    }

    ghost predicate Inv()
      reads this
    {
      Valid(State())
    }

    /** First render and the mount effect. */
    constructor(app: App, env: Env, token: Option<string>, role: Option<string>)
      ensures Inv() && State() == Mount(app, env, token, role)
    {
      this.app := app;
      this.env := env;
      this.token := token;
      this.role := role;
      sockets := [];
      socketRef := None;
      timers := [];
      reconnectRef := None;
      isConnected := false;
      lastEvent := None;
      toasts := [];
      new;
      if Truthy(token) {
        ConnectForUserNow(token.value, token, role);
      }
    }

    /** `if (socketRef.current) socketRef.current.close()`. */
    method CloseReferenced()
      requires Inv()
      modifies this
      ensures Inv() && State() == CloseRef(old(State()))
    {
      if socketRef.Some? {
        sockets := CloseSocket(sockets, socketRef.value);
      }
    }

    /** `connectForUser`, with the handlers capturing `token` and `role`. */
    method ConnectForUserNow(accessToken: string, token: Option<string>, role: Option<string>)
      requires Inv() && token == Some(accessToken)
      modifies this
      ensures Inv() && State() == ConnectForUser(old(State()), accessToken, token, role)
    {
      CloseReferenced();
      var ws := Socket(WsUrl(env, accessToken), accessToken, token, role, Connecting);
      sockets := sockets + [ws];
      socketRef := Some(|sockets| - 1);
    }

    /** `ws.onopen`. */
    method OnOpen(s: nat)
      requires Inv() && Enabled(State(), Opened(s))
      modifies this
      ensures Inv() && State() == Step(old(State()), Opened(s))
    {
      sockets := sockets[s := sockets[s].(state := Open)];
      isConnected := true;
    }

    /** `ws.onmessage`: a message that fails to parse is dropped. */
    method OnMessage(s: nat, message: Option<Message>, now: int)
      requires Inv() && Enabled(State(), Received(s, message, now))
      modifies this
      ensures Inv() && State() == Step(old(State()), Received(s, message, now))
    {
      if message.Some? {
        var m := message.value;
        lastEvent := Some(WsEvent(m.event, m.data, now));
        toasts := toasts + ToastsFor(app, sockets[s].role, m);
      }
    }

    /** `ws.onclose`. */
    method OnClose(s: nat)
      requires Inv() && Enabled(State(), SocketClosed(s))
      modifies this
      ensures Inv() && State() == Step(old(State()), SocketClosed(s))
    {
      var ws := sockets[s];
      sockets := sockets[s := ws.(state := Closed)];
      isConnected := false;
      socketRef := None;
      if Truthy(ws.token) {
        timers := timers + [Timer(ws.accessToken, ws.token, ws.role, Pending)];
        reconnectRef := Some(|timers| - 1);
      }
    }

    /** `ws.onerror`. */
    method OnError(s: nat)
      requires Inv() && Enabled(State(), SocketError(s))
      modifies this
      ensures Inv() && State() == Step(old(State()), SocketError(s))
    {
      sockets := CloseSocket(sockets, s);
    }

    /** The reconnect timer's callback. */
    method OnTimer(t: nat)
      requires Inv() && Enabled(State(), TimerFired(t))
      modifies this
      ensures Inv() && State() == Step(old(State()), TimerFired(t))
    {
      var timer := timers[t];
      timers := timers[t := timer.(state := Fired)];
      ConnectForUserNow(timer.accessToken, timer.token, timer.role);
    }

    /** The effect's cleanup function. */
    method CleanupNow()
      requires Inv()
      modifies this
      ensures Inv() && State() == Cleanup(old(State()))
    {
      CloseReferenced();
      if reconnectRef.Some? && timers[reconnectRef.value].state == Pending {
        var t := reconnectRef.value;
        timers := timers[t := timers[t].(state := Cleared)];
      }
    }

    /** A render with new auth state: the effect re-runs, after the cleanup, only when the
        token changed. */
    method SetAuth(newToken: Option<string>, newRole: Option<string>)
      requires Inv()
      modifies this
      ensures Inv() && State() == Step(old(State()), TokenChanged(newToken, newRole))
    {
      ghost var before := State();
      assert Step(before, TokenChanged(newToken, newRole)) ==
        if newToken == before.token then before.(role := newRole)
        else Effect(Cleanup(before).(token := newToken, role := newRole));
      if newToken == token {
        role := newRole;
        return;
      }
      CleanupNow();
      token := newToken;
      role := newRole;
      RunEffect();
    }

    /** The token effect's body, on the current render. */
    method RunEffect()
      requires Inv()
      modifies this
      ensures Inv() && State() == Effect(old(State()))
    {
      if Truthy(token) {
        ConnectForUserNow(token.value, token, role);
      } else {
        CloseReferenced();
      }
    }

    /** The provider unmounts: only the cleanup runs. */
    method Unmount()
      requires Inv()
      modifies this
      ensures Inv() && State() == Step(old(State()), Unmounted)
    {
      CleanupNow();
    }
  }
}
