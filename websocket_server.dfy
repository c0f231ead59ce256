/** The chat endpoint: a registry shared by all connections (the map from
    user id to that user's connections and the online counter), and one
    `Connection` per accepted socket holding its user id, whether its session
    is open and the state of its heartbeat. Everything a connection sends is
    appended to a `Transport` log, so that who received what, and in which
    order, can be stated. */
module WebSocketServer {
  import opened StringUtils
  import opened ConnectionTable

  datatype Option<T> = None | Some(value: T)

  /** A parsed JSON object: field name to field value. */
  type Envelope = map<string, string>

  const FromUserId: string := "fromUserId"
  const ToUserId: string := "toUserId"
  /** The greeting sent on open ("connection established"). */
  const ConnectedNotice: string := "\U{8FDE}\U{63A5}\U{6210}\U{529F}"
  const HeartbeatText: string := "heartbeat"

  /** What is handed to the session: plain text, or an envelope that the
      session serialises as JSON. */
  datatype Payload = Text(text: string) | Json(envelope: Envelope)

  /** One message emitted on a connection's session. */
  datatype Sent = Sent(to: Connection, payload: Payload)

  /** The heartbeat scheduler: not yet created, running, or shut down. */
  datatype Heartbeat = Idle | Running | Shutdown

  /** stopHeartbeat: only a running scheduler is shut down; a missing or an
      already shut down one is left as it is. */
  function Stop(h: Heartbeat): (r: Heartbeat)
    ensures r != Running
    ensures h.Running? <==> r != h
    ensures h.Running? ==> r == Shutdown
  {
    if h.Running? then Shutdown else h
  }

  /** The envelope that onMessage forwards: the sender's own user id in
      `fromUserId`, whatever the client put there, and every other field as
      the client sent it. */
  function Stamp(env: Envelope, sender: string): (r: Envelope)
    ensures FromUserId in r && r[FromUserId] == sender
    ensures r.Keys == env.Keys + {FromUserId}
    ensures forall k :: k in env && k != FromUserId ==> r[k] == env[k]
  {
    env[FromUserId := sender]
  }

  /** The connections onMessage sends to: those of the envelope's
      `toUserId`, none when that field is missing, blank or unregistered. */
  function Destination(env: Envelope, t: Table<Connection>): (cs: seq<Connection>)
    ensures cs != [] ==> ToUserId in env && env[ToUserId] in t.webSocketMap && cs == t.webSocketMap[env[ToUserId]]
    ensures ToUserId !in env || IsBlank(env[ToUserId]) || env[ToUserId] !in t.webSocketMap ==> cs == []
    ensures ToUserId in env && !IsBlank(env[ToUserId]) && env[ToUserId] in t.webSocketMap ==>
      cs == t.webSocketMap[env[ToUserId]]
  {
    if ToUserId in env then Lookup(t, env[ToUserId]) else []
  }

  /** What sending `p` to each of `cs` in turn puts on the wire: one message
      per open connection, in list order; a closed one is skipped. */
  function Emitted(cs: seq<Connection>, p: Payload): (r: seq<Sent>)
    reads cs
    ensures |r| <= |cs|
    decreases |cs|
  {
    if cs == [] then []
    else (if cs[0].open then [Sent(cs[0], p)] else []) + Emitted(cs[1..], p)
  }

  /** Only the listed open connections receive anything, they receive `p`,
      and every one of them does: a closed connection does not stop the
      others. */
  lemma {:induction false} EmittedRecipients(cs: seq<Connection>, p: Payload)
    ensures forall e :: e in Emitted(cs, p) ==> e.to in cs && e.to.open && e.payload == p
    ensures forall c :: c in cs && c.open ==> Sent(c, p) in Emitted(cs, p)
    decreases |cs|
  {
    if cs != [] {
      EmittedRecipients(cs[1..], p);
      assert cs == [cs[0]] + cs[1..];
    }
  }

  /** Each open connection receives the payload once per occurrence in the
      list, a closed one never. */
  lemma {:induction false} EmittedCount(cs: seq<Connection>, p: Payload, c: Connection)
    ensures multiset(Emitted(cs, p))[Sent(c, p)] == if c.open then multiset(cs)[c] else 0
    decreases |cs|
  {
    if cs != [] {
      EmittedCount(cs[1..], p, c);
      assert cs == [cs[0]] + cs[1..];
    }
  }

  /** The fan-out loop of onMessage and sendInfo: `sendMessage` to every
      connection of the list, in order. */
  method FanOut(cs: seq<Connection>, p: Payload, net: Transport)
    modifies net
    ensures net.log == old(net.log + Emitted(cs, p))
  {
    for i := 0 to |cs|
      invariant net.log + old(Emitted(cs[i..], p)) == old(net.log + Emitted(cs, p))
    {
      assert cs[i..][1..] == cs[i + 1..];
      cs[i].SendMessage(p, net);
    }
  }

  /** The sessions' outgoing side: every message emitted, in order. */
  class Transport {
    var log: seq<Sent>

    constructor ()
      ensures log == []
    {
      log := [];
    }
  }

  /** The state the endpoint class keeps in static fields. */
  class Registry {
    var webSocketMap: map<string, seq<Connection>>
    var onlineCount: int

    function View(): Table<Connection>
      reads this
    {
      Table(webSocketMap, onlineCount)
    }

    ghost predicate Valid()
      reads this
    {
      Consistent(View())
    }

    constructor ()
      ensures Valid() && View() == Initial()
    {
      webSocketMap := map[];
      onlineCount := 0;
    }

    /** getOnlineCount: the number of users with at least one connection. */
    function GetOnlineCount(): (n: int)
      reads this
      requires Valid()
      ensures n == |webSocketMap.Keys| && n >= 0
    {
      onlineCount
    }

    method AddOnlineCount()
      modifies this`onlineCount
      ensures onlineCount == old(onlineCount) + 1
    {
      onlineCount := onlineCount + 1;
    }

    method SubOnlineCount()
      modifies this`onlineCount
      ensures onlineCount == old(onlineCount) - 1
    {
      onlineCount := onlineCount - 1;
    }

    /** The registry half of onOpen. */
    method Register(userId: string, c: Connection)
      requires Valid()
      modifies this
      ensures Valid()
      ensures View() == Open(old(View()), userId, c)
    {
      OpenConsistent(View(), userId, c);
      if userId in webSocketMap {
        webSocketMap := webSocketMap[userId := webSocketMap[userId] + [c]];
      } else {
        webSocketMap := webSocketMap[userId := [c]];
        AddOnlineCount();
      }
    }

    /** The registry half of onClose. */
    method Unregister(userId: string, c: Connection)
      requires Valid()
      modifies this
      ensures Valid()
      ensures View() == Close(old(View()), userId, c)
    {
      CloseConsistent(View(), userId, c);
      if userId in webSocketMap {
        var list := RemoveFirst(webSocketMap[userId], c);
        if list == [] {
          webSocketMap := webSocketMap - {userId};
          SubOnlineCount();
        } else {
          webSocketMap := webSocketMap[userId := list];
        }
      }
    }

    /** sendInfo: a server-originated text to every connection of `userId`;
        nothing when the id is blank or not registered. */
    method SendInfo(message: string, userId: string, net: Transport)
      modifies net
      ensures net.log == old(net.log + Emitted(Lookup(View(), userId), Text(message)))
    {
      if !IsBlank(userId) && userId in webSocketMap {
        FanOut(webSocketMap[userId], Text(message), net);
      }
    }
  }

  /** One endpoint instance: one accepted socket. */
  class Connection {
    /** Whether the session is open; the transport clears it when the peer goes away. */
    var open: bool
    var userId: string
    var heartbeat: Heartbeat

    constructor ()
      ensures !open && userId == "" && heartbeat == Idle
    {
      open := false;
      userId := "";
      heartbeat := Idle;
    }

    /** sendMessage: emitted only while the session is open; on a closed
        session nothing is sent and nothing fails. */
    method SendMessage(p: Payload, net: Transport)
      modifies net
      ensures net.log == old(net.log) + if open then [Sent(this, p)] else []
    {
      if open {
        net.log := net.log + [Sent(this, p)];
      }
    }

    method StartHeartbeat()
      modifies this`heartbeat
      ensures heartbeat == Running
    {
      heartbeat := Running;
    }

    method StopHeartbeat()
      modifies this`heartbeat
      ensures heartbeat == Stop(old(heartbeat))
    {
      if heartbeat.Running? {
        heartbeat := Shutdown;
      }
    }

    /** One run of the scheduled heartbeat task (the scheduler only runs it
        while running). */
    method HeartbeatTick(net: Transport)
      requires heartbeat == Running
      modifies this`heartbeat, net
      ensures open ==> heartbeat == Running && net.log == old(net.log) + [Sent(this, Text(HeartbeatText))]
      ensures !open ==> heartbeat == Shutdown && net.log == old(net.log)
    {
      if open {
        SendMessage(Text(HeartbeatText), net);
      } else {
        StopHeartbeat();
      }
    }

    /** onOpen: bind the session and the user id, register, greet, and start
        the heartbeat. */
    method OnOpen(sessionOpen: bool, userId: string, reg: Registry, net: Transport)
      requires reg.Valid()
      modifies this, reg, net
      ensures reg.Valid()
      ensures open == sessionOpen && this.userId == userId && heartbeat == Running
      ensures reg.View() == Open(old(reg.View()), userId, this)
      ensures net.log == old(net.log) + if sessionOpen then [Sent(this, Text(ConnectedNotice))] else []
    {
      this.open := sessionOpen;
      this.userId := userId;
      reg.Register(userId, this);
      SendMessage(Text(ConnectedNotice), net);
      StartHeartbeat();
    }

    /** onClose: unregister under this connection's own user id, then stop
        the heartbeat. */
    method OnClose(reg: Registry)
      requires reg.Valid()
      modifies reg, this`heartbeat
      ensures reg.Valid()
      ensures reg.View() == Close(old(reg.View()), userId, this)
      ensures heartbeat == Stop(old(heartbeat))
    {
      reg.Unregister(userId, this);
      StopHeartbeat();
    }

    /** onMessage: `parsed` is what the JSON parser made of `message`, None
        when it failed (the failure is caught and nothing is sent). */
    method OnMessage(message: string, parsed: Option<Envelope>, reg: Registry, net: Transport)
      modifies net
      ensures IsBlank(message) || parsed.None? ==> net.log == old(net.log)
      ensures !IsBlank(message) && parsed.Some? ==>
        net.log == old(net.log + Emitted(Destination(parsed.value, reg.View()), Json(Stamp(parsed.value, userId))))
    {
      if !IsBlank(message) {
        match parsed
        case None =>
        case Some(env) =>
          var json := env[FromUserId := userId];
          var toUserId := if ToUserId in json then Some(json[ToUserId]) else None;
          if toUserId.Some? && !IsBlank(toUserId.value) && toUserId.value in reg.webSocketMap {
            FanOut(reg.webSocketMap[toUserId.value], Json(json), net);
          }
      }
    }

    /** onError: stops the heartbeat and nothing else; the connection stays
        registered. */
    method OnError()
      modifies this`heartbeat
      ensures heartbeat == Stop(old(heartbeat))
    {
      StopHeartbeat();
    }
  }
}
