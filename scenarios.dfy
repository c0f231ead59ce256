/** Clients of the endpoint: what can be concluded from the contracts alone. */
module Scenarios {
  import opened StringUtils
  import opened ConnectionTable
  import opened WebSocketServer

  /** Two connections for "u1" and one for "u2": two users are online. */
  method OpenScenario() {
    var reg := new Registry();
    var net := new Transport();
    var a := new Connection();
    var b := new Connection();
    var c := new Connection();
    a.OnOpen(true, "u1", reg, net);
    b.OnOpen(true, "u1", reg, net);
    c.OnOpen(true, "u2", reg, net);
    assert reg.webSocketMap["u1"] == [a, b];
    assert reg.GetOnlineCount() == 2;
  }

  /** From the registry OpenScenario leaves, closing the "u1" connections one
      by one takes "u1" offline only after the second. */
  method CloseScenario() {
    var reg := new Registry();
    var a := new Connection();
    var b := new Connection();
    var c := new Connection();
    a.userId, b.userId := "u1", "u1";
    reg.webSocketMap, reg.onlineCount := map["u1" := [a, b], "u2" := [c]], 2;
    a.OnClose(reg);
    assert reg.webSocketMap["u1"] == [b];
    assert reg.GetOnlineCount() == 2;
    b.OnClose(reg);
    assert "u1" !in reg.webSocketMap;
    assert reg.GetOnlineCount() == 1;
  }

  /** With the registry OpenScenario leaves, a message from the "u2"
      connection to "u1", with a spoofed sender, reaches both "u1"
      connections stamped with "u2", and nothing else. */
  method RoutingScenario(reg: Registry, net: Transport, a: Connection, b: Connection, c: Connection)
    requires a.open && b.open && c.userId == "u2"
    requires reg.webSocketMap == map["u1" := [a, b], "u2" := [c]]
    modifies net
  {
    var before := net.log;
    var env: Envelope := map["toUserId" := "u1", "fromUserId" := "attacker"];
    var forwarded := Json(Stamp(env, "u2"));
    assert "u1"[0] == 'u' && !IsWhitespace("u1"[0]);
    assert Destination(env, reg.View()) == [a, b];
    assert [a, b][1..] == [b] && [b][1..] == [];
    var message := "{}";
    assert message[0] == '{' && !IsWhitespace(message[0]);
    c.OnMessage(message, Some(env), reg, net);
    assert net.log == before + [Sent(a, forwarded), Sent(b, forwarded)];
  }

  /** A message to a user with no connections sends nothing. */
  method OfflineScenario() {
    var reg := new Registry();
    var net := new Transport();
    var c := new Connection();
    c.OnOpen(true, "u2", reg, net);
    var before := net.log;
    c.OnMessage("{}", Some(map["toUserId" := "u1"]), reg, net);
    assert net.log == before;
  }

  /** A heartbeat on an open session emits "heartbeat"; once the session is
      closed the next tick shuts the heartbeat down, and stopping it again
      changes nothing. */
  method HeartbeatScenario() {
    var reg := new Registry();
    var net := new Transport();
    var a := new Connection();
    a.OnOpen(true, "u1", reg, net);
    var before := net.log;
    a.HeartbeatTick(net);
    assert net.log == before + [Sent(a, Text(HeartbeatText))];
    a.open := false;
    a.HeartbeatTick(net);
    assert a.heartbeat == Shutdown;
    a.OnClose(reg);
    assert a.heartbeat == Shutdown;
    assert reg.GetOnlineCount() == 0;
  }
}
