/** The ESPHome UDP server component and its objects: the socket it owns,
    the reply context handed to triggers, the component itself (settings,
    registrations, lifecycle flags, `loop()` and `process_`) and the
    `on_string_data` trigger with its filter settings.

    Foreign calls are oracle parameters: network readiness and the result of
    `udp.begin` are booleans, what the socket reports for a pending datagram
    is a `Lifecycle.Poll`, and the results of `beginPacket` / `endPacket` are
    booleans given to `SendResponse`. Trigger bodies are user automations:
    each call is recorded in the ghost log `invocations`. */
module Udpserver {
  import opened Types
  import TextFilter
  import AllowList
  import DottedQuad
  import Dispatch
  import Lifecycle

  /** One datagram handed to the socket for sending. */
  datatype Sent = Sent(ip: string, port: uint16, data: string)

  /** The `WiFiUDP` socket. Only what the component can observe of it is
      modelled: the datagrams sent through it, and `read` filling a buffer. */
  class WiFiUdp {
    ghost var sent: seq<Sent>

    constructor ()
      ensures sent == []
    {
      sent := [];
    }

    /** `read(buffer, size)` for the datagram `p` reports: on success the
        first `len` octets of the buffer are the first `len` octets of the
        datagram. */
    method Read(buffer: array<byte>, size: nat, p: Lifecycle.Poll) returns (len: int)
      requires size <= buffer.Length
      modifies buffer
      ensures len == Lifecycle.ReadResult(p, size)
      ensures len > 0 ==> buffer[..len] == p.payload[..len]
    {
      len := Lifecycle.ReadResult(p, size);
      if len > 0 {
        forall i | 0 <= i < len {
          buffer[i] := p.payload[i];
        }
      }
    }
  }

  /** `UDPContext`: a reply capability bound to one sender. Its socket,
      address and port are fixed at construction. */
  class UDPContext {
    const udp: WiFiUdp?
    const remoteIp: string
    const remotePort: uint16

    constructor (udp: WiFiUdp?, ip: string, port: uint16)
      ensures this.udp == udp
      ensures GetRemoteIp() == ip && GetRemotePort() == port
    {
      this.udp := udp;
      remoteIp := ip;
      remotePort := port;
    }

    function GetRemoteIp(): string {
      remoteIp
    }

    function GetRemotePort(): uint16 {
      remotePort
    }

    /** `send_response(data)`: one attempt, no retry. Without a socket, or
        when `beginPacket` refuses, nothing is sent and the result is false;
        otherwise exactly `data` goes to the bound sender and the result is
        what `endPacket` returns. */
    method SendResponse(data: string, beginAccepted: bool, endResult: bool) returns (ok: bool)
      modifies udp
      ensures udp == null ==> !ok
      ensures udp != null && !beginAccepted ==> !ok && udp.sent == old(udp.sent)
      ensures udp != null && beginAccepted ==>
        ok == endResult && udp.sent == old(udp.sent) + [Sent(remoteIp, remotePort, data)]
    {
      if udp == null || !beginAccepted {
        return false;
      }
      udp.sent := udp.sent + [Sent(remoteIp, remotePort, data)];
      ok := endResult;
    }
  }

  /** The filters of the registered triggers, in registration order. */
  function FiltersOf(triggers: seq<OnStringDataTrigger>): (filters: seq<Dispatch.Filter>)
    reads triggers
    ensures |filters| == |triggers|
    ensures forall i :: 0 <= i < |triggers| ==>
      filters[i] == Dispatch.Filter(triggers[i].filterMode, triggers[i].textFilter)
  {
    if triggers == [] then []
    else [Dispatch.Filter(triggers[0].filterMode, triggers[0].textFilter)] + FiltersOf(triggers[1..])
  }

  /** `UdpserverComponent`. */
  class UdpserverComponent {
    var port: uint16
    const udp: WiFiUdp
    var stringTriggers: seq<OnStringDataTrigger>
    var allowedIps: seq<string>
    var allowAllIps: bool
    var udpInitialized: bool
    /** Set by `mark_failed()`; the scheduler then stops calling `loop()`. */
    var failed: bool
    /** The port passed to each call of `udp.begin`, oldest first. */
    ghost var beginPorts: seq<uint16>
    /** Every trigger invocation so far, oldest first. */
    ghost var invocations: seq<Dispatch.Invocation>

    function State(): Lifecycle.LifeState
      reads this
    {
      if failed then Lifecycle.Failed
      else if udpInitialized then Lifecycle.Bound
      else Lifecycle.Unbound
    }

    /** `begin` has been called exactly when the server has left Unbound,
        and the server is never both bound and failed. */
    ghost predicate Valid()
      reads this
    {
      !(failed && udpInitialized)
      && |beginPorts| == (if State() == Lifecycle.Unbound then 0 else 1)
    }

    function Filters(): seq<Dispatch.Filter>
      reads this, stringTriggers
    {
      FiltersOf(stringTriggers)
    }

    constructor ()
      ensures Valid() && State() == Lifecycle.Unbound
      ensures port == 8888 && allowAllIps && !udpInitialized && !failed
      ensures stringTriggers == [] && allowedIps == []
      ensures fresh(udp) && udp.sent == []
      ensures invocations == [] && beginPorts == []
    {
      port := 8888;
      udp := new WiFiUdp();
      stringTriggers := [];
      allowedIps := [];
      allowAllIps := true;
      udpInitialized := false;
      failed := false;
      beginPorts := [];
      invocations := [];
    }

    method SetListenPort(port: uint16)
      modifies this`port
      ensures this.port == port
    {
      this.port := port;
    }

    /** Appends, without looking for an earlier registration of `trigger`. */
    method AddStringTrigger(trigger: OnStringDataTrigger)
      modifies this`stringTriggers
      ensures stringTriggers == old(stringTriggers) + [trigger]
    {
      stringTriggers := stringTriggers + [trigger];
    }

    method AddAllowedIp(ip: string)
      modifies this`allowedIps
      ensures allowedIps == old(allowedIps) + [ip]
    {
      allowedIps := allowedIps + [ip];
    }

    method SetAllowAllIps(allow: bool)
      modifies this`allowAllIps
      ensures allowAllIps == allow
    {
      allowAllIps := allow;
    }

    function IsIpAllowed(ip: string): (allowed: bool)
      reads this
      ensures allowed <==> allowAllIps || allowedIps == [] || ip in allowedIps
    {
      AllowList.IsIpAllowed(allowAllIps, allowedIps, ip)
    }

    /** `process_(buf, len, remote_ip, remote_port)`: one reply context for
        the sender, the first `len` octets as text, and every registered
        trigger whose filter matches invoked in registration order. */
    method Process(buf: array<byte>, len: nat, remoteIp: string, remotePort: uint16)
      requires len <= buf.Length
      modifies this`invocations
      ensures invocations == old(invocations)
        + Dispatch.DispatchAll(Filters(), ToText(buf[..len]), remoteIp, remotePort)
    {
      var ctx := new UDPContext(udp, remoteIp, remotePort);
      var data := ToText(buf[..len]);
      ghost var filters := FiltersOf(stringTriggers);
      for i := 0 to |stringTriggers|
        invariant invocations == old(invocations)
          + Dispatch.DispatchPrefix(filters, i, data, remoteIp, remotePort)
      {
        var trigger := stringTriggers[i];
        if trigger.MatchesFilter(data) {
          invocations := invocations
            + [Dispatch.Invocation(i, data, ctx.GetRemoteIp(), ctx.GetRemotePort())];
        }
      }
      assert filters == Filters();
    }

    /** `loop()`. Until the socket is up it waits for the network and then
        calls `begin` once, failing the component if that fails. Once up it
        reads at most one datagram, clamped to `MAX_PACKET_SIZE` octets, and
        passes it to `process_` if the sender is allowed. */
    method Loop(networkReady: bool, beginOk: bool, poll: Lifecycle.Poll)
      requires Valid() && !failed
      modifies this`udpInitialized, this`failed, this`beginPorts, this`invocations
      ensures Valid()
      ensures State() == Lifecycle.Step(old(State()), networkReady, beginOk)
      ensures beginPorts == old(beginPorts)
        + (if Lifecycle.BeginCalls(old(State()), networkReady) == 1 then [port] else [])
      ensures invocations == old(invocations)
        + (if State() == Lifecycle.Bound
           then Lifecycle.Delivered(poll, allowAllIps, allowedIps, Filters())
           else [])
    {
      if !udpInitialized {
        if !networkReady {
          return;
        }
        beginPorts := beginPorts + [port];
        if !beginOk {
          failed := true;
          return;
        }
        udpInitialized := true;
      }
      Receive(poll);
    }

    /** The receive half of `loop()` on a bound socket: at most one datagram,
        read into a fresh buffer, its sender printed and checked against the
        allow-list, and the payload passed to `process_`. */
    method Receive(poll: Lifecycle.Poll)
      modifies this`invocations
      ensures invocations == old(invocations)
        + Lifecycle.Delivered(poll, allowAllIps, allowedIps, Filters())
    {
      var packetSize := poll.packetSize;
      if packetSize > 0 {
        if packetSize > Lifecycle.MAX_PACKET_SIZE {
          packetSize := Lifecycle.MAX_PACKET_SIZE;
        }
        var buffer := new byte[Lifecycle.RX_BUFFER_SIZE];
        var len := udp.Read(buffer, packetSize, poll);
        if len > 0 {
          buffer[len] := 0;
          var remoteIp := DottedQuad.RemoteIpString(poll.remoteAddr);
          if IsIpAllowed(remoteIp) {
            Process(buffer, len, remoteIp, poll.remotePort);
          }
        }
      }
    }

    /** One call from the scheduler: `loop()`, unless the component has been
        marked failed, in which case nothing happens. */
    method Tick(networkReady: bool, beginOk: bool, poll: Lifecycle.Poll)
      requires Valid()
      modifies this`udpInitialized, this`failed, this`beginPorts, this`invocations
      ensures Valid()
      ensures State() == Lifecycle.Step(old(State()), networkReady, beginOk)
      ensures beginPorts == old(beginPorts)
        + (if Lifecycle.BeginCalls(old(State()), networkReady) == 1 then [port] else [])
      ensures invocations == old(invocations)
        + (if State() == Lifecycle.Bound
           then Lifecycle.Delivered(poll, allowAllIps, allowedIps, Filters())
           else [])
    {
      if !failed {
        Loop(networkReady, beginOk, poll);
      }
    }
  }

  /** `OnStringDataTrigger`: a trigger with a text filter, registered with
      its parent component. */
  class OnStringDataTrigger {
    const parent: UdpserverComponent
    var textFilter: string
    var filterMode: string

    constructor (parent: UdpserverComponent)
      ensures this.parent == parent
      ensures textFilter == "" && filterMode == TextFilter.MODE_NONE
    {
      this.parent := parent;
      textFilter := "";
      filterMode := TextFilter.MODE_NONE;
    }

    /** `setup()`: registers this trigger with its parent. */
    method Setup()
      modifies parent`stringTriggers
      ensures parent.stringTriggers == old(parent.stringTriggers) + [this]
    {
      parent.AddStringTrigger(this);
    }

    method SetTextFilter(filter: string)
      modifies this`textFilter
      ensures textFilter == filter
    {
      textFilter := filter;
    }

    method SetFilterMode(mode: string)
      modifies this`filterMode
      ensures filterMode == mode
    {
      filterMode := mode;
    }

    function MatchesFilter(data: string): (m: bool)
      reads this
      ensures m <==> Dispatch.Fires(Dispatch.Filter(filterMode, textFilter), data)
      ensures filterMode == TextFilter.MODE_NONE || textFilter == [] ==> m
    {
      TextFilter.Matches(filterMode, textFilter, data)
    }
  }

  /** A client that configures a listen port: the socket is opened once,
      on that port, when the network comes up, and never again. */
  method ListenPortScenario(listenPort: uint16)
  {
    var server := new UdpserverComponent();
    server.SetListenPort(listenPort);
    var idle := Lifecycle.Poll(0, [], false, DottedQuad.IPv4(10, 0, 0, 5), 9000);
    server.Tick(false, true, idle);
    assert server.beginPorts == [];
    server.Tick(true, true, idle);
    assert server.State() == Lifecycle.Bound && server.beginPorts == [listenPort];
    server.Tick(true, true, idle);
    assert server.beginPorts == [listenPort];
  }

  /** A client of the component: one `equals "PING"` trigger, a tick while the
      network is down, a tick that binds the socket and receives `PING`, and
      the reply the trigger's automation sends through its context. */
  method PingPongScenario(ping: seq<byte>, port: uint16)
    requires ToText(ping) == "PING"
  {
    var server := new UdpserverComponent();
    var trigger := new OnStringDataTrigger(server);
    trigger.SetTextFilter("PING");
    trigger.SetFilterMode(TextFilter.MODE_EQUALS);
    trigger.Setup();
    var addr := DottedQuad.IPv4(10, 0, 0, 5);
    var idle := Lifecycle.Poll(0, [], false, addr, port);
    server.Tick(false, true, idle);
    assert server.State() == Lifecycle.Unbound && server.beginPorts == [];
    assert server.invocations == [];

    Lifecycle.PingScenario(ping, addr, port);
    DottedQuad.FormatExample();
    server.Tick(true, true, Lifecycle.Poll(|ping|, ping, false, addr, port));
    assert server.State() == Lifecycle.Bound && |server.beginPorts| == 1;
    assert server.Filters() == [Dispatch.Filter("equals", "PING")];
    assert server.invocations == [Dispatch.Invocation(0, "PING", "10.0.0.5", port)];

    var ctx := new UDPContext(server.udp, DottedQuad.RemoteIpString(addr), port);
    var ok := ctx.SendResponse("PONG", true, true);
    assert ok && server.udp.sent == [Sent("10.0.0.5", port, "PONG")];
  }
}
