/** The specification side of `UdpserverComponent::loop()`: the socket
    lifecycle as a three-state machine, and what one receive step hands to
    the triggers given what the socket reports. The imperative `loop()` in
    module Udpserver is proved against these functions. */
module Lifecycle {
  import opened Types
  import DottedQuad
  import AllowList
  import Dispatch
  import TextFilter

  /** Largest payload one receive step reads (`MAX_PACKET_SIZE`). */
  const MAX_PACKET_SIZE := 1400

  /** `uint8_t buffer[MAX_PACKET_SIZE]` as the source declares it. */
  const BUFFER_SIZE_AS_WRITTEN := MAX_PACKET_SIZE

  /** The receive buffer of the model: one more octet, for the NUL written
      after a full read. */
  const RX_BUFFER_SIZE := MAX_PACKET_SIZE + 1

  /** Unbound: `udp_initialized_` false and not failed. Bound:
      `udp_initialized_` true. Failed: `mark_failed()` was called. */
  datatype LifeState = Unbound | Bound | Failed

  /** The state after one scheduler tick, given the network readiness the
      tick observes and what `udp.begin(port_)` would return. */
  function Step(s: LifeState, networkReady: bool, beginOk: bool): (t: LifeState)
    ensures s != Unbound ==> t == s
    ensures t == Unbound <==> s == Unbound && !networkReady
    ensures s == Unbound && networkReady ==> (t == Bound <==> beginOk)
  {
    match s
    case Unbound => if !networkReady then Unbound else if beginOk then Bound else Failed
    case Bound => Bound
    case Failed => Failed
  }

  /** How many times one tick calls `udp.begin`. */
  function BeginCalls(s: LifeState, networkReady: bool): (n: nat)
    ensures n <= 1
    ensures n == 1 ==> Step(s, networkReady, true) == Bound && Step(s, networkReady, false) == Failed
    ensures n == 0 ==> Step(s, networkReady, true) == s && Step(s, networkReady, false) == s
  {
    if s == Unbound && networkReady then 1 else 0
  }

  /** The oracle answers seen by one tick. */
  datatype TickInput = TickInput(networkReady: bool, beginOk: bool)

  /** The state after a run of ticks. */
  function Run(s: LifeState, ticks: seq<TickInput>): (t: LifeState)
    decreases |ticks|
    ensures t == Unbound ==> s == Unbound
  {
    if ticks == [] then s else Run(Step(s, ticks[0].networkReady, ticks[0].beginOk), ticks[1..])
  }

  /** How many times a run of ticks calls `udp.begin`. */
  function RunBeginCalls(s: LifeState, ticks: seq<TickInput>): (n: nat)
    decreases |ticks|
    ensures s != Unbound ==> n == 0
  {
    if ticks == [] then 0
    else BeginCalls(s, ticks[0].networkReady)
         + RunBeginCalls(Step(s, ticks[0].networkReady, ticks[0].beginOk), ticks[1..])
  }

  /** However the network and the socket behave, `begin` is called at most
      once over the life of the component, and never again once it has been
      called. */
  lemma {:induction false} BeginAtMostOnce(s: LifeState, ticks: seq<TickInput>)
    ensures RunBeginCalls(s, ticks) <= (if s == Unbound then 1 else 0)
    decreases |ticks|
  {
    if ticks != [] {
      var t := ticks[0];
      BeginAtMostOnce(Step(s, t.networkReady, t.beginOk), ticks[1..]);
    }
  }

  /** No tick leaves Failed or Bound. */
  lemma {:induction false} SettledStatesStay(s: LifeState, ticks: seq<TickInput>)
    requires s != Unbound
    ensures Run(s, ticks) == s
  {
    if ticks != [] {
      SettledStatesStay(s, ticks[1..]);
    }
  }

  /** While the network is down nothing happens: no `begin`, no change of
      state. */
  lemma {:induction false} WaitsForNetwork(ticks: seq<TickInput>)
    requires forall i :: 0 <= i < |ticks| ==> !ticks[i].networkReady
    ensures Run(Unbound, ticks) == Unbound
    ensures RunBeginCalls(Unbound, ticks) == 0
  {
    if ticks != [] {
      WaitsForNetwork(ticks[1..]);
    }
  }

  /** A run ends Bound exactly when, at the first tick that sees the network
      up, `begin` succeeds. */
  lemma {:induction false} BoundIffFirstBeginSucceeds(ticks: seq<TickInput>)
    ensures Run(Unbound, ticks) == Bound <==>
      exists k :: 0 <= k < |ticks| && ticks[k].networkReady && ticks[k].beginOk
        && forall j :: 0 <= j < k ==> !ticks[j].networkReady
  {
    if ticks != [] {
      var t := ticks[0];
      if !t.networkReady {
        BoundIffFirstBeginSucceeds(ticks[1..]);
        if Run(Unbound, ticks) == Bound {
          var k :| 0 <= k < |ticks[1..]| && ticks[1..][k].networkReady && ticks[1..][k].beginOk
            && forall j :: 0 <= j < k ==> !ticks[1..][j].networkReady;
          assert ticks[k + 1] == ticks[1..][k];
          assert forall j :: 0 <= j < k + 1 ==> !ticks[j].networkReady by {
            forall j | 0 < j < k + 1 ensures !ticks[j].networkReady {
              assert ticks[j] == ticks[1..][j - 1];
            }
          }
        } else {
          forall k | 0 <= k < |ticks| && ticks[k].networkReady && ticks[k].beginOk
            ensures exists j :: 0 <= j < k && ticks[j].networkReady
          {
            assert k > 0;
            assert ticks[1..][k - 1] == ticks[k];
            var j :| 0 <= j < k - 1 && ticks[1..][j].networkReady;
            assert ticks[j + 1] == ticks[1..][j];
          }
        }
      } else {
        SettledStatesStay(Step(Unbound, t.networkReady, t.beginOk), ticks[1..]);
        if t.beginOk {
          assert ticks[0].networkReady && ticks[0].beginOk;
        }
      }
    }
  }

  /** What the socket reports during one tick: `parsePacket()`, the bytes of
      the pending datagram that `read` copies out, whether `read` fails, and
      `remoteIP()` / `remotePort()`. */
  datatype Poll = Poll(packetSize: int, payload: seq<byte>, readFails: bool,
                       remoteAddr: DottedQuad.IPv4, remotePort: uint16)

  /** The size `loop()` asks `read` for: the reported size, lowered to
      `MAX_PACKET_SIZE`. */
  function RequestedSize(packetSize: int): (size: int)
    requires packetSize > 0
    ensures 0 < size <= MAX_PACKET_SIZE
    ensures size == packetSize || (packetSize > MAX_PACKET_SIZE && size == MAX_PACKET_SIZE)
  {
    if packetSize > MAX_PACKET_SIZE then MAX_PACKET_SIZE else packetSize
  }

  /** `udp.read(buffer, size)`: -1 on failure, otherwise the number of
      datagram bytes copied, at most `size`. */
  function ReadResult(p: Poll, size: nat): (len: int)
    ensures len <= size && len <= |p.payload|
    ensures p.readFails <==> len < 0
  {
    if p.readFails then -1 else if |p.payload| < size then |p.payload| else size
  }

  /** The payload one receive step passes on, if any: nothing when no
      packet is pending or the read yields no byte, otherwise the first
      `len` bytes of the datagram. */
  function Received(p: Poll): (r: Option<seq<byte>>)
    ensures r.Some? ==> p.packetSize > 0 && 0 < |r.value| <= MAX_PACKET_SIZE
    ensures r.Some? ==> |r.value| <= |p.payload| && r.value == p.payload[..|r.value|]
    ensures r.Some? <==> p.packetSize > 0 && !p.readFails && p.payload != []
    ensures r.Some? ==> p.packetSize > 0 && |r.value| == ReadResult(p, RequestedSize(p.packetSize))
  {
    if p.packetSize <= 0 then None
    else
      var len := ReadResult(p, RequestedSize(p.packetSize));
      if len <= 0 then None else Some(p.payload[..len])
  }

  /** The trigger invocations one receive step of a bound server makes. */
  function Delivered(p: Poll, allowAll: bool, allowedIps: seq<string>, filters: seq<Dispatch.Filter>): (r: seq<Dispatch.Invocation>)
    ensures |r| <= |filters|
    ensures r != [] ==>
      Received(p).Some? && AllowList.IsIpAllowed(allowAll, allowedIps, DottedQuad.Format(p.remoteAddr))
  {
    match Received(p)
    case None => []
    case Some(bytes) =>
      var ip := DottedQuad.RemoteIpString(p.remoteAddr);
      if AllowList.IsIpAllowed(allowAll, allowedIps, ip)
      then Dispatch.DispatchAll(filters, ToText(bytes), ip, p.remotePort)
      else []
  }

  /** An oversized datagram is cut to `MAX_PACKET_SIZE` bytes and still
      passed on, not dropped. */
  lemma OversizedIsTruncated(p: Poll)
    requires p.packetSize > MAX_PACKET_SIZE && !p.readFails && |p.payload| >= MAX_PACKET_SIZE
    ensures Received(p) == Some(p.payload[..MAX_PACKET_SIZE])
  {
  }

  /** A datagram that fits in `MAX_PACKET_SIZE` octets and is read in full
      is passed on whole. */
  lemma SmallDatagramArrivesWhole(p: Poll)
    requires 0 < p.packetSize <= MAX_PACKET_SIZE && |p.payload| == p.packetSize && !p.readFails
    ensures Received(p) == Some(p.payload)
  {
    assert p.payload[..|p.payload|] == p.payload;
  }

  /** No pending packet, a failed read or an empty read reaches no trigger. */
  lemma NothingWithoutPayload(p: Poll, allowAll: bool, allowedIps: seq<string>, filters: seq<Dispatch.Filter>)
    requires p.packetSize <= 0 || p.readFails || p.payload == []
    ensures Delivered(p, allowAll, allowedIps, filters) == []
  {
  }

  /** A sender the allow-list refuses reaches no trigger. */
  lemma RejectedSenderReachesNoTrigger(p: Poll, allowAll: bool, allowedIps: seq<string>, filters: seq<Dispatch.Filter>)
    requires !AllowList.IsIpAllowed(allowAll, allowedIps, DottedQuad.Format(p.remoteAddr))
    ensures Delivered(p, allowAll, allowedIps, filters) == []
  {
  }

  /** An accepted payload from an accepted sender goes to the dispatcher with
      the sender's full dotted-quad address. */
  lemma AcceptedPacketIsDispatched(p: Poll, allowAll: bool, allowedIps: seq<string>, filters: seq<Dispatch.Filter>)
    requires Received(p).Some?
    requires AllowList.IsIpAllowed(allowAll, allowedIps, DottedQuad.Format(p.remoteAddr))
    ensures Delivered(p, allowAll, allowedIps, filters)
      == Dispatch.DispatchAll(filters, ToText(Received(p).value), DottedQuad.Format(p.remoteAddr), p.remotePort)
  {
  }

  /** The terminator `buffer[len] = '\0'` stays inside a buffer of
      `bufferSize` octets. */
  predicate TerminatorInBounds(bufferSize: nat, len: int) {
    0 <= len < bufferSize
  }

  /** As written, a datagram of at least `MAX_PACKET_SIZE` bytes makes `read`
      return 1400, and the terminator lands one past the end of the
      1400-octet buffer. */
  lemma TerminatorOverrunsAsWritten()
    ensures var p := Poll(1500, seq(1500, _ => 0x41), false, DottedQuad.IPv4(10, 0, 0, 5), 9000);
      && Received(p).Some?
      && ReadResult(p, RequestedSize(p.packetSize)) == MAX_PACKET_SIZE
      && !TerminatorInBounds(BUFFER_SIZE_AS_WRITTEN, ReadResult(p, RequestedSize(p.packetSize)))
  {
  }

  /** With one more octet the terminator always fits. */
  lemma TerminatorFits(p: Poll)
    requires Received(p).Some?
    ensures TerminatorInBounds(RX_BUFFER_SIZE, |Received(p).value|)
  {
  }

  /** The allow-list and filter scenario: a `contains "ON"` trigger behind
      an allow-list of `10.0.0.5` sees `LIGHT ON` from that host. */
  lemma ListedSenderScenario(payload: seq<byte>, port: uint16)
    requires ToText(payload) == "LIGHT ON"
    ensures Delivered(Poll(|payload|, payload, false, DottedQuad.IPv4(10, 0, 0, 5), port),
                      false, ["10.0.0.5"], [Dispatch.Filter("contains", "ON")])
            == [Dispatch.Invocation(0, "LIGHT ON", "10.0.0.5", port)]
  {
    var filters := [Dispatch.Filter("contains", "ON")];
    var p := Poll(|payload|, payload, false, DottedQuad.IPv4(10, 0, 0, 5), port);
    assert |payload| == 8;
    assert Received(p) == Some(payload) by {
      assert ReadResult(p, RequestedSize(8)) == 8;
      assert payload[..8] == payload;
    }
    assert DottedQuad.Format(p.remoteAddr) == "10.0.0.5" by {
      DottedQuad.FormatExample();
    }
    assert AllowList.IsIpAllowed(false, ["10.0.0.5"], "10.0.0.5") by {
      AllowList.AllowListExamples();
    }
    AcceptedPacketIsDispatched(p, false, ["10.0.0.5"], filters);
    ContainsOn();
    Dispatch.SingleTrigger(filters[0], "LIGHT ON", "10.0.0.5", port);
  }

  /** The same packet from `10.0.0.9` reaches no trigger. */
  lemma UnlistedSenderScenario(payload: seq<byte>, port: uint16)
    ensures Delivered(Poll(|payload|, payload, false, DottedQuad.IPv4(10, 0, 0, 9), port),
                      false, ["10.0.0.5"], [Dispatch.Filter("contains", "ON")])
            == []
  {
    var other := DottedQuad.IPv4(10, 0, 0, 9);
    assert DottedQuad.Format(other) == "10.0.0.9" by {
      assert DottedQuad.Decimal(10) == "10";
    }
    AllowList.AllowListExamples();
    RejectedSenderReachesNoTrigger(Poll(|payload|, payload, false, other, port), false, ["10.0.0.5"], [Dispatch.Filter("contains", "ON")]);
  }

  /** The request-reply scenario: an `equals "PING"` trigger sees a `PING`
      payload, with the sender it may reply to. */
  lemma PingScenario(ping: seq<byte>, addr: DottedQuad.IPv4, port: uint16)
    requires ToText(ping) == "PING"
    ensures Delivered(Poll(|ping|, ping, false, addr, port), true, [], [Dispatch.Filter("equals", "PING")])
            == [Dispatch.Invocation(0, "PING", DottedQuad.Format(addr), port)]
  {
    var filters := [Dispatch.Filter("equals", "PING")];
    var p := Poll(|ping|, ping, false, addr, port);
    assert Received(p) == Some(ping) by {
      assert ping[..|ping|] == ping;
    }
    AcceptedPacketIsDispatched(p, true, [], filters);
    Dispatch.SingleTrigger(filters[0], "PING", DottedQuad.Format(addr), port);
  }

  /** ... and does not see `PINGX`. */
  lemma PingxScenario(pingx: seq<byte>, addr: DottedQuad.IPv4, port: uint16)
    requires ToText(pingx) == "PINGX"
    ensures Delivered(Poll(|pingx|, pingx, false, addr, port), true, [], [Dispatch.Filter("equals", "PING")])
            == []
  {
    var filters := [Dispatch.Filter("equals", "PING")];
    var q := Poll(|pingx|, pingx, false, addr, port);
    assert |pingx| == 5;
    assert Received(q) == Some(pingx) by {
      assert pingx[..|pingx|] == pingx;
    }
    AcceptedPacketIsDispatched(q, true, [], filters);
    PingRejectsPingx(DottedQuad.Format(addr), port);
  }

  lemma PingRejectsPingx(ip: string, port: uint16)
    ensures Dispatch.DispatchAll([Dispatch.Filter("equals", "PING")], "PINGX", ip, port) == []
  {
    var filters := [Dispatch.Filter("equals", "PING")];
    assert |"PINGX"| != |"PING"|;
    assert !Dispatch.Fires(filters[0], "PINGX");
    Dispatch.NoMatchNoInvocation(filters, 1, "PINGX", ip, port);
  }

  lemma ContainsOn()
    ensures Dispatch.Fires(Dispatch.Filter("contains", "ON"), "LIGHT ON")
  {
    TextFilter.ContainsIffSubstring("ON", "LIGHT ON");
    assert TextFilter.OccursAt("ON", "LIGHT ON", 6);
  }
}
