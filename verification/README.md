# esphome-udpserver in Dafny

A model of the C++ core of the ESPHome `udpserver` component. The component is a single-threaded UDP server. It waits for the network, binds a `WiFiUDP` socket once, and then reads at most one datagram per scheduler tick. The read is clamped to `MAX_PACKET_SIZE` (1400) octets. The sender's address is printed as a dotted quad and checked against an allow-list. An accepted payload goes to every `on_string_data` trigger whose text filter matches. Each such trigger gets a `UDPContext` through which it can answer the sender.

Modules:

- `Types` holds octets, 16-bit ports, `Option`, and the octet-to-character view of a payload.
- `TextFilter` models `OnStringDataTrigger::matches_filter`. It includes the `find` / `rfind` / `compare` searches the filter uses. These are proved against plain definitions of substring, prefix and suffix.
- `AllowList` models `is_ip_allowed`.
- `DottedQuad` models the `snprintf("%d.%d.%d.%d")` of the sender's address into a 16-character buffer. Its partner is a parser that reads the text back.
- `Dispatch` is the specification of `process_`: which triggers are invoked, in which order, and with what.
- `Lifecycle` is the specification of `loop()`. It is a three-state socket lifecycle (Unbound, Bound, Failed) plus what one receive step delivers, given what the socket reports.
- `Udpserver` holds the objects as classes:
  - `WiFiUdp`, with a ghost log of sent datagrams and an in-place `read`;
  - `UDPContext`;
  - `UdpserverComponent`, with its fields, setters, `process_` (a loop over the registered triggers), `loop()` and the scheduler tick;
  - `OnStringDataTrigger`.
  `Process`, `Receive`, `Loop` and `Tick` are proved against the functions of `Dispatch` and `Lifecycle`. The constructors, setters, `Setup` and `SendResponse` state the new field values and the send log directly.

The socket, the network and the trigger bodies are foreign to the component. They are modelled as follows:

- Network readiness and the result of `udp.begin` are boolean parameters of each tick.
- What `parsePacket`, `read`, `remoteIP` and `remotePort` report is one `Lifecycle.Poll` value per tick. `read` returns -1 when it fails, and otherwise the smaller of the requested size and the datagram's length.
- The results of `beginPacket` and `endPacket` are parameters of `SendResponse`.
- A trigger invocation is recorded in the ghost log `invocations` and does nothing else.

## Model

All source paths are under `components/udpserver/`. The header is `udpserver_component.h` and the implementation is `udpserver_component.cpp`.

| member | source | states |
|---|---|---|
| Types.ToText | components/udpserver/udpserver_component.cpp:45 | `std::string data_str((char*)buf, len)`: the text has one character per octet, each with that octet's value |
| Types.ToTextInjective | components/udpserver/udpserver_component.cpp:45 | two payloads give the same text only if they are the same octets, so filters see payloads without loss |
| TextFilter.Find | components/udpserver/udpserver_component.cpp:64 | `find` returns the lowest index at or after the start where the pattern occurs, or `npos` when it occurs nowhere there |
| TextFilter.RFind | components/udpserver/udpserver_component.cpp:72 | `rfind(p, pos)` returns the highest index at or before `pos` where the pattern occurs, or `npos` when there is none |
| TextFilter.LexCompare | components/udpserver/udpserver_component.cpp:80-81 | the sign of `compare`'s result, as -1, 0 or 1 |
| TextFilter.Compare | components/udpserver/udpserver_component.cpp:80-81 | `compare(pos, n, p)` is 0 exactly when the at most `n` characters from `pos` equal `p` |
| TextFilter.Matches | components/udpserver/udpserver_component.cpp:56-97 | `matches_filter`: mode `none` or an empty pattern always matches, and a rejection only ever comes from one of the known modes; each mode's meaning is stated by the five lemmas below |
| TextFilter.LexCompareZeroIffEqual | components/udpserver/udpserver_component.cpp:80-81 | `compare` is 0 exactly when the two strings are equal |
| TextFilter.DisabledFilterMatchesAll | components/udpserver/udpserver_component.cpp:58-60 | mode `none` or an empty pattern matches any data, whatever the mode |
| TextFilter.ContainsIffSubstring | components/udpserver/udpserver_component.cpp:63-70 | `contains` holds exactly when the pattern occurs somewhere in the data |
| TextFilter.StartsWithIffPrefix | components/udpserver/udpserver_component.cpp:71-77 | `starts_with` holds exactly when the pattern is a prefix of the data |
| TextFilter.EndsWithIffSuffix | components/udpserver/udpserver_component.cpp:78-86 | `ends_with` holds exactly when the pattern is a suffix of the data |
| TextFilter.EndsWithNeedsLength | components/udpserver/udpserver_component.cpp:79 | data shorter than the pattern never matches `ends_with` |
| TextFilter.EqualsIffSame | components/udpserver/udpserver_component.cpp:87-94 | `equals` holds exactly when the data equals the pattern, or the pattern is empty |
| TextFilter.UnknownModeFailsOpen | components/udpserver/udpserver_component.cpp:96 | a mode string that is none of the five known modes matches everything |
| TextFilter.FilterExamples | components/udpserver/udpserver_component.cpp:56-97 | worked cases for every mode, including "ON" not being found in "LIGHT OFF" and `equals ""` matching "abc" |
| AllowList.Listed | components/udpserver/udpserver_component.cpp:28-34 | the search over `allowed_ips_` finds the address exactly when some entry equals it |
| AllowList.IsIpAllowed | components/udpserver/udpserver_component.cpp:21-38 | `is_ip_allowed` accepts exactly when allow-all is set, the list is empty, or the address is one of the entries |
| AllowList.OpenPolicyAllowsEveryone | components/udpserver/udpserver_component.cpp:23-25 | with `allow_all_ips_` set or an empty list, every address is allowed |
| AllowList.ClosedPolicyExactMatch | components/udpserver/udpserver_component.cpp:28-37 | otherwise an address is allowed exactly when it equals an entry, with no prefix or subnet matching |
| AllowList.AllowListExamples | components/udpserver/udpserver_component.cpp:21-38 | 10.0.0.5 passes a list holding it, while 10.0.0.9 and 10.0.0.50 do not |
| DottedQuad.Decimal | components/udpserver/udpserver_component.cpp:144-145 | `%d` of an octet is a non-empty string of decimal digits |
| DottedQuad.DecimalRoundTrip | components/udpserver/udpserver_component.cpp:144-145 | the digits `%d` prints denote the octet's value |
| DottedQuad.DecimalLength | components/udpserver/udpserver_component.cpp:144-145 | a value below 1000 prints as at most three digits (below 100 as at most two, below 10 as one) |
| DottedQuad.Snprintf | components/udpserver/udpserver_component.cpp:144-145 | `snprintf` keeps all of the output when it fits, and otherwise exactly its first `size - 1` characters |
| DottedQuad.Format | components/udpserver/udpserver_component.cpp:144-145 | `"%d.%d.%d.%d"` of four octets has 7 to 15 characters, so it fits the 16-character buffer with its NUL; `ParseFormat` is its inverse |
| DottedQuad.RemoteIpString | components/udpserver/udpserver_component.cpp:143-145 | what `snprintf` leaves in `remote_ip_str` is the whole dotted quad: it never truncates |
| DottedQuad.ParseFormat | components/udpserver/udpserver_component.cpp:143-145 | reading the printed address back gives the four octets |
| DottedQuad.FormatInjective | components/udpserver/udpserver_component.cpp:143-145 | two senders print alike only if their addresses are equal, so comparing strings in the allow-list compares addresses |
| DottedQuad.FormatExample | components/udpserver/udpserver_component.cpp:143-145 | 10.0.0.5 prints as "10.0.0.5" and the largest address as "255.255.255.255" |
| Dispatch.DispatchPrefix | components/udpserver/udpserver_component.cpp:48-53 | the first `n` iterations of the loop invoke at most `n` triggers; `DispatchPrefixExact` states which |
| Dispatch.DispatchAll | components/udpserver/udpserver_component.cpp:44-53 | `process_` invokes each trigger at most once; `DispatchExact` states exactly which, and in what order |
| Dispatch.DispatchPrefixExact | components/udpserver/udpserver_component.cpp:48-53 | after the first `n` triggers, each invocation names a matching trigger with the same data, ip and port; every matching trigger is invoked; indices strictly increase |
| Dispatch.DispatchExact | components/udpserver/udpserver_component.cpp:44-53 | `process_` invokes exactly the matching triggers, all of them (it does not stop at the first match), in registration order, with the same text and the caller's ip and port |
| Dispatch.DuplicateRegistrationFiresTwice | components/udpserver/udpserver_component.cpp:48-53 | a matching filter registered twice is invoked twice for one packet, first at the earlier registration |
| Dispatch.NoMatchNoInvocation | components/udpserver/udpserver_component.cpp:50 | when no filter matches, no trigger is invoked |
| Dispatch.SingleTrigger | components/udpserver/udpserver_component.cpp:48-53 | a single matching trigger is invoked once |
| Lifecycle.Step | components/udpserver/udpserver_component.cpp:101-121 | one `loop()` call leaves Bound and Failed as they are, stays Unbound exactly when the server is Unbound and the network is not ready, and otherwise binds exactly when `begin` succeeds |
| Lifecycle.BeginCalls | components/udpserver/udpserver_component.cpp:101-121 | a call makes at most one `begin` attempt; a call that makes it ends Bound or Failed according to its result, and a call that does not leaves the state unchanged |
| Lifecycle.Run | components/udpserver/udpserver_component.cpp:99-121 | a run of calls ends Unbound only if it started Unbound: the server never returns to waiting |
| Lifecycle.RunBeginCalls | components/udpserver/udpserver_component.cpp:101-121 | a server that is already bound or failed never calls `begin` again; `BeginAtMostOnce` bounds the count from Unbound |
| Lifecycle.BeginAtMostOnce | components/udpserver/udpserver_component.cpp:101-121 | over any run of ticks `begin` is called at most once, and never after the server has left Unbound |
| Lifecycle.SettledStatesStay | components/udpserver/udpserver_component.cpp:114-119 | once bound or failed, no tick changes the state |
| Lifecycle.WaitsForNetwork | components/udpserver/udpserver_component.cpp:102-111 | while the network is down, ticks neither call `begin` nor change the state |
| Lifecycle.BoundIffFirstBeginSucceeds | components/udpserver/udpserver_component.cpp:113-119 | a run ends bound exactly when `begin` succeeds at the first tick that sees the network ready |
| Lifecycle.RequestedSize | components/udpserver/udpserver_component.cpp:125-130 | the size asked of `read` is the reported size, lowered to 1400 |
| Lifecycle.ReadResult | components/udpserver/udpserver_component.cpp:133 | `read` returns a negative value exactly when it fails, and never more than requested or available |
| Lifecycle.Received | components/udpserver/udpserver_component.cpp:123-135 | a payload is passed on exactly when a packet is pending, the read succeeds and it yields at least one octet; it is the first `len` octets of the datagram, where `len` is what `read` returned for the clamped size, at most 1400 |
| Lifecycle.SmallDatagramArrivesWhole | components/udpserver/udpserver_component.cpp:123-135 | a datagram of at most 1400 octets that is read in full is passed on whole |
| Lifecycle.Delivered | components/udpserver/udpserver_component.cpp:123-158 | one receive step invokes each trigger at most once, and only for a received payload from a sender the allow-list accepts; the lemmas below state exactly what it delivers |
| Lifecycle.OversizedIsTruncated | components/udpserver/udpserver_component.cpp:126-130 | an oversized datagram is cut to its first 1400 octets and still passed on |
| Lifecycle.NothingWithoutPayload | components/udpserver/udpserver_component.cpp:123-158 | no pending packet, a failed read or an empty read reaches no trigger |
| Lifecycle.RejectedSenderReachesNoTrigger | components/udpserver/udpserver_component.cpp:151-155 | a sender the allow-list refuses reaches no trigger |
| Lifecycle.AcceptedPacketIsDispatched | components/udpserver/udpserver_component.cpp:139-152 | an accepted payload from an allowed sender is dispatched with the sender's full dotted quad and port |
| Lifecycle.TerminatorOverrunsAsWritten | components/udpserver/udpserver_component.cpp:132-136 | a 1500-octet datagram makes `read` return 1400, and the NUL then lands outside the 1400-octet buffer |
| Lifecycle.TerminatorFits | components/udpserver/udpserver_component.cpp:132-136 | with a buffer of 1401 octets the NUL after any accepted read is in bounds |
| Lifecycle.ListedSenderScenario | components/udpserver/udpserver_component.cpp:139-155 | a `contains "ON"` trigger behind an allow-list of 10.0.0.5 is invoked once for "LIGHT ON" from that host |
| Lifecycle.UnlistedSenderScenario | components/udpserver/udpserver_component.cpp:151-155 | the same packet from 10.0.0.9 reaches no trigger |
| Lifecycle.PingScenario | components/udpserver/udpserver_component.cpp:87-94 | an `equals "PING"` trigger is invoked for "PING" with the sender's address |
| Lifecycle.PingxScenario | components/udpserver/udpserver_component.cpp:87-94 | the same trigger is not invoked for "PINGX" |
| Udpserver.WiFiUdp.Read | components/udpserver/udpserver_component.cpp:133 | `read` fills the buffer in place: the first `len` octets are the datagram's, and `len` is the read result |
| Udpserver.UDPContext.constructor | components/udpserver/udpserver_component.h:21-22 | the context keeps the socket, and its getters return the ip and port it was given |
| Udpserver.UDPContext.SendResponse | components/udpserver/udpserver_component.h:25-31 | with no socket or a refused `beginPacket` it returns false and sends nothing; otherwise it sends exactly `data` once to the bound sender and returns the `endPacket` result |
| Udpserver.FiltersOf | components/udpserver/udpserver_component.cpp:48-50 | the filters seen by `process_` are those of the registered triggers, one per trigger, in registration order |
| Udpserver.UdpserverComponent.IsIpAllowed | components/udpserver/udpserver_component.cpp:21-38 | the component's guard accepts exactly when `allow_all_ips_` is set, `allowed_ips_` is empty, or the address is an entry |
| Udpserver.UdpserverComponent.constructor | components/udpserver/udpserver_component.h:59-64 | a fresh component listens on 8888, allows every address, has no triggers or allowed addresses, is not bound, has called `begin` on no port and has sent nothing |
| Udpserver.UdpserverComponent.SetListenPort | components/udpserver/udpserver_component.h:48 | sets the port and changes nothing else |
| Udpserver.UdpserverComponent.AddStringTrigger | components/udpserver/udpserver_component.h:49 | appends the trigger at the end without de-duplication and changes nothing else |
| Udpserver.UdpserverComponent.AddAllowedIp | components/udpserver/udpserver_component.h:52 | appends one entry and changes nothing else |
| Udpserver.UdpserverComponent.SetAllowAllIps | components/udpserver/udpserver_component.h:53 | sets the allow-all flag and changes nothing else |
| Udpserver.UdpserverComponent.Process | components/udpserver/udpserver_component.cpp:40-54 | the loop over the triggers appends exactly the invocations `Dispatch.DispatchAll` specifies for the `len`-octet text, with the context's ip and port |
| Udpserver.UdpserverComponent.Loop | components/udpserver/udpserver_component.cpp:99-160 | `loop()` moves the lifecycle as `Lifecycle.Step` says and calls `begin` as `Lifecycle.BeginCalls` says, each time with the configured `port_`; once bound it delivers exactly `Lifecycle.Delivered`; it keeps the invariant that `begin` was called once exactly when the server left Unbound |
| Udpserver.UdpserverComponent.Receive | components/udpserver/udpserver_component.cpp:123-158 | the receive half of `loop()` appends exactly the invocations `Lifecycle.Delivered` gives for what the socket reports; its receive buffer has 1401 octets, one more than the source's 1400 (see Findings) |
| Udpserver.UdpserverComponent.Tick | components/udpserver/udpserver_component.cpp:114-117 | a failed component does nothing on later ticks; otherwise a tick is `loop()`, including the port passed to `begin` |
| Udpserver.OnStringDataTrigger.constructor | components/udpserver/udpserver_component.h:83-84 | a fresh trigger has mode `none` and an empty pattern |
| Udpserver.OnStringDataTrigger.Setup | components/udpserver/udpserver_component.h:73 | `setup()` appends the trigger to its parent's registrations |
| Udpserver.OnStringDataTrigger.SetTextFilter | components/udpserver/udpserver_component.h:76 | sets the pattern and changes nothing else |
| Udpserver.OnStringDataTrigger.MatchesFilter | components/udpserver/udpserver_component.cpp:56-97 | the trigger's filter decides as `Dispatch.Fires` does on its current mode and pattern, and mode `none` or an empty pattern always matches |
| Udpserver.OnStringDataTrigger.SetFilterMode | components/udpserver/udpserver_component.h:77 | sets the mode and changes nothing else |

## Left out

- The `WiFiUDP` library is not modelled. `begin`, `parsePacket`, `read`, `remoteIP`, `remotePort`, `beginPacket`, `write` and `endPacket` are oracle parameters. The only socket state kept is the ghost log of sent datagrams.
- Wi-Fi and Ethernet readiness (cpp:102-111) is one boolean per tick.
- The ESPHome scheduler and `mark_failed` are modelled only as the `failed` flag. `Tick` does nothing once it is set.
- `setup()` of the component (cpp:15-19) only logs, so it is not modelled. No `ESP_LOG*` call is modelled.
- Trigger automations (`trigger->trigger(...)`) are recorded as invocations and do nothing else. A reply made from an automation is modelled separately, by calling `SendResponse` on a context.
- The lifetime of the borrowed `const char*` in `UDPContext` (h:38) is not modelled. The context is an object created for each `Process` call and never stored, as in the source.
- `components/udpserver/__init__.py` is not part of this model. It is configuration code generation.
  - It registers each trigger with `add_string_trigger`.
  - The trigger's own `setup()` (h:73), modelled as `Setup`, would register it a second time if the scheduler ran it. `Dispatch.DuplicateRegistrationFiresTwice` states what that would cause.
- TextFilter.LexCompare: only whether the result is zero is relied on by the filter, so the contract does not state what a non-zero sign means for the order of the two strings.
- Configured strings (`text_filter_`, `filter_mode_` and the `allowed_ips_` entries) are byte strings in C++, so a configured pattern arrives as its UTF-8 octets. The model takes them as Dafny strings, read as sequences of byte-valued characters. It does not bound their character values or model the encoding.

## Findings

| source | as written | input that shows it | evidently intended | confidence | as-written member | corrected member |
|---|---|---|---|---|---|---|
| components/udpserver/udpserver_component.cpp:132-136 | `uint8_t buffer[MAX_PACKET_SIZE]` holds 1400 octets, and `buffer[len] = '\0'` writes at index `len` | a datagram of 1400 or more octets: `read` is asked for 1400 and returns 1400, so the NUL is written at index 1400, one past the end | a buffer of `MAX_PACKET_SIZE + 1` octets, so the terminator always fits | not executed; depends on `read` returning the full requested size | Lifecycle.TerminatorOverrunsAsWritten | Lifecycle.TerminatorFits (the buffer that `Udpserver.UdpserverComponent.Receive` allocates has `RX_BUFFER_SIZE` = 1401 octets) |
