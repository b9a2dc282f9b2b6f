/** What `process_` does with one accepted payload: every registered trigger
    whose filter matches the text is invoked, in registration order, with the
    same text and a reply context for the same sender. Trigger bodies are
    user automations; the model records each invocation and nothing more. */
module Dispatch {
  import opened Types
  import TextFilter

  /** A trigger's filter settings (`filter_mode_`, `text_filter_`) when the
      packet is processed. */
  datatype Filter = Filter(mode: string, pattern: string)

  /** One call `trigger->trigger(data_str, udp_ctx)`: the index of the trigger
      in registration order, the text, and the sender the context replies to. */
  datatype Invocation = Invocation(trigger: nat, data: string, remoteIp: string, remotePort: uint16)

  /** The filter of one trigger, as its settings stand when the packet is
      processed, accepts `data`: `matches_filter` on that snapshot. */
  predicate Fires(f: Filter, data: string) {
    TextFilter.Matches(f.mode, f.pattern, data)
  }

  /** The invocations made for the first `n` registered triggers. */
  function DispatchPrefix(filters: seq<Filter>, n: nat, data: string, ip: string, port: uint16): (r: seq<Invocation>)
    requires n <= |filters|
    ensures |r| <= n
  {
    if n == 0 then []
    else
      DispatchPrefix(filters, n - 1, data, ip, port)
      + (if Fires(filters[n - 1], data) then [Invocation(n - 1, data, ip, port)] else [])
  }

  /** The invocations `process_` makes for one payload. */
  function DispatchAll(filters: seq<Filter>, data: string, ip: string, port: uint16): (r: seq<Invocation>)
    ensures |r| <= |filters|
  {
    DispatchPrefix(filters, |filters|, data, ip, port)
  }

  /** Each invocation names a trigger below `n` whose filter matches, with the
      payload and the sender unchanged; every such trigger is invoked; and the
      trigger indices strictly increase, so each registration fires at most
      once and in registration order. */
  lemma {:induction false} DispatchPrefixExact(filters: seq<Filter>, n: nat, data: string, ip: string, port: uint16)
    requires n <= |filters|
    ensures forall k :: 0 <= k < |DispatchPrefix(filters, n, data, ip, port)| ==>
      var v := DispatchPrefix(filters, n, data, ip, port)[k];
      v.trigger < n && Fires(filters[v.trigger], data)
      && v.data == data && v.remoteIp == ip && v.remotePort == port
    ensures forall i :: 0 <= i < n && Fires(filters[i], data) ==>
      Invocation(i, data, ip, port) in DispatchPrefix(filters, n, data, ip, port)
    ensures forall a, b :: 0 <= a < b < |DispatchPrefix(filters, n, data, ip, port)| ==>
      DispatchPrefix(filters, n, data, ip, port)[a].trigger < DispatchPrefix(filters, n, data, ip, port)[b].trigger
  {
    if n > 0 {
      DispatchPrefixExact(filters, n - 1, data, ip, port);
      var prev := DispatchPrefix(filters, n - 1, data, ip, port);
      var last := if Fires(filters[n - 1], data) then [Invocation(n - 1, data, ip, port)] else [];
      var r := DispatchPrefix(filters, n, data, ip, port);
      assert r == prev + last;
      forall k | 0 <= k < |r|
        ensures r[k].trigger < n && Fires(filters[r[k].trigger], data)
        ensures r[k].data == data && r[k].remoteIp == ip && r[k].remotePort == port
      {
        if k < |prev| {
          assert r[k] == prev[k];
        } else {
          assert r[k] == last[k - |prev|];
        }
      }
      forall i | 0 <= i < n && Fires(filters[i], data)
        ensures Invocation(i, data, ip, port) in r
      {
        if i < n - 1 {
          assert Invocation(i, data, ip, port) in prev;
        } else {
          assert r[|prev|] == Invocation(i, data, ip, port);
        }
      }
      forall a, b | 0 <= a < b < |r|
        ensures r[a].trigger < r[b].trigger
      {
        assert r[a] == prev[a];
        if b < |prev| {
          assert r[b] == prev[b];
        } else {
          assert r[b] == last[b - |prev|];
        }
      }
    }
  }

  /** `process_` invokes exactly the matching triggers, all of them (it does
      not stop at the first match), in registration order, each with the
      same text and the caller's address and port. */
  lemma DispatchExact(filters: seq<Filter>, data: string, ip: string, port: uint16)
    ensures forall k :: 0 <= k < |DispatchAll(filters, data, ip, port)| ==>
      var v := DispatchAll(filters, data, ip, port)[k];
      v.trigger < |filters| && Fires(filters[v.trigger], data)
      && v.data == data && v.remoteIp == ip && v.remotePort == port
    ensures forall i :: 0 <= i < |filters| && Fires(filters[i], data) ==>
      Invocation(i, data, ip, port) in DispatchAll(filters, data, ip, port)
    ensures forall a, b :: 0 <= a < b < |DispatchAll(filters, data, ip, port)| ==>
      DispatchAll(filters, data, ip, port)[a].trigger < DispatchAll(filters, data, ip, port)[b].trigger
  {
    assert DispatchAll(filters, data, ip, port) == DispatchPrefix(filters, |filters|, data, ip, port);
    DispatchPrefixExact(filters, |filters|, data, ip, port);
  }

  /** A filter registered twice that matches fires twice for one packet. */
  lemma DuplicateRegistrationFiresTwice(filters: seq<Filter>, i: nat, j: nat, data: string, ip: string, port: uint16)
    requires i < j < |filters| && filters[i] == filters[j] && Fires(filters[i], data)
    ensures var r := DispatchAll(filters, data, ip, port);
      exists a, b :: 0 <= a < b < |r| && r[a] == Invocation(i, data, ip, port) && r[b] == Invocation(j, data, ip, port)
  {
    DispatchExact(filters, data, ip, port);
    var r := DispatchAll(filters, data, ip, port);
    var a :| 0 <= a < |r| && r[a] == Invocation(i, data, ip, port);
    var b :| 0 <= b < |r| && r[b] == Invocation(j, data, ip, port);
    assert a < b;
  }

  /** When no registered filter matches, nothing is invoked. */
  lemma {:induction false} NoMatchNoInvocation(filters: seq<Filter>, n: nat, data: string, ip: string, port: uint16)
    requires n <= |filters|
    requires forall i :: 0 <= i < n ==> !Fires(filters[i], data)
    ensures DispatchPrefix(filters, n, data, ip, port) == []
  {
    if n > 0 {
      NoMatchNoInvocation(filters, n - 1, data, ip, port);
    }
  }

  /** A single registered trigger whose filter matches is invoked once. */
  lemma SingleTrigger(f: Filter, data: string, ip: string, port: uint16)
    requires Fires(f, data)
    ensures DispatchAll([f], data, ip, port) == [Invocation(0, data, ip, port)]
  {
    assert DispatchPrefix([f], 0, data, ip, port) == [];
  }
}
