/**
 LogstashClient.Publish (output/logstash/client.go): try the hosts in turn, starting with
 the one that worked last.
 */
module LogstashClient {
  import opened Basics
  import opened Division

  /** What happens when a host is tried: its TTL ticker has fired or not, reconnecting works or
      not, it is connected or not, connecting works or not, and what Send returns. */
  datatype Host = Host(ttlExpired: bool, reconnects: bool, connected: bool, connects: bool, send: Option<nat>)

  /** The number of events the host took, if it took any. */
  function Try(h: Host): Option<nat> {
    if h.ttlExpired && !h.reconnects then None
    else if !h.connected && !h.connects then None
    else h.send
  }

  /** A host takes events if and only if its connection, once renewed where that is due, is up or can be
      brought up, and Send succeeds; it then takes what Send says. */
  lemma TakesIff(h: Host)
    ensures Try(h).Some? <==> (h.ttlExpired ==> h.reconnects) && (h.connected || h.connects) && h.send.Some?
    ensures Try(h).Some? ==> Try(h) == h.send
  {
  }

  /** The i-th host of a call that starts at host `start`. */
  function Nth(start: nat, i: nat, n: nat): nat
    requires n > 0
  {
    (start + i) % n
  }

  lemma NthInRange(start: nat, i: nat, n: nat)
    requires start < n && i < n
    ensures Nth(start, i, n) == if start + i < n then start + i else start + i - n
    ensures Nth(start, i, n) < n
  {
    if start + i < n {
      DivModUnique(start + i, n, 0, start + i);
    } else {
      DivModUnique(start + i, n, 1, start + i - n);
    }
  }

  /** No host is tried twice in one call. */
  lemma HostsDiffer(start: nat, i: nat, j: nat, n: nat)
    requires start < n && i < j < n
    ensures Nth(start, i, n) != Nth(start, j, n)
  {
    NthInRange(start, i, n);
    NthInRange(start, j, n);
  }

  /** Every host is tried when all n are. */
  lemma HostsCovered(start: nat, h: nat, n: nat)
    requires start < n && h < n
    ensures exists i :: 0 <= i < n && Nth(start, i, n) == h
  {
    var i := if h >= start then h - start else h - start + n;
    NthInRange(start, i, n);
    assert Nth(start, i, n) == h;
  }

  /** What a call leaves in `current`, and what it returns. */
  datatype Outcome = Outcome(current: nat, sent: Option<nat>)

  /** The call, from its i-th attempt on. */
  function CallFrom(start: nat, i: nat, n: nat, world: nat -> Host): Outcome
    requires i < n
    decreases n - i
  {
    var h := Nth(start, i, n);
    if Try(world(h)).Some? || i + 1 == n then Outcome(h, Try(world(h)))
    else CallFrom(start, i + 1, n, world)
  }

  /** One call of Publish that starts at host `start`. */
  function Call(start: nat, n: nat, world: nat -> Host): Outcome
    requires n > 0
  {
    CallFrom(start, 0, n, world)
  }

  lemma {:induction false} CallMeaning(start: nat, i: nat, n: nat, world: nat -> Host)
    requires start < n && i < n
    ensures var o := CallFrom(start, i, n, world);
            && o.current < n && o.sent == Try(world(o.current))
            && (o.sent.None? <==> forall k :: i <= k < n ==> Try(world(Nth(start, k, n))).None?)
            && (o.sent.None? ==> o.current == Nth(start, n - 1, n))
    decreases n - i
  {
    NthInRange(start, i, n);
    if Try(world(Nth(start, i, n))).None? && i + 1 < n {
      CallMeaning(start, i + 1, n, world);
    }
  }

  /** A call fails exactly when every host fails. */
  lemma FailsIffAllFail(start: nat, n: nat, world: nat -> Host)
    requires start < n
    ensures Call(start, n, world).sent.None? <==> forall h :: 0 <= h < n ==> Try(world(h)).None?
  {
    CallMeaning(start, 0, n, world);
    if Call(start, n, world).sent.None? {
      forall h | 0 <= h < n
        ensures Try(world(h)).None?
      {
        HostsCovered(start, h, n);
        var i :| 0 <= i < n && Nth(start, i, n) == h;
      }
    } else {
      assert Try(world(Call(start, n, world).current)).Some?;
    }
  }

  /** `current` after a sequence of calls; worlds[i] is what call i meets. */
  function Calls(start: nat, n: nat, worlds: seq<nat -> Host>): nat
    requires n > 0
    decreases |worlds|
  {
    if worlds == [] then start else Calls(Call(start, n, worlds[0]).current, n, worlds[1..])
  }

  /** Over every sequence of calls `current` names a host. */
  lemma {:induction false} CurrentIsHost(start: nat, n: nat, worlds: seq<nat -> Host>)
    requires start < n
    ensures Calls(start, n, worlds) < n
    decreases |worlds|
  {
    if worlds != [] {
      CallMeaning(start, 0, n, worlds[0]);
      CurrentIsHost(Call(start, n, worlds[0]).current, n, worlds[1..]);
    }
  }

  /** A healthy host sticks: as long as the host that served a call takes events, it serves every
      later call, at the first attempt. */
  lemma {:induction false} HealthyHostSticks(h: nat, n: nat, worlds: seq<nat -> Host>, world: nat -> Host)
    requires h < n && Try(world(h)).Some?
    requires forall i :: 0 <= i < |worlds| ==> Try(worlds[i](h)).Some?
    ensures Calls(h, n, worlds) == h && Call(Calls(h, n, worlds), n, world) == Outcome(h, Try(world(h)))
    decreases |worlds|
  {
    NthInRange(h, 0, n);
    if worlds != [] {
      HealthyHostSticks(h, n, worlds[1..], world);
    }
  }

  /** The host after the i-th one. */
  lemma NthAdvances(start: nat, i: nat, n: nat)
    requires start < n && i < n
    ensures Nth(start, i, n) < n
    ensures i + 1 < n ==> (Nth(start, i, n) + 1) % n == Nth(start, i + 1, n)
  {
    NthInRange(start, i, n);
    if i + 1 < n {
      NthInRange(start, i + 1, n);
      NthInRange(Nth(start, i, n), 1, n);
    }
  }

  class Client {
    const hosts: nat
    var current: nat

    ghost predicate Valid()
      reads this
    {
      current < hosts
    }

    /** NewLogstashClient fails when no host is left. */
    constructor (hosts: nat)
      requires hosts > 0
      ensures Valid() && this.hosts == hosts && current == 0
    {
      this.hosts, current := hosts, 0;
    }

    /** world(h) is what happens when host h is tried. `tried` lists the hosts in the order of the attempts. */
    method Publish(world: nat -> Host) returns (sent: Option<nat>, tried: seq<nat>)
      requires Valid()
      modifies this
      ensures Valid()
      ensures 0 < |tried| <= hosts
      ensures forall k :: 0 <= k < |tried| ==> tried[k] == Nth(old(current), k, hosts)
      ensures forall k :: 0 <= k < |tried| - 1 ==> Try(world(tried[k])).None?
      ensures sent == Try(world(tried[|tried| - 1]))
      ensures current == tried[|tried| - 1]
      ensures sent.None? ==> |tried| == hosts && current == Nth(old(current), hosts - 1, hosts)
      ensures Outcome(current, sent) == Call(old(current), hosts, world)
    {
      hide Nth, Try;
      ghost var start := current;
      NthInRange(start, 0, hosts);
      tried := [];
      var i, j := 0, current;
      while i < hosts
        invariant 0 <= i <= hosts && current < hosts && |tried| == i
        invariant i < hosts ==> j == Nth(start, i, hosts) && j < hosts
        invariant forall k :: 0 <= k < i ==> tried[k] == Nth(start, k, hosts) && Try(world(tried[k])).None?
        invariant i > 0 ==> current == tried[i - 1]
        invariant i == 0 ==> current == start && j == start
        invariant i < hosts ==> CallFrom(start, i, hosts, world) == Call(start, hosts, world)
        invariant i == hosts ==> Outcome(current, None) == Call(start, hosts, world)
      {
        NthAdvances(start, i, hosts);
        current := j;
        tried := tried + [j];
        sent := Try(world(j));
        if sent.Some? {
          return;
        }
        i, j := i + 1, (j + 1) % hosts;
      }
      sent := None;
    }
  }
}
