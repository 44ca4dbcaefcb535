// Connection limits and per-address counters (internal/stratum/server.go).

module Connections {
  import opened Sums

  /** An accepted connection; the number makes it unique. */
  datatype Conn = Conn(number: nat, ip: string)

  ghost function From(clients: set<Conn>, ip: string): set<Conn> {
    set c | c in clients && c.ip == ip
  }

  function Count(counters: map<string, nat>, ip: string): nat {
    if ip in counters then counters[ip] else 0
  }

  /** Each counter is the number of live clients from that address; no counter means none. */
  ghost predicate Counted(clients: set<Conn>, counters: map<string, nat>) {
    && (forall ip :: Count(counters, ip) == |From(clients, ip)|)
    && (forall ip :: ip in counters ==> counters[ip] > 0)
  }

  lemma FromAdded(clients: set<Conn>, c: Conn)
    requires c !in clients
    ensures forall ip :: |From(clients + {c}, ip)| == |From(clients, ip)| + if ip == c.ip then 1 else 0
  {
    forall ip ensures |From(clients + {c}, ip)| == |From(clients, ip)| + if ip == c.ip then 1 else 0 {
      assert From(clients + {c}, ip) == if ip == c.ip then From(clients, ip) + {c} else From(clients, ip);
    }
  }

  function Removed(counters: map<string, nat>, ip: string): map<string, nat> {
    if Count(counters, ip) <= 1 then counters - {ip} else counters[ip := counters[ip] - 1]
  }

  /**
    Removing a client keeps the counters exact when it is live. For a client
    already gone it does so only when no other client shares its address, which
    is why closing must act once.
   */
  lemma RemoveCounted(clients: set<Conn>, counters: map<string, nat>, c: Conn)
    requires Counted(clients, counters)
    ensures Counted(clients - {c}, Removed(counters, c.ip)) <==> c in clients || From(clients, c.ip) == {}
  {
    var after := Removed(counters, c.ip);
    assert Count(counters, c.ip) == |From(clients, c.ip)|;
    if c in clients {
      FromAdded(clients - {c}, c);
      assert clients - {c} + {c} == clients;
      forall ip ensures Count(after, ip) == |From(clients - {c}, ip)| {
        assert Count(counters, ip) == |From(clients, ip)|;
      }
    } else {
      assert clients - {c} == clients;
      if From(clients, c.ip) != {} {
        assert Count(after, c.ip) != |From(clients, c.ip)|;
      } else {
        forall ip ensures Count(after, ip) == |From(clients, ip)| {
          assert Count(counters, ip) == |From(clients, ip)|;
        }
      }
    }
  }

  ghost function CountKey(counters: map<string, nat>): string -> int {
    (ip: string) => Count(counters, ip)
  }

  /** The counters add up to the number of clients. */
  lemma {:induction false} CountersSum(clients: set<Conn>, counters: map<string, nat>)
    requires Counted(clients, counters)
    ensures Sum(counters.Keys, CountKey(counters)) == |clients|
    decreases |clients|
  {
    if clients == {} {
      forall ip ensures ip !in counters {
        assert Count(counters, ip) == |From(clients, ip)|;
        assert From(clients, ip) == {};
      }
      assert counters.Keys == {};
    } else {
      var c :| c in clients;
      RemoveCounted(clients, counters, c);
      CountersSum(clients - {c}, Removed(counters, c.ip));
      assert c in From(clients, c.ip);
      assert Count(counters, c.ip) == |From(clients, c.ip)| > 0;
      SumAfterRemoval(counters, c.ip);
    }
  }

  /** Taking one client off a counter takes one off the sum. */
  lemma SumAfterRemoval(counters: map<string, nat>, ip: string)
    requires Count(counters, ip) > 0
    ensures Sum(counters.Keys, CountKey(counters))
      == 1 + Sum(Removed(counters, ip).Keys, CountKey(Removed(counters, ip)))
  {
    var fewer := Removed(counters, ip);
    SumRemove(counters.Keys, ip, CountKey(counters));
    SumCongruent(counters.Keys - {ip}, CountKey(counters), CountKey(fewer));
    if ip in fewer {
      SumRemove(fewer.Keys, ip, CountKey(fewer));
      assert fewer.Keys - {ip} == counters.Keys - {ip};
    } else {
      assert fewer.Keys == counters.Keys - {ip};
    }
  }

  class Listener {
    const maxMiners: nat
    const maxMinersPerIP: nat
    var clients: set<Conn>
    var ipClients: map<string, nat>
    var closed: set<Conn>

    ghost predicate Valid()
      reads this
    {
      && Counted(clients, ipClients)
      && clients !! closed
      && |clients| <= maxMiners
      && (forall ip :: Count(ipClients, ip) <= maxMinersPerIP)
    }

    constructor (maxMiners: nat, maxMinersPerIP: nat)
      ensures Valid() && clients == {} && closed == {}
      ensures this.maxMiners == maxMiners && this.maxMinersPerIP == maxMinersPerIP
    {
      this.maxMiners, this.maxMinersPerIP := maxMiners, maxMinersPerIP;
      clients, ipClients, closed := {}, map[], {};
      new;
      forall ip ensures Count(ipClients, ip) == |From(clients, ip)| {
        assert From(clients, ip) == {};
      }
    }

    /** Admits a new connection unless a limit is reached. */
    method Accept(c: Conn) returns (admitted: bool)
      requires Valid() && c !in clients && c !in closed
      modifies this`clients, this`ipClients
      ensures Valid()
      ensures admitted <==> |old(clients)| < maxMiners && |From(old(clients), c.ip)| < maxMinersPerIP
      ensures clients == if admitted then old(clients) + {c} else old(clients)
    {
      assert Count(ipClients, c.ip) == |From(clients, c.ip)|;
      if |clients| >= maxMiners || Count(ipClients, c.ip) >= maxMinersPerIP {
        return false;
      }
      FromAdded(clients, c);
      ghost var before, counters := clients, ipClients;
      clients := clients + {c};
      ipClients := ipClients[c.ip := Count(ipClients, c.ip) + 1];
      forall ip ensures Count(ipClients, ip) == |From(clients, ip)| && Count(ipClients, ip) <= maxMinersPerIP {
        assert Count(counters, ip) == |From(before, ip)|;
      }
      admitted := true;
    }

    /** Closes an admitted connection; closing again does nothing. */
    method Close(c: Conn)
      requires Valid() && (c in clients || c in closed)
      modifies this`clients, this`ipClients, this`closed
      ensures Valid()
      ensures clients == old(clients) - {c} && closed == old(closed) + {c}
    {
      if c in closed {
        return;
      }
      closed := closed + {c};
      RemoveCounted(clients, ipClients, c);
      ghost var counters := ipClients;
      clients := clients - {c};
      if Count(ipClients, c.ip) <= 1 {
        ipClients := ipClients - {c.ip};
      } else {
        ipClients := ipClients[c.ip := ipClients[c.ip] - 1];
      }
      assert ipClients == Removed(counters, c.ip);
      forall ip ensures Count(ipClients, ip) <= maxMinersPerIP {
        assert Count(counters, ip) <= maxMinersPerIP;
      }
    }
  }
}
