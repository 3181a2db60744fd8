/** New services: a port that an internal host has never received flows on, once its normal is learnt. */
module NewServices {
  import opened Detections
  import opened Events
  import opened LineText
  import opened Text
  import opened Windows
  import opened Wire

  /** Which addresses are internal is left to the address parser. */
  datatype Settings = Settings(learn: int, cooldown: int, internal: string -> bool)

  const PORT_CAP: nat := 4096
  const LAST_SERVICE_PORT: int := 49151

  predicate Concerns(c: Settings, e: Event)
  {
    e.source == Netflow && e.dstIP != "" && e.dstPort != 0 &&
    c.internal(e.dstIP) && e.srcIP != e.dstIP && e.dstPort <= LAST_SERVICE_PORT
  }

  function KeyFor(host: string, port: int): string
  {
    "newsvc|" + host + "|" + Itoa(port)
  }

  lemma KeyForOpens(host: string, port: int)
    ensures KeyFor(host, port) == "newsvc|" + (host + "|" + Itoa(port))
  {
    hide Itoa;
  }

  datatype Memory = Memory(seen: map<string, set<int>>, born: map<string, int>, last: map<string, int>)

  const BLANK := Memory(map[], map[], map[])

  function PortsAt(seen: map<string, set<int>>, host: string): set<int>
  {
    if host in seen then seen[host] else {}
  }

  function LastAt(m: Memory, key: string): Option<int>
  {
    if key in m.last then Some(m.last[key]) else None
  }

  /** A first flow is when a host is born. */
  function BornAt(m: Memory, e: Event): int
  {
    if e.dstIP in m.seen && e.dstIP in m.born then m.born[e.dstIP] else e.timestamp
  }

  predicate Flags(c: Settings, m: Memory, e: Event)
  {
    Concerns(c, e) && e.dstPort !in PortsAt(m.seen, e.dstIP) &&
    e.timestamp - BornAt(m, e) >= c.learn &&
    Rested(LastAt(m, KeyFor(e.dstIP, e.dstPort)), e.timestamp, c.cooldown)
  }

  function Learnt(ports: set<int>, port: int): set<int>
  {
    if |ports| < PORT_CAP then ports + {port} else ports
  }

  function Next(c: Settings, m: Memory, e: Event): Memory
  {
    if !Concerns(c, e) then m
    else
      Memory(
        m.seen[e.dstIP := Learnt(PortsAt(m.seen, e.dstIP), e.dstPort)],
        if e.dstIP in m.seen then m.born else m.born[e.dstIP := e.timestamp],
        if Flags(c, m, e) then m.last[KeyFor(e.dstIP, e.dstPort) := e.timestamp] else m.last)
  }

  function After(c: Settings, h: seq<Event>): Memory
  {
    if h == [] then BLANK else Next(c, After(c, h[..|h| - 1]), h[|h| - 1])
  }

  // --- the detector as it runs -----------------------------------------------------

  class NewServiceDetector {
    const cfg: Settings
    const cool: Cooldown
    var seen: map<string, set<int>>
    var born: map<string, int>

    ghost function Contents(): Memory
      reads this, cool
    {
      Memory(seen, born, cool.last)
    }

    ghost predicate Valid()
      reads this
    {
      cool.d == cfg.cooldown && seen.Keys <= born.Keys
    }

    constructor (cfg: Settings)
      ensures Valid() && this.cfg == cfg && Contents() == BLANK && fresh(cool)
    {
      this.cfg := cfg;
      cool := new Cooldown(cfg.cooldown);
      seen, born := map[], map[];
    }

    method Observe(e: Event) returns (d: Option<Detection>)
      requires Valid()
      modifies this, cool
      ensures Concerns(cfg, e) <==>
              && e.source == Netflow && e.dstIP != "" && e.dstPort != 0 && e.dstPort <= 49151
              && cfg.internal(e.dstIP) && e.srcIP != e.dstIP
      ensures Valid() && Contents() == Next(cfg, old(Contents()), e)
      ensures d.Some? == Flags(cfg, old(Contents()), e)
      ensures d.Some? ==> 
                d.value == Detection(NewService, "medium", e.srcIP, e.dstIP, "", "New service on " + e.dstIP + ": port " + Itoa(e.dstPort),
                                     1, e.timestamp, e.timestamp, [e.raw], "newsvc|" + e.dstIP + "|" + Itoa(e.dstPort)) && Keyed(d.value)
    {
      hide KeyFor, Rested, PortsAt, Keyed;
      d := None;
      if e.source != Netflow || e.dstIP == "" || e.dstPort == 0 {
        return;
      }
      if !cfg.internal(e.dstIP) || e.srcIP == e.dstIP {
        return;
      }
      if e.dstPort > LAST_SERVICE_PORT {
        return;
      }
      var known := Learn(e);
      if known || e.timestamp - born[e.dstIP] < cfg.learn {
        return;
      }
      var key := KeyFor(e.dstIP, e.dstPort);
      var ok := cool.Firable(key, e.timestamp);
      if ok {
        d := Some(Detection(NewService, "medium", e.srcIP, e.dstIP, "", "New service on " + e.dstIP + ": port " + Itoa(e.dstPort), 1,
                            e.timestamp, e.timestamp, [e.raw], key));
        KeyForOpens(e.dstIP, e.dstPort);
        KeyedBy(d.value, "newsvc|", e.dstIP + "|" + Itoa(e.dstPort));
      }
    }

    /** Takes note of the host and the port of a flow; true when the port was known. */
    method Learn(e: Event) returns (known: bool)
      requires Valid()
      modifies this
      ensures Valid() && e.dstIP in born
      ensures seen == old(seen)[e.dstIP := Learnt(PortsAt(old(seen), e.dstIP), e.dstPort)]
      ensures born == if e.dstIP in old(seen) then old(born) else old(born)[e.dstIP := e.timestamp]
      ensures known == (e.dstPort in PortsAt(old(seen), e.dstIP))
    {
      var h := e.dstIP;
      if h !in seen {
        seen := seen[h := {}];
        born := born[h := e.timestamp];
      }
      var ports := seen[h];
      known := e.dstPort in ports;
      if known {
        assert |ports| < PORT_CAP ==> ports + {e.dstPort} == ports;
        assert seen == old(seen)[h := ports];
        return;
      }
      if |ports| < PORT_CAP {
        seen := seen[h := ports + {e.dstPort}];
      }
    }
  }

  // --- what the flows alone say ----------------------------------------------------

  /** Every service port that flows of the history reached on a host. */
  function Ports(c: Settings, h: seq<Event>, host: string): set<int>
  {
    if h == [] then {}
    else
      var e := h[|h| - 1];
      Ports(c, h[..|h| - 1], host) + if Concerns(c, e) && e.dstIP == host then {e.dstPort} else {}
  }

  /** When the first of them came. */
  function FirstFlow(c: Settings, h: seq<Event>, host: string): Option<int>
  {
    if h == [] then None
    else
      var e, before := h[|h| - 1], FirstFlow(c, h[..|h| - 1], host);
      if before.Some? then before
      else if Concerns(c, e) && e.dstIP == host then Some(e.timestamp)
      else None
  }

  /** What is remembered of a host, against its history. */
  ghost predicate Remembers(c: Settings, m: Memory, h: seq<Event>, host: string)
  {
    && (host in m.seen <==> FirstFlow(c, h, host).Some?)
    && (host in m.seen ==> host in m.born && m.born[host] == FirstFlow(c, h, host).value)
    && Learning(PortsAt(m.seen, host), Ports(c, h, host))
  }

  /** The ports learnt so far: all there were, until there are too many. */
  ghost predicate Learning(learnt: set<int>, all: set<int>)
  {
    learnt <= all && (if |all| <= 4096 then learnt == all else |learnt| == 4096)
  }

  lemma LearntOne(learnt: set<int>, all: set<int>, port: int)
    requires Learning(learnt, all)
    ensures Learning(Learnt(learnt, port), all + {port})
    ensures port in Learnt(learnt, port) <==> port in learnt || |all + {port}| <= 4096
  {
    Smaller(all, port);
    Smaller(learnt, port);
    Fewer(learnt, all);
    if |learnt| >= 4096 && |all + {port}| <= 4096 {
      SameSize(learnt, all + {port});
    }
  }

  lemma Fewer(s: set<int>, t: set<int>)
    requires s <= t
    ensures |s| <= |t|
  {
    assert t == s + (t - s);
  }

  lemma HistoryOne(c: Settings, h: seq<Event>, e: Event, host: string)
    ensures var own := Concerns(c, e) && e.dstIP == host;
            Ports(c, h + [e], host) == Ports(c, h, host) + (if own then {e.dstPort} else {}) &&
            FirstFlow(c, h + [e], host) ==
              if FirstFlow(c, h, host).None? && own then Some(e.timestamp) else FirstFlow(c, h, host)
  {
    hide Concerns;
    assert (h + [e])[..|h|] == h;
  }

  lemma RemembersOne(c: Settings, m: Memory, h: seq<Event>, e: Event, host: string)
    requires Remembers(c, m, h, host)
    ensures Remembers(c, Next(c, m, e), h + [e], host)
  {
    HistoryOne(c, h, e, host);
    hide Flags, Concerns, KeyFor, Learnt, Learning, Ports, FirstFlow;
    var all := Ports(c, h, host);
    if Concerns(c, e) && e.dstIP == host {
      LearntOne(PortsAt(m.seen, host), all, e.dstPort);
    } else {
      assert all + {} == all;
    }
  }

  lemma Smaller(s: set<int>, x: int)
    ensures |s| <= |s + {x}| <= |s| + 1
  {
    if x in s {
      assert s + {x} == s;
    }
  }

  lemma SameSize(s: set<int>, t: set<int>)
    requires s <= t && |s| >= |t|
    ensures s == t
  {
    assert t == s + (t - s);
  }

  lemma {:induction false} RemembersHistory(c: Settings, h: seq<Event>, host: string)
    ensures Remembers(c, After(c, h), h, host)
  {
    hide Next, Remembers;
    if h == [] {
      NothingYet(c, host);
    } else {
      RemembersHistory(c, h[..|h| - 1], host);
      RemembersOne(c, After(c, h[..|h| - 1]), h[..|h| - 1], h[|h| - 1], host);
      assert h[..|h| - 1] + [h[|h| - 1]] == h;
    }
  }

  lemma NothingYet(c: Settings, host: string)
    ensures Remembers(c, BLANK, [], host)
  {
  }

  /** The key tells the host and the port apart: a decimal number has no bar. */
  lemma KeysApart(host: string, port: int, host': string, port': int)
    requires KeyFor(host, port) == KeyFor(host', port')
    ensures host == host' && port == port'
  {
    ItoaRoundTrip(port);
    ItoaRoundTrip(port');
    var a, b := Itoa(port), Itoa(port');
    assert '|' !in a && '|' !in b;
    hide Itoa;
    var head := "newsvc|";
    var s, t := host + "|" + a, host' + "|" + b;
    assert head + s == KeyFor(host, port) == head + t;
    assert (head + s)[|head|..] == s && (head + t)[|head|..] == t;
    LastBar(host, a, host', b);
  }

  lemma BarInside(p: string, a: string, q: string, b: string)
    requires p + "|" + a == q + "|" + b && |p| < |q|
    ensures '|' in a
  {
    assert (q + "|" + b)[|q|] == '|';
    assert (p + "|" + a)[|q|] == a[|q| - |p| - 1];
  }

  lemma LastBar(p: string, a: string, q: string, b: string)
    requires p + "|" + a == q + "|" + b && '|' !in a && '|' !in b
    ensures p == q && a == b
  {
    if |p| < |q| {
      BarInside(p, a, q, b);
    } else if |q| < |p| {
      BarInside(q, b, p, a);
    } else {
      assert p == (p + "|" + a)[..|p|] == (q + "|" + b)[..|q|] == q;
      assert a == (p + "|" + a)[|p| + 1..] == (q + "|" + b)[|q| + 1..] == b;
    }
  }

  /** A port has been flagged only if flows reached it. */
  lemma {:induction false} FlaggedWasSeen(c: Settings, h: seq<Event>, host: string, port: int)
    requires KeyFor(host, port) in After(c, h).last
    ensures port in Ports(c, h, host)
  {
    hide Concerns, KeyFor, Rested;
    if h != [] {
      var front, e := h[..|h| - 1], h[|h| - 1];
      if KeyFor(host, port) in After(c, front).last {
        FlaggedWasSeen(c, front, host, port);
      } else {
        KeysApart(host, port, e.dstIP, e.dstPort);
      }
    }
  }

  predicate NewPort(c: Settings, h: seq<Event>, e: Event)
  {
    Concerns(c, e) && e.dstPort !in Ports(c, h, e.dstIP)
  }

  /** The host has been known for the learning window. */
  predicate Settled(c: Settings, h: seq<Event>, e: Event)
  {
    var first := FirstFlow(c, h, e.dstIP);
    e.timestamp - (if first.Some? then first.value else e.timestamp) >= c.learn
  }

  /** Flow i reached the port while the host had been reached on no more ports than can be remembered. */
  ghost predicate ReachedAt(c: Settings, h: seq<Event>, i: nat, host: string, port: int)
    requires i < |h|
  {
    Concerns(c, h[i]) && h[i].dstIP == host && h[i].dstPort == port && |Ports(c, h[..i + 1], host)| <= 4096
  }

  ghost predicate Remembered(c: Settings, h: seq<Event>, host: string, port: int)
  {
    exists i :: 0 <= i < |h| && ReachedAt(c, h, i, host, port)
  }

  lemma RememberedSnoc(c: Settings, h: seq<Event>, e: Event, host: string, port: int)
    ensures Remembered(c, h + [e], host, port) <==>
            Remembered(c, h, host, port) ||
            (Concerns(c, e) && e.dstIP == host && e.dstPort == port && |Ports(c, h + [e], host)| <= 4096)
  {
    hide Concerns, Ports;
    var t := h + [e];
    assert t[..|h| + 1] == t;
    assert forall i :: 0 <= i < |h| ==> t[..i + 1] == h[..i + 1] && t[i] == h[i];
    assert forall i :: 0 <= i < |h| ==> ReachedAt(c, t, i, host, port) == ReachedAt(c, h, i, host, port);
    assert ReachedAt(c, t, |h|, host, port) ==
           (Concerns(c, e) && e.dstIP == host && e.dstPort == port && |Ports(c, t, host)| <= 4096);
  }

  /** The ports remembered of a host are those reached in time. */
  lemma {:induction false} RememberedIff(c: Settings, h: seq<Event>, host: string, port: int)
    ensures port in PortsAt(After(c, h).seen, host) <==> Remembered(c, h, host, port)
  {
    hide Flags, Concerns, KeyFor, Learnt, Remembered, Ports;
    if h == [] {
      NoneRemembered(c, host, port);
    } else {
      var front, e := h[..|h| - 1], h[|h| - 1];
      assert h == front + [e];
      RememberedIff(c, front, host, port);
      RememberedSnoc(c, front, e, host, port);
      RemembersHistory(c, front, host);
      HistoryOne(c, front, e, host);
      if Concerns(c, e) && e.dstIP == host {
        LearntOne(PortsAt(After(c, front).seen, host), Ports(c, front, host), e.dstPort);
        LearntOther(PortsAt(After(c, front).seen, host), e.dstPort, port);
      }
    }
  }

  lemma NoneRemembered(c: Settings, host: string, port: int)
    ensures !Remembered(c, [], host, port) && port !in PortsAt(After(c, []).seen, host)
  {
  }

  lemma LearntOther(ports: set<int>, port: int, other: int)
    ensures other != port ==> (other in Learnt(ports, port) <==> other in ports)
    ensures other in ports ==> other in Learnt(ports, port)
  {
  }

  /** When flows of the history last had the port of the host flagged. */
  ghost function LastFlag(c: Settings, h: seq<Event>, host: string, port: int): Option<int>
    decreases |h|, 0
  {
    if h == [] then None
    else
      var e := h[|h| - 1];
      if e.dstIP == host && e.dstPort == port && ShouldFlag(c, h[..|h| - 1], e) then Some(e.timestamp)
      else LastFlag(c, h[..|h| - 1], host, port)
  }

  /** Whether a flow is to be flagged after the history h, by the history alone. */
  ghost predicate ShouldFlag(c: Settings, h: seq<Event>, e: Event)
    decreases |h|, 1
  {
    Concerns(c, e) && !Remembered(c, h, e.dstIP, e.dstPort) && Settled(c, h, e) &&
    Rested(LastFlag(c, h, e.dstIP, e.dstPort), e.timestamp, c.cooldown)
  }

  /** One more flow moves the last flag of its own port only. */
  lemma LastAtSnoc(c: Settings, m: Memory, e: Event, host: string, port: int)
    ensures LastAt(Next(c, m, e), KeyFor(host, port)) ==
      if e.dstIP == host && e.dstPort == port && Flags(c, m, e) then Some(e.timestamp) else LastAt(m, KeyFor(host, port))
  {
    hide Rested, Learnt, PortsAt, KeyFor;
    assert Flags(c, m, e) ==> Concerns(c, e);
    if KeyFor(host, port) == KeyFor(e.dstIP, e.dstPort) {
      KeysApart(host, port, e.dstIP, e.dstPort);
    }
    hide Flags, Concerns;
  }

  lemma FlagsWhen(c: Settings, h: seq<Event>, e: Event)
    requires LastAt(After(c, h), KeyFor(e.dstIP, e.dstPort)) == LastFlag(c, h, e.dstIP, e.dstPort)
    ensures Flags(c, After(c, h), e) <==> ShouldFlag(c, h, e)
  {
    RememberedIff(c, h, e.dstIP, e.dstPort);
    RemembersHistory(c, h, e.dstIP);
    hide KeyFor, Concerns, After, Remembered, Learning, LastFlag, Ports, FirstFlow, Rested, LastAt;
  }

  lemma {:induction false} LastFlagIs(c: Settings, h: seq<Event>, host: string, port: int)
    ensures LastAt(After(c, h), KeyFor(host, port)) == LastFlag(c, h, host, port)
  {
    if h != [] {
      var front, e := h[..|h| - 1], h[|h| - 1];
      LastFlagIs(c, front, host, port);
      LastAtSnoc(c, After(c, front), e, host, port);
      if e.dstIP == host && e.dstPort == port {
        FlagsWhen(c, front, e);
      }
      hide Flags, ShouldFlag, KeyFor, Next, LastAt;
    } else {
      hide KeyFor, ShouldFlag;
    }
  }

  /**
   * A flow is flagged exactly when it concerns the detector, its port is not among those reached
   * while the host had at most as many as can be remembered, the host has settled, and the port
   * has rested since it was last flagged - all by the history alone, whatever it was.
   */
  lemma FlagsIff(c: Settings, h: seq<Event>, e: Event)
    ensures Flags(c, After(c, h), e) <==> ShouldFlag(c, h, e)
  {
    LastFlagIs(c, h, e.dstIP, e.dstPort);
    FlagsWhen(c, h, e);
  }

  /** Up to as many ports as can be remembered, what counts is that the port is new to the whole history. */
  lemma NewPortsOnly(c: Settings, h: seq<Event>, e: Event)
    requires |Ports(c, h, e.dstIP)| <= 4096
    ensures Flags(c, After(c, h), e) <==> NewPort(c, h, e) && Settled(c, h, e)
  {
    RemembersHistory(c, h, e.dstIP);
    hide KeyFor, Concerns, After;
    if KeyFor(e.dstIP, e.dstPort) in After(c, h).last {
      FlaggedWasSeen(c, h, e.dstIP, e.dstPort);
    }
  }

  /** A port that is new is flagged however many ports there were. */
  lemma NewPortAlwaysFlagged(c: Settings, h: seq<Event>, e: Event)
    requires NewPort(c, h, e)
    ensures Flags(c, After(c, h), e) <==> Settled(c, h, e)
  {
    RemembersHistory(c, h, e.dstIP);
    hide KeyFor, Concerns, After;
    if KeyFor(e.dstIP, e.dstPort) in After(c, h).last {
      FlaggedWasSeen(c, h, e.dstIP, e.dstPort);
    }
  }

  lemma {:induction false} PortsGrow(c: Settings, h: seq<Event>, n: nat, host: string)
    requires n <= |h|
    ensures Ports(c, h[..n], host) <= Ports(c, h, host)
  {
    hide Concerns;
    if n < |h| {
      PortsGrow(c, h[..|h| - 1], n, host);
      assert h[..|h| - 1][..n] == h[..n];
    } else {
      assert h[..n] == h;
    }
  }

  /** So no port of a host is flagged twice before the host has been reached on more ports than are remembered. */
  lemma FlaggedOnce(c: Settings, h: seq<Event>, i: nat, j: nat)
    requires i < j < |h| && h[i].dstIP == h[j].dstIP && h[i].dstPort == h[j].dstPort
    requires |Ports(c, h[..j], h[j].dstIP)| <= 4096
    ensures !(Flags(c, After(c, h[..i]), h[i]) && Flags(c, After(c, h[..j]), h[j]))
  {
    NewPortsOnly(c, h[..j], h[j]);
    PortCounted(c, h, i);
    PortsGrow(c, h[..j], i + 1, h[j].dstIP);
    assert h[..j][..i + 1] == h[..i + 1];
    assert Flags(c, After(c, h[..i]), h[i]) ==> Concerns(c, h[i]);
    hide Flags, After, Concerns, Settled, Ports;
  }

  lemma PortCounted(c: Settings, h: seq<Event>, i: nat)
    requires i < |h|
    ensures Concerns(c, h[i]) ==> h[i].dstPort in Ports(c, h[..i + 1], h[i].dstIP)
  {
    hide Concerns;
    assert h[..i + 1][i] == h[i];
  }
}
