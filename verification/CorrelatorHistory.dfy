/** The correlator's memory is a function of the history alone, and what follows for its incidents. */
module CorrelatorHistory {
  import opened Wire
  import opened Detections
  import opened Correlator

  function After(c: Config, h: seq<Op>): Memory
  {
    if h == [] then Memory(map[], map[])
    else Step(c, After(c, h[..|h| - 1]), h[|h| - 1])
  }

  // --- the history-only specification ---------------------------------------

  /** Where the actor's last incident left off: one past the operation that raised it. */
  ghost function Since(c: Config, h: seq<Op>, a: string): (n: nat)
    ensures n <= |h|
    decreases |h|, 0
  {
    if h == [] then 0
    else if ActorOf(h[|h| - 1]) == a && Fires(c, h[..|h| - 1], h[|h| - 1]) then |h|
    else Since(c, h[..|h| - 1], a)
  }

  /** When the actor's last incident was raised. */
  ghost function LastFired(c: Config, h: seq<Op>, a: string): Option<int>
    decreases |h|, 0
  {
    if h == [] then None
    else if ActorOf(h[|h| - 1]) == a && Fires(c, h[..|h| - 1], h[|h| - 1]) then Some(TimeOf(h[|h| - 1]))
    else LastFired(c, h[..|h| - 1], a)
  }

  predicate Relevant(op: Op, a: string, kind: Kind)
  {
    op.Detected? && op.d.actor == a && op.d.kind == kind
  }

  /** The actor's last detection of a kind, from position n on. */
  ghost function LastOf(h: seq<Op>, a: string, kind: Kind, n: nat): (r: Option<nat>)
    ensures r.Some? ==> n <= r.value < |h| && Relevant(h[r.value], a, kind)
  {
    if |h| <= n then None
    else if Relevant(h[|h| - 1], a, kind) then Some(|h| - 1)
    else LastOf(h[..|h| - 1], a, kind, n)
  }

  /** The last host named by a scan or brute force of the actor, from position n on. */
  ghost function LastTarget(h: seq<Op>, a: string, n: nat): string
  {
    if |h| <= n then ""
    else
      var op := h[|h| - 1];
      if (Relevant(op, a, PortScan) || Relevant(op, a, BruteForce)) && op.d.target != "" then op.d.target
      else LastTarget(h[..|h| - 1], a, n)
  }

  ghost function LastScan(c: Config, h: seq<Op>, a: string): (r: Option<nat>)
    ensures r.Some? ==> Since(c, h, a) <= r.value < |h| && Relevant(h[r.value], a, PortScan)
    decreases |h|, 1
  {
    LastOf(h, a, PortScan, Since(c, h, a))
  }

  ghost function LastBrute(c: Config, h: seq<Op>, a: string): (r: Option<nat>)
    ensures r.Some? ==> Since(c, h, a) <= r.value < |h| && Relevant(h[r.value], a, BruteForce)
    decreases |h|, 1
  {
    LastOf(h, a, BruteForce, Since(c, h, a))
  }

  /** The actor's last scan since its last incident has a time, and that time is within reach. */
  ghost predicate ScanLinks(c: Config, h: seq<Op>, a: string, before: int)
    decreases |h|, 2
  {
    var i := LastScan(c, h, a);
    i.Some? && h[i.value].d.lastAt != 0 && h[i.value].d.lastAt <= before <= h[i.value].d.lastAt + c.window
  }

  ghost predicate BruteLinks(c: Config, h: seq<Op>, a: string, before: int)
    decreases |h|, 2
  {
    var i := LastBrute(c, h, a);
    i.Some? && h[i.value].d.lastAt <= before <= h[i.value].d.lastAt + c.window
  }

  ghost predicate Cooling(c: Config, h: seq<Op>, a: string, at: int)
    decreases |h|, 2
  {
    LastFired(c, h, a).Some? && at - LastFired(c, h, a).value < c.cool
  }

  /** Whether op, after the history h, completes a chain. */
  ghost predicate Fires(c: Config, h: seq<Op>, op: Op)
    decreases |h|, 3
  {
    match op
    case Detected(_) => false
    case Tripped(d) =>
      && d.kind == Sentinel && d.actor != ""
      && !Cooling(c, h, d.actor, d.lastAt)
      && (ScanLinks(c, h, d.actor, d.lastAt) || BruteLinks(c, h, d.actor, d.lastAt))
    case LoggedIn(a, _, _, at, _) =>
      BruteLinks(c, h, a, at) && !Cooling(c, h, a, at)
  }

  // --- refinement -------------------------------------------------------------

  /** What is remembered of a is the last scan, brute force and target since its last incident. */
  ghost predicate Recalls(c: Config, h: seq<Op>, a: string, m: Memory)
  {
    && StateOf(m, a) == Recalled(c, h, a)
    && LastFired(c, h, a) == if a in m.fired then Some(m.fired[a]) else None
  }

  ghost function Recalled(c: Config, h: seq<Op>, a: string): ActorState
  {
    var scan, brute := LastScan(c, h, a), LastBrute(c, h, a);
    ActorState(if scan.Some? then h[scan.value].d.lastAt else 0,
               if scan.Some? then h[scan.value].d.title else "",
               if brute.Some? then h[brute.value].d.lastAt else 0,
               if brute.Some? then Some(h[brute.value].d) else None,
               LastTarget(h, a, Since(c, h, a)))
  }

  lemma RecalledFires(c: Config, h: seq<Op>, op: Op, m: Memory)
    requires Recalls(c, h, ActorOf(op), m)
    ensures Fires(c, h, op) <==> Completes(c, m, op)
  {
  }

  /** How the history-only functions change with one more operation. */
  lemma Snoc(c: Config, h: seq<Op>, op: Op, a: string)
    ensures (h + [op])[..|h|] == h
    ensures if ActorOf(op) == a && Fires(c, h, op)
            then Since(c, h + [op], a) == |h| + 1 && LastFired(c, h + [op], a) == Some(TimeOf(op))
            else Since(c, h + [op], a) == Since(c, h, a) && LastFired(c, h + [op], a) == LastFired(c, h, a)
  {
    hide Fires;
    assert (h + [op])[..|h|] == h;
  }

  lemma LastSnoc(h: seq<Op>, op: Op, a: string, n: nat)
    requires n <= |h|
    ensures forall kind :: LastOf(h + [op], a, kind, n) == if Relevant(op, a, kind) then Some(|h|) else LastOf(h, a, kind, n)
    ensures LastTarget(h + [op], a, n) ==
            if (Relevant(op, a, PortScan) || Relevant(op, a, BruteForce)) && op.d.target != "" then op.d.target
            else LastTarget(h, a, n)
  {
    assert (h + [op])[..|h|] == h;
  }

  lemma RecalledSnoc(c: Config, h: seq<Op>, op: Op, a: string)
    requires !(ActorOf(op) == a && Fires(c, h, op))
    ensures Recalled(c, h + [op], a) ==
            if op.Detected? && op.d.actor == a then Note(Recalled(c, h, a), op.d) else Recalled(c, h, a)
  {
    hide Fires;
    Snoc(c, h, op, a);
    LastSnoc(h, op, a, Since(c, h, a));
  }

  lemma RecallsStep(c: Config, h: seq<Op>, op: Op, a: string, m: Memory)
    requires Recalls(c, h, a, m) && Recalls(c, h, ActorOf(op), m)
    ensures Recalls(c, h + [op], a, Step(c, m, op))
  {
    RecalledFires(c, h, op, m);
    hide Fires, Completes, Recalled;
    Snoc(c, h, op, a);
    if ActorOf(op) == a && Fires(c, h, op) {
      NothingSince(c, h + [op], a);
    } else {
      RecalledSnoc(c, h, op, a);
    }
  }

  lemma NothingSince(c: Config, h: seq<Op>, a: string)
    requires Since(c, h, a) == |h|
    ensures Recalled(c, h, a) == BLANK
  {
    hide Fires;
  }

  lemma RecallsNothing(c: Config, a: string)
    ensures Recalls(c, [], a, Memory(map[], map[]))
  {
  }

  /** In every reachable state an actor's record is what its history calls for. */
  lemma {:induction false} Remembers(c: Config, h: seq<Op>, a: string)
    ensures Recalls(c, h, a, After(c, h))
  {
    hide Step, Recalls;
    if h == [] {
      RecallsNothing(c, a);
    } else {
      var before := h[..|h| - 1];
      Remembers(c, before, a);
      Remembers(c, before, ActorOf(h[|h| - 1]));
      RecallsStep(c, before, h[|h| - 1], a, After(c, before));
      assert before + [h[|h| - 1]] == h;
    }
  }

  /** The correlator raises an incident exactly when the history-only specification says so. */
  lemma RaisesIff(c: Config, h: seq<Op>, op: Op)
    ensures Raise(c, After(c, h), op).Some? <==> Fires(c, h, op)
  {
    Remembers(c, h, ActorOf(op));
    RecalledFires(c, h, op, After(c, h));
  }

  // --- incidents of a whole run -----------------------------------------------

  /** Operation i of the run raises an incident. */
  ghost predicate FiresAt(c: Config, h: seq<Op>, i: nat)
    requires i < |h|
  {
    Fires(c, h[..i], h[i])
  }

  function IfSo<T>(b: bool, o: Option<T>): seq<T>
  {
    if b && o.Some? then [o.value] else []
  }

  /** When the scan of a chain must have happened: before the brute force for a login, before the trip otherwise. */
  ghost function ScanDeadline(c: Config, h: seq<Op>, op: Op): int
  {
    var brute := LastBrute(c, h, ActorOf(op));
    if op.LoggedIn? && brute.Some? then h[brute.value].d.lastAt else TimeOf(op)
  }

  /** The positions an incident is made of, in the order of its timeline: the detections it links, then op itself. */
  ghost function Members(c: Config, h: seq<Op>, op: Op): seq<nat>
  {
    var a := ActorOf(op);
    IfSo(ScanLinks(c, h, a, ScanDeadline(c, h, op)), LastScan(c, h, a)) +
    IfSo(BruteLinks(c, h, a, TimeOf(op)), LastBrute(c, h, a)) + [|h|]
  }

  /** What a position can be in an incident's members. */
  lemma MembersOwn(c: Config, h: seq<Op>, op: Op, k: nat)
    requires k in Members(c, h, op)
    ensures k == |h| || (Since(c, h, ActorOf(op)) <= k < |h| && h[k].Detected? && ActorOf(h[k]) == ActorOf(op))
  {
    hide Since, LastOf;
  }

  /** The timeline of an incident shows its members in that order, each with its own time. */
  lemma TimelineIsMembers(c: Config, h: seq<Op>, op: Op)
    requires Fires(c, h, op)
    ensures var inc, ks := Raise(c, After(c, h), op), Members(c, h, op);
            && inc.Some? && inc.value.actor == ActorOf(op) && inc.value.lastAt == TimeOf(op)
            && |inc.value.members| == |ks|
            && forall n :: 0 <= n < |ks| ==> ks[n] <= |h| && inc.value.members[n].at == TimeOf((h + [op])[ks[n]])
  {
    RaisesIff(c, h, op);
    Remembers(c, h, ActorOf(op));
    RecalledFires(c, h, op, After(c, h));
    RecalledTimeline(c, h, op);
    assert Raise(c, After(c, h), op).value == IncidentOn(c, Recalled(c, h, ActorOf(op)), op);
  }

  ghost function IncidentOn(c: Config, s: ActorState, op: Op): Incident
    requires if op.Tripped? then HasScan(c, s, TimeOf(op)) || HasBrute(c, s, TimeOf(op)) else op.LoggedIn? && s.brute.Some?
  {
    if op.Tripped? then Deception(c, s, op.d) else Intrusion(c, s, op)
  }

  lemma RecalledTimeline(c: Config, h: seq<Op>, op: Op)
    requires Fires(c, h, op)
    ensures var s, ks := Recalled(c, h, ActorOf(op)), Members(c, h, op);
            && (if op.Tripped? then HasScan(c, s, TimeOf(op)) || HasBrute(c, s, TimeOf(op)) else op.LoggedIn? && s.brute.Some?)
            && |IncidentOn(c, s, op).members| == |ks|
            && forall n :: 0 <= n < |ks| ==> ks[n] <= |h| && IncidentOn(c, s, op).members[n].at == TimeOf((h + [op])[ks[n]])
  {
    hide Since, LastOf, LastTarget, Cooling, StagesOf;
  }

  // --- what an incident says ---------------------------------------------------

  /** The part that an operation plays in a chain. */
  predicate PlaysStage(op: Op, stage: Stage)
  {
    match stage
    case ScanStage => op.Detected? && op.d.kind == PortScan
    case BruteStage => op.Detected? && op.d.kind == BruteForce
    case DeceptionStage => op.Tripped?
    case SuccessStage => op.LoggedIn?
  }

  /** What a timeline says of an operation, in an incident on a target: its title, or who logged in where. */
  predicate SaysOf(op: Op, target: string, note: string)
  {
    var place := if target == "" then "the host" else target;
    match op
    case Detected(d) => note == d.title
    case Tripped(d) => note == d.title
    case LoggedIn(_, _, user, _, raw) =>
      note == if user != "" then "successful login as " + user + " on " + place
              else if raw != "" then raw else "successful login on " + place
  }

  /** The line m of a timeline is of the operation op. */
  predicate IsLine(op: Op, target: string, stage: Stage, m: Member)
  {
    PlaysStage(op, stage) && m.stage == stage && m.at == TimeOf(op) && SaysOf(op, target, m.note)
  }

  /** The host that an operation names itself. */
  function OwnHost(op: Op): string
  {
    if op.LoggedIn? then op.host else op.d.target
  }

  /**
   * The incident of op after the history h: a deception is always critical, and a login exactly
   * when the actor's last scan led up to the brute force; every stage and every line is that of the
   * operation in its place; the target is the host that op names, or else the last one named.
   */
  ghost predicate Tells(c: Config, h: seq<Op>, op: Op, inc: Incident)
  {
    var a, ks, all := ActorOf(op), Members(c, h, op), h + [op];
    && inc.severity == (if op.Tripped? || ScanLinks(c, h, a, ScanDeadline(c, h, op)) then "critical" else "high")
    && |inc.stages| == |inc.members| == |ks|
    && (forall n :: 0 <= n < |ks| ==> ks[n] < |all| && IsLine(all[ks[n]], inc.target, inc.stages[n], inc.members[n]))
    && inc.target == (if OwnHost(op) != "" then OwnHost(op) else LastTarget(h, a, Since(c, h, a)))
    && inc.actor == a && inc.lastAt == TimeOf(op) && inc.key == "killchain|" + a
  }

  /** The lines of what is remembered are those of the detections that are remembered. */
  lemma RecalledLines(c: Config, h: seq<Op>, a: string, target: string)
    ensures var s, i := Recalled(c, h, a), LastScan(c, h, a);
            i.Some? ==> s.scanAt == TimeOf(h[i.value]) && IsLine(h[i.value], target, ScanStage, ScanMember(s))
    ensures var s, i := Recalled(c, h, a), LastBrute(c, h, a);
            i.Some? ==> s.brute.Some? && s.bruteAt == TimeOf(h[i.value]) && IsLine(h[i.value], target, BruteStage, BruteMember(s))
  {
    hide Since, LastOf, LastTarget;
  }

  lemma RecalledLinks(c: Config, h: seq<Op>, a: string, before: int)
    ensures HasScan(c, Recalled(c, h, a), before) <==> ScanLinks(c, h, a, before)
    ensures HasBrute(c, Recalled(c, h, a), before) <==> BruteLinks(c, h, a, before)
    ensures Recalled(c, h, a).target == LastTarget(h, a, Since(c, h, a))
    ensures ScanLinks(c, h, a, before) ==> LastScan(c, h, a).Some?
    ensures BruteLinks(c, h, a, before) ==> LastBrute(c, h, a).Some?
  {
    hide Since, LastOf, LastTarget;
  }

  /** Timeline and stages are line by line those of the positions, when each part is. */
  lemma Assembled(all: seq<Op>, target: string, scan: Option<(nat, Member)>, brute: Option<(nat, Member)>, last: nat, m: Member)
    requires scan.Some? ==> scan.value.0 < |all| && IsLine(all[scan.value.0], target, ScanStage, scan.value.1)
    requires brute.Some? ==> brute.value.0 < |all| && IsLine(all[brute.value.0], target, BruteStage, brute.value.1)
    requires last < |all| && IsLine(all[last], target, m.stage, m)
    ensures var ks := (if scan.Some? then [scan.value.0] else []) + (if brute.Some? then [brute.value.0] else []) + [last];
            var ms := (if scan.Some? then [scan.value.1] else []) + (if brute.Some? then [brute.value.1] else []) + [m];
            |ms| == |ks| && forall n :: 0 <= n < |ks| ==> ks[n] < |all| && IsLine(all[ks[n]], target, StagesOf(ms)[n], ms[n])
  {
    hide PlaysStage, SaysOf;
  }

  lemma FiresParts(c: Config, h: seq<Op>, op: Op)
    requires Fires(c, h, op)
    ensures var a := ActorOf(op);
            if op.Tripped? then ScanLinks(c, h, a, TimeOf(op)) || BruteLinks(c, h, a, TimeOf(op))
            else op.LoggedIn? && BruteLinks(c, h, a, TimeOf(op))
  {
    hide ScanLinks, BruteLinks, Cooling;
  }

  lemma DeceptionTells(c: Config, h: seq<Op>, op: Op)
    requires Fires(c, h, op) && op.Tripped?
    ensures var s := Recalled(c, h, ActorOf(op));
            (HasScan(c, s, TimeOf(op)) || HasBrute(c, s, TimeOf(op))) && Tells(c, h, op, Deception(c, s, op.d))
  {
    var a, s := op.d.actor, Recalled(c, h, op.d.actor);
    FiresParts(c, h, op);
    RecalledLinks(c, h, a, TimeOf(op));
    var inc := Deception(c, s, op.d);
    RecalledLines(c, h, a, inc.target);
    var scan := if HasScan(c, s, TimeOf(op)) then Some((LastScan(c, h, a).value, ScanMember(s))) else None;
    var brute := if HasBrute(c, s, TimeOf(op)) then Some((LastBrute(c, h, a).value, BruteMember(s))) else None;
    hide Fires, HasScan, HasBrute, ScanLinks, BruteLinks, Recalled, LastScan, LastBrute, ScanMember, BruteMember, StagesOf, LastTarget;
    assert IsLine(op, inc.target, DeceptionStage, Member(op.d.lastAt, DeceptionStage, op.d.title));
    assert forall i :: 0 <= i < |h| ==> (h + [op])[i] == h[i];
    hide IsLine;
    Assembled(h + [op], inc.target, scan, brute, |h|, Member(op.d.lastAt, DeceptionStage, op.d.title));
  }

  lemma IntrusionTells(c: Config, h: seq<Op>, op: Op)
    requires Fires(c, h, op) && op.LoggedIn?
    ensures var s := Recalled(c, h, ActorOf(op)); s.brute.Some? && Tells(c, h, op, Intrusion(c, s, op))
  {
    var a, s := op.actor, Recalled(c, h, op.actor);
    FiresParts(c, h, op);
    RecalledLinks(c, h, a, TimeOf(op));
    RecalledLines(c, h, a, "");
    RecalledLinks(c, h, a, s.bruteAt);
    var inc := Intrusion(c, s, op);
    RecalledLines(c, h, a, inc.target);
    assert ScanDeadline(c, h, op) == s.bruteAt;
    var scan := if HasScan(c, s, s.bruteAt) then Some((LastScan(c, h, a).value, ScanMember(s))) else None;
    var brute := Some((LastBrute(c, h, a).value, BruteMember(s)));
    var own := Member(op.at, SuccessStage, SuccessNote(op.user, inc.target, op.raw));
    hide Fires, HasScan, HasBrute, ScanLinks, BruteLinks, Recalled, LastScan, LastBrute, ScanMember, BruteMember, StagesOf, LastTarget, ScanDeadline;
    assert IsLine(op, inc.target, SuccessStage, own);
    assert forall i :: 0 <= i < |h| ==> (h + [op])[i] == h[i];
    hide IsLine, SuccessNote;
    Assembled(h + [op], inc.target, scan, brute, |h|, own);
    assert inc.members == (if scan.Some? then [scan.value.1] else []) + [brute.value.1] + [own];
  }

  /** A login's incident starts with the brute force, or with the last scan if that came before, however long. */
  lemma LoginStart(c: Config, h: seq<Op>, op: Op)
    requires Fires(c, h, op) && op.LoggedIn?
    ensures var inc, scan, brute := Raise(c, After(c, h), op), LastScan(c, h, op.actor), LastBrute(c, h, op.actor);
            && inc.Some? && brute.Some?
            && var t := TimeOf(h[brute.value]);
               inc.value.firstAt == if scan.Some? && TimeOf(h[scan.value]) != 0 && TimeOf(h[scan.value]) < t then TimeOf(h[scan.value]) else t
  {
    RaisesIff(c, h, op);
    Remembers(c, h, ActorOf(op));
    FiresParts(c, h, op);
    RecalledLinks(c, h, op.actor, TimeOf(op));
    RecalledLines(c, h, op.actor, "");
    hide Fires, Since, LastOf, LastTarget, Completes, After, HasScan, HasBrute, ScanLinks, BruteLinks, StagesOf, IsLine;
  }

  /** Every incident tells what the history says. */
  lemma IncidentTells(c: Config, h: seq<Op>, op: Op)
    requires Fires(c, h, op)
    ensures var inc := Raise(c, After(c, h), op); inc.Some? && Tells(c, h, op, inc.value)
  {
    RaisesIff(c, h, op);
    Remembers(c, h, ActorOf(op));
    if op.Tripped? {
      DeceptionTells(c, h, op);
    } else {
      IntrusionTells(c, h, op);
    }
    hide Fires, Tells, Deception, Intrusion, Recalled, Completes, HasScan, HasBrute, After;
  }

  lemma {:induction false} SinceAfter(c: Config, h: seq<Op>, i: nat, n: nat, a: string)
    requires i < n <= |h| && FiresAt(c, h, i) && ActorOf(h[i]) == a
    ensures Since(c, h[..n], a) > i
    ensures LastFired(c, h[..n], a).Some?
    ensures c.cool > 0 ==> LastFired(c, h[..n], a).value >= TimeOf(h[i])
    decreases n
  {
    hide Fires;
    var before, op := h[..n - 1], h[n - 1];
    assert h[..n] == before + [op];
    Snoc(c, before, op, a);
    if i < n - 1 {
      SinceAfter(c, h, i, n - 1, a);
      if ActorOf(op) == a && Fires(c, before, op) {
        FiresCool(c, before, op);
      }
    }
  }

  lemma FiresCool(c: Config, h: seq<Op>, op: Op)
    requires Fires(c, h, op)
    ensures !Cooling(c, h, ActorOf(op), TimeOf(op))
  {
  }

  /** No detection, and no triggering event, is part of two incidents. */
  lemma MembersDisjoint(c: Config, h: seq<Op>, i: nat, j: nat, k: nat)
    requires i < j < |h| && FiresAt(c, h, i) && FiresAt(c, h, j)
    ensures !(k in Members(c, h[..i], h[i]) && k in Members(c, h[..j], h[j]))
  {
    if k in Members(c, h[..i], h[i]) && k in Members(c, h[..j], h[j]) {
      MembersOwn(c, h[..i], h[i], k);
      MembersOwn(c, h[..j], h[j], k);
      if ActorOf(h[i]) == ActorOf(h[j]) {
        SinceAfter(c, h, i, j, ActorOf(h[j]));
      }
    }
  }

  /** Any two incidents of one actor are at least the cooldown apart. */
  lemma IncidentsApart(c: Config, h: seq<Op>, i: nat, j: nat)
    requires c.cool > 0
    requires i < j < |h| && FiresAt(c, h, i) && FiresAt(c, h, j) && ActorOf(h[i]) == ActorOf(h[j])
    ensures TimeOf(h[j]) - TimeOf(h[i]) >= c.cool
  {
    SinceAfter(c, h, i, j, ActorOf(h[j]));
    FiresCool(c, h[..j], h[j]);
  }

  // --- the time an incident starts ---------------------------------------------

  ghost predicate EarliestMember(inc: Incident)
  {
    && (exists m :: m in inc.members && m.at == inc.firstAt)
    && forall m :: m in inc.members ==> inc.firstAt <= m.at
  }

  lemma DeceptionStartsEarliest(c: Config, m: Memory, d: Detection)
    requires Completes(c, m, Tripped(d))
    ensures EarliestMember(Raise(c, m, Tripped(d)).value)
  {
    var s := StateOf(m, d.actor);
    var inc := Deception(c, s, d);
    if HasScan(c, s, d.lastAt) {
      assert ScanMember(s) in inc.members;
    }
    if HasBrute(c, s, d.lastAt) {
      assert BruteMember(s) in inc.members;
    }
  }

  /**
   * A login's incident starts with its earliest member unless the actor's remembered scan came
   * before the brute force and is too old to be linked to it: then it starts with that scan,
   * which is not a member.
   */
  lemma IntrusionStartsEarliestIff(c: Config, m: Memory, op: Op)
    requires op.LoggedIn? && Completes(c, m, op)
    ensures var s := StateOf(m, op.actor);
            EarliestMember(Raise(c, m, op).value) <==>
              !(s.scanAt != 0 && s.scanAt < s.bruteAt && s.bruteAt - s.scanAt > c.window)
  {
    var s := StateOf(m, op.actor);
    var inc := Intrusion(c, s, op);
    assert BruteMember(s) in inc.members;
    if HasScan(c, s, s.bruteAt) {
      assert ScanMember(s) in inc.members;
    }
  }

  // --- actors do not interfere --------------------------------------------------

  function OnlyOf(h: seq<Op>, a: string): seq<Op>
  {
    if h == [] then []
    else OnlyOf(h[..|h| - 1], a) + if ActorOf(h[|h| - 1]) == a then [h[|h| - 1]] else []
  }

  /** The incidents of a run, in order. */
  function Incidents(c: Config, h: seq<Op>): seq<Incident>
  {
    if h == [] then []
    else Incidents(c, h[..|h| - 1]) + ToSeq(Raise(c, After(c, h[..|h| - 1]), h[|h| - 1]))
  }

  function IncidentsOf(incs: seq<Incident>, a: string): seq<Incident>
  {
    if incs == [] then []
    else IncidentsOf(incs[..|incs| - 1], a) + if incs[|incs| - 1].actor == a then [incs[|incs| - 1]] else []
  }

  /** Two memories that agree about a. */
  ghost predicate SameAbout(m: Memory, n: Memory, a: string)
  {
    && (a in m.states <==> a in n.states) && (a in m.states ==> m.states[a] == n.states[a])
    && (a in m.fired <==> a in n.fired) && (a in m.fired ==> m.fired[a] == n.fired[a])
  }

  lemma StepSame(c: Config, m: Memory, n: Memory, op: Op, a: string)
    requires SameAbout(m, n, a)
    ensures ActorOf(op) == a ==> SameAbout(Step(c, m, op), Step(c, n, op), a) && Raise(c, m, op) == Raise(c, n, op)
    ensures ActorOf(op) != a ==> SameAbout(Step(c, m, op), n, a)
  {
  }

  lemma RaiseActor(c: Config, m: Memory, op: Op)
    ensures Raise(c, m, op).Some? ==> Raise(c, m, op).value.actor == ActorOf(op)
  {
  }

  lemma IncidentsOfAppend(incs: seq<Incident>, o: Option<Incident>, a: string)
    ensures IncidentsOf(incs + ToSeq(o), a) ==
            IncidentsOf(incs, a) + if o.Some? && o.value.actor == a then [o.value] else []
  {
    match o
    case None =>
      assert incs + [] == incs;
    case Some(inc) =>
      assert (incs + [inc])[..|incs|] == incs;
  }

  lemma {:induction false} OnlyOfState(c: Config, h: seq<Op>, a: string)
    ensures SameAbout(After(c, h), After(c, OnlyOf(h, a)), a)
    ensures IncidentsOf(Incidents(c, h), a) == Incidents(c, OnlyOf(h, a))
  {
    if h != [] {
      var before, op := h[..|h| - 1], h[|h| - 1];
      var m, n, mine := After(c, before), After(c, OnlyOf(before, a)), OnlyOf(before, a);
      OnlyOfState(c, before, a);
      StepSame(c, m, n, op, a);
      RaiseActor(c, m, op);
      IncidentsOfAppend(Incidents(c, before), Raise(c, m, op), a);
      hide Raise, Step;
      if ActorOf(op) == a {
        assert (mine + [op])[..|mine|] == mine && OnlyOf(h, a) == mine + [op];
        assert ToSeq(Raise(c, m, op)) == if Raise(c, m, op).Some? then [Raise(c, m, op).value] else [];
      } else {
        assert OnlyOf(h, a) == mine + [] == mine;
        assert Incidents(c, mine) + [] == Incidents(c, mine);
      }
    }
  }

  /** The incidents of one actor are those of the run restricted to that actor's events. */
  lemma ActorsDoNotInterfere(c: Config, h: seq<Op>, a: string)
    ensures IncidentsOf(Incidents(c, h), a) == Incidents(c, OnlyOf(h, a))
  {
    OnlyOfState(c, h, a);
  }
}
