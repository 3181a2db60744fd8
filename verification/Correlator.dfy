/** The kill-chain correlator: what it remembers of each actor and when it raises an incident. */
module Correlator {
  import opened Wire
  import opened Detections

  datatype Stage = ScanStage | BruteStage | SuccessStage | DeceptionStage

  datatype Member = Member(at: int, stage: Stage, note: string)

  datatype Incident = Incident(
    severity: string, actor: string, target: string, stages: seq<Stage>, members: seq<Member>,
    firstAt: int, lastAt: int, key: string)

  /** An unset time is zero. */
  datatype ActorState = ActorState(scanAt: int, scanNote: string, bruteAt: int, brute: Option<Detection>, target: string)

  const BLANK := ActorState(0, "", 0, None, "")

  datatype Config = Config(window: int, cool: int)

  datatype Memory = Memory(states: map<string, ActorState>, fired: map<string, int>)

  datatype Op =
    | Detected(d: Detection)
    | Tripped(d: Detection)
    | LoggedIn(actor: string, host: string, user: string, at: int, raw: string)

  function ActorOf(op: Op): string
  {
    match op
    case Detected(d) => d.actor
    case Tripped(d) => d.actor
    case LoggedIn(actor, _, _, _, _) => actor
  }

  function TimeOf(op: Op): int
  {
    if op.LoggedIn? then op.at else op.d.lastAt
  }

  function StateOf(m: Memory, actor: string): ActorState
  {
    if actor in m.states then m.states[actor] else BLANK
  }

  function Note(s: ActorState, d: Detection): ActorState
  {
    var t := if d.target != "" then d.target else s.target;
    match d.kind
    case PortScan => s.(scanAt := d.lastAt, scanNote := d.title, target := t)
    case BruteForce => s.(bruteAt := d.lastAt, brute := Some(d), target := t)
    case _ => s
  }

  function OrTheHost(s: string): string
  {
    if s == "" then "the host" else s
  }

  function SuccessNote(user: string, target: string, raw: string): string
  {
    if user != "" then "successful login as " + user + " on " + OrTheHost(target)
    else if raw != "" then raw
    else "successful login on " + OrTheHost(target)
  }

  predicate CoolingDown(c: Config, m: Memory, actor: string, at: int)
  {
    actor in m.fired && at - m.fired[actor] < c.cool
  }

  // --- what completes a chain ----------------------------------------------

  predicate Within(c: Config, earlier: int, later: int)
  {
    later - earlier <= c.window && earlier <= later
  }

  predicate HasScan(c: Config, s: ActorState, before: int)
  {
    s.scanAt != 0 && Within(c, s.scanAt, before)
  }

  predicate HasBrute(c: Config, s: ActorState, before: int)
  {
    s.brute.Some? && Within(c, s.bruteAt, before)
  }

  predicate Completes(c: Config, m: Memory, op: Op)
  {
    match op
    case Detected(_) => false
    case Tripped(d) =>
      var s := StateOf(m, d.actor);
      && d.kind == Sentinel && d.actor != ""
      && !CoolingDown(c, m, d.actor, d.lastAt)
      && (HasScan(c, s, d.lastAt) || HasBrute(c, s, d.lastAt))
    case LoggedIn(actor, _, _, at, _) =>
      HasBrute(c, StateOf(m, actor), at) && !CoolingDown(c, m, actor, at)
  }

  function StagesOf(members: seq<Member>): seq<Stage>
  {
    seq(|members|, i requires 0 <= i < |members| => members[i].stage)
  }

  function ScanMember(s: ActorState): Member
  {
    Member(s.scanAt, ScanStage, s.scanNote)
  }

  function BruteMember(s: ActorState): Member
    requires s.brute.Some?
  {
    Member(s.bruteAt, BruteStage, s.brute.value.title)
  }

  function Deception(c: Config, s: ActorState, d: Detection): Incident
    requires HasScan(c, s, d.lastAt) || HasBrute(c, s, d.lastAt)
  {
    var scan, brute := HasScan(c, s, d.lastAt), HasBrute(c, s, d.lastAt);
    var members := (if scan then [ScanMember(s)] else []) + (if brute then [BruteMember(s)] else []) + [Member(d.lastAt, DeceptionStage, d.title)];
    Incident("critical", d.actor, if d.target != "" then d.target else s.target,
             StagesOf(members), members,
             if !scan || (brute && s.bruteAt < s.scanAt) then s.bruteAt else s.scanAt,
             d.lastAt, "killchain|" + d.actor)
  }

  function Intrusion(c: Config, s: ActorState, op: Op): Incident
    requires op.LoggedIn? && s.brute.Some?
  {
    var target := if op.host != "" then op.host else s.target;
    var scan := HasScan(c, s, s.bruteAt);
    var members := (if scan then [ScanMember(s)] else []) + [BruteMember(s), Member(op.at, SuccessStage, SuccessNote(op.user, target, op.raw))];
    Incident(if scan then "critical" else "high", op.actor, target,
             StagesOf(members), members,
             if s.scanAt != 0 && s.scanAt < s.bruteAt then s.scanAt else s.bruteAt,
             op.at, "killchain|" + op.actor)
  }

  function Raise(c: Config, m: Memory, op: Op): Option<Incident>
  {
    if !Completes(c, m, op) then None
    else if op.Tripped? then Some(Deception(c, StateOf(m, op.d.actor), op.d))
    else Some(Intrusion(c, StateOf(m, op.actor), op))
  }

  /** An incident starts the actor's cooldown and consumes what was remembered of it. */
  function Step(c: Config, m: Memory, op: Op): Memory
  {
    if Completes(c, m, op) then Memory(m.states - {ActorOf(op)}, m.fired[ActorOf(op) := TimeOf(op)])
    else if op.Detected? && op.d.kind in {PortScan, BruteForce} then
      m.(states := m.states[op.d.actor := Note(StateOf(m, op.d.actor), op.d)])
    else m
  }

  const DEFAULT_WINDOW: int := 10 * 60 * 1_000_000_000
  const DEFAULT_COOLDOWN: int := 15 * 60 * 1_000_000_000

  // --- the correlator as it runs -------------------------------------------

  class Correlator {
    const window: int
    const cool: int
    var states: map<string, ActorState>
    var fired: map<string, int>

    ghost function Contents(): Memory
      reads this
    {
      Memory(states, fired)
    }

    constructor (window: int, cooldown: int)
      ensures Contents() == Memory(map[], map[])
      ensures this.window == (if window <= 0 then 600_000_000_000 else window) && this.window > 0
      ensures this.cool == (if cooldown <= 0 then 900_000_000_000 else cooldown) && this.cool > 0
    {
      this.window := if window <= 0 then DEFAULT_WINDOW else window;
      this.cool := if cooldown <= 0 then DEFAULT_COOLDOWN else cooldown;
      states, fired := map[], map[];
    }

    method ObserveDetection(d: Detection)
      modifies this
      ensures Contents() == Step(Config(window, cool), old(Contents()), Detected(d))
    {
      match d.kind {
        case PortScan =>
          var s := if d.actor in states then states[d.actor] else BLANK;
          s := s.(scanAt := d.lastAt, scanNote := d.title);
          if d.target != "" {
            s := s.(target := d.target);
          }
          states := states[d.actor := s];
        case BruteForce =>
          var s := if d.actor in states then states[d.actor] else BLANK;
          s := s.(bruteAt := d.lastAt, brute := Some(d));
          if d.target != "" {
            s := s.(target := d.target);
          }
          states := states[d.actor := s];
        case _ =>
      }
    }

    method ObserveSentinelFinding(d: Detection) returns (inc: Option<Incident>)
      modifies this
      ensures Contents() == Step(Config(window, cool), old(Contents()), Tripped(d))
      ensures inc == Raise(Config(window, cool), old(Contents()), Tripped(d))
    {
      if d.kind != Sentinel || d.actor == "" || d.actor !in states {
        return None;
      }
      var at, s := d.lastAt, states[d.actor];
      if d.actor in fired && at - fired[d.actor] < cool {
        return None;
      }
      var hasScan := s.scanAt != 0 && at - s.scanAt <= window && !(s.scanAt > at);
      var hasBrute := s.brute.Some? && at - s.bruteAt <= window && !(s.bruteAt > at);
      if !hasScan && !hasBrute {
        return None;
      }
      var firstAt, stages, members := 0, [], [];
      if hasScan {
        firstAt := s.scanAt;
        stages := stages + [ScanStage];
        members := members + [Member(s.scanAt, ScanStage, s.scanNote)];
      }
      if hasBrute {
        if firstAt == 0 || s.bruteAt < firstAt {
          firstAt := s.bruteAt;
        }
        stages := stages + [BruteStage];
        members := members + [Member(s.bruteAt, BruteStage, s.brute.value.title)];
      }
      stages := stages + [DeceptionStage];
      members := members + [Member(at, DeceptionStage, d.title)];
      assert stages == StagesOf(members);
      assert members == Deception(Config(window, cool), s, d).members;
      inc := Some(Incident("critical", d.actor, if d.target != "" then d.target else s.target,
                           stages, members, firstAt, at, "killchain|" + d.actor));
      assert inc == Some(Deception(Config(window, cool), s, d));
      fired := fired[d.actor := at];
      states := states - {d.actor};
    }

    method ObserveSuccess(actor: string, host: string, user: string, at: int, raw: string) returns (inc: Option<Incident>)
      modifies this
      ensures Contents() == Step(Config(window, cool), old(Contents()), LoggedIn(actor, host, user, at, raw))
      ensures inc == Raise(Config(window, cool), old(Contents()), LoggedIn(actor, host, user, at, raw))
    {
      if actor !in states || states[actor].brute.None? {
        return None;
      }
      var s := states[actor];
      if at - s.bruteAt > window || at < s.bruteAt {
        return None;
      }
      if actor in fired && at - fired[actor] < cool {
        return None;
      }
      var hasScan := s.scanAt != 0 && s.bruteAt - s.scanAt <= window && !(s.scanAt > s.bruteAt);
      var target := if host != "" then host else s.target;
      var firstAt := s.bruteAt;
      if s.scanAt != 0 && s.scanAt < firstAt {
        firstAt := s.scanAt;
      }
      var severity, stages, members := "high", [BruteStage, SuccessStage], [];
      if hasScan {
        severity := "critical";
        stages := [ScanStage, BruteStage, SuccessStage];
        members := members + [Member(s.scanAt, ScanStage, s.scanNote)];
      }
      members := members + [Member(s.bruteAt, BruteStage, s.brute.value.title), Member(at, SuccessStage, SuccessNote(user, target, raw))];
      assert stages == StagesOf(members);
      assert members == Intrusion(Config(window, cool), s, LoggedIn(actor, host, user, at, raw)).members;
      inc := Some(Incident(severity, actor, target, stages, members, firstAt, at, "killchain|" + actor));
      assert inc == Some(Intrusion(Config(window, cool), s, LoggedIn(actor, host, user, at, raw)));
      fired := fired[actor := at];
      states := states - {actor};
    }
  }
}
