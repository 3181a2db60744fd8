/** The dispatcher as it runs: fields updated in place, a map emptied module by module. */
module DispatcherService {
  import opened Wire
  import opened Findings
  import opened SeveritySort
  import opened Sums
  import opened Dispatcher

  class Service {
    const cfg: Settings
    var pending: Pending
    var seen: set<string>
    var timer: bool
    var closed: bool
    var outbox: seq<Digest>
    ghost var accepted: seq<Event>
    ghost var batches: seq<Batch>

    ghost function Contents(): Box
      reads this
    {
      Box(pending, seen, timer, closed, accepted, batches)
    }

    /** Every digest handed to the channels is that of a batch, in order. */
    ghost predicate Posted()
      reads this
    {
      |outbox| == |batches| && forall i :: 0 <= i < |outbox| ==> outbox[i] == DigestOf(batches[i])
    }

    ghost predicate Valid()
      reads this
    {
      cfg.maxBatch >= 1 && Inv(cfg, Contents()) && Posted()
    }

    constructor (c: Settings)
      ensures Valid() && Contents() == EMPTY && cfg == WithDefaults(c)
      ensures cfg.maxBatch == (if c.maxBatch <= 0 then 100 else c.maxBatch) && cfg.retries == (if c.retries <= 0 then 3 else c.retries)
      ensures cfg.minSeverity == c.minSeverity
    {
      cfg := WithDefaults(c);
      pending, seen, timer, closed, outbox := map[], {}, false, false, [];
      accepted, batches := [], [];
      EmptyInv(WithDefaults(c));
    }

    /** One module's digest: openings sorted most severe first, resolutions as they came. */
    method BuildDigest(mod: string, events: seq<Event>) returns (d: Digest)
      ensures d == DigestOf(Batch(mod, events))
    {
      var firing, resolved: seq<Finding> := [], [];
      for i := 0 to |events|
        invariant firing == FindingsOf(events[..i], Opened) && resolved == FindingsOf(events[..i], Closed)
      {
        assert events[..i + 1][..i] == events[..i];
        match events[i].kind {
          case Opened => firing := firing + [events[i].finding];
          case Closed => resolved := resolved + [events[i].finding];
        }
      }
      assert events[..|events|] == events;
      var a := new Finding[|firing|](i requires 0 <= i < |firing| => firing[i]);
      assert a[..] == firing;
      SortBySeverity(a);
      d := Digest(mod, a[..], resolved);
    }

    /** Hands one module's digest to the channels. */
    method Post(m: string)
      requires Posted() && m in pending
      modifies `outbox, `batches
      ensures Posted() && batches == old(batches) + [Batch(m, pending[m])]
    {
      hide DigestOf;
      var d := BuildDigest(m, pending[m]);
      outbox := outbox + [d];
      batches := batches + [Batch(m, pending[m])];
    }

    method FlushLocked()
      requires Posted()
      requires pending == map[] ==> seen == {}
      modifies this
      ensures Posted() && Flushed(old(Contents()), Contents())
    {
      hide DigestOf, Covers, CoversSome;
      timer := false;
      CoversNothing(pending);
      if pending == map[] {
        assert pending.Keys == {};
        CoversAll(pending, []);
        assert batches == batches + [];
        return;
      }
      var rest := pending.Keys;
      ghost var bs: seq<Batch> := [];
      assert pending.Keys - rest == {};
      while rest != {}
        invariant rest <= pending.Keys
        invariant pending == old(pending) && seen == old(seen) && !timer && closed == old(closed) && accepted == old(accepted)
        invariant batches == old(batches) + bs && Posted()
        invariant CoversSome(pending, pending.Keys - rest, bs)
        decreases rest
      {
        var m :| m in rest;
        ghost var done := pending.Keys - rest;
        CoversMore(pending, done, bs, m);
        rest := rest - {m};
        Post(m);
        bs := bs + [Batch(m, pending[m])];
        assert pending.Keys - rest == done + {m};
      }
      assert pending.Keys - {} == pending.Keys;
      CoversAll(pending, bs);
      pending, seen := map[], {};
    }

    /** The number of pending events, module by module. */
    method CountPending() returns (total: int)
      ensures total == Total(pending)
    {
      total := 0;
      var rest := pending.Keys;
      assert Among(pending, rest) == pending;
      while rest != {}
        invariant rest <= pending.Keys
        invariant total + Sum(Lengths(Among(pending, rest))) == Total(pending)
        decreases rest
      {
        var m :| m in rest;
        SumRemove(Lengths(Among(pending, rest)), m);
        assert Lengths(Among(pending, rest)) - {m} == Lengths(Among(pending, rest - {m}));
        total := total + |pending[m]|;
        rest := rest - {m};
      }
      assert Lengths(Among(pending, {})) == map[];
      SumEmpty<string>();
    }

    method Enqueue(e: Event)
      requires Valid()
      modifies this
      ensures Valid() && Enqueued(cfg, old(Contents()), e, Contents())
    {
      hide Inv, Flushed, Total, DedupKey, Passes, DigestOf;
      ghost var before := Contents();
      if !Passes(cfg, e) || closed || DedupKey(e) in seen {
        return;
      }
      seen := seen + {DedupKey(e)};
      pending := pending[e.mod := PendingOf(pending, e.mod) + [e]];
      accepted := accepted + [e];
      ghost var pushed := Push(before, e);
      assert Contents() == pushed;
      var total := CountPending();
      if total >= cfg.maxBatch {
        assert e.mod in pending;
        FlushLocked();
        assert Flushed(pushed, Contents());
      } else {
        timer := true;
        assert Contents() == pushed.(timer := true);
      }
      EnqueueInv(cfg, before, e, Contents());
    }

    method Flush()
      requires Valid()
      modifies this
      ensures Valid() && Flushed(old(Contents()), Contents())
    {
      assert pending == map[] ==> seen == {};
      FlushLocked();
      FlushInv(cfg, old(Contents()), Contents());
    }

    method Close()
      requires Valid()
      modifies this
      ensures Valid() && Shut(old(Contents()), Contents())
    {
      assert pending == map[] ==> seen == {};
      FlushLocked();
      closed := true;
      assert Contents().(closed := old(closed)) == Box(pending, seen, timer, old(closed), accepted, batches);
      ShutInv(cfg, old(Contents()), Contents());
    }
  }

  /** bs holds the pending events of the modules in done, each module once. */
  ghost predicate CoversSome(p: Pending, done: set<string>, bs: seq<Batch>)
  {
    && (forall i :: 0 <= i < |bs| ==> bs[i].mod in done && bs[i].mod in p && bs[i].events == p[bs[i].mod])
    && (forall i, j :: 0 <= i < j < |bs| ==> bs[i].mod != bs[j].mod)
    && (forall m :: m in done ==> exists i :: 0 <= i < |bs| && bs[i].mod == m)
  }

  lemma CoversNothing(p: Pending)
    ensures CoversSome(p, {}, [])
  {
  }

  lemma CoversAll(p: Pending, bs: seq<Batch>)
    requires CoversSome(p, p.Keys, bs)
    ensures Covers(p, bs)
  {
  }

  lemma CoversMore(p: Pending, done: set<string>, bs: seq<Batch>, m: string)
    requires CoversSome(p, done, bs) && m in p && m !in done
    ensures CoversSome(p, done + {m}, bs + [Batch(m, p[m])])
  {
    var cs := bs + [Batch(m, p[m])];
    forall n | n in done + {m} ensures exists i :: 0 <= i < |cs| && cs[i].mod == n {
      if n == m {
        assert cs[|bs|].mod == n;
      } else {
        var i :| 0 <= i < |bs| && bs[i].mod == n;
        assert cs[i].mod == n;
      }
    }
  }

  ghost function Among(p: Pending, ms: set<string>): Pending
  {
    map m | m in p && m in ms :: p[m]
  }

  /**
   * Sends a digest to one channel until it succeeds or the attempts run out; outcomes says what the
   * channel would answer each time.
   */
  method SendWithRetry(retries: int, outcomes: seq<bool>) returns (attempts: nat, delivered: bool)
    requires retries <= |outcomes|
    ensures delivered <==> exists i :: 0 <= i < retries && outcomes[i]
    ensures delivered ==> 1 <= attempts <= retries && outcomes[attempts - 1] && forall i :: 0 <= i < attempts - 1 ==> !outcomes[i]
    ensures !delivered ==> attempts == if retries > 0 then retries else 0
  {
    attempts := 0;
    while attempts < retries
      invariant attempts == 0 || attempts <= retries
      invariant forall i :: 0 <= i < attempts ==> !outcomes[i]
    {
      attempts := attempts + 1;
      if outcomes[attempts - 1] {
        return attempts, true;
      }
    }
    delivered := false;
  }
}
