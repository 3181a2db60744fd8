/** What holds of the decoder on every input, well-formed or not. */
module NetFlowBounds {
  import opened Wire
  import opened NetFlow

  // --- no more than one flow per eight octets ------------------------------

  /** How many octets f still has to read before it can be a flow. */
  function Missing(f: Flow): nat
  {
    (if f.src == NoAddr then 4 else 0) + (if f.dst == NoAddr then 4 else 0)
  }

  lemma ApplyMissing(f: Flow, tf: Field, v: Bytes)
    ensures Missing(f) <= Missing(Apply(f, tf, v)) + |v|
  {
  }

  lemma {:induction false} FixedMissing(f: Flow, tpl: seq<Field>, r: Bytes)
    requires SumLen(tpl) <= |r|
    ensures Missing(f) <= Missing(FixedFields(f, tpl, r)) + SumLen(tpl)
    decreases |tpl|
  {
    if tpl != [] {
      ApplyMissing(f, tpl[0], r[..tpl[0].len]);
      FixedMissing(Apply(f, tpl[0], r[..tpl[0].len]), tpl[1..], r[tpl[0].len..]);
    }
  }

  lemma {:induction false} VarMissing(f: Flow, tpl: seq<Field>, r: Bytes)
    ensures var res := VarFields(f, tpl, r);
            res.Some? ==> Missing(f) <= Missing(res.value.0) + res.value.1
    decreases |tpl|
  {
    if tpl != [] {
      match ValueLength(tpl[0], r)
      case None =>
      case Some((p, l)) =>
        if p + l <= |r| {
          var v, rest := r[p..p + l], r[p + l..];
          ApplyMissing(f, tpl[0], v);
          VarMissing(Apply(f, tpl[0], v), tpl[1..], rest);
          assert VarFields(f, tpl, r).Some? ==> VarFields(f, tpl, r).value.1 == p + |v| + VarFields(Apply(f, tpl[0], v), tpl[1..], rest).value.1;
        }
    }
  }

  lemma NextRecordSize(b: Bytes, tpl: seq<Field>, exporter: string, now: int)
    ensures var s := NextRecord(b, tpl, exporter, now);
            s.Read? && s.flow.Some? ==> s.used >= 8
  {
    if HasVariable(tpl) {
      VarMissing(NewFlow(exporter, now), tpl, b);
    } else if SumLen(tpl) <= |b| {
      FixedMissing(NewFlow(exporter, now), tpl, b[..SumLen(tpl)]);
    }
  }

  lemma {:induction false} RecordsBound(b: Bytes, tpl: seq<Field>, exporter: string, now: int)
    ensures 8 * |Records(b, tpl, exporter, now)| <= |b|
    decreases |b|
  {
    NextRecordSize(b, tpl, exporter, now);
    match NextRecord(b, tpl, exporter, now)
    case Stop =>
    case Read(f, n) =>
      if n < |b| - 3 {
        RecordsBound(b[n..], tpl, exporter, now);
      }
  }

  lemma {:induction false} SetsBound(b: Bytes, ctx: Context, c: Cache)
    ensures 8 * |Sets(b, ctx, c).0| <= |b|
    decreases |b|
  {
    if |b| >= 4 && 4 <= U16(b, 2) <= |b| {
      var body := b[4..U16(b, 2)];
      if ctx.KeyOf(U16(b, 0)) in c.tpls {
        RecordsBound(body, c.tpls[ctx.KeyOf(U16(b, 0))], ctx.exporter, ctx.now);
      }
      SetsBound(b[U16(b, 2)..], ctx, OneSet(U16(b, 0), body, ctx, c).1);
    }
  }

  lemma DatagramBound(b: Bytes, exporter: string, now: int, c: Cache)
    ensures 8 * |Datagram(b, exporter, now, c).0| <= |b|
  {
    if |b| >= V9_HEADER && U16(b, 0) == 9 {
      SetsBound(b[V9_HEADER..], Context(exporter, U32(b, 16), now, false), c);
    } else if |b| >= IPFIX_HEADER && U16(b, 0) == 10 {
      var total := if U16(b, 2) > |b| then |b| else U16(b, 2);
      if total >= IPFIX_HEADER {
        SetsBound(b[IPFIX_HEADER..total], Context(exporter, U32(b, 12), now, true), c);
      }
    }
  }

  // --- the cache stays bounded ---------------------------------------------

  ghost predicate ValidTemplate(tpl: seq<Field>)
  {
    1 <= |tpl| <= 128
  }

  ghost predicate ValidCache(c: Cache)
  {
    && |c.tpls| <= 4097
    && forall k :: k in c.tpls ==> ValidTemplate(c.tpls[k])
  }

  lemma PutValid(c: Cache, k: Key, f: seq<Field>)
    requires ValidCache(c) && ValidTemplate(f)
    ensures ValidCache(Put(c, k, f))
  {
    var kept := if |c.tpls| > CACHE_LIMIT then map[] else c.tpls;
    assert kept[k := f].Keys == kept.Keys + {k};
    assert |kept[k := f]| == |kept[k := f].Keys| <= |kept.Keys| + 1;
  }

  lemma {:induction false} TemplatesValid(b: Bytes, ctx: Context, c: Cache)
    requires ValidCache(c)
    ensures ValidCache(Templates(b, ctx, c))
    decreases |b|
  {
    if |b| >= 4 && U16(b, 0) >= 256 && 0 < U16(b, 2) <= MAX_FIELDS {
      match Fields(b[4..], U16(b, 2), ctx.ipfix)
      case None =>
      case Some((fs, m)) =>
        PutValid(c, ctx.KeyOf(U16(b, 0)), fs);
        TemplatesValid(b[4 + m..], ctx, Put(c, ctx.KeyOf(U16(b, 0)), fs));
    }
  }

  lemma {:induction false} SetsValid(b: Bytes, ctx: Context, c: Cache)
    requires ValidCache(c)
    ensures ValidCache(Sets(b, ctx, c).1)
    decreases |b|
  {
    if |b| >= 4 && 4 <= U16(b, 2) <= |b| {
      var body := b[4..U16(b, 2)];
      TemplatesValid(body, ctx, c);
      SetsValid(b[U16(b, 2)..], ctx, OneSet(U16(b, 0), body, ctx, c).1);
    }
  }

  lemma DatagramValid(b: Bytes, exporter: string, now: int, c: Cache)
    requires ValidCache(c)
    ensures ValidCache(Datagram(b, exporter, now, c).1)
  {
    if |b| >= V9_HEADER && U16(b, 0) == 9 {
      SetsValid(b[V9_HEADER..], Context(exporter, U32(b, 16), now, false), c);
    } else if |b| >= IPFIX_HEADER && U16(b, 0) == 10 {
      var total := if U16(b, 2) > |b| then |b| else U16(b, 2);
      if total >= IPFIX_HEADER {
        SetsValid(b[IPFIX_HEADER..total], Context(exporter, U32(b, 12), now, true), c);
      }
    }
  }

  /** One datagram as it arrived: its payload, who sent it and when. */
  datatype Arrival = Arrival(payload: Bytes, exporter: string, now: int)

  /** The cache after any sequence of datagrams, from empty. */
  function CacheAfter(run: seq<Arrival>): Cache
  {
    if run == [] then Cache(map[], 0)
    else
      var a := run[|run| - 1];
      Datagram(a.payload, a.exporter, a.now, CacheAfter(run[..|run| - 1])).1
  }

  /** A hostile exporter cannot grow the cache past 4097 templates, whatever it sends. */
  lemma {:induction false} CacheBounded(run: seq<Arrival>)
    ensures ValidCache(CacheAfter(run))
  {
    if run != [] {
      CacheBounded(run[..|run| - 1]);
      var a := run[|run| - 1];
      DatagramValid(a.payload, a.exporter, a.now, CacheAfter(run[..|run| - 1]));
    }
  }

  // --- what the cache remembers -------------------------------------------------

  datatype Filing = Filing(k: Key, fields: seq<Field>)

  function Filed(run: seq<Filing>): Cache
  {
    if run == [] then Cache(map[], 0) else Put(Filed(run[..|run| - 1]), run[|run| - 1].k, run[|run| - 1].fields)
  }

  function KeysOf(run: seq<Filing>): set<Key>
  {
    set i | 0 <= i < |run| :: run[i].k
  }

  function LastFiled(run: seq<Filing>, k: Key): Option<seq<Field>>
  {
    if run == [] then None
    else if run[|run| - 1].k == k then Some(run[|run| - 1].fields)
    else LastFiled(run[..|run| - 1], k)
  }

  /** From where on the cache remembers: it forgets everything when a template comes on more than 4096 keys. */
  function Forgotten(run: seq<Filing>): (n: nat)
    ensures n <= |run|
  {
    if run == [] then 0
    else
      var front := run[..|run| - 1];
      var n := Forgotten(front);
      if |KeysOf(front[n..])| > 4096 then |front| else n
  }

  ghost predicate Remembers(tpls: map<Key, seq<Field>>, run: seq<Filing>)
  {
    tpls.Keys == KeysOf(run) && forall k :: k in tpls ==> LastFiled(run, k) == Some(tpls[k])
  }

  /** The cache holds the last template filed under each key since it last forgot, and nothing else. */
  lemma {:induction false} CacheIsHistory(run: seq<Filing>)
    ensures Remembers(Filed(run).tpls, run[Forgotten(run)..])
  {
    if run != [] {
      var front, last, n := run[..|run| - 1], run[|run| - 1], Forgotten(run);
      CacheIsHistory(front);
      FiledMore(run);
      RemembersNothing();
      assert |Filed(front).tpls.Keys| == |KeysOf(front[Forgotten(front)..])|;
      assert run[n..] == front[n..] + [last];
      hide Forgotten, Filed, Put, Remembers, KeysOf;
      if |KeysOf(front[Forgotten(front)..])| > 4096 {
        assert front[n..] == [];
        RemembersMore(map[], front[n..], last);
      } else {
        RemembersMore(Filed(front).tpls, front[n..], last);
      }
    }
  }

  lemma RemembersNothing()
    ensures Remembers(map[], [])
  {
  }

  lemma RemembersMore(tpls: map<Key, seq<Field>>, run: seq<Filing>, f: Filing)
    requires Remembers(tpls, run)
    ensures Remembers(tpls[f.k := f.fields], run + [f])
  {
    KeysMore(run, f);
    LastFiledMore(run, f);
    hide KeysOf, LastFiled;
    var more := tpls[f.k := f.fields];
    assert more.Keys == tpls.Keys + {f.k};
    forall k | k in more ensures LastFiled(run + [f], k) == Some(more[k]) {
      assert k != f.k ==> k in tpls;
    }
  }

  lemma FiledMore(run: seq<Filing>)
    requires run != []
    ensures var front, last := run[..|run| - 1], run[|run| - 1];
            && Filed(run).tpls == (if |Filed(front).tpls.Keys| > 4096 then map[] else Filed(front).tpls)[last.k := last.fields]
            && Forgotten(run) == (if |KeysOf(front[Forgotten(front)..])| > 4096 then |front| else Forgotten(front))
  {
    assert |Filed(run[..|run| - 1]).tpls.Keys| == |Filed(run[..|run| - 1]).tpls|;
  }

  lemma KeysMore(run: seq<Filing>, f: Filing)
    ensures KeysOf(run + [f]) == KeysOf(run) + {f.k}
  {
    var more := run + [f];
    assert more[|run|].k == f.k;
    assert forall i :: 0 <= i < |run| ==> more[i].k == run[i].k;
  }

  lemma LastFiledMore(run: seq<Filing>, f: Filing)
    ensures forall k :: LastFiled(run + [f], k) == if f.k == k then Some(f.fields) else LastFiled(run, k)
  {
    assert (run + [f])[..|run|] == run;
  }

  /** A template is one exporter's, of one domain and one id: no other message uses it. */
  lemma KeysApart(x: Context, y: Context, id: nat, id': nat)
    ensures x.KeyOf(id) == y.KeyOf(id') <==> x.exporter == y.exporter && x.domain == y.domain && id == id'
  {
  }

  // --- the two record decoders ---------------------------------------------

  lemma {:induction false} VarReadsFixed(f: Flow, tpl: seq<Field>, r: Bytes)
    requires !HasVariable(tpl)
    ensures VarFields(f, tpl, r) ==
            if SumLen(tpl) <= |r| then Some((FixedFields(f, tpl, r), SumLen(tpl))) else None
    decreases |tpl|
  {
    if tpl != [] && tpl[0].len <= |r| {
      VarReadsFixed(Apply(f, tpl[0], r[..tpl[0].len]), tpl[1..], r[tpl[0].len..]);
    }
  }

  lemma {:induction false} FixedIgnoresRest(f: Flow, tpl: seq<Field>, r: Bytes)
    requires SumLen(tpl) <= |r|
    ensures FixedFields(f, tpl, r[..SumLen(tpl)]) == FixedFields(f, tpl, r)
    decreases |tpl|
  {
    if tpl != [] {
      var n := tpl[0].len;
      assert r[..SumLen(tpl)][..n] == r[..n];
      assert r[..SumLen(tpl)][n..] == r[n..][..SumLen(tpl[1..])];
      FixedIgnoresRest(Apply(f, tpl[0], r[..n]), tpl[1..], r[n..]);
    }
  }

  /**
   * On a template without variable-length fields the decoder for variable records reads
   * exactly what the fixed one reads, so the branch taken makes no difference.
   */
  lemma DecodersAgree(b: Bytes, tpl: seq<Field>, exporter: string, now: int)
    requires !HasVariable(tpl)
    ensures NextVar(b, tpl, exporter, now) == NextFixed(b, tpl, exporter, now)
  {
    VarReadsFixed(NewFlow(exporter, now), tpl, b);
    if SumLen(tpl) <= |b| {
      FixedIgnoresRest(NewFlow(exporter, now), tpl, b);
    }
  }
}
