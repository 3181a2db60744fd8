/** The decoder as it runs: offset-driven loops over the octets and a template cache updated in place. */
module NetFlowDecoder {
  import opened Wire
  import opened NetFlow
  import opened NetFlowFields

  class TemplateCache {
    var tpls: map<Key, seq<Field>>
    var dropped: nat

    ghost function Contents(): Cache
      reads this
    {
      Cache(tpls, dropped)
    }

    constructor ()
      ensures Contents() == Cache(map[], 0)
    {
      tpls, dropped := map[], 0;
    }

    method Store(k: Key, f: seq<Field>)
      modifies this
      ensures Contents() == Put(old(Contents()), k, f)
    {
      if |tpls| > CACHE_LIMIT {
        tpls := map[];
      }
      tpls := tpls[k := f];
    }

    method Lookup(k: Key) returns (r: Option<seq<Field>>)
      ensures r == if k in tpls then Some(tpls[k]) else None
    {
      r := if k in tpls then Some(tpls[k]) else None;
    }
  }

  method ReadUintN(v: Bytes) returns (out: nat)
    ensures out == UintN(v)
  {
    var w := if |v| > 8 then v[|v| - 8..] else v;
    assert Pow256(7) * 256 == TWO_TO_64;
    out := 0;
    for i := 0 to |w|
      invariant out == BigEndian(w[..i])
    {
      BigEndianBound(w[..i]);
      Pow256Monotone(i, 7);
      assert w[..i + 1][..i] == w[..i];
      out := (out * 256) % TWO_TO_64 + w[i];
    }
    assert w[..|w|] == w;
  }

  method DecodeFixed(r: Bytes, tpl: seq<Field>, exporter: string, now: int) returns (res: Option<Flow>)
    requires |r| == SumLen(tpl)
    ensures res == FlowOf(tpl, Slices(tpl, r), exporter, now)
  {
    hide FlowOf, Slices, ApplyField, Finish;
    FixedSays(tpl, r, exporter, now);
    var f := NewFlow(exporter, now);
    var off: nat := 0;
    assert tpl[0..] == tpl && r[0..] == r;
    for i := 0 to |tpl|
      invariant off + SumLen(tpl[i..]) == |r|
      invariant FixedFields(f, tpl[i..], r[off..]) == FixedFields(NewFlow(exporter, now), tpl, r)
    {
      var v := r[off..off + tpl[i].len];
      assert tpl[i..][0] == tpl[i] && tpl[i..][1..] == tpl[i + 1..];
      SliceOfRest(r, off, 0, tpl[i].len);
      off := off + tpl[i].len;
      if !tpl[i].ent {
        f := ApplyField(f, tpl[i].typ, v);
      }
    }
    res := Finish(f);
  }

  /** What VarFields says of the whole record, once its first fields have taken off octets. */
  ghost function Resume(f: Flow, tpl: seq<Field>, r: Bytes, off: nat): Option<(Flow, nat)>
    requires off <= |r|
  {
    match VarFields(f, tpl, r[off..])
    case None => None
    case Some((g, n)) => Some((g, off + n))
  }

  lemma ResumeStep(f: Flow, tpl: seq<Field>, r: Bytes, off: nat)
    requires tpl != [] && off <= |r|
    ensures Resume(f, tpl, r, off) ==
            match ValueLength(tpl[0], r[off..])
            case None => None
            case Some((p, l)) =>
              if off + p + l > |r| then None
              else Resume(Apply(f, tpl[0], r[off + p..off + p + l]), tpl[1..], r, off + p + l)
  {
    hide ApplyField;
    match ValueLength(tpl[0], r[off..])
    case None =>
    case Some((p, l)) =>
      if off + p + l <= |r| {
        SliceOfRest(r, off, p, p + l);
      }
  }

  /** The length of the next value and the offset of its first octet. */
  method ReadLength(r: Bytes, start: nat, tf: Field) returns (res: Option<(nat, nat)>)
    requires start <= |r|
    ensures match ValueLength(tf, r[start..])
            case None => res == None
            case Some((p, l)) => res == Some((start + p, l))
  {
    var off, l := start, tf.len;
    if tf.len == VARIABLE {
      if off >= |r| {
        return None;
      }
      l := r[off];
      off := off + 1;
      if l == 255 {
        if off + 2 > |r| {
          return None;
        }
        l := U16(r, off);
        off := off + 2;
      }
    }
    res := Some((off, l));
  }

  method DecodeVar(r: Bytes, tpl: seq<Field>, exporter: string, now: int) returns (res: Option<(Flow, nat)>)
    ensures res == VarFields(NewFlow(exporter, now), tpl, r)
    ensures match Values(tpl, r)
            case None => res == None
            case Some((vs, n)) => res == Some((Said(tpl, vs, exporter, now), n))
  {
    VarSays(tpl, r, exporter, now);
    hide Said, Values, ApplyField;
    var f := NewFlow(exporter, now);
    var off: nat := 0;
    assert r[0..] == r && tpl[0..] == tpl;
    for i := 0 to |tpl|
      invariant off <= |r|
      invariant Resume(f, tpl[i..], r, off) == VarFields(NewFlow(exporter, now), tpl, r)
    {
      ResumeStep(f, tpl[i..], r, off);
      assert tpl[i..][0] == tpl[i] && tpl[i..][1..] == tpl[i + 1..];
      var next := ReadLength(r, off, tpl[i]);
      if next.None? || next.value.0 + next.value.1 > |r| {
        return None;
      }
      var (at, l) := next.value;
      f := Apply(f, tpl[i], r[at..at + l]);
      off := at + l;
    }
    res := Some((f, off));
  }

  /** Whether tpl has a variable-length field, and if not, the octets one of its records takes. */
  method Measure(tpl: seq<Field>) returns (recLen: nat, varlen: bool)
    ensures varlen == HasVariable(tpl)
    ensures !varlen ==> recLen == SumLen(tpl)
  {
    recLen, varlen := 0, false;
    assert tpl[0..] == tpl;
    for i := 0 to |tpl|
      invariant recLen + SumLen(tpl[i..]) == SumLen(tpl)
      invariant HasVariable(tpl[i..]) == HasVariable(tpl)
    {
      assert tpl[i..][0] == tpl[i] && tpl[i..][1..] == tpl[i + 1..];
      if tpl[i].len == VARIABLE {
        return recLen, true;
      }
      recLen := recLen + tpl[i].len;
    }
  }

  /** One turn of the record loop. */
  method ReadRecord(b: Bytes, off: nat, tpl: seq<Field>, recLen: nat, varlen: bool, exporter: string, now: int) returns (s: Step)
    requires off <= |b|
    requires varlen == HasVariable(tpl) && (!varlen ==> recLen == SumLen(tpl))
    ensures s == NextRecord(b[off..], tpl, exporter, now)
  {
    if varlen {
      var r := DecodeVar(b[off..], tpl, exporter, now);
      if r.None? || r.value.1 == 0 {
        return Stop;
      }
      return Read(Finish(r.value.0), r.value.1);
    }
    if recLen == 0 || off + recLen > |b| {
      return Stop;
    }
    assert b[off..][..recLen] == b[off..off + recLen];
    FixedSays(tpl, b[off..off + recLen], exporter, now);
    var f := DecodeFixed(b[off..off + recLen], tpl, exporter, now);
    return Read(f, recLen);
  }

  /** The flows of the whole set, once out has been read from its first off octets. */
  ghost function ResumeRecords(out: seq<Flow>, b: Bytes, off: nat, tpl: seq<Field>, exporter: string, now: int): seq<Flow>
    requires off <= |b|
  {
    out + Records(b[off..], tpl, exporter, now)
  }

  lemma ResumeRecordsStep(out: seq<Flow>, b: Bytes, off: nat, tpl: seq<Field>, exporter: string, now: int)
    requires off <= |b|
    ensures ResumeRecords(out, b, off, tpl, exporter, now) ==
            match NextRecord(b[off..], tpl, exporter, now)
            case Stop => out
            case Read(f, n) =>
              if off + n >= |b| - 3 then out + ToSeq(f)
              else ResumeRecords(out + ToSeq(f), b, off + n, tpl, exporter, now)
  {
    match NextRecord(b[off..], tpl, exporter, now)
    case Stop =>
    case Read(f, n) =>
      assert b[off..][n..] == b[off + n..];
  }

  method DecodeRecords(b: Bytes, tpl: seq<Field>, exporter: string, now: int) returns (out: seq<Flow>)
    ensures out == Records(b, tpl, exporter, now)
  {
    hide NextRecord, Records;
    var recLen, varlen := Measure(tpl);
    out := [];
    var off := 0;
    assert b[0..] == b;
    while true
      invariant off <= |b|
      invariant ResumeRecords(out, b, off, tpl, exporter, now) == Records(b, tpl, exporter, now)
      decreases |b| - off
    {
      ResumeRecordsStep(out, b, off, tpl, exporter, now);
      var step := ReadRecord(b, off, tpl, recLen, varlen, exporter, now);
      if step.Stop? {
        break;
      }
      out := out + ToSeq(step.flow);
      off := off + step.used;
      if off >= |b| - 3 {
        break;
      }
    }
  }

  method DecodeData(b: Bytes, id: nat, ctx: Context, tc: TemplateCache) returns (out: seq<Flow>)
    modifies tc
    ensures (out, tc.Contents()) == Data(b, id, ctx, old(tc.Contents()))
  {
    var tpl := tc.Lookup(ctx.KeyOf(id));
    if tpl.None? {
      tc.dropped := tc.dropped + 1;
      return [];
    }
    out := DecodeRecords(b, tpl.value, ctx.exporter, ctx.now);
  }

  /** What Fields says of the specifiers from base on, once those in done have been read up to off. */
  ghost function ResumeFields(done: seq<Field>, b: Bytes, base: nat, off: nat, k: nat, ipfix: bool): Option<(seq<Field>, nat)>
    requires base <= off <= |b|
  {
    match Fields(b[off..], k, ipfix)
    case None => None
    case Some((fs, m)) => Some((done + fs, off - base + m))
  }

  lemma ResumeFieldsStep(done: seq<Field>, b: Bytes, base: nat, off: nat, k: nat, ipfix: bool)
    requires base <= off <= |b| && k > 0
    ensures ResumeFields(done, b, base, off, k, ipfix) ==
            if off + 4 > |b| then None
            else
              var ent := ipfix && U16(b, off) >= 0x8000;
              var next := off + if ent then 8 else 4;
              var tf := Field(U16(b, off) % (if ent then 0x8000 else 0x1_0000), U16(b, off + 2), ent);
              if next > |b| then None else ResumeFields(done + [tf], b, base, next, k - 1, ipfix)
  {
    if off + 4 <= |b| {
      var ent := ipfix && U16(b, off) >= 0x8000;
      var size := if ent then 8 else 4;
      assert U16(b[off..], 0) == U16(b, off) && U16(b[off..], 2) == U16(b, off + 2);
      if off + size <= |b| {
        assert b[off..][size..] == b[off + size..];
        var tf := Field(U16(b, off) % (if ent then 0x8000 else 0x1_0000), U16(b, off + 2), ent);
        match Fields(b[off + size..], k - 1, ipfix)
        case None =>
        case Some((fs, m)) =>
          assert done + ([tf] + fs) == done + [tf] + fs;
      }
    }
  }

  /** n field specifiers from start on, and the offset after them. */
  method ReadFields(b: Bytes, start: nat, n: nat, ipfix: bool) returns (res: Option<(seq<Field>, nat)>)
    requires start <= |b|
    ensures match Fields(b[start..], n, ipfix)
            case None => res == None
            case Some((fs, m)) => res == Some((fs, start + m))
  {
    var off := start;
    var fields: seq<Field> := [];
    for i := 0 to n
      invariant start <= off <= |b|
      invariant ResumeFields(fields, b, start, off, n - i, ipfix) == ResumeFields([], b, start, start, n, ipfix)
    {
      ResumeFieldsStep(fields, b, start, off, n - i, ipfix);
      if off + 4 > |b| {
        return None;
      }
      var ft, fl := U16(b, off), U16(b, off + 2);
      off := off + 4;
      var ent := false;
      if ipfix && ft >= 0x8000 {
        ft := ft % 0x8000;
        ent := true;
        if off + 4 > |b| {
          return None;
        }
        off := off + 4;
      }
      fields := fields + [Field(ft, fl, ent)];
    }
    assert forall fs: seq<Field> :: [] + fs == fs;
    assert fields + [] == fields;
    res := Some((fields, off));
  }

  lemma U16OfRest(b: Bytes, off: nat, i: nat)
    requires off + i + 2 <= |b|
    ensures U16(b[off..], i) == U16(b, off + i)
  {
  }

  /** What the templates from an offset on leave, by the first of them. */
  lemma TemplatesFrom(b: Bytes, off: nat, ctx: Context, c: Cache)
    requires off + 4 <= |b|
    ensures var id, n := U16(b, off), U16(b, off + 2);
            Templates(b[off..], ctx, c) ==
              if id < 256 || n == 0 || n > MAX_FIELDS then c
              else
                var fields := Fields(b[off + 4..], n, ctx.ipfix);
                if fields.None? then c
                else Templates(b[off + 4 + fields.value.1..], ctx, Put(c, ctx.KeyOf(id), fields.value.0))
  {
    hide Fields, Put, U16;
    U16OfRest(b, off, 0);
    U16OfRest(b, off, 2);
    assert b[off..][4..] == b[off + 4..];
    var fields := Fields(b[off + 4..], U16(b, off + 2), ctx.ipfix);
    if fields.Some? {
      var m := fields.value.1;
      assert b[off..][4 + m..] == b[off + 4 + m..];
    }
  }

  lemma TemplatesEnd(b: Bytes, off: nat, ctx: Context, c: Cache)
    requires off <= |b| < off + 4
    ensures Templates(b[off..], ctx, c) == c
  {
  }

  method ParseTemplates(b: Bytes, ctx: Context, tc: TemplateCache)
    modifies tc
    ensures tc.Contents() == Templates(b, ctx, old(tc.Contents()))
  {
    hide Fields, Put, U16, Templates;
    var off := 0;
    assert b[0..] == b;
    while off + 4 <= |b|
      invariant off <= |b|
      invariant Templates(b[off..], ctx, tc.Contents()) == Templates(b, ctx, old(tc.Contents()))
    {
      var id, n := U16(b, off), U16(b, off + 2);
      TemplatesFrom(b, off, ctx, tc.Contents());
      if id < 256 || n == 0 || n > MAX_FIELDS {
        return;
      }
      var fields := ReadFields(b, off + 4, n, ctx.ipfix);
      if fields.None? {
        return;
      }
      tc.Store(ctx.KeyOf(id), fields.value.0);
      off := fields.value.1;
    }
    TemplatesEnd(b, off, ctx, tc.Contents());
  }

  /** The set loop of both versions: it reads from the end of the header up to total. */
  method ParseSets(b: Bytes, header: nat, total: nat, ctx: Context, tc: TemplateCache) returns (out: seq<Flow>)
    requires header <= total <= |b|
    modifies tc
    ensures (out, tc.Contents()) == Sets(b[header..total], ctx, old(tc.Contents()))
  {
    hide Templates, Data;
    out := [];
    var off := header;
    assert [] + Sets(b[header..total], ctx, tc.Contents()).0 == Sets(b[header..total], ctx, tc.Contents()).0;
    while off + 4 <= total
      invariant header <= off <= total
      invariant Continue(out, b[off..total], ctx, tc.Contents()) == Sets(b[header..total], ctx, old(tc.Contents()))
    {
      var id, len: nat := U16(b, off), U16(b, off + 2);
      assert U16(b[off..total], 0) == id && U16(b[off..total], 2) == len;
      if len < 4 || off + len > total {
        break;
      }
      var body := b[off + 4..off + len];
      SliceOfSlice(b, off, total, 4, len);
      SliceOfSlice(b, off, total, len, total - off);
      ghost var c := tc.Contents();
      ghost var before := out;
      if id == ctx.TemplateSetId() {
        ParseTemplates(body, ctx, tc);
      } else if id > 255 {
        var flows := DecodeData(body, id, ctx, tc);
        out := out + flows;
      }
      assert before + [] == before;
      assert (out, tc.Contents()) == (before + OneSet(id, body, ctx, c).0, OneSet(id, body, ctx, c).1);
      ContinueStep(before, b[off..total], ctx, c);
      off := off + len;
    }
    assert Sets(b[off..total], ctx, tc.Contents()) == ([], tc.Contents());
    assert out + [] == out;
  }

  ghost function Continue(out: seq<Flow>, rest: Bytes, ctx: Context, c: Cache): (seq<Flow>, Cache)
  {
    (out + Sets(rest, ctx, c).0, Sets(rest, ctx, c).1)
  }

  lemma ContinueStep(out: seq<Flow>, b: Bytes, ctx: Context, c: Cache)
    requires |b| >= 4 && 4 <= U16(b, 2) <= |b|
    ensures var (here, c1) := OneSet(U16(b, 0), b[4..U16(b, 2)], ctx, c);
            Continue(out, b, ctx, c) == Continue(out + here, b[U16(b, 2)..], ctx, c1)
  {
    var (here, c1) := OneSet(U16(b, 0), b[4..U16(b, 2)], ctx, c);
    var (rest, c2) := Sets(b[U16(b, 2)..], ctx, c1);
    assert out + (here + rest) == out + here + rest;
  }

  method ParseV5(b: Bytes, exporter: string, now: int) returns (out: seq<Flow>)
    ensures out == V5(b, exporter, now)
  {
    out := [];
    if |b| < V5_HEADER {
      return;
    }
    var count, boot := U16(b, 2), V5Boot(b, now);
    var i := 0;
    while i < count
      invariant i <= count && V5_HEADER + i * V5_RECORD <= |b|
      invariant |out| == i && forall j :: 0 <= j < i ==> out[j] == V5At(b, j, exporter, boot)
    {
      if V5_HEADER + i * V5_RECORD + V5_RECORD > |b| {
        break;
      }
      out := out + [V5At(b, i, exporter, boot)];
      i := i + 1;
    }
  }

  method ParseDatagram(b: Bytes, exporter: string, now: int, tc: TemplateCache) returns (out: seq<Flow>)
    modifies tc
    ensures (out, tc.Contents()) == Datagram(b, exporter, now, old(tc.Contents()))
  {
    out := [];
    if |b| < 2 {
      return;
    }
    match U16(b, 0) {
      case 5 =>
        out := ParseV5(b, exporter, now);
      case 9 =>
        if |b| >= V9_HEADER {
          assert b[V9_HEADER..|b|] == b[V9_HEADER..];
          out := ParseSets(b, V9_HEADER, |b|, Context(exporter, U32(b, 16), now, false), tc);
        }
      case 10 =>
        if |b| >= IPFIX_HEADER {
          var total := if U16(b, 2) > |b| then |b| else U16(b, 2);
          if total >= IPFIX_HEADER {
            out := ParseSets(b, IPFIX_HEADER, total, Context(exporter, U32(b, 12), now, true), tc);
          }
        }
      case _ =>
    }
  }
}
