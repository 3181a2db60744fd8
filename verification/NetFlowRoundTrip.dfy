/**
 * An encoder for NetFlow v9 (RFC 3954 section 5) and IPFIX (RFC 7011 sections 3.1 to 3.4
 * and 7), and the proof that the decoder undoes it.
 */
module NetFlowRoundTrip {
  import opened Wire
  import opened NetFlow
  import opened NetFlowFields
  import NetFlowBounds

  // --- templates -----------------------------------------------------------

  /** A field specifier; enterprise holds the private enterprise number, IPFIX only. */
  datatype FieldSpec = FieldSpec(typ: nat, len: nat, enterprise: Option<nat>)

  predicate ValidField(s: FieldSpec, ipfix: bool)
  {
    && s.len < 0x1_0000
    && s.typ < (if ipfix then 0x8000 else 0x1_0000)
    && (s.enterprise.Some? ==> ipfix && s.enterprise.value < 0x1_0000_0000)
  }

  function AsField(s: FieldSpec): Field
  {
    Field(s.typ, s.len, s.enterprise.Some?)
  }

  function AsFields(ss: seq<FieldSpec>): seq<Field>
  {
    seq(|ss|, i requires 0 <= i < |ss| => AsField(ss[i]))
  }

  function EncodeField(s: FieldSpec, ipfix: bool): Bytes
    requires ValidField(s, ipfix)
  {
    match s.enterprise
    case None => PutU16(s.typ) + PutU16(s.len)
    case Some(pen) => PutU16(0x8000 + s.typ) + PutU16(s.len) + PutU32(pen)
  }

  function EncodeFields(ss: seq<FieldSpec>, ipfix: bool): Bytes
    requires forall s :: s in ss ==> ValidField(s, ipfix)
  {
    if ss == [] then [] else EncodeField(ss[0], ipfix) + EncodeFields(ss[1..], ipfix)
  }

  datatype TemplateSpec = TemplateSpec(id: nat, fields: seq<FieldSpec>)

  predicate ValidTemplate(t: TemplateSpec, ipfix: bool)
  {
    && 256 <= t.id < 0x1_0000
    && 1 <= |t.fields| <= 128
    && forall s :: s in t.fields ==> ValidField(s, ipfix)
  }

  function EncodeTemplate(t: TemplateSpec, ipfix: bool): Bytes
    requires ValidTemplate(t, ipfix)
  {
    PutU16(t.id) + PutU16(|t.fields|) + EncodeFields(t.fields, ipfix)
  }

  function EncodeTemplates(ts: seq<TemplateSpec>, ipfix: bool): Bytes
    requires forall t :: t in ts ==> ValidTemplate(t, ipfix)
  {
    if ts == [] then [] else EncodeTemplate(ts[0], ipfix) + EncodeTemplates(ts[1..], ipfix)
  }

  /** The cache once every template of ts has been learnt, in order. */
  function Learn(ts: seq<TemplateSpec>, ctx: Context, c: Cache): Cache
  {
    if ts == [] then c
    else Learn(ts[1..], ctx, Put(c, ctx.KeyOf(ts[0].id), AsFields(ts[0].fields)))
  }

  lemma Associative(a: Bytes, b: Bytes, c: Bytes)
    ensures a + b + c == a + (b + c)
  {
  }

  lemma AsFieldsCons(ss: seq<FieldSpec>)
    requires ss != []
    ensures AsFields(ss) == [AsField(ss[0])] + AsFields(ss[1..])
  {
  }

  lemma FieldCons(s: FieldSpec, k: nat, ipfix: bool, rest: Bytes)
    requires ValidField(s, ipfix)
    ensures Fields(EncodeField(s, ipfix) + rest, k + 1, ipfix) ==
            match Fields(rest, k, ipfix)
            case None => None
            case Some((fs, m)) => Some(([AsField(s)] + fs, |EncodeField(s, ipfix)| + m))
  {
    FieldHead(s, ipfix, rest);
    hide EncodeField, U16;
  }

  /** The numbers at the front of a field specifier, and what comes after it. */
  lemma FieldHead(s: FieldSpec, ipfix: bool, rest: Bytes)
    requires ValidField(s, ipfix)
    ensures var first := EncodeField(s, ipfix);
            var b := first + rest;
            && |first| == (if s.enterprise.Some? then 8 else 4) && b[|first|..] == rest
            && U16(b, 0) == s.typ + (if s.enterprise.Some? then 0x8000 else 0) && U16(b, 2) == s.len
  {
    hide PutU16, PutU32, U16;
    var first := EncodeField(s, ipfix);
    var b := first + rest;
    assert b[0..2] == PutU16(s.typ + if s.enterprise.Some? then 0x8000 else 0) && b[2..4] == PutU16(s.len);
    ReadU16(b, 0, s.typ + if s.enterprise.Some? then 0x8000 else 0);
    ReadU16(b, 2, s.len);
  }

  lemma {:induction false} FieldsRoundTrip(ss: seq<FieldSpec>, ipfix: bool, rest: Bytes)
    requires forall s :: s in ss ==> ValidField(s, ipfix)
    ensures Fields(EncodeFields(ss, ipfix) + rest, |ss|, ipfix) == Some((AsFields(ss), |EncodeFields(ss, ipfix)|))
  {
    if ss != [] {
      var first, tail := EncodeField(ss[0], ipfix), EncodeFields(ss[1..], ipfix);
      Associative(first, tail, rest);
      FieldCons(ss[0], |ss| - 1, ipfix, tail + rest);
      FieldsRoundTrip(ss[1..], ipfix, rest);
      AsFieldsCons(ss);
    }
  }

  lemma TemplateCons(t: TemplateSpec, rest: Bytes, ctx: Context, c: Cache)
    requires ValidTemplate(t, ctx.ipfix)
    ensures Templates(EncodeTemplate(t, ctx.ipfix) + rest, ctx, c) == Templates(rest, ctx, Put(c, ctx.KeyOf(t.id), AsFields(t.fields)))
  {
    hide EncodeFields, Fields;
    var fields := EncodeFields(t.fields, ctx.ipfix);
    var b := EncodeTemplate(t, ctx.ipfix) + rest;
    assert b[..2] == PutU16(t.id) && b[2..4] == PutU16(|t.fields|);
    assert U16(b, 0) == U16(b[..2], 0) && U16(b, 2) == U16(b[2..4], 0);
    assert b[4..] == fields + rest && b[4 + |fields|..] == rest;
    FieldsRoundTrip(t.fields, ctx.ipfix, rest);
  }

  lemma {:induction false} TemplatesRoundTrip(ts: seq<TemplateSpec>, pad: Bytes, ctx: Context, c: Cache)
    requires forall t :: t in ts ==> ValidTemplate(t, ctx.ipfix)
    requires |pad| <= 3
    ensures Templates(EncodeTemplates(ts, ctx.ipfix) + pad, ctx, c) == Learn(ts, ctx, c)
    decreases |ts|
  {
    if ts != [] {
      var t := ts[0];
      assert t in ts;
      var tail := EncodeTemplates(ts[1..], ctx.ipfix);
      Associative(EncodeTemplate(t, ctx.ipfix), tail, pad);
      TemplateCons(t, tail + pad, ctx, c);
      TemplatesRoundTrip(ts[1..], pad, ctx, Put(c, ctx.KeyOf(t.id), AsFields(t.fields)));
    }
  }

  // --- records -------------------------------------------------------------

  /** A field's value; long asks for the three-octet length prefix even where one would do. */
  datatype Value = Value(octets: Bytes, long: bool)

  predicate ValidValue(tf: Field, v: Value)
  {
    if tf.len == VARIABLE then |v.octets| < (if v.long then 0x1_0000 else 255)
    else |v.octets| == tf.len
  }

  predicate ValidRecord(tpl: seq<Field>, vs: seq<Value>)
  {
    |vs| == |tpl| && forall i :: 0 <= i < |vs| ==> ValidValue(tpl[i], vs[i])
  }

  function Prefix(tf: Field, v: Value): Bytes
    requires ValidValue(tf, v)
  {
    if tf.len != VARIABLE then []
    else if v.long then [255] + PutU16(|v.octets|)
    else [|v.octets|]
  }

  function EncodeRecord(tpl: seq<Field>, vs: seq<Value>): Bytes
    requires ValidRecord(tpl, vs)
  {
    if vs == [] then []
    else Prefix(tpl[0], vs[0]) + vs[0].octets + EncodeRecord(tpl[1..], vs[1..])
  }

  function Octets(vs: seq<Value>): seq<Bytes>
  {
    seq(|vs|, i requires 0 <= i < |vs| => vs[i].octets)
  }

  predicate ValidRecords(tpl: seq<Field>, recs: seq<seq<Value>>)
  {
    forall r :: r in recs ==> ValidRecord(tpl, r) && |EncodeRecord(tpl, r)| >= 4
  }

  function EncodeRecords(tpl: seq<Field>, recs: seq<seq<Value>>): Bytes
    requires ValidRecords(tpl, recs)
  {
    if recs == [] then [] else EncodeRecord(tpl, recs[0]) + EncodeRecords(tpl, recs[1..])
  }

  /** The flows of recs, in order; a record that lacks an address gives none. */
  function Flows(tpl: seq<Field>, recs: seq<seq<Value>>, exporter: string, now: int): seq<Flow>
    requires forall r :: r in recs ==> |r| == |tpl|
  {
    if recs == [] then []
    else ToSeq(FlowOf(tpl, Octets(recs[0]), exporter, now)) + Flows(tpl, recs[1..], exporter, now)
  }

  lemma PrefixRoundTrip(tf: Field, v: Value, rest: Bytes)
    requires ValidValue(tf, v)
    ensures ValueLength(tf, Prefix(tf, v) + rest) == Some((|Prefix(tf, v)|, |v.octets|))
  {
    if tf.len == VARIABLE && v.long {
      var b := Prefix(tf, v) + rest;
      assert b[1..3] == PutU16(|v.octets|);
      assert U16(b, 1) == U16(b[1..3], 0);
    }
  }

  lemma OctetsCons(vs: seq<Value>)
    requires vs != []
    ensures Octets(vs) == [vs[0].octets] + Octets(vs[1..])
  {
  }

  lemma EncodeCons(tpl: seq<Field>, vs: seq<Value>, rest: Bytes)
    requires vs != [] && ValidRecord(tpl, vs)
    ensures ValidRecord(tpl[1..], vs[1..]) && tpl != [] && ValidValue(tpl[0], vs[0])
    ensures EncodeRecord(tpl, vs) + rest == Prefix(tpl[0], vs[0]) + vs[0].octets + (EncodeRecord(tpl[1..], vs[1..]) + rest)
    ensures |EncodeRecord(tpl, vs)| == |Prefix(tpl[0], vs[0])| + |vs[0].octets| + |EncodeRecord(tpl[1..], vs[1..])|
  {
    hide Prefix;
  }

  /** The values of a record are cut from its octets, whatever follows, and only those are consumed. */
  lemma {:induction false} RecordRoundTrip(tpl: seq<Field>, vs: seq<Value>, rest: Bytes)
    requires ValidRecord(tpl, vs)
    ensures Values(tpl, EncodeRecord(tpl, vs) + rest) == Some((Octets(vs), |EncodeRecord(tpl, vs)|))
    decreases |vs|
  {
    hide *;
    if vs == [] {
      NoValues(tpl, vs, rest);
    } else {
      EncodeCons(tpl, vs, rest);
      OctetsCons(vs);
      RecordRoundTrip(tpl[1..], vs[1..], rest);
      var prefix, octets, tail := Prefix(tpl[0], vs[0]), vs[0].octets, EncodeRecord(tpl[1..], vs[1..]) + rest;
      PrefixRoundTrip(tpl[0], vs[0], octets + tail);
      FirstValue(tpl, prefix, octets, tail);
      Prepended(octets, |prefix| + |octets|, Octets(vs[1..]), |EncodeRecord(tpl[1..], vs[1..])|);
    }
  }

  lemma Prepended(v: Bytes, size: nat, vs: seq<Bytes>, n: nat)
    ensures Prepend(v, size, Some((vs, n))) == Some(([v] + vs, size + n))
  {
  }

  lemma NoValues(tpl: seq<Field>, vs: seq<Value>, rest: Bytes)
    requires ValidRecord(tpl, vs) && vs == []
    ensures Values(tpl, EncodeRecord(tpl, vs) + rest) == Some((Octets(vs), |EncodeRecord(tpl, vs)|))
  {
    assert Octets(vs) == [];
  }

  /** And the decoder of records makes of them the flow that they say. */
  lemma RecordSays(tpl: seq<Field>, vs: seq<Value>, rest: Bytes, exporter: string, now: int)
    requires ValidRecord(tpl, vs) && |EncodeRecord(tpl, vs)| > 0
    ensures NextRecord(EncodeRecord(tpl, vs) + rest, tpl, exporter, now) ==
            Read(FlowOf(tpl, Octets(vs), exporter, now), |EncodeRecord(tpl, vs)|)
  {
    var b := EncodeRecord(tpl, vs) + rest;
    RecordRoundTrip(tpl, vs, rest);
    VarSays(tpl, b, exporter, now);
    FoldIsSaid(tpl, Octets(vs), exporter, now);
    FinishedIsFlowOf(tpl, Octets(vs), exporter, now);
    if !HasVariable(tpl) {
      NetFlowBounds.DecodersAgree(b, tpl, exporter, now);
    }
    hide EncodeRecord, Values, VarFields, Said, FlowOf, Fold, Finish, FixedFields, Octets;
  }

  lemma {:induction false} RecordsRoundTrip(tpl: seq<Field>, recs: seq<seq<Value>>, pad: Bytes, exporter: string, now: int)
    requires ValidRecords(tpl, recs) && |pad| <= 3
    ensures Records(EncodeRecords(tpl, recs) + pad, tpl, exporter, now) == Flows(tpl, recs, exporter, now)
    decreases |recs|
  {
    if recs == [] {
      assert [] + pad == pad;
      NetFlowBounds.RecordsBound(pad, tpl, exporter, now);
    } else {
      var first, tail := EncodeRecord(tpl, recs[0]), EncodeRecords(tpl, recs[1..]);
      var b := EncodeRecords(tpl, recs) + pad;
      assert b == first + (tail + pad);
      RecordSays(tpl, recs[0], tail + pad, exporter, now);
      assert b[|first|..] == tail + pad;
      RecordsRoundTrip(tpl, recs[1..], pad, exporter, now);
      if recs[1..] != [] {
        assert |tail| >= |EncodeRecord(tpl, recs[1])| >= 4;
      }
    }
  }

  // --- sets and messages ---------------------------------------------------

  datatype SetSpec =
    | TemplateSet(templates: seq<TemplateSpec>, pad: Bytes)
    | DataSet(id: nat, records: seq<seq<Value>>, pad: Bytes)
    | OrphanSet(id: nat, body: Bytes)   // data whose template has not been seen
    | OtherSet(id: nat, body: Bytes)    // option templates and reserved identifiers

  /** Templates go into sets of id 2 in IPFIX and of id 0 in v9. */
  function TemplateSetOf(ctx: Context): nat
  {
    if ctx.ipfix then 2 else 0
  }

  predicate ValidSet(s: SetSpec, ctx: Context, c: Cache)
  {
    match s
    case TemplateSet(ts, pad) =>
      (forall t :: t in ts ==> ValidTemplate(t, ctx.ipfix)) && |pad| <= 3
    case DataSet(id, recs, pad) =>
      256 <= id && ctx.KeyOf(id) in c.tpls && ValidRecords(c.tpls[ctx.KeyOf(id)], recs) && |pad| <= 3
    case OrphanSet(id, body) =>
      256 <= id && ctx.KeyOf(id) !in c.tpls
    case OtherSet(id, body) =>
      id < 256 && id != TemplateSetOf(ctx)
  }

  function SetId(s: SetSpec, ctx: Context): nat
  {
    if s.TemplateSet? then TemplateSetOf(ctx) else s.id
  }

  function Body(s: SetSpec, ctx: Context, c: Cache): Bytes
    requires ValidSet(s, ctx, c)
  {
    match s
    case TemplateSet(ts, pad) => EncodeTemplates(ts, ctx.ipfix) + pad
    case DataSet(id, recs, pad) => EncodeRecords(c.tpls[ctx.KeyOf(id)], recs) + pad
    case OrphanSet(_, body) => body
    case OtherSet(_, body) => body
  }

  /** The identifier and the length of a set have sixteen bits each. */
  predicate Fits(s: SetSpec, ctx: Context, c: Cache)
    requires ValidSet(s, ctx, c)
  {
    SetId(s, ctx) < 0x1_0000 && 4 + |Body(s, ctx, c)| < 0x1_0000
  }

  function EncodeSet(s: SetSpec, ctx: Context, c: Cache): Bytes
    requires ValidSet(s, ctx, c) && Fits(s, ctx, c)
  {
    PutU16(SetId(s, ctx)) + PutU16(4 + |Body(s, ctx, c)|) + Body(s, ctx, c)
  }

  /** What a set means: the flows it carries and the cache it leaves. */
  function Meaning(s: SetSpec, ctx: Context, c: Cache): (seq<Flow>, Cache)
    requires ValidSet(s, ctx, c)
  {
    match s
    case TemplateSet(ts, _) => ([], Learn(ts, ctx, c))
    case DataSet(id, recs, _) => (Flows(c.tpls[ctx.KeyOf(id)], recs, ctx.exporter, ctx.now), c)
    case OrphanSet(_, _) => ([], c.(dropped := c.dropped + 1))
    case OtherSet(_, _) => ([], c)
  }

  /** Each set is valid in the cache that the sets before it leave. */
  predicate ValidSets(ss: seq<SetSpec>, ctx: Context, c: Cache)
  {
    ss == [] || (ValidSet(ss[0], ctx, c) && Fits(ss[0], ctx, c) && ValidSets(ss[1..], ctx, Meaning(ss[0], ctx, c).1))
  }

  function EncodeSets(ss: seq<SetSpec>, ctx: Context, c: Cache): Bytes
    requires ValidSets(ss, ctx, c)
  {
    if ss == [] then []
    else EncodeSet(ss[0], ctx, c) + EncodeSets(ss[1..], ctx, Meaning(ss[0], ctx, c).1)
  }

  function MeaningOf(ss: seq<SetSpec>, ctx: Context, c: Cache): (seq<Flow>, Cache)
    requires ValidSets(ss, ctx, c)
  {
    if ss == [] then ([], c)
    else
      var (here, c1) := Meaning(ss[0], ctx, c);
      var (rest, c2) := MeaningOf(ss[1..], ctx, c1);
      (here + rest, c2)
  }

  lemma SetRoundTrip(s: SetSpec, ctx: Context, c: Cache)
    requires ValidSet(s, ctx, c)
    ensures OneSet(SetId(s, ctx), Body(s, ctx, c), ctx, c) == Meaning(s, ctx, c)
  {
    match s
    case TemplateSet(ts, pad) => TemplatesRoundTrip(ts, pad, ctx, c);
    case DataSet(id, recs, pad) => RecordsRoundTrip(c.tpls[ctx.KeyOf(id)], recs, pad, ctx.exporter, ctx.now);
    case OrphanSet(_, _) =>
    case OtherSet(_, _) =>
  }

  lemma SetCons(id: nat, body: Bytes, rest: Bytes, ctx: Context, c: Cache)
    requires id < 0x1_0000 && 4 + |body| < 0x1_0000
    ensures var (here, c1) := OneSet(id, body, ctx, c);
            var (there, c2) := Sets(rest, ctx, c1);
            Sets(PutU16(id) + PutU16(4 + |body|) + body + rest, ctx, c) == (here + there, c2)
  {
    var b := PutU16(id) + PutU16(4 + |body|) + body + rest;
    assert b[..2] == PutU16(id) && b[2..4] == PutU16(4 + |body|);
    assert U16(b, 0) == U16(b[..2], 0) && U16(b, 2) == U16(b[2..4], 0);
    assert b[4..4 + |body|] == body && b[4 + |body|..] == rest;
  }

  lemma {:induction false} SetsRoundTrip(ss: seq<SetSpec>, ctx: Context, c: Cache)
    requires ValidSets(ss, ctx, c)
    ensures Sets(EncodeSets(ss, ctx, c), ctx, c) == MeaningOf(ss, ctx, c)
    decreases |ss|
  {
    if ss != [] {
      var c1 := Meaning(ss[0], ctx, c).1;
      SetRoundTrip(ss[0], ctx, c);
      SetCons(SetId(ss[0], ctx), Body(ss[0], ctx, c), EncodeSets(ss[1..], ctx, c1), ctx, c);
      SetsRoundTrip(ss[1..], ctx, c1);
    }
  }

  /** An IPFIX message (RFC 7011 section 3.1); trailing is what follows it in the datagram. */
  function EncodeIpfix(ss: seq<SetSpec>, time: nat, sequence: nat, trailing: Bytes, ctx: Context, c: Cache): Bytes
    requires ctx.ipfix && ctx.domain < 0x1_0000_0000 && time < 0x1_0000_0000 && sequence < 0x1_0000_0000
    requires ValidSets(ss, ctx, c) && IPFIX_HEADER + |EncodeSets(ss, ctx, c)| < 0x1_0000
  {
    var body := EncodeSets(ss, ctx, c);
    PutU16(10) + PutU16(IPFIX_HEADER + |body|) + PutU32(time) + PutU32(sequence) + PutU32(ctx.domain) + body + trailing
  }

  /** A v9 export packet (RFC 3954 section 5.1), whose sets run to the end of the datagram. */
  function EncodeV9(ss: seq<SetSpec>, count: nat, uptime: nat, time: nat, sequence: nat, ctx: Context, c: Cache): Bytes
    requires !ctx.ipfix && ctx.domain < 0x1_0000_0000 && count < 0x1_0000
    requires uptime < 0x1_0000_0000 && time < 0x1_0000_0000 && sequence < 0x1_0000_0000
    requires ValidSets(ss, ctx, c)
  {
    PutU16(9) + PutU16(count) + PutU32(uptime) + PutU32(time) + PutU32(sequence) + PutU32(ctx.domain) + EncodeSets(ss, ctx, c)
  }

  lemma IpfixHeader(head: Bytes, body: Bytes, trailing: Bytes, ctx: Context, c: Cache)
    requires ctx.ipfix && ctx.domain < 0x1_0000_0000
    requires |head| == IPFIX_HEADER && IPFIX_HEADER + |body| < 0x1_0000
    requires head[..2] == PutU16(10) && head[2..4] == PutU16(IPFIX_HEADER + |body|) && head[12..16] == PutU32(ctx.domain)
    ensures Datagram(head + body + trailing, ctx.exporter, ctx.now, c) == Sets(body, ctx, c)
  {
    var b := head + body + trailing;
    assert U16(b, 0) == U16(head[..2], 0) && U16(b, 2) == U16(head[2..4], 0) && U32(b, 12) == U32(head[12..16], 0);
    assert b[IPFIX_HEADER..IPFIX_HEADER + |body|] == body;
  }

  lemma IpfixRoundTrip(ss: seq<SetSpec>, time: nat, sequence: nat, trailing: Bytes, ctx: Context, c: Cache)
    requires ctx.ipfix && ctx.domain < 0x1_0000_0000 && time < 0x1_0000_0000 && sequence < 0x1_0000_0000
    requires ValidSets(ss, ctx, c) && IPFIX_HEADER + |EncodeSets(ss, ctx, c)| < 0x1_0000
    ensures Datagram(EncodeIpfix(ss, time, sequence, trailing, ctx, c), ctx.exporter, ctx.now, c) == MeaningOf(ss, ctx, c)
  {
    hide Sets, EncodeSets, MeaningOf;
    var body := EncodeSets(ss, ctx, c);
    var head := PutU16(10) + PutU16(IPFIX_HEADER + |body|) + PutU32(time) + PutU32(sequence) + PutU32(ctx.domain);
    SetsRoundTrip(ss, ctx, c);
    assert head[..2] == PutU16(10) && head[2..4] == PutU16(IPFIX_HEADER + |body|) && head[12..16] == PutU32(ctx.domain);
    IpfixHeader(head, body, trailing, ctx, c);
  }

  lemma V9RoundTrip(ss: seq<SetSpec>, count: nat, uptime: nat, time: nat, sequence: nat, ctx: Context, c: Cache)
    requires !ctx.ipfix && ctx.domain < 0x1_0000_0000 && count < 0x1_0000
    requires uptime < 0x1_0000_0000 && time < 0x1_0000_0000 && sequence < 0x1_0000_0000
    requires ValidSets(ss, ctx, c)
    ensures Datagram(EncodeV9(ss, count, uptime, time, sequence, ctx, c), ctx.exporter, ctx.now, c) == MeaningOf(ss, ctx, c)
  {
    var b := EncodeV9(ss, count, uptime, time, sequence, ctx, c);
    assert b[..2] == PutU16(9) && b[16..20] == PutU32(ctx.domain);
    assert U16(b, 0) == U16(b[..2], 0) && U32(b, 16) == U32(b[16..20], 0);
    assert b[V9_HEADER..] == EncodeSets(ss, ctx, c);
    SetsRoundTrip(ss, ctx, c);
  }

  /**
   * The exporter's promise: a template followed by its data is decoded to exactly those
   * records, whatever the cache held before, even when learning the template empties it.
   */
  lemma TemplateThenData(t: TemplateSpec, recs: seq<seq<Value>>, tpad: Bytes, pad: Bytes, ctx: Context, c: Cache)
    requires ValidTemplate(t, ctx.ipfix) && ValidRecords(AsFields(t.fields), recs)
    requires |tpad| <= 3 && |pad| <= 3
    requires 4 + |EncodeTemplates([t], ctx.ipfix)| + |tpad| < 0x1_0000
    requires 4 + |EncodeRecords(AsFields(t.fields), recs)| + |pad| < 0x1_0000
    ensures var ss := [TemplateSet([t], tpad), DataSet(t.id, recs, pad)];
            && ValidSets(ss, ctx, c)
            && MeaningOf(ss, ctx, c) == (Flows(AsFields(t.fields), recs, ctx.exporter, ctx.now), Put(c, ctx.KeyOf(t.id), AsFields(t.fields)))
  {
    hide FlowOf, Flows, EncodeTemplate, EncodeRecord;
    var ss := [TemplateSet([t], tpad), DataSet(t.id, recs, pad)];
    var c1 := Put(c, ctx.KeyOf(t.id), AsFields(t.fields));
    assert Learn([t], ctx, c) == c1;
    var flows := Flows(AsFields(t.fields), recs, ctx.exporter, ctx.now);
    assert ss[1..] == [DataSet(t.id, recs, pad)] && ss[1..][1..] == [];
    assert MeaningOf([], ctx, c1) == ([], c1) && flows + [] == flows && [] + flows == flows;
    assert ValidSets(ss[1..], ctx, c1);
    assert MeaningOf(ss[1..], ctx, c1) == (flows, c1);
  }

  lemma IpfixTemplateThenData(
    t: TemplateSpec, recs: seq<seq<Value>>, tpad: Bytes, pad: Bytes,
    time: nat, sequence: nat, trailing: Bytes, ctx: Context, c: Cache)
    requires ctx.ipfix && ctx.domain < 0x1_0000_0000 && time < 0x1_0000_0000 && sequence < 0x1_0000_0000
    requires ValidTemplate(t, ctx.ipfix) && ValidRecords(AsFields(t.fields), recs)
    requires |tpad| <= 3 && |pad| <= 3
    requires IPFIX_HEADER + 4 + |EncodeTemplates([t], ctx.ipfix)| + |tpad| + 4 + |EncodeRecords(AsFields(t.fields), recs)| + |pad| < 0x1_0000
    ensures var ss := [TemplateSet([t], tpad), DataSet(t.id, recs, pad)];
            && ValidSets(ss, ctx, c)
            && IPFIX_HEADER + |EncodeSets(ss, ctx, c)| < 0x1_0000
            && Datagram(EncodeIpfix(ss, time, sequence, trailing, ctx, c), ctx.exporter, ctx.now, c).0
               == Flows(AsFields(t.fields), recs, ctx.exporter, ctx.now)
  {
    var ss := [TemplateSet([t], tpad), DataSet(t.id, recs, pad)];
    TemplateThenData(t, recs, tpad, pad, ctx, c);
    var c1 := Meaning(ss[0], ctx, c).1;
    assert Learn([t], ctx, c) == Put(c, ctx.KeyOf(t.id), AsFields(t.fields));
    assert ss[1..] == [DataSet(t.id, recs, pad)] && ss[1..][1..] == [];
    assert EncodeSets(ss[1..], ctx, c1) == EncodeSet(ss[1], ctx, c1) + EncodeSets([], ctx, c1);
    assert |EncodeSets(ss[1..], ctx, c1)| == 4 + |EncodeRecords(AsFields(t.fields), recs)| + |pad|;
    IpfixRoundTrip(ss, time, sequence, trailing, ctx, c);
  }

  // --- v5 ----------------------------------------------------------------------

  /** A v5 record of 48 octets; the fields the decoder has no use for are in the four unread parts. */
  datatype V5Spec = V5Spec(
    src: Bytes, dst: Bytes, nextHopAndInterfaces: Bytes, packets: nat, octets: nat, first: nat, last: nat,
    srcPort: nat, dstPort: nat, padAndFlags: Bytes, proto: Byte, tosAndRouting: Bytes)

  predicate ValidV5(r: V5Spec)
  {
    && |r.src| == |r.dst| == 4 && |r.nextHopAndInterfaces| == 8 && |r.padAndFlags| == 2 && |r.tosAndRouting| == 9
    && r.packets < 0x1_0000_0000 && r.octets < 0x1_0000_0000 && r.first < 0x1_0000_0000 && r.last < 0x1_0000_0000
    && r.srcPort < 0x1_0000 && r.dstPort < 0x1_0000
  }

  function EncodeV5Record(r: V5Spec): (b: Bytes)
    requires ValidV5(r)
    ensures |b| == 48
  {
    r.src + r.dst + r.nextHopAndInterfaces + PutU32(r.packets) + PutU32(r.octets) + PutU32(r.first) + PutU32(r.last) +
    PutU16(r.srcPort) + PutU16(r.dstPort) + r.padAndFlags + [r.proto] + r.tosAndRouting
  }

  function EncodeV5Records(rs: seq<V5Spec>): (b: Bytes)
    requires forall r :: r in rs ==> ValidV5(r)
    ensures |b| == 48 * |rs|
  {
    if rs == [] then [] else EncodeV5Record(rs[0]) + EncodeV5Records(rs[1..])
  }

  /** A v5 packet; rest is what its header holds besides, and trailing what follows its records. */
  function EncodeV5(rs: seq<V5Spec>, count: nat, uptime: nat, seconds: nat, rest: Bytes, trailing: Bytes): Bytes
    requires forall r :: r in rs ==> ValidV5(r)
    requires count < 0x1_0000 && uptime < 0x1_0000_0000 && seconds < 0x1_0000_0000 && |rest| == 12
  {
    PutU16(5) + PutU16(count) + PutU32(uptime) + PutU32(seconds) + rest + EncodeV5Records(rs) + trailing
  }

  /**
   * What a v5 record says: it was seen first and last so many milliseconds after the exporter
   * booted, which was its uptime before the time of the packet, or before now when that has none.
   */
  function V5Said(r: V5Spec, uptime: nat, seconds: nat, exporter: string, now: int): Flow
  {
    var sent := if seconds == 0 then now else seconds * 1_000_000_000;
    Flow(exporter, V4(r.src), V4(r.dst), r.srcPort, r.dstPort, r.proto, r.octets, r.packets,
         sent - uptime * 1_000_000 + r.first * 1_000_000, sent - uptime * 1_000_000 + r.last * 1_000_000)
  }

  /** Where each field of a record is. */
  lemma V5Slices(r: V5Spec)
    requires ValidV5(r)
    ensures var b := EncodeV5Record(r);
            && b[0..4] == r.src && b[4..8] == r.dst
            && b[16..20] == PutU32(r.packets) && b[20..24] == PutU32(r.octets)
            && b[24..28] == PutU32(r.first) && b[28..32] == PutU32(r.last)
            && b[32..34] == PutU16(r.srcPort) && b[34..36] == PutU16(r.dstPort) && b[38] == r.proto
  {
    var a, n, p, f := r.src + r.dst, r.nextHopAndInterfaces, PutU32(r.packets) + PutU32(r.octets), PutU32(r.first) + PutU32(r.last);
    var q, t := PutU16(r.srcPort) + PutU16(r.dstPort), r.padAndFlags + [r.proto] + r.tosAndRouting;
    hide PutU32, PutU16, U32, U16;
    assert EncodeV5Record(r) == a + n + p + f + q + t;
  }

  lemma ReadU32(b: Bytes, i: nat, x: nat)
    requires i + 4 <= |b| && x < 0x1_0000_0000 && b[i..i + 4] == PutU32(x)
    ensures U32(b, i) == x
  {
    assert U32(b, i) == U32(b[i..i + 4], 0);
    hide PutU32;
  }

  lemma ReadU16(b: Bytes, i: nat, x: nat)
    requires i + 2 <= |b| && x < 0x1_0000 && b[i..i + 2] == PutU16(x)
    ensures U16(b, i) == x
  {
    assert U16(b, i) == U16(b[i..i + 2], 0);
  }

  lemma V5RecordRoundTrip(r: V5Spec, exporter: string, boot: int)
    requires ValidV5(r)
    ensures V5Flow(EncodeV5Record(r), exporter, boot) ==
            Flow(exporter, V4(r.src), V4(r.dst), r.srcPort, r.dstPort, r.proto, r.octets, r.packets,
                 boot + r.first * 1_000_000, boot + r.last * 1_000_000)
  {
    var b := EncodeV5Record(r);
    V5Slices(r);
    hide EncodeV5Record, U32, U16, PutU32, PutU16;
    ReadU32(b, 16, r.packets);
    ReadU32(b, 20, r.octets);
    ReadU32(b, 24, r.first);
    ReadU32(b, 28, r.last);
    ReadU16(b, 32, r.srcPort);
    ReadU16(b, 34, r.dstPort);
  }

  lemma {:induction false} V5RecordAt(rs: seq<V5Spec>, i: nat)
    requires i < |rs| && forall r :: r in rs ==> ValidV5(r)
    ensures EncodeV5Records(rs)[48 * i..48 * i + 48] == EncodeV5Record(rs[i])
    decreases |rs|
  {
    hide EncodeV5Record;
    var first, tail := EncodeV5Record(rs[0]), EncodeV5Records(rs[1..]);
    assert EncodeV5Records(rs) == first + tail;
    if i > 0 {
      V5RecordAt(rs[1..], i - 1);
      SliceOfRest(first + tail, 48, 48 * i - 48, 48 * i);
      assert (first + tail)[48..] == tail;
    }
  }

  lemma V5HeaderReadBack(count: nat, uptime: nat, seconds: nat, rest: Bytes, records: Bytes, now: int)
    requires count < 0x1_0000 && uptime < 0x1_0000_0000 && seconds < 0x1_0000_0000 && |rest| == 12
    ensures var b := PutU16(5) + PutU16(count) + PutU32(uptime) + PutU32(seconds) + rest + records;
            && |b| == 24 + |records| && U16(b, 0) == 5 && U16(b, 2) == count && b[24..] == records
            && V5Boot(b, now) == (if seconds == 0 then now else seconds * 1_000_000_000) - uptime * 1_000_000
  {
    hide U32, U16, PutU32, PutU16;
    var b := PutU16(5) + PutU16(count) + PutU32(uptime) + PutU32(seconds) + rest + records;
    assert b[0..2] == PutU16(5) && b[2..4] == PutU16(count) && b[4..8] == PutU32(uptime) && b[8..12] == PutU32(seconds);
    assert b[24..] == records;
    ReadU16(b, 0, 5);
    ReadU16(b, 2, count);
    ReadU32(b, 4, uptime);
    ReadU32(b, 8, seconds);
  }

  /** A whole v5 packet decodes to what its records say, as many as it announces of those that are there. */
  lemma V5RoundTrip(rs: seq<V5Spec>, count: nat, uptime: nat, seconds: nat, rest: Bytes, trailing: Bytes,
                    exporter: string, now: int, c: Cache)
    requires forall r :: r in rs ==> ValidV5(r)
    requires count < 0x1_0000 && uptime < 0x1_0000_0000 && seconds < 0x1_0000_0000 && |rest| == 12 && |trailing| < 48
    ensures var (flows, c1) := Datagram(EncodeV5(rs, count, uptime, seconds, rest, trailing), exporter, now, c);
            && c1 == c && |flows| == (if count < |rs| then count else |rs|)
            && forall i :: 0 <= i < |flows| ==> flows[i] == V5Said(rs[i], uptime, seconds, exporter, now)
  {
    var records := EncodeV5Records(rs) + trailing;
    var b := EncodeV5(rs, count, uptime, seconds, rest, trailing);
    assert b == PutU16(5) + PutU16(count) + PutU32(uptime) + PutU32(seconds) + rest + records;
    assert |records| == 48 * |rs| + |trailing|;
    hide *;
    V5HeaderReadBack(count, uptime, seconds, rest, records, now);
    V5Records(b, exporter, now, c);
    WholeRecords(|rs|, |trailing|);
    forall i: nat | i < V5Count(b) ensures V5At(b, i, exporter, V5Boot(b, now)) == V5Said(rs[i], uptime, seconds, exporter, now) {
      V5RecordAt(rs, i);
      RecordInRecords(rs, i);
      V5SaidAt(rs[i], i, b, EncodeV5Records(rs), uptime, seconds, exporter, now);
    }
  }

  lemma WholeRecords(n: nat, trailing: nat)
    requires trailing < 48
    ensures (48 * n + trailing) / 48 == n
  {
  }

  lemma V5Records(b: Bytes, exporter: string, now: int, c: Cache)
    requires |b| >= 24 && U16(b, 0) == 5
    ensures Datagram(b, exporter, now, c).1 == c
    ensures var flows, whole := Datagram(b, exporter, now, c).0, (|b| - 24) / 48;
            && |flows| == V5Count(b) == (if U16(b, 2) < whole then U16(b, 2) else whole)
            && forall i: nat :: i < V5Count(b) ==> 72 + i * 48 <= |b| && flows[i] == V5At(b, i, exporter, V5Boot(b, now))
  {
    hide V5Flow, V5Boot;
  }

  lemma V5SaidAt(r: V5Spec, i: nat, b: Bytes, records: Bytes, uptime: nat, seconds: nat, exporter: string, now: int)
    requires ValidV5(r) && 24 + |records| <= |b| && b[24..][..|records|] == records
    requires 48 * i + 48 <= |records| && V5_HEADER + i * V5_RECORD + V5_RECORD <= |b| && records[48 * i..48 * i + 48] == EncodeV5Record(r)
    requires V5Boot(b, now) == (if seconds == 0 then now else seconds * 1_000_000_000) - uptime * 1_000_000
    ensures V5At(b, i, exporter, V5Boot(b, now)) == V5Said(r, uptime, seconds, exporter, now)
  {
    hide *;
    V5RecordRoundTrip(r, exporter, V5Boot(b, now));
    SliceOfJoined(b, records, 48 * i);
    V5AtIs(b, i, exporter, V5Boot(b, now));
    V5SaidIs(r, uptime, seconds, exporter, now);
  }

  lemma RecordInRecords(rs: seq<V5Spec>, i: nat)
    requires i < |rs| && forall r :: r in rs ==> ValidV5(r)
    ensures ValidV5(rs[i]) && 48 * i + 48 <= |EncodeV5Records(rs)|
  {
    hide ValidV5;
  }

  lemma V5AtIs(b: Bytes, i: nat, exporter: string, boot: int)
    requires V5_HEADER + i * V5_RECORD + V5_RECORD <= |b|
    ensures V5At(b, i, exporter, boot) == V5Flow(b[24 + i * 48..][..48], exporter, boot)
  {
    hide V5Flow;
  }

  lemma V5SaidIs(r: V5Spec, uptime: nat, seconds: nat, exporter: string, now: int)
    ensures var boot := (if seconds == 0 then now else seconds * 1_000_000_000) - uptime * 1_000_000;
            V5Said(r, uptime, seconds, exporter, now) ==
            Flow(exporter, V4(r.src), V4(r.dst), r.srcPort, r.dstPort, r.proto, r.octets, r.packets,
                 boot + r.first * 1_000_000, boot + r.last * 1_000_000)
  {
  }

  lemma SliceOfJoined(b: Bytes, records: Bytes, at: nat)
    requires 24 + |records| <= |b| && b[24..][..|records|] == records && at + 48 <= |records|
    ensures b[24 + at..][..48] == records[at..at + 48]
  {
    SliceOfRest(b, 24, at, at + 48);
    assert b[24 + at..][..48] == b[24 + at..24 + at + 48];
    assert b[24..][..|records|][at..at + 48] == b[24..][at..at + 48];
  }
}
