/** NetFlow v5, NetFlow v9 and IPFIX datagrams: what a datagram means, as functions of its octets. */
module NetFlow {
  import opened Wire

  /** An address as the exporter sent it; its textual form is one-to-one and never empty. */
  datatype Addr = NoAddr | V4(octets: Bytes) | V6(octets: Bytes)

  datatype Flow = Flow(
    exporter: string, src: Addr, dst: Addr, srcPort: int, dstPort: int, proto: Byte,
    bytes: int, packets: int, start: int, end: int)

  /** One template entry; ent marks an enterprise-specific element, whose value is skipped. */
  datatype Field = Field(typ: nat, len: nat, ent: bool)

  datatype Key = Key(exporter: string, domain: nat, id: nat)

  /** The template cache's contents as a value. */
  datatype Cache = Cache(tpls: map<Key, seq<Field>>, dropped: nat)

  const VARIABLE: nat := 0xffff
  const MAX_FIELDS: nat := 128
  const CACHE_LIMIT: nat := 4096
  const MILLISECOND: int := 1_000_000
  const SECOND: int := 1_000_000_000

  function Put(c: Cache, k: Key, f: seq<Field>): Cache
  {
    c.(tpls := (if |c.tpls| > CACHE_LIMIT then map[] else c.tpls)[k := f])
  }

  // --- one record ----------------------------------------------------------

  /** The value of the last eight octets. */
  function UintN(v: Bytes): (r: nat)
    ensures r < TWO_TO_64
  {
    var w := if |v| > 8 then v[|v| - 8..] else v;
    BigEndianBound(w);
    Pow256Monotone(|w|, 8);
    assert Pow256(8) == TWO_TO_64;
    BigEndian(w)
  }

  function ApplyField(f: Flow, typ: nat, v: Bytes): Flow
  {
    match typ
    case 1 => f.(bytes := ToInt64(UintN(v)))
    case 2 => f.(packets := ToInt64(UintN(v)))
    case 4 => if |v| >= 1 then f.(proto := v[|v| - 1]) else f
    case 7 => f.(srcPort := ToInt64(UintN(v)))
    case 11 => f.(dstPort := ToInt64(UintN(v)))
    case 8 => if |v| == 4 then f.(src := V4(v)) else f
    case 12 => if |v| == 4 then f.(dst := V4(v)) else f
    case 27 => if |v| == 16 then f.(src := V6(v)) else f
    case 28 => if |v| == 16 then f.(dst := V6(v)) else f
    case _ => f
  }

  function Apply(f: Flow, tf: Field, v: Bytes): Flow
  {
    if tf.ent then f else ApplyField(f, tf.typ, v)
  }

  function NewFlow(exporter: string, now: int): Flow
  {
    Flow(exporter, NoAddr, NoAddr, 0, 0, 0, 0, 0, now, now)
  }

  /** A record lacking an address is no flow; a flow without a packet count counts one packet. */
  function Finish(f: Flow): Option<Flow>
  {
    if f.src == NoAddr || f.dst == NoAddr then None
    else Some(if f.packets == 0 then f.(packets := 1) else f)
  }

  function HasVariable(tpl: seq<Field>): bool
  {
    tpl != [] && (tpl[0].len == VARIABLE || HasVariable(tpl[1..]))
  }

  function SumLen(tpl: seq<Field>): nat
  {
    if tpl == [] then 0 else tpl[0].len + SumLen(tpl[1..])
  }

  function FixedFields(f: Flow, tpl: seq<Field>, r: Bytes): Flow
    requires SumLen(tpl) <= |r|
    decreases |tpl|
  {
    if tpl == [] then f
    else FixedFields(Apply(f, tpl[0], r[..tpl[0].len]), tpl[1..], r[tpl[0].len..])
  }

  /** The length of the value at the front of r and the size of its length prefix. */
  function ValueLength(tf: Field, r: Bytes): Option<(nat, nat)>
  {
    if tf.len != VARIABLE then Some((0, tf.len))
    else if |r| < 1 then None
    else if r[0] != 255 then Some((1, r[0]))
    else if |r| < 3 then None
    else Some((3, U16(r, 1)))
  }

  function VarFields(f: Flow, tpl: seq<Field>, r: Bytes): (res: Option<(Flow, nat)>)
    ensures res.Some? ==> res.value.1 <= |r|
    decreases |tpl|
  {
    if tpl == [] then Some((f, 0))
    else
      match ValueLength(tpl[0], r)
      case None => None
      case Some((p, l)) =>
        if p + l > |r| then None
        else
          match VarFields(Apply(f, tpl[0], r[p..p + l]), tpl[1..], r[p + l..])
          case None => None
          case Some((g, n)) => Some((g, p + l + n))
  }

  /** What one turn of the record loop reads: nothing, or used octets and perhaps a flow. */
  datatype Step = Stop | Read(flow: Option<Flow>, used: nat)

  function NextFixed(b: Bytes, tpl: seq<Field>, exporter: string, now: int): Step
  {
    if SumLen(tpl) == 0 || SumLen(tpl) > |b| then Stop
    else Read(Finish(FixedFields(NewFlow(exporter, now), tpl, b[..SumLen(tpl)])), SumLen(tpl))
  }

  function NextVar(b: Bytes, tpl: seq<Field>, exporter: string, now: int): Step
  {
    match VarFields(NewFlow(exporter, now), tpl, b)
    case None => Stop
    case Some((f, n)) => if n == 0 then Stop else Read(Finish(f), n)
  }

  function NextRecord(b: Bytes, tpl: seq<Field>, exporter: string, now: int): (s: Step)
    ensures s.Read? ==> 0 < s.used <= |b|
  {
    if HasVariable(tpl) then NextVar(b, tpl, exporter, now) else NextFixed(b, tpl, exporter, now)
  }

  function Records(b: Bytes, tpl: seq<Field>, exporter: string, now: int): seq<Flow>
    decreases |b|
  {
    match NextRecord(b, tpl, exporter, now)
    case Stop => []
    case Read(f, n) =>
      ToSeq(f) + if n >= |b| - 3 then [] else Records(b[n..], tpl, exporter, now)
  }

  // --- sets and messages ---------------------------------------------------

  /** Who sent a message, and how its sets are read. */
  datatype Context = Context(exporter: string, domain: nat, now: int, ipfix: bool)
  {
    function TemplateSetId(): nat { if ipfix then 2 else 0 }
    function KeyOf(id: nat): Key { Key(exporter, domain, id) }
  }

  /** n field specifiers at the front of b, and how many octets they take. */
  function Fields(b: Bytes, n: nat, ipfix: bool): (res: Option<(seq<Field>, nat)>)
    ensures res.Some? ==> |res.value.0| == n && res.value.1 <= |b|
    decreases n
  {
    if n == 0 then Some(([], 0))
    else if |b| < 4 then None
    else
      var ent := ipfix && U16(b, 0) >= 0x8000;
      var size := if ent then 8 else 4;
      if |b| < size then None
      else
        match Fields(b[size..], n - 1, ipfix)
        case None => None
        case Some((fs, m)) => Some(([Field(U16(b, 0) % (if ent then 0x8000 else 0x1_0000), U16(b, 2), ent)] + fs, size + m))
  }

  function Templates(b: Bytes, ctx: Context, c: Cache): Cache
    decreases |b|
  {
    if |b| < 4 then c
    else
      var id, n := U16(b, 0), U16(b, 2);
      if id < 256 || n == 0 || n > MAX_FIELDS then c
      else
        match Fields(b[4..], n, ctx.ipfix)
        case None => c
        case Some((fs, m)) => Templates(b[4 + m..], ctx, Put(c, ctx.KeyOf(id), fs))
  }

  function Data(b: Bytes, id: nat, ctx: Context, c: Cache): (seq<Flow>, Cache)
  {
    if ctx.KeyOf(id) in c.tpls then (Records(b, c.tpls[ctx.KeyOf(id)], ctx.exporter, ctx.now), c)
    else ([], c.(dropped := c.dropped + 1))
  }

  function OneSet(id: nat, body: Bytes, ctx: Context, c: Cache): (seq<Flow>, Cache)
  {
    if id == ctx.TemplateSetId() then ([], Templates(body, ctx, c))
    else if id > 255 then Data(body, id, ctx, c)
    else ([], c)
  }

  function Sets(b: Bytes, ctx: Context, c: Cache): (seq<Flow>, Cache)
    decreases |b|
  {
    if |b| < 4 || U16(b, 2) < 4 || U16(b, 2) > |b| then ([], c)
    else
      var (here, c1) := OneSet(U16(b, 0), b[4..U16(b, 2)], ctx, c);
      var (rest, c2) := Sets(b[U16(b, 2)..], ctx, c1);
      (here + rest, c2)
  }

  const V9_HEADER: nat := 20
  const IPFIX_HEADER: nat := 16
  const V5_HEADER: nat := 24
  const V5_RECORD: nat := 48

  function V9(b: Bytes, exporter: string, now: int, c: Cache): (seq<Flow>, Cache)
  {
    if |b| < V9_HEADER then ([], c)
    else Sets(b[V9_HEADER..], Context(exporter, U32(b, 16), now, false), c)
  }

  function Ipfix(b: Bytes, exporter: string, now: int, c: Cache): (seq<Flow>, Cache)
  {
    if |b| < IPFIX_HEADER then ([], c)
    else
      var total := if U16(b, 2) > |b| then |b| else U16(b, 2);
      if total < IPFIX_HEADER then ([], c)
      else Sets(b[IPFIX_HEADER..total], Context(exporter, U32(b, 12), now, true), c)
  }

  function V5Flow(r: Bytes, exporter: string, boot: int): Flow
    requires |r| == V5_RECORD
  {
    Flow(exporter, V4(r[0..4]), V4(r[4..8]), U16(r, 32), U16(r, 34), r[38], U32(r, 20), U32(r, 16),
         boot + U32(r, 24) * MILLISECOND, boot + U32(r, 28) * MILLISECOND)
  }

  /** The time the exporter booted; a header without a clock falls back to the receiver's. */
  function V5Boot(b: Bytes, now: int): int
    requires |b| >= V5_HEADER
  {
    (if U32(b, 8) == 0 then now else U32(b, 8) * SECOND) - U32(b, 4) * MILLISECOND
  }

  /** As many records as the header announces, but no more than are there whole. */
  function V5Count(b: Bytes): (n: nat)
    requires |b| >= V5_HEADER
    ensures V5_HEADER + n * V5_RECORD <= |b|
  {
    var whole := (|b| - V5_HEADER) / V5_RECORD;
    if U16(b, 2) < whole then U16(b, 2) else whole
  }

  function V5At(b: Bytes, i: nat, exporter: string, boot: int): Flow
    requires V5_HEADER + i * V5_RECORD + V5_RECORD <= |b|
  {
    V5Flow(b[V5_HEADER + i * V5_RECORD..][..V5_RECORD], exporter, boot)
  }

  function V5(b: Bytes, exporter: string, now: int): seq<Flow>
  {
    if |b| < V5_HEADER then []
    else seq(V5Count(b), i requires 0 <= i < V5Count(b) => V5At(b, i, exporter, V5Boot(b, now)))
  }

  function Datagram(b: Bytes, exporter: string, now: int, c: Cache): (seq<Flow>, Cache)
  {
    if |b| < 2 then ([], c)
    else
      match U16(b, 0)
      case 5 => (V5(b, exporter, now), c)
      case 9 => V9(b, exporter, now, c)
      case 10 => Ipfix(b, exporter, now, c)
      case _ => ([], c)
  }
}
