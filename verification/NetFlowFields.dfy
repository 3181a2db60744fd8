/**
 * What a record says, value by value: the field that each information element stands for, named
 * once by its number in RFC 3954 section 8 and read off the template, independently of the decoder.
 */
module NetFlowFields {
  import opened Wire
  import opened NetFlow

  /** One value of a record, and the element that it is a value of. */
  type Element = (Field, Bytes) -> bool

  predicate IsSource(tf: Field, v: Bytes)
  {
    !tf.ent && ((tf.typ == 8 && |v| == 4) || (tf.typ == 27 && |v| == 16))
  }

  predicate IsDestination(tf: Field, v: Bytes)
  {
    !tf.ent && ((tf.typ == 12 && |v| == 4) || (tf.typ == 28 && |v| == 16))
  }

  predicate IsSourcePort(tf: Field, v: Bytes)
  {
    !tf.ent && tf.typ == 7
  }

  predicate IsDestinationPort(tf: Field, v: Bytes)
  {
    !tf.ent && tf.typ == 11
  }

  predicate IsProtocol(tf: Field, v: Bytes)
  {
    !tf.ent && tf.typ == 4 && v != []
  }

  predicate IsOctetCount(tf: Field, v: Bytes)
  {
    !tf.ent && tf.typ == 1
  }

  predicate IsPacketCount(tf: Field, v: Bytes)
  {
    !tf.ent && tf.typ == 2
  }

  /** The last value of the record that is one of element e. */
  function LastOf(tpl: seq<Field>, vs: seq<Bytes>, e: Element): (r: Option<Bytes>)
    requires |tpl| == |vs|
    ensures r.None? ==> forall i :: 0 <= i < |vs| ==> !e(tpl[i], vs[i])
    ensures r.Some? ==>
              exists i :: 0 <= i < |vs| && r.value == vs[i] && e(tpl[i], vs[i]) &&
                forall j :: i < j < |vs| ==> !e(tpl[j], vs[j])
  {
    if vs == [] then None
    else
      var n := |vs| - 1;
      if e(tpl[n], vs[n]) then Some(vs[n]) else LastOf(tpl[..n], vs[..n], e)
  }

  /** An address of four octets or of sixteen. */
  function AddressOf(v: Option<Bytes>): Addr
  {
    match v
    case None => NoAddr
    case Some(octets) => if |octets| == 4 then V4(octets) else V6(octets)
  }

  /** A number of up to eight octets, read into a signed word; zero when nothing gives it. */
  function NumberOf(v: Option<Bytes>): int
  {
    match v
    case None => 0
    case Some(octets) => ToInt64(UintN(octets))
  }

  function LastOctet(v: Option<Bytes>): Byte
  {
    match v
    case None => 0
    case Some(octets) => if octets == [] then 0 else octets[|octets| - 1]
  }

  /** Every field of the flow, from the values that name it. */
  function Said(tpl: seq<Field>, vs: seq<Bytes>, exporter: string, now: int): Flow
    requires |tpl| == |vs|
  {
    Flow(exporter,
         AddressOf(LastOf(tpl, vs, IsSource)), AddressOf(LastOf(tpl, vs, IsDestination)),
         NumberOf(LastOf(tpl, vs, IsSourcePort)), NumberOf(LastOf(tpl, vs, IsDestinationPort)),
         LastOctet(LastOf(tpl, vs, IsProtocol)),
         NumberOf(LastOf(tpl, vs, IsOctetCount)), NumberOf(LastOf(tpl, vs, IsPacketCount)),
         now, now)
  }

  /** The flow of a record: none without both addresses, and at least one packet where none are counted. */
  function FlowOf(tpl: seq<Field>, vs: seq<Bytes>, exporter: string, now: int): Option<Flow>
    requires |tpl| == |vs|
  {
    var f := Said(tpl, vs, exporter, now);
    if LastOf(tpl, vs, IsSource).None? || LastOf(tpl, vs, IsDestination).None? then None
    else Some(Flow(f.exporter, f.src, f.dst, f.srcPort, f.dstPort, f.proto, f.bytes, if f.packets == 0 then 1 else f.packets, now, now))
  }

  // --- the decoder's fold says the same ------------------------------------------------

  /** Values applied to a flow in template order, as the decoder does. */
  function Fold(f: Flow, tpl: seq<Field>, vs: seq<Bytes>): Flow
    requires |tpl| == |vs|
    decreases |vs|
  {
    if vs == [] then f else Fold(Apply(f, tpl[0], vs[0]), tpl[1..], vs[1..])
  }

  lemma {:induction false} FoldLast(f: Flow, tpl: seq<Field>, vs: seq<Bytes>)
    requires |tpl| == |vs| != 0
    ensures var n := |vs| - 1; Fold(f, tpl, vs) == Apply(Fold(f, tpl[..n], vs[..n]), tpl[n], vs[n])
    decreases |vs|
  {
    hide Apply;
    var n := |vs| - 1;
    if n > 0 {
      FoldLast(Apply(f, tpl[0], vs[0]), tpl[1..], vs[1..]);
      assert tpl[1..][..n - 1] == tpl[..n][1..] && vs[1..][..n - 1] == vs[..n][1..];
    }
  }

  lemma LastOfLast(tpl: seq<Field>, vs: seq<Bytes>, e: Element)
    requires |tpl| == |vs| != 0
    ensures var n := |vs| - 1; LastOf(tpl, vs, e) == if e(tpl[n], vs[n]) then Some(vs[n]) else LastOf(tpl[..n], vs[..n], e)
  {
  }

  /** One value changes the field that it names, and no other. */
  lemma AppliedIs(f: Flow, tf: Field, v: Bytes)
    ensures Apply(f, tf, v) ==
            Flow(f.exporter,
                 if IsSource(tf, v) then AddressOf(Some(v)) else f.src,
                 if IsDestination(tf, v) then AddressOf(Some(v)) else f.dst,
                 if IsSourcePort(tf, v) then NumberOf(Some(v)) else f.srcPort,
                 if IsDestinationPort(tf, v) then NumberOf(Some(v)) else f.dstPort,
                 if IsProtocol(tf, v) then LastOctet(Some(v)) else f.proto,
                 if IsOctetCount(tf, v) then NumberOf(Some(v)) else f.bytes,
                 if IsPacketCount(tf, v) then NumberOf(Some(v)) else f.packets,
                 f.start, f.end)
  {
    hide UintN, ToInt64;
  }

  lemma SaidLast(tpl: seq<Field>, vs: seq<Bytes>, exporter: string, now: int)
    requires |tpl| == |vs| != 0
    ensures var n := |vs| - 1; Said(tpl, vs, exporter, now) == Apply(Said(tpl[..n], vs[..n], exporter, now), tpl[n], vs[n])
  {
    var n := |vs| - 1;
    AppliedIs(Said(tpl[..n], vs[..n], exporter, now), tpl[n], vs[n]);
    LastOfLast(tpl, vs, IsSource);
    LastOfLast(tpl, vs, IsDestination);
    LastOfLast(tpl, vs, IsSourcePort);
    LastOfLast(tpl, vs, IsDestinationPort);
    LastOfLast(tpl, vs, IsProtocol);
    LastOfLast(tpl, vs, IsOctetCount);
    LastOfLast(tpl, vs, IsPacketCount);
    hide LastOf, NumberOf, AddressOf, LastOctet, Apply;
    hide IsSource, IsDestination, IsSourcePort, IsDestinationPort, IsProtocol, IsOctetCount, IsPacketCount;
  }

  lemma {:induction false} FoldIsSaid(tpl: seq<Field>, vs: seq<Bytes>, exporter: string, now: int)
    requires |tpl| == |vs|
    ensures Fold(NewFlow(exporter, now), tpl, vs) == Said(tpl, vs, exporter, now)
  {
    if vs != [] {
      var n := |vs| - 1;
      FoldLast(NewFlow(exporter, now), tpl, vs);
      SaidLast(tpl, vs, exporter, now);
      hide Said, Fold, Apply;
      FoldIsSaid(tpl[..n], vs[..n], exporter, now);
    }
  }

  lemma {:induction false} AddressFound(tpl: seq<Field>, vs: seq<Bytes>)
    requires |tpl| == |vs|
    ensures AddressOf(LastOf(tpl, vs, IsSource)) == NoAddr <==> LastOf(tpl, vs, IsSource).None?
    ensures AddressOf(LastOf(tpl, vs, IsDestination)) == NoAddr <==> LastOf(tpl, vs, IsDestination).None?
  {
  }

  /** The decoder's fold of a record is what its values say. */
  lemma FinishedIsFlowOf(tpl: seq<Field>, vs: seq<Bytes>, exporter: string, now: int)
    requires |tpl| == |vs|
    ensures Finish(Fold(NewFlow(exporter, now), tpl, vs)) == FlowOf(tpl, vs, exporter, now)
  {
    FoldIsSaid(tpl, vs, exporter, now);
    AddressFound(tpl, vs);
    hide LastOf, Fold, NumberOf, LastOctet, AddressOf;
  }

  // --- values cut from the octets of a record ------------------------------------------------

  /** The values at the front of r, one for each field, and the octets they take with their lengths. */
  function Values(tpl: seq<Field>, r: Bytes): (res: Option<(seq<Bytes>, nat)>)
    ensures res.Some? ==> |res.value.0| == |tpl| && res.value.1 <= |r|
    decreases |tpl|
  {
    if tpl == [] then Some(([], 0))
    else
      match ValueLength(tpl[0], r)
      case None => None
      case Some((p, l)) =>
        if p + l > |r| then None
        else Prepend(r[p..p + l], p + l, Values(tpl[1..], r[p + l..]))
  }

  function Prepend(v: Bytes, size: nat, others: Option<(seq<Bytes>, nat)>): Option<(seq<Bytes>, nat)>
  {
    match others
    case None => None
    case Some((vs, n)) => Some(([v] + vs, size + n))
  }

  lemma ValuesAt(tpl: seq<Field>, r: Bytes, p: nat, l: nat)
    requires tpl != [] && ValueLength(tpl[0], r) == Some((p, l)) && p + l <= |r|
    ensures Values(tpl, r) == Prepend(r[p..p + l], p + l, Values(tpl[1..], r[p + l..]))
  {
    hide ValueLength, Prepend;
  }

  lemma FirstValue(tpl: seq<Field>, prefix: Bytes, v: Bytes, rest: Bytes)
    requires tpl != [] && ValueLength(tpl[0], prefix + (v + rest)) == Some((|prefix|, |v|))
    ensures Values(tpl, prefix + v + rest) == Prepend(v, |prefix| + |v|, Values(tpl[1..], rest))
  {
    hide *;
    var r := prefix + v + rest;
    Cut(prefix, v, rest);
    ValuesAt(tpl, r, |prefix|, |v|);
  }

  lemma {:induction false} VarFolds(f: Flow, tpl: seq<Field>, r: Bytes)
    ensures VarFields(f, tpl, r) ==
            match Values(tpl, r)
            case None => None
            case Some((vs, n)) => Some((Fold(f, tpl, vs), n))
    decreases |tpl|
  {
    hide Apply, ValueLength;
    if tpl != [] {
      match ValueLength(tpl[0], r)
      case None =>
      case Some((p, l)) =>
        if p + l <= |r| {
          VarFolds(Apply(f, tpl[0], r[p..p + l]), tpl[1..], r[p + l..]);
          match Values(tpl[1..], r[p + l..])
          case None =>
          case Some((vs, _)) =>
            assert ([r[p..p + l]] + vs)[1..] == vs;
        }
    }
  }

  /** Of any octets whatever, a record decodes to what its values say. */
  lemma VarSays(tpl: seq<Field>, r: Bytes, exporter: string, now: int)
    ensures VarFields(NewFlow(exporter, now), tpl, r) ==
            match Values(tpl, r)
            case None => None
            case Some((vs, n)) => Some((Said(tpl, vs, exporter, now), n))
  {
    VarFolds(NewFlow(exporter, now), tpl, r);
    hide VarFields, Values, Said, Fold;
    match Values(tpl, r)
    case None =>
    case Some((vs, _)) => FoldIsSaid(tpl, vs, exporter, now);
  }

  /** The values of a template of fixed lengths: one slice after the other. */
  function Slices(tpl: seq<Field>, r: Bytes): (vs: seq<Bytes>)
    requires SumLen(tpl) <= |r|
    ensures |vs| == |tpl|
    decreases |tpl|
  {
    if tpl == [] then [] else [r[..tpl[0].len]] + Slices(tpl[1..], r[tpl[0].len..])
  }

  lemma SumFront(tpl: seq<Field>, i: nat)
    requires 0 < i <= |tpl|
    ensures SumLen(tpl[..i]) == tpl[0].len + SumLen(tpl[1..][..i - 1])
  {
    assert tpl[..i][1..] == tpl[1..][..i - 1];
  }

  /** Value i begins after those before it. */
  lemma {:induction false} SlicesAt(tpl: seq<Field>, r: Bytes, i: nat)
    requires SumLen(tpl) <= |r| && i < |tpl|
    ensures SumLen(tpl[..i]) + tpl[i].len <= |r|
    ensures Slices(tpl, r)[i] == r[SumLen(tpl[..i])..SumLen(tpl[..i]) + tpl[i].len]
    decreases |tpl|
  {
    SlicesCons(tpl, r);
    hide *;
    if i == 0 {
      NoLength(tpl);
    } else {
      var n := tpl[0].len;
      SlicesAt(tpl[1..], r[n..], i - 1);
      SumFront(tpl, i);
      var at := SumLen(tpl[1..][..i - 1]);
      SliceOfRest(r, n, at, at + tpl[i].len);
    }
  }

  lemma SlicesCons(tpl: seq<Field>, r: Bytes)
    requires tpl != [] && SumLen(tpl) <= |r|
    ensures SumLen(tpl) == tpl[0].len + SumLen(tpl[1..])
    ensures Slices(tpl, r) == [r[..tpl[0].len]] + Slices(tpl[1..], r[tpl[0].len..])
  {
  }

  lemma NoLength(tpl: seq<Field>)
    ensures SumLen(tpl[..0]) == 0
  {
  }

  lemma {:induction false} FixedFolds(f: Flow, tpl: seq<Field>, r: Bytes)
    requires SumLen(tpl) <= |r|
    ensures FixedFields(f, tpl, r) == Fold(f, tpl, Slices(tpl, r))
    decreases |tpl|
  {
    hide Apply;
    if tpl != [] {
      var n := tpl[0].len;
      FixedFolds(Apply(f, tpl[0], r[..n]), tpl[1..], r[n..]);
      assert Slices(tpl, r)[1..] == Slices(tpl[1..], r[n..]);
    }
  }

  lemma FixedSays(tpl: seq<Field>, r: Bytes, exporter: string, now: int)
    requires SumLen(tpl) <= |r|
    ensures Finish(FixedFields(NewFlow(exporter, now), tpl, r)) == FlowOf(tpl, Slices(tpl, r), exporter, now)
  {
    FixedFolds(NewFlow(exporter, now), tpl, r);
    FinishedIsFlowOf(tpl, Slices(tpl, r), exporter, now);
  }

  // --- numbers --------------------------------------------------------------------------------

  /** The n octets of x, the most significant first. */
  function PutUint(x: nat, n: nat): (b: Bytes)
    ensures |b| == n
  {
    if n == 0 then [] else PutUint(x / 256, n - 1) + [x % 256]
  }

  lemma {:induction false} BigEndianPut(x: nat, n: nat)
    requires x < Pow256(n)
    ensures BigEndian(PutUint(x, n)) == x
  {
    if n > 0 {
      BigEndianPut(x / 256, n - 1);
      assert PutUint(x, n)[..n - 1] == PutUint(x / 256, n - 1);
    }
  }

  /** A number reads back from any width that holds it; of more than eight octets only the last eight count. */
  lemma NumberReadBack(x: nat, n: nat, high: Bytes)
    requires x < Pow256(n) && n <= 8 && (high != [] ==> n == 8)
    ensures UintN(high + PutUint(x, n)) == x
  {
    var v := high + PutUint(x, n);
    BigEndianPut(x, n);
    assert |v| > 8 ==> v[|v| - 8..] == PutUint(x, n);
    assert high == [] ==> v == PutUint(x, n);
  }

  /** The signed reading is the one that agrees modulo 2^64 and fits. */
  lemma SignedReading(x: nat)
    requires x < TWO_TO_64
    ensures -0x8000_0000_0000_0000 <= ToInt64(x) < 0x8000_0000_0000_0000
    ensures (x - ToInt64(x)) % 0x1_0000_0000_0000_0000 == 0
  {
  }
}
