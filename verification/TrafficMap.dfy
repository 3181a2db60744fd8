/** The traffic map: a snapshot of the edges with ports folded and, past a limit, externals grouped. */
module TrafficMap {
  import opened Wire
  import opened Sums
  import opened Traffic

  datatype Edge = Edge(src: string, dst: string, port: int, flows: int, bytes: int)

  datatype NodeKind = Internal | External | Group

  datatype Node = Node(kind: NodeKind, bytes: int, flows: int)

  datatype Link = Link(bytes: int, flows: int)

  /** Which addresses are private, the group an external belongs to, and whether to group. */
  datatype Naming = Naming(isPrivate: string -> bool, groupOf: string -> string, collapse: bool)
  {
    function Id(ip: string): string
    {
      if isPrivate(ip) then ip else if collapse then groupOf(ip) else ip
    }

    function KindOf(ip: string): NodeKind
    {
      if isPrivate(ip) then Internal else if collapse then Group else External
    }
  }

  type Pair = (string, string)

  datatype View = View(
    nodes: map<string, Node>, links: map<Pair, Link>, ports: map<Pair, map<int, int>>, groups: map<string, set<string>>)

  const EMPTY := View(map[], map[], map[], map[])

  function AddEnd(nodes: map<string, Node>, id: string, kind: NodeKind, e: Edge): map<string, Node>
  {
    var n := if id in nodes then nodes[id] else Node(kind, 0, 0);
    nodes[id := n.(bytes := n.bytes + e.bytes, flows := n.flows + e.flows)]
  }

  function AddMember(groups: map<string, set<string>>, g: string, ip: string): map<string, set<string>>
  {
    groups[g := (if g in groups then groups[g] else {}) + {ip}]
  }

  function AddPort(ports: map<int, int>, port: int, bytes: int): map<int, int>
  {
    ports[port := (if port in ports then ports[port] else 0) + bytes]
  }

  function AddEnds(nm: Naming, nodes: map<string, Node>, e: Edge): map<string, Node>
  {
    AddEnd(AddEnd(nodes, nm.Id(e.src), nm.KindOf(e.src), e), nm.Id(e.dst), nm.KindOf(e.dst), e)
  }

  function AddExternal(nm: Naming, groups: map<string, set<string>>, ip: string): map<string, set<string>>
  {
    if nm.KindOf(ip) == Group then AddMember(groups, nm.Id(ip), ip) else groups
  }

  function AddLink(links: map<Pair, Link>, lk: Pair, e: Edge): map<Pair, Link>
  {
    var l := if lk in links then links[lk] else Link(0, 0);
    links[lk := Link(l.bytes + e.bytes, l.flows + e.flows)]
  }

  function PairOf(nm: Naming, e: Edge): Pair
  {
    (nm.Id(e.src), nm.Id(e.dst))
  }

  /** An edge whose ends have one name makes no link. */
  predicate Joins(nm: Naming, e: Edge)
  {
    nm.Id(e.src) != nm.Id(e.dst)
  }

  function AddEdge(nm: Naming, v: View, e: Edge): View
  {
    var lk := PairOf(nm, e);
    View(AddEnds(nm, v.nodes, e),
         if Joins(nm, e) then AddLink(v.links, lk, e) else v.links,
         if Joins(nm, e) then v.ports[lk := AddPort(if lk in v.ports then v.ports[lk] else map[], e.port, e.bytes)] else v.ports,
         AddExternal(nm, AddExternal(nm, v.groups, e.src), e.dst))
  }

  function ViewOf(nm: Naming, edges: seq<Edge>): View
  {
    if edges == [] then EMPTY else AddEdge(nm, ViewOf(nm, edges[..|edges| - 1]), edges[|edges| - 1])
  }

  function Externals(nm: Naming, edges: seq<Edge>): set<string>
  {
    (set e | e in edges && !nm.isPrivate(e.src) :: e.src) + (set e | e in edges && !nm.isPrivate(e.dst) :: e.dst)
  }

  // --- what the map says of each host and each pair -------------------------------------------

  /** The name that an address goes by: its own, or that of its group when it is foreign and groups are shown. */
  function Told(nm: Naming, ip: string): string
  {
    if !nm.isPrivate(ip) && nm.collapse then nm.groupOf(ip) else ip
  }

  function ToldKind(nm: Naming, ip: string): NodeKind
  {
    if nm.isPrivate(ip) then Internal else if nm.collapse then Group else External
  }

  function Once(b: bool, x: int): int
  {
    if b then x else 0
  }

  /** Bytes and flows of the edges that begin or end at a name, one that does both counting twice. */
  function AtName(nm: Naming, edges: seq<Edge>, id: string): (int, int)
  {
    if edges == [] then (0, 0)
    else
      var (bytes, flows), e := AtName(nm, edges[..|edges| - 1], id), edges[|edges| - 1];
      (bytes + Once(Told(nm, e.src) == id, e.bytes) + Once(Told(nm, e.dst) == id, e.bytes),
       flows + Once(Told(nm, e.src) == id, e.flows) + Once(Told(nm, e.dst) == id, e.flows))
  }

  /** What the first address that goes by a name is. */
  function KindFirst(nm: Naming, edges: seq<Edge>, id: string): Option<NodeKind>
  {
    if edges == [] then None
    else
      var before, e := KindFirst(nm, edges[..|edges| - 1], id), edges[|edges| - 1];
      if before.Some? then before
      else if Told(nm, e.src) == id then Some(ToldKind(nm, e.src))
      else if Told(nm, e.dst) == id then Some(ToldKind(nm, e.dst))
      else None
  }

  /** The edge leads from one name to another. */
  predicate Leads(nm: Naming, e: Edge, lk: Pair)
  {
    Told(nm, e.src) == lk.0 && Told(nm, e.dst) == lk.1 && lk.0 != lk.1
  }

  /** Bytes and flows of the edges from one name to another, and whether there are any. */
  function Between(nm: Naming, edges: seq<Edge>, lk: Pair): Option<(int, int)>
  {
    if edges == [] then None
    else
      var before, e := Between(nm, edges[..|edges| - 1], lk), edges[|edges| - 1];
      if !Leads(nm, e, lk) then before
      else if before.None? then Some((e.bytes, e.flows))
      else Some((before.value.0 + e.bytes, before.value.1 + e.flows))
  }

  /** The bytes among them on one port. */
  function OnPort(nm: Naming, edges: seq<Edge>, lk: Pair, port: int): Option<int>
  {
    if edges == [] then None
    else
      var before, e := OnPort(nm, edges[..|edges| - 1], lk, port), edges[|edges| - 1];
      if !(Leads(nm, e, lk) && e.port == port) then before
      else Some((if before.Some? then before.value else 0) + e.bytes)
  }

  function FindNode(v: View, id: string): Option<Node>
  {
    if id in v.nodes then Some(v.nodes[id]) else None
  }

  function FindLink(v: View, lk: Pair): Option<Link>
  {
    if lk in v.links then Some(v.links[lk]) else None
  }

  function FindPort(v: View, lk: Pair, port: int): Option<int>
  {
    if lk in v.ports && port in v.ports[lk] then Some(v.ports[lk][port]) else None
  }

  /** A node for every name that occurs, with all that begins or ends there. */
  lemma {:induction false} NodeSays(nm: Naming, edges: seq<Edge>, id: string)
    ensures FindNode(ViewOf(nm, edges), id) ==
            match KindFirst(nm, edges, id)
            case None => None
            case Some(kind) => Some(Node(kind, AtName(nm, edges, id).0, AtName(nm, edges, id).1))
    ensures KindFirst(nm, edges, id).None? ==> AtName(nm, edges, id) == (0, 0)
  {
    hide *;
    if edges == [] {
      NoEdges(nm, id);
    } else {
      var front, e := edges[..|edges| - 1], edges[|edges| - 1];
      NodeSays(nm, front, id);
      NodeMore(nm, ViewOf(nm, front), e, id);
      NameMore(nm, edges, id);
      OnceNone(e);
    }
  }

  lemma NoEdges(nm: Naming, id: string)
    ensures FindNode(ViewOf(nm, []), id) == None && KindFirst(nm, [], id) == None && AtName(nm, [], id) == (0, 0)
  {
  }

  lemma OnceNone(e: Edge)
    ensures Once(false, e.bytes) == 0 == Once(false, e.flows)
  {
  }

  lemma NameMore(nm: Naming, edges: seq<Edge>, id: string)
    requires edges != []
    ensures var front, e := edges[..|edges| - 1], edges[|edges| - 1];
            var s, d, before, at := Told(nm, e.src) == id, Told(nm, e.dst) == id, KindFirst(nm, front, id), AtName(nm, front, id);
            && KindFirst(nm, edges, id) ==
                 (if before.Some? then before else if s then Some(ToldKind(nm, e.src)) else if d then Some(ToldKind(nm, e.dst)) else None)
            && AtName(nm, edges, id) ==
                 (at.0 + Once(s, e.bytes) + Once(d, e.bytes), at.1 + Once(s, e.flows) + Once(d, e.flows))
            && ViewOf(nm, edges) == AddEdge(nm, ViewOf(nm, front), e)
  {
    hide AddEdge, Told, ToldKind, Once;
  }

  lemma NodeMore(nm: Naming, v: View, e: Edge, id: string)
    ensures var n, m := FindNode(v, id), FindNode(AddEdge(nm, v, e), id);
            var s, d := Told(nm, e.src) == id, Told(nm, e.dst) == id;
            var was := if n.Some? then n.value else Node(if s then ToldKind(nm, e.src) else ToldKind(nm, e.dst), 0, 0);
            m == if n.Some? || s || d
                 then Some(Node(was.kind, was.bytes + Once(s, e.bytes) + Once(d, e.bytes), was.flows + Once(s, e.flows) + Once(d, e.flows)))
                 else None
  {
  }

  /** A link for every pair of different names with an edge between them, with all of those. */
  lemma {:induction false} LinkSays(nm: Naming, edges: seq<Edge>, lk: Pair)
    ensures FindLink(ViewOf(nm, edges), lk) ==
            match Between(nm, edges, lk)
            case None => None
            case Some((bytes, flows)) => Some(Link(bytes, flows))
  {
    if edges != [] {
      var front, e := edges[..|edges| - 1], edges[|edges| - 1];
      LinkSays(nm, front, lk);
      LinkMore(nm, ViewOf(nm, front), e, lk);
      hide AddEdge, Leads, FindLink;
    }
  }

  lemma LinkMore(nm: Naming, v: View, e: Edge, lk: Pair)
    ensures var l := FindLink(v, lk);
            FindLink(AddEdge(nm, v, e), lk) ==
              if !Leads(nm, e, lk) then l
              else if l.None? then Some(Link(e.bytes, e.flows))
              else Some(Link(l.value.bytes + e.bytes, l.value.flows + e.flows))
  {
  }

  /** And its bytes port by port. */
  lemma {:induction false} PortSays(nm: Naming, edges: seq<Edge>, lk: Pair, port: int)
    ensures FindPort(ViewOf(nm, edges), lk, port) == OnPort(nm, edges, lk, port)
  {
    if edges != [] {
      var front, e := edges[..|edges| - 1], edges[|edges| - 1];
      PortSays(nm, front, lk, port);
      PortMore(nm, ViewOf(nm, front), e, lk, port);
      hide AddEdge, Leads;
    }
  }

  lemma PortMore(nm: Naming, v: View, e: Edge, lk: Pair, port: int)
    ensures var b := FindPort(v, lk, port);
            FindPort(AddEdge(nm, v, e), lk, port) ==
              if Leads(nm, e, lk) && e.port == port then Some((if b.Some? then b.value else 0) + e.bytes) else b
  {
  }

  // --- conservation ------------------------------------------------------------------------

  function EdgeBytes(edges: seq<Edge>): int
  {
    if edges == [] then 0 else EdgeBytes(edges[..|edges| - 1]) + edges[|edges| - 1].bytes
  }

  /** The bytes of the edges whose ends differ after naming. */
  function JoinedBytes(nm: Naming, edges: seq<Edge>): int
  {
    if edges == [] then 0
    else JoinedBytes(nm, edges[..|edges| - 1]) + if Joins(nm, edges[|edges| - 1]) then edges[|edges| - 1].bytes else 0
  }

  ghost function NodeBytes(nodes: map<string, Node>): map<string, int>
  {
    map id | id in nodes :: nodes[id].bytes
  }

  ghost function LinkBytes(links: map<Pair, Link>): map<Pair, int>
  {
    map lk | lk in links :: links[lk].bytes
  }

  ghost function GroupSizes(groups: map<string, set<string>>): map<string, int>
  {
    map g | g in groups :: |groups[g]|
  }

  lemma AddEndBytes(nodes: map<string, Node>, id: string, kind: NodeKind, e: Edge)
    ensures Sum(NodeBytes(AddEnd(nodes, id, kind, e))) == Sum(NodeBytes(nodes)) + e.bytes
  {
    var x := (if id in nodes then nodes[id].bytes else 0) + e.bytes;
    assert NodeBytes(AddEnd(nodes, id, kind, e)) == NodeBytes(nodes)[id := x];
    SumUpdate(NodeBytes(nodes), id, x);
  }

  lemma AddLinkBytes(links: map<Pair, Link>, lk: Pair, e: Edge)
    ensures Sum(LinkBytes(AddLink(links, lk, e))) == Sum(LinkBytes(links)) + e.bytes
  {
    var x := (if lk in links then links[lk].bytes else 0) + e.bytes;
    assert LinkBytes(AddLink(links, lk, e)) == LinkBytes(links)[lk := x];
    SumUpdate(LinkBytes(links), lk, x);
  }

  lemma AddPortBytes(ports: map<int, int>, port: int, bytes: int)
    ensures Sum(AddPort(ports, port, bytes)) == Sum(ports) + bytes
  {
    SumUpdate(ports, port, (if port in ports then ports[port] else 0) + bytes);
  }

  /**
   * Grouped or not, the nodes' bytes come to twice the edges' bytes, and the links' bytes to those
   * of the edges whose ends differ after naming.
   */
  lemma {:induction false} BytesConserved(nm: Naming, edges: seq<Edge>)
    ensures Sum(NodeBytes(ViewOf(nm, edges).nodes)) == 2 * EdgeBytes(edges)
    ensures Sum(LinkBytes(ViewOf(nm, edges).links)) == JoinedBytes(nm, edges)
  {
    if edges == [] {
      assert NodeBytes(map[]) == map[] && LinkBytes(map[]) == map[];
      SumEmpty<string>();
      SumEmpty<Pair>();
    } else {
      var v, e := ViewOf(nm, edges[..|edges| - 1]), edges[|edges| - 1];
      BytesConserved(nm, edges[..|edges| - 1]);
      AddEndBytes(v.nodes, nm.Id(e.src), nm.KindOf(e.src), e);
      AddEndBytes(AddEnd(v.nodes, nm.Id(e.src), nm.KindOf(e.src), e), nm.Id(e.dst), nm.KindOf(e.dst), e);
      AddLinkBytes(v.links, PairOf(nm, e), e);
    }
  }

  /** The ports of a link are those of its edges, and their bytes come to the link's. */
  ghost predicate PortsMatch(v: View)
  {
    && v.ports.Keys == v.links.Keys
    && forall lk :: lk in v.ports ==> v.ports[lk] != map[] && Sum(v.ports[lk]) == v.links[lk].bytes
  }

  lemma AddEdgePorts(nm: Naming, v: View, e: Edge)
    requires PortsMatch(v)
    ensures PortsMatch(AddEdge(nm, v, e))
  {
    var lk := PairOf(nm, e);
    var ports := if lk in v.ports then v.ports[lk] else map[];
    SumEmpty<int>();
    AddPortBytes(ports, e.port, e.bytes);
    assert e.port in AddPort(ports, e.port, e.bytes);
    hide Sum, AddEnds, AddExternal, AddPort, Joins, PairOf;
  }

  lemma {:induction false} PortsConserved(nm: Naming, edges: seq<Edge>)
    ensures PortsMatch(ViewOf(nm, edges))
  {
    hide AddEdge;
    if edges != [] {
      PortsConserved(nm, edges[..|edges| - 1]);
      AddEdgePorts(nm, ViewOf(nm, edges[..|edges| - 1]), edges[|edges| - 1]);
    }
  }

  /** Each of the externals es is in the group it names, and in no other. */
  ghost predicate Placed(nm: Naming, groups: map<string, set<string>>, es: set<string>)
  {
    && (forall g, ip :: g in groups && ip in groups[g] ==> ip in es && nm.groupOf(ip) == g)
    && (forall ip :: ip in es ==> nm.groupOf(ip) in groups && ip in groups[nm.groupOf(ip)])
  }

  /** The groups split es between them: their sizes come to its size. */
  ghost predicate Splits(nm: Naming, groups: map<string, set<string>>, es: set<string>)
  {
    Placed(nm, groups, es) && Sum(GroupSizes(groups)) == |es|
  }

  lemma AddMemberPlaced(nm: Naming, groups: map<string, set<string>>, es: set<string>, ip: string)
    requires Placed(nm, groups, es)
    ensures Placed(nm, AddMember(groups, nm.groupOf(ip), ip), es + {ip})
    ensures ip in es <==> nm.groupOf(ip) in groups && ip in groups[nm.groupOf(ip)]
  {
  }

  lemma AddMemberSplits(nm: Naming, groups: map<string, set<string>>, es: set<string>, ip: string)
    requires Splits(nm, groups, es)
    ensures Splits(nm, AddMember(groups, nm.groupOf(ip), ip), es + {ip})
  {
    hide Sum, GroupSizes, Placed, AddMember;
    AddMemberPlaced(nm, groups, es, ip);
    AddMemberSize(groups, nm.groupOf(ip), ip);
    if ip in es {
      assert es + {ip} == es;
    }
  }

  lemma AddMemberSize(groups: map<string, set<string>>, g: string, ip: string)
    ensures Sum(GroupSizes(AddMember(groups, g, ip))) ==
            Sum(GroupSizes(groups)) + if g in groups && ip in groups[g] then 0 else 1
  {
    hide Sum;
    var members := if g in groups then groups[g] else {};
    assert GroupSizes(AddMember(groups, g, ip)) == GroupSizes(groups)[g := |members + {ip}|];
    SumUpdate(GroupSizes(groups), g, |members + {ip}|);
    assert g in groups ==> GroupSizes(groups)[g] == |members|;
    if ip in members {
      assert members + {ip} == members;
    }
  }

  lemma ExternalsSnoc(nm: Naming, edges: seq<Edge>, e: Edge)
    ensures Externals(nm, edges + [e]) ==
            Externals(nm, edges) + (if nm.isPrivate(e.src) then {} else {e.src}) + (if nm.isPrivate(e.dst) then {} else {e.dst})
  {
  }

  lemma AddExternalSplits(nm: Naming, groups: map<string, set<string>>, es: set<string>, ip: string)
    requires nm.collapse && Splits(nm, groups, es)
    ensures Splits(nm, AddExternal(nm, groups, ip), es + if nm.isPrivate(ip) then {} else {ip})
  {
    if nm.isPrivate(ip) {
      assert es + {} == es;
    } else {
      AddMemberSplits(nm, groups, es, ip);
    }
  }

  /** When externals are grouped, the groups' members come to the distinct externals, and every group is a node. */
  lemma {:induction false} MembersConserved(nm: Naming, edges: seq<Edge>)
    requires nm.collapse
    ensures Splits(nm, ViewOf(nm, edges).groups, Externals(nm, edges))
    ensures ViewOf(nm, edges).groups.Keys <= ViewOf(nm, edges).nodes.Keys
  {
    hide Splits, Externals;
    if edges == [] {
      NoExternals(nm);
    } else {
      var front, e := edges[..|edges| - 1], edges[|edges| - 1];
      var v, es := ViewOf(nm, front), Externals(nm, front);
      MembersConserved(nm, front);
      assert front + [e] == edges;
      ExternalsSnoc(nm, front, e);
      AddExternalSplits(nm, v.groups, es, e.src);
      AddExternalSplits(nm, AddExternal(nm, v.groups, e.src), es + (if nm.isPrivate(e.src) then {} else {e.src}), e.dst);
    }
  }

  lemma NoExternals(nm: Naming)
    ensures Splits(nm, map[], Externals(nm, []))
  {
    assert Externals(nm, []) == {};
    assert GroupSizes(map[]) == map[];
    SumEmpty<string>();
  }

  // --- from the observed flows to the map --------------------------------------------------

  /** The rows that a snapshot reads. */
  function Shown(rows: Rows, since: int): Rows
  {
    map k | k in rows && rows[k].last >= since :: rows[k]
  }

  /** Every row once, in some order. */
  ghost predicate Lists(rows: Rows, edges: seq<Edge>)
  {
    if edges == [] then rows == map[]
    else
      exists k :: && k in rows && edges[|edges| - 1] == Edge(k.src, k.dst, k.port, rows[k].flows, rows[k].bytes)
                  && Lists(rows - {k}, edges[..|edges| - 1])
  }

  ghost function RowBytes(rows: Rows): map<EdgeKey, int>
  {
    map k | k in rows :: rows[k].bytes
  }

  lemma ListsBy(rows: Rows, edges: seq<Edge>, k: EdgeKey, e: Edge)
    requires k in rows && Lists(rows - {k}, edges) && e == Edge(k.src, k.dst, k.port, rows[k].flows, rows[k].bytes)
    ensures Lists(rows, edges + [e])
  {
    var more := edges + [e];
    assert more[..|more| - 1] == edges && more[|more| - 1] == e;
  }

  lemma ListsMore(rows: Rows, rest: set<EdgeKey>, k: EdgeKey, edges: seq<Edge>)
    requires rest <= rows.Keys && k in rest && Lists(Without(rows, rest), edges)
    ensures Lists(Without(rows, rest - {k}), edges + [Edge(k.src, k.dst, k.port, rows[k].flows, rows[k].bytes)])
  {
    var more := Without(rows, rest - {k});
    assert more - {k} == Without(rows, rest) && k in more && more[k] == rows[k];
    hide Lists, Without;
    ListsBy(more, edges, k, Edge(k.src, k.dst, k.port, rows[k].flows, rows[k].bytes));
  }

  lemma {:induction false} ListedBytes(rows: Rows, edges: seq<Edge>)
    requires Lists(rows, edges)
    ensures EdgeBytes(edges) == Sum(RowBytes(rows))
  {
    if edges == [] {
      assert RowBytes(rows) == map[];
      SumEmpty<EdgeKey>();
    } else {
      var k :| && k in rows && edges[|edges| - 1] == Edge(k.src, k.dst, k.port, rows[k].flows, rows[k].bytes)
               && Lists(rows - {k}, edges[..|edges| - 1]);
      ListedBytes(rows - {k}, edges[..|edges| - 1]);
      assert RowBytes(rows) - {k} == RowBytes(rows - {k});
      SumRemove(RowBytes(rows), k);
    }
  }

  /** The edges that some flow of the history was on. */
  function Seen(h: seq<Op>): set<EdgeKey>
  {
    set i | 0 <= i < |h| && h[i].Observe? && Counts(h[i].f) :: EdgeOf(h[i].f)
  }

  lemma {:induction false} Unseen(h: seq<Op>, k: EdgeKey)
    requires k !in Seen(h)
    ensures Carried(h, k) == NOTHING
  {
    AtFirst(k);
    if h != [] {
      var front, op := h[..|h| - 1], h[|h| - 1];
      assert k !in Seen(front) by {
        assert forall i :: 0 <= i < |front| ==> front[i] == h[i];
      }
      Unseen(front, k);
      assert Contribution(op, k) == NOTHING;
      Unfolded(h, k);
      NothingTwice();
    }
  }

  /** The bytes of every edge active since then: those of its flows, but for what prunings took. */
  ghost function ActiveBytes(h: seq<Op>, since: int): map<EdgeKey, int>
  {
    map k | k in Seen(h) && Carried(h, k).last >= since :: Carried(h, k).bytes - Dropped(h, k).bytes
  }

  /** After a flush the table alone holds an edge. */
  lemma TableHolds(h: seq<Op>, k: EdgeKey)
    ensures Both(AccountOf(Flushed(After(h)).table, k), Dropped(h, k)) == Carried(h, k)
    ensures AccountOf(Flushed(After(h)).table, k) == Held(After(h), k)
  {
    NothingLost(h, k);
    FlushHolds(After(h), k);
    var s := Flushed(After(h));
    AccountStarted(s.table, k);
    hide *;
    FlushEmpties(After(h));
    NoRow(k);
    BothNothing(AccountOf(s.table, k));
    HeldIsBoth(s, k);
  }

  lemma HeldIsBoth(s: Store, k: EdgeKey)
    ensures Held(s, k) == Both(AccountOf(s.table, k), AccountOf(s.pend, k))
  {
  }

  /** An edge is on the map exactly when it was active since then, whatever was pruned before that. */
  lemma ShownIff(h: seq<Op>, since: int, k: EdgeKey)
    requires since > 0 && forall i :: 0 <= i < |h| && h[i].Prune? ==> h[i].before <= since
    ensures k in Shown(Flushed(After(h)).table, since) <==> k in Seen(h) && Carried(h, k).last >= since
    ensures k in Shown(Flushed(After(h)).table, since) ==>
              Shown(Flushed(After(h)).table, since)[k].bytes == Carried(h, k).bytes - Dropped(h, k).bytes
  {
    TableHolds(h, k);
    hide Flushed, After, Carried, Dropped, Held, Seen;
    if k !in Seen(h) {
      Unseen(h, k);
    }
    if Carried(h, k).last >= since {
      ActiveIsHeld(h, k, since);
    }
  }

  /**
   * Whatever flows, flushes and prunings came before, the nodes' bytes of a snapshot come to twice
   * the bytes of the flows of the edges active since then, less what prunings took of those.
   */
  lemma MapIsHistory(h: seq<Op>, since: int, edges: seq<Edge>, nm: Naming)
    requires since > 0 && forall i :: 0 <= i < |h| && h[i].Prune? ==> h[i].before <= since
    requires Lists(Shown(Flushed(After(h)).table, since), edges)
    ensures Sum(NodeBytes(ViewOf(nm, edges).nodes)) == 2 * Sum(ActiveBytes(h, since))
  {
    hide *;
    var rows := Shown(Flushed(After(h)).table, since);
    BytesConserved(nm, edges);
    ListedBytes(rows, edges);
    RowsAreActive(h, since);
  }

  lemma RowsAreActive(h: seq<Op>, since: int)
    requires since > 0 && forall i :: 0 <= i < |h| && h[i].Prune? ==> h[i].before <= since
    ensures RowBytes(Shown(Flushed(After(h)).table, since)) == ActiveBytes(h, since)
  {
    hide Flushed, After, Carried, Dropped, Held, Seen, Shown;
    forall k ensures k in RowBytes(Shown(Flushed(After(h)).table, since)) <==> k in ActiveBytes(h, since) {
      ShownIff(h, since, k);
    }
    forall k | k in ActiveBytes(h, since)
      ensures RowBytes(Shown(Flushed(After(h)).table, since))[k] == ActiveBytes(h, since)[k]
    {
      ShownIff(h, since, k);
    }
  }

  /** Port p of a link carries at least as much as every other. */
  predicate IsTop(ports: map<int, int>, p: int)
  {
    p in ports && forall q :: q in ports ==> ports[q] <= ports[p]
  }

  const MAX_EXTERNALS: nat := 150

  // --- the snapshot as it runs ----------------------------------------------------------------

  /** The first port that carries more than all those looked at before; port 0 when none exceeds -1 bytes. */
  method TopPort(ports: map<int, int>) returns (top: int)
    ensures (exists p :: p in ports && ports[p] >= 0) ==> IsTop(ports, top)
    ensures !(exists p :: p in ports && ports[p] >= 0) ==> top == 0
    ensures IsTop(ports, top) <==> (exists p :: p in ports && ports[p] >= 0) || IsTop(ports, 0)
  {
    top := 0;
    var topBytes := -1;
    var rest := ports.Keys;
    while exists p :: p in rest
      invariant rest <= ports.Keys
      invariant topBytes >= -1
      invariant topBytes >= 0 ==> top in ports && ports[top] == topBytes
      invariant topBytes == -1 ==> top == 0
      invariant forall p :: p in ports && p !in rest ==> ports[p] <= topBytes
      decreases rest
    {
      var p :| p in rest;
      rest := rest - {p};
      if ports[p] > topBytes {
        topBytes, top := ports[p], p;
      }
    }
  }

  /** What the map of these edges is: the fold of them, and a top port for each link. */
  ghost predicate IsMap(edges: seq<Edge>, isPrivate: string -> bool, groupOf: string -> string,
                        v: View, top: map<Pair, int>, collapsed: bool)
  {
    && (collapsed <==> |Externals(Naming(isPrivate, groupOf, collapsed), edges)| > 150)
    && v == ViewOf(Naming(isPrivate, groupOf, collapsed), edges)
    && top.Keys == v.links.Keys
    && forall lk :: lk in top ==> lk in v.ports && TopOf(v.ports[lk], top[lk])
  }

  ghost predicate TopOf(ports: map<int, int>, top: int)
  {
    && ((exists p :: p in ports && ports[p] >= 0) ==> IsTop(ports, top))
    && (!(exists p :: p in ports && ports[p] >= 0) ==> top == 0)
  }

  /** Flushes, reads the rows active since then, and draws them. */
  method Snapshot(g: Graph, since: int, isPrivate: string -> bool, groupOf: string -> string)
    returns (v: View, top: map<Pair, int>, collapsed: bool)
    modifies g
    ensures g.Contents() == Flushed(old(g.Contents()))
    ensures exists edges :: Lists(Shown(g.table, since), edges) && IsMap(edges, isPrivate, groupOf, v, top, collapsed)
    ensures Sum(NodeBytes(v.nodes)) == 2 * Sum(RowBytes(Shown(g.table, since)))
  {
    g.Flush();
    hide Lists, Flushed, Shown, ViewOf, Externals, NodeBytes, TopOf;
    var edges := ListEdges(Shown(g.table, since));
    v, top, collapsed := Draw(edges, isPrivate, groupOf);
    BytesConserved(Naming(isPrivate, groupOf, collapsed), edges);
    ListedBytes(Shown(g.table, since), edges);
  }

  method ListEdges(rows: Rows) returns (edges: seq<Edge>)
    ensures Lists(rows, edges)
  {
    edges := [];
    var rest := rows.Keys;
    assert Without(rows, rest) == map[];
    while rest != {}
      invariant rest <= rows.Keys
      invariant Lists(Without(rows, rest), edges)
      decreases rest
    {
      var k :| k in rest;
      ListsMore(rows, rest, k, edges);
      rest := rest - {k};
      edges := edges + [Edge(k.src, k.dst, k.port, rows[k].flows, rows[k].bytes)];
    }
    assert Without(rows, {}) == rows;
  }

  method Draw(edges: seq<Edge>, isPrivate: string -> bool, groupOf: string -> string)
    returns (v: View, top: map<Pair, int>, collapsed: bool)
    ensures IsMap(edges, isPrivate, groupOf, v, top, collapsed)
  {
    var externals := CountExternals(edges, isPrivate, groupOf);
    collapsed := |externals| > MAX_EXTERNALS;
    var nm := Naming(isPrivate, groupOf, collapsed);
    hide ViewOf;
    v := BuildView(nm, edges);
    top := TopPorts(nm, edges, v);
  }

  method CountExternals(edges: seq<Edge>, isPrivate: string -> bool, groupOf: string -> string) returns (externals: set<string>)
    ensures forall collapse :: externals == Externals(Naming(isPrivate, groupOf, collapse), edges)
  {
    externals := {};
    ghost var nm := Naming(isPrivate, groupOf, false);
    for i := 0 to |edges|
      invariant externals == Externals(nm, edges[..i])
    {
      assert edges[..i + 1] == edges[..i] + [edges[i]];
      ExternalsSnoc(nm, edges[..i], edges[i]);
      if !isPrivate(edges[i].src) {
        externals := externals + {edges[i].src};
      }
      if !isPrivate(edges[i].dst) {
        externals := externals + {edges[i].dst};
      }
    }
    assert edges[..|edges|] == edges;
    assert forall collapse :: Externals(Naming(isPrivate, groupOf, collapse), edges) == Externals(nm, edges);
  }

  method BuildView(nm: Naming, edges: seq<Edge>) returns (v: View)
    ensures v == ViewOf(nm, edges)
  {
    hide AddEdge;
    v := EMPTY;
    for i := 0 to |edges|
      invariant v == ViewOf(nm, edges[..i])
    {
      assert edges[..i + 1][..i] == edges[..i];
      v := CountEdge(nm, v, edges[i]);
    }
    assert edges[..|edges|] == edges;
  }

  /** The body of the edge loop. */
  method CountEdge(nm: Naming, v: View, e: Edge) returns (w: View)
    ensures w == AddEdge(nm, v, e)
  {
    var sid, did := nm.Id(e.src), nm.Id(e.dst);
    w := v.(nodes := AddEnd(AddEnd(v.nodes, sid, nm.KindOf(e.src), e), did, nm.KindOf(e.dst), e));
    if nm.KindOf(e.src) == Group {
      w := w.(groups := AddMember(w.groups, sid, e.src));
    }
    if nm.KindOf(e.dst) == Group {
      w := w.(groups := AddMember(w.groups, did, e.dst));
    }
    if sid == did {
      return;
    }
    var lk := (sid, did);
    w := w.(links := AddLink(w.links, lk, e));
    w := w.(ports := w.ports[lk := AddPort(if lk in w.ports then w.ports[lk] else map[], e.port, e.bytes)]);
  }

  method TopPorts(nm: Naming, edges: seq<Edge>, v: View) returns (top: map<Pair, int>)
    requires v == ViewOf(nm, edges)
    ensures top.Keys == v.links.Keys
    ensures forall lk :: lk in top ==>
              lk in v.ports && TopOf(v.ports[lk], top[lk])
  {
    PortsConserved(nm, edges);
    hide ViewOf, Sum;
    top := map[];
    var rest := v.links.Keys;
    while rest != {}
      invariant rest <= v.links.Keys && top.Keys == v.links.Keys - rest
      invariant forall lk :: lk in top ==>
                  lk in v.ports && TopOf(v.ports[lk], top[lk])
      decreases rest
    {
      var lk :| lk in rest;
      rest := rest - {lk};
      var p := TopPort(v.ports[lk]);
      top := top[lk := p];
    }
  }
}
