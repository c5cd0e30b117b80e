// core.py: the network's nodes, the derivation of source/sink/many-to-one
// flags, the partition of each link's lanes into lane groups, and the maps
// from road connections and next links to lane groups.

class Node {
  const id: int
  var inLinks: map<int, Link>
  var outLinks: map<int, Link>
  var outLinkOrder: seq<int>   // the keys of out_links in insertion order
  var isSource: bool
  var isSink: bool
  var isMany2one: bool

  /** Node(id): no links yet, so both a source and a sink. */
  constructor (id: int)
    ensures this.id == id && inLinks == map[] && outLinks == map[] && outLinkOrder == []
    ensures KeysInOrder()
    ensures isSource && isSink && !isMany2one
  {
    this.id := id;
    inLinks := map[];
    outLinks := map[];
    outLinkOrder := [];
    isSource := true;
    isSink := true;
    isMany2one := false;
  }

  /** add_input_link: a node with an in-link is no longer a source. */
  method AddInputLink(link: Link)
    modifies this`inLinks, this`isSource
    ensures inLinks == old(inLinks)[link.id := link] && !isSource
  {
    inLinks := inLinks[link.id := link];
    isSource := false;
  }

  /**
   * add_output_link: a node with an out-link is no longer a sink; a new key
   * goes to the end of the dictionary's key order, a known one keeps its place.
   */
  method AddOutputLink(link: Link)
    modifies this`outLinks, this`outLinkOrder, this`isSink
    ensures outLinks == old(outLinks)[link.id := link] && !isSink
    ensures outLinkOrder == if link.id in old(outLinks) then old(outLinkOrder) else old(outLinkOrder) + [link.id]
    ensures old(KeysInOrder()) ==> KeysInOrder()
  {
    if link.id !in outLinks {
      outLinkOrder := outLinkOrder + [link.id];
    }
    outLinks := outLinks[link.id := link];
    isSink := false;
  }

  /** `list(out_links.keys())` is `outLinkOrder`: each key once, and nothing else. */
  ghost predicate KeysInOrder()
    reads this`outLinks, this`outLinkOrder
  {
    ListedKeysPresent() &&
    (forall k :: k in outLinks ==> k in outLinkOrder) &&
    (forall i, j :: 0 <= i < j < |outLinkOrder| ==> outLinkOrder[i] != outLinkOrder[j])
  }

  /** Every key listed in `outLinkOrder` is a key of `outLinks`. */
  ghost predicate ListedKeysPresent()
    reads this`outLinks, this`outLinkOrder
  {
    forall i :: 0 <= i < |outLinkOrder| ==> outLinkOrder[i] in outLinks
  }
}

/** The links the nodes' dictionaries refer to. */
ghost function LinksAt(nodes: seq<Node>): set<Link>
  reads nodes`inLinks, nodes`outLinks
{
  if nodes == [] then {}
  else
    var n := nodes[|nodes| - 1];
    LinksAt(nodes[..|nodes| - 1]) + n.inLinks.Values + n.outLinks.Values
}

/** Every node's in- and out-links are among LinksAt(nodes). */
lemma {:induction false} LinksAtHolds(nodes: seq<Node>, i: int)
  requires 0 <= i < |nodes|
  ensures nodes[i].inLinks.Values <= LinksAt(nodes) && nodes[i].outLinks.Values <= LinksAt(nodes)
{
  if i < |nodes| - 1 {
    LinksAtHolds(nodes[..|nodes| - 1], i);
  }
}

/** The out-links of the first `upTo` nodes that have no in-links: they become sources. */
ghost function SourcesAmong(nodes: seq<Node>, upTo: nat): set<Link>
  requires upTo <= |nodes|
  reads nodes`inLinks, nodes`outLinks
{
  if upTo == 0 then {}
  else
    var n := nodes[upTo - 1];
    SourcesAmong(nodes, upTo - 1) + (if |n.inLinks| == 0 then n.outLinks.Values else {})
}

/** The in-links of the first `upTo` nodes that have no out-links: they become sinks. */
ghost function SinksAmong(nodes: seq<Node>, upTo: nat): set<Link>
  requires upTo <= |nodes|
  reads nodes`inLinks, nodes`outLinks
{
  if upTo == 0 then {}
  else
    var n := nodes[upTo - 1];
    SinksAmong(nodes, upTo - 1) + (if |n.outLinks| == 0 then n.inLinks.Values else {})
}

/** Every link in SourcesAmong leaves some node without in-links. */
lemma {:induction false} SourcesAmongSound(nodes: seq<Node>, upTo: nat, l: Link)
  requires upTo <= |nodes| && l in SourcesAmong(nodes, upTo)
  ensures exists i :: 0 <= i < upTo && |nodes[i].inLinks| == 0 && l in nodes[i].outLinks.Values
{
  var n := nodes[upTo - 1];
  if !(|n.inLinks| == 0 && l in n.outLinks.Values) {
    SourcesAmongSound(nodes, upTo - 1, l);
  }
}

/** Every out-link of a node without in-links is in SourcesAmong. */
lemma {:induction false} SourcesAmongComplete(nodes: seq<Node>, upTo: nat, i: nat, l: Link)
  requires i < upTo <= |nodes|
  requires |nodes[i].inLinks| == 0 && l in nodes[i].outLinks.Values
  ensures l in SourcesAmong(nodes, upTo)
{
  if i < upTo - 1 {
    SourcesAmongComplete(nodes, upTo - 1, i, l);
  }
}

/** Every link in SinksAmong enters some node without out-links. */
lemma {:induction false} SinksAmongSound(nodes: seq<Node>, upTo: nat, l: Link)
  requires upTo <= |nodes| && l in SinksAmong(nodes, upTo)
  ensures exists i :: 0 <= i < upTo && |nodes[i].outLinks| == 0 && l in nodes[i].inLinks.Values
{
  var n := nodes[upTo - 1];
  if !(|n.outLinks| == 0 && l in n.inLinks.Values) {
    SinksAmongSound(nodes, upTo - 1, l);
  }
}

/** Every in-link of a node without out-links is in SinksAmong. */
lemma {:induction false} SinksAmongComplete(nodes: seq<Node>, upTo: nat, i: nat, l: Link)
  requires i < upTo <= |nodes|
  requires |nodes[i].outLinks| == 0 && l in nodes[i].inLinks.Values
  ensures l in SinksAmong(nodes, upTo)
{
  if i < upTo - 1 {
    SinksAmongComplete(nodes, upTo - 1, i, l);
  }
}

/** The road connections leaving link `linkId`, in their order. */
function OutRcs(rcs: seq<RoadConnection>, linkId: int): (r: seq<RoadConnection>)
  ensures forall i :: 0 <= i < |r| ==> r[i] in rcs && r[i].inLink == linkId
  ensures forall i :: 0 <= i < |rcs| && rcs[i].inLink == linkId ==> rcs[i] in r
  ensures |r| <= |rcs|
{
  if rcs == [] then []
  else (if rcs[0].inLink == linkId then [rcs[0]] else []) + OutRcs(rcs[1..], linkId)
}

/** The (start lane, number of lanes) of each lane group. */
function Spans(lgs: seq<LaneGroup>): seq<LaneSpan>
{
  seq(|lgs|, i requires 0 <= i < |lgs| => LaneSpan(lgs[i].startLane, lgs[i].numLanes))
}

/** The link's lane groups are those of its lane partition, in order. */
ghost predicate HoldsPartition(link: Link, rcs: seq<RoadConnection>)
  reads link`lgs
{
  Spans(link.lgs) == LanePartition(OutRcs(rcs, link.id), link.fullLanes)
}

/** The number of lane groups the links get from their road connections. */
function PartitionCount(links: seq<Link>, rcs: seq<RoadConnection>): int
{
  if links == [] then 0
  else
    var l := links[|links| - 1];
    PartitionCount(links[..|links| - 1], rcs) + |LanePartition(OutRcs(rcs, l.id), l.fullLanes)|
}

/** The number of lane groups the links hold. */
function LanegroupCount(links: seq<Link>): int
  reads links
{
  if links == [] then 0 else LanegroupCount(links[..|links| - 1]) + |links[|links| - 1].lgs|
}

class Network {
  const nodes: seq<Node>                // nodes.values(), in file order
  const links: seq<Link>                // links.values(), in file order
  const roadconn: seq<RoadConnection>   // roadconn.values(), in file order
  var numLgs: int

  /**
   * The part of Network(...) after the file is read: derive the flags, then
   * create every link's lane groups.
   */
  constructor (nodes: seq<Node>, links: seq<Link>, roadconn: seq<RoadConnection>)
    requires forall i :: 0 <= i < |links| ==> !DividesByZeroSpeed(links[i], roadconn)
    requires forall i, j :: 0 <= i < j < |links| ==> links[i] != links[j]
    modifies nodes`isMany2one, LinksAt(nodes)`isSource, LinksAt(nodes)`isSink, links`lgs
    ensures this.nodes == nodes && this.links == links && this.roadconn == roadconn
    ensures forall i :: 0 <= i < |nodes| ==>
      nodes[i].isMany2one == (|nodes[i].inLinks| > 1 && |nodes[i].outLinks| == 1)
    ensures forall i :: 0 <= i < |links| ==> HoldsPartition(links[i], roadconn)
    ensures numLgs == PartitionCount(links, roadconn) == LanegroupCount(links)
  {
    this.nodes := nodes;
    this.links := links;
    this.roadconn := roadconn;
    numLgs := 0;
    new;
    DeriveFlags();
    var created := CreateLanegroups();
    assert created.Ok?;
    PartitionCountIsLanegroupCount(links, roadconn);
  }

  /**
   * Lines 77-86: a node is many-to-one when it has more than one in-link and
   * exactly one out-link; the out-links of a node without in-links become
   * sources, the in-links of a node without out-links sinks; no other link
   * flag changes. The source does this in one pass over the nodes; the node
   * flags and the link flags are disjoint fields, so separate passes end in
   * the same state.
   */
  method DeriveFlags()
    modifies nodes`isMany2one, LinksAt(nodes)`isSource, LinksAt(nodes)`isSink
    ensures forall i :: 0 <= i < |nodes| ==>
      nodes[i].isMany2one == (|nodes[i].inLinks| > 1 && |nodes[i].outLinks| == 1)
    ensures forall l: Link :: old(allocated(l)) ==>
      l.isSource == (old(l.isSource) || l in old(SourcesAmong(nodes, |nodes|)))
    ensures forall l: Link :: old(allocated(l)) ==>
      l.isSink == (old(l.isSink) || l in old(SinksAmong(nodes, |nodes|)))
  {
    ghost var sinks := SinksAmong(nodes, |nodes|);
    MarkSources(nodes);
    MarkSinks(nodes);
    assert forall l: Link :: old(allocated(l)) ==> l.isSink == (old(l.isSink) || l in sinks);
    SetMany2one();
  }

  /** The many-to-one half of lines 77-78. */
  method SetMany2one()
    modifies nodes`isMany2one
    ensures forall i :: 0 <= i < |nodes| ==>
      nodes[i].isMany2one == (|nodes[i].inLinks| > 1 && |nodes[i].outLinks| == 1)
  {
    var i := 0;
    while i < |nodes|
      invariant 0 <= i <= |nodes|
      invariant forall j :: 0 <= j < i ==>
        nodes[j].isMany2one == (|nodes[j].inLinks| > 1 && |nodes[j].outLinks| == 1)
    {
      var node := nodes[i];
      node.isMany2one := |node.inLinks| > 1 && |node.outLinks| == 1;
      i := i + 1;
    }
  }

  /**
   * Lines 110-153: every link gets fresh lane groups, one per span of its lane
   * partition, and num_lgs counts them all.  The first link whose lane groups
   * would divide by a zero speed raises, after the earlier links got theirs.
   */
  method CreateLanegroups() returns (r: Result<()>)
    requires forall i, j :: 0 <= i < j < |links| ==> links[i] != links[j]
    modifies this`numLgs, links`lgs
    ensures r.Ok? <==> forall i :: 0 <= i < |links| ==> !DividesByZeroSpeed(links[i], roadconn)
    ensures r.Err? ==> r.error == ZeroDivision
    ensures r.Err? ==>
      exists i :: 0 <= i < |links| && DividesByZeroSpeed(links[i], roadconn) &&
        (forall j :: 0 <= j < i ==> HoldsPartition(links[j], roadconn)) &&
        (forall j :: i <= j < |links| ==> links[j].lgs == old(links[j].lgs))
    ensures r.Ok? ==> forall i :: 0 <= i < |links| ==> HoldsPartition(links[i], roadconn)
    ensures r.Ok? ==> numLgs == old(numLgs) + PartitionCount(links, roadconn)
  {
    ghost var parts := Partitions(links, roadconn);
    var i := 0;
    while i < |links|
      invariant 0 <= i <= |links|
      invariant forall j :: 0 <= j < i ==> !DividesByZeroSpeed(links[j], roadconn)
      invariant forall j :: 0 <= j < i ==> Spans(links[j].lgs) == parts[j]
      invariant forall j :: i <= j < |links| ==> links[j].lgs == old(links[j].lgs)
      invariant numLgs == old(numLgs) + GroupCount(parts[..i])
    {
      PartitionsAt(links, roadconn, i);
      var n := SetPartition(links[i], roadconn, parts[i]);
      if n.Err? {
        forall j | 0 <= j < i
          ensures HoldsPartition(links[j], roadconn)
        {
          PartitionsAt(links, roadconn, j);
        }
        return Err(n.error);
      }
      GroupCountStep(parts, i);
      numLgs := numLgs + n.value;
      i := i + 1;
    }
    assert parts[..i] == parts;
    PartitionsHeld(links, roadconn, parts);
    GroupCountIsPartitionCount(links, roadconn);
    r := Ok(());
  }
}

/** Creating the link's lane groups divides by its zero speed: there is at least one group to create. */
predicate DividesByZeroSpeed(link: Link, rcs: seq<RoadConnection>)
{
  link.roadparam.speed == 0.0 && |LinkPartition(rcs, link)| > 0
}

/** The number of groups over a list of partitions. */
function GroupCount(parts: seq<seq<LaneSpan>>): int
{
  if parts == [] then 0 else GroupCount(parts[..|parts| - 1]) + |parts[|parts| - 1]|
}

lemma GroupCountStep(parts: seq<seq<LaneSpan>>, i: int)
  requires 0 <= i < |parts|
  ensures GroupCount(parts[..i + 1]) == GroupCount(parts[..i]) + |parts[i]|
{
  assert parts[..i + 1][..i] == parts[..i];
}

/** Counting the groups of Partitions is PartitionCount. */
lemma {:induction false} GroupCountIsPartitionCount(links: seq<Link>, rcs: seq<RoadConnection>)
  ensures GroupCount(Partitions(links, rcs)) == PartitionCount(links, rcs)
{
  if links != [] {
    var n := |links| - 1;
    GroupCountIsPartitionCount(links[..n], rcs);
    var front := MapLinks(links[..n], rcs, LinkPartition);
    var last := LinkPartition(rcs, links[n]);
    assert Partitions(links, rcs) == front + [last];
    assert (front + [last])[..n] == front;
  }
}

/** Links whose lane groups match Partitions each hold their partition. */
lemma PartitionsHeld(links: seq<Link>, rcs: seq<RoadConnection>, parts: seq<seq<LaneSpan>>)
  requires parts == Partitions(links, rcs)
  requires forall j :: 0 <= j < |links| ==> Spans(links[j].lgs) == parts[j]
  ensures forall j :: 0 <= j < |links| ==> HoldsPartition(links[j], rcs)
{
  forall j | 0 <= j < |links| ensures HoldsPartition(links[j], rcs) {
    PartitionsAt(links, rcs, j);
  }
}

/** A link's lane partition, from the road connections leaving it. */
function LinkPartition(rcs: seq<RoadConnection>, link: Link): seq<LaneSpan>
{
  LanePartition(OutRcs(rcs, link.id), link.fullLanes)
}

/** `f` applied to every link, in order. */
function MapLinks(links: seq<Link>, rcs: seq<RoadConnection>, f: (seq<RoadConnection>, Link) -> seq<LaneSpan>): (p: seq<seq<LaneSpan>>)
  ensures |p| == |links|
{
  if links == [] then []
  else
    var n := |links| - 1;
    MapLinks(links[..n], rcs, f) + [f(rcs, links[n])]
}

lemma {:induction false} MapLinksAt(links: seq<Link>, rcs: seq<RoadConnection>, f: (seq<RoadConnection>, Link) -> seq<LaneSpan>, j: int)
  requires 0 <= j < |links|
  ensures MapLinks(links, rcs, f)[j] == f(rcs, links[j])
{
  var n := |links| - 1;
  if j < n {
    MapLinksAt(links[..n], rcs, f, j);
    assert links[..n][j] == links[j];
  }
}

/** The lane partition of every link, in order. */
function Partitions(links: seq<Link>, rcs: seq<RoadConnection>): (p: seq<seq<LaneSpan>>)
  ensures |p| == |links|
{
  MapLinks(links, rcs, LinkPartition)
}

lemma PartitionsAt(links: seq<Link>, rcs: seq<RoadConnection>, j: int)
  requires 0 <= j < |links|
  ensures Partitions(links, rcs)[j] == LanePartition(OutRcs(rcs, links[j].id), links[j].fullLanes)
{
  MapLinksAt(links, rcs, LinkPartition, j);
}

/**
 * Lines 111-153 for one link: its lane groups become those of its partition;
 * a zero speed raises and leaves them as they were.
 */
method SetPartition(link: Link, roadconn: seq<RoadConnection>, ghost spans: seq<LaneSpan>) returns (n: Result<int>)
  requires spans == LanePartition(OutRcs(roadconn, link.id), link.fullLanes)
  modifies link`lgs
  ensures n.Err? <==> DividesByZeroSpeed(link, roadconn)
  ensures n.Err? ==> n.error == ZeroDivision && link.lgs == old(link.lgs)
  ensures n.Ok? ==> Spans(link.lgs) == spans && n.value == |spans|
{
  var partition := LanePartition(OutRcs(roadconn, link.id), link.fullLanes);
  var lanegroups := NewLanegroups(link, partition);
  if lanegroups.Err? {
    return Err(lanegroups.error);
  }
  link.lgs := lanegroups.value;
  assert |Spans(lanegroups.value)| == |lanegroups.value|;
  n := Ok(|lanegroups.value|);
}

/** The source half of lines 80-82. */
method MarkSources(nodes: seq<Node>)
  modifies LinksAt(nodes)`isSource
  ensures forall l: Link :: old(allocated(l)) ==>
    l.isSource == (old(l.isSource) || l in old(SourcesAmong(nodes, |nodes|)))
{
  var i := 0;
  while i < |nodes|
    invariant 0 <= i <= |nodes|
    invariant forall l: Link :: old(allocated(l)) ==>
      l.isSource == (old(l.isSource) || l in old(SourcesAmong(nodes, i)))
  {
    MarkNodeSources(nodes, i);
    i := i + 1;
  }
}

/** Lines 80-82 for the node at index i. */
method MarkNodeSources(nodes: seq<Node>, i: int)
  requires 0 <= i < |nodes|
  modifies LinksAt(nodes)`isSource
  ensures forall l: Link :: old(allocated(l)) ==>
    l.isSource == (old(l.isSource) || (|nodes[i].inLinks| == 0 && l in nodes[i].outLinks.Values))
{
  var node := nodes[i];
  if |node.inLinks| == 0 {
    LinksAtHolds(nodes, i);
    forall l | l in node.outLinks.Values {
      l.isSource := true;
    }
  }
}

/** The sink half of lines 84-86. */
method MarkSinks(nodes: seq<Node>)
  modifies LinksAt(nodes)`isSink
  ensures forall l: Link :: old(allocated(l)) ==>
    l.isSink == (old(l.isSink) || l in old(SinksAmong(nodes, |nodes|)))
{
  var i := 0;
  while i < |nodes|
    invariant 0 <= i <= |nodes|
    invariant forall l: Link :: old(allocated(l)) ==>
      l.isSink == (old(l.isSink) || l in old(SinksAmong(nodes, i)))
  {
    MarkNodeSinks(nodes, i);
    i := i + 1;
  }
}

/** Lines 84-86 for the node at index i. */
method MarkNodeSinks(nodes: seq<Node>, i: int)
  requires 0 <= i < |nodes|
  modifies LinksAt(nodes)`isSink
  ensures forall l: Link :: old(allocated(l)) ==>
    l.isSink == (old(l.isSink) || (|nodes[i].outLinks| == 0 && l in nodes[i].inLinks.Values))
{
  var node := nodes[i];
  if |node.outLinks| == 0 {
    LinksAtHolds(nodes, i);
    forall l | l in node.inLinks.Values {
      l.isSink := true;
    }
  }
}

/**
 * One fresh lane group per span, with the link's length and road parameters;
 * the first of them divides by a zero speed.
 */
method NewLanegroups(link: Link, spans: seq<LaneSpan>) returns (r: Result<seq<LaneGroup>>)
  ensures r.Err? <==> link.roadparam.speed == 0.0 && |spans| > 0
  ensures r.Err? ==> r.error == ZeroDivision
  ensures r.Ok? ==> Spans(r.value) == spans
  ensures r.Ok? ==> forall g :: 0 <= g < |r.value| ==> fresh(r.value[g]) && r.value[g].length == link.length
{
  var lgs := [];
  var k := 0;
  while k < |spans|
    invariant 0 <= k <= |spans|
    invariant k > 0 ==> link.roadparam.speed != 0.0
    invariant Spans(lgs) == spans[..k]
    invariant forall g :: 0 <= g < |lgs| ==> fresh(lgs[g]) && lgs[g].length == link.length
  {
    var lg := LaneGroup.Create(link.length, spans[k].numLanes, spans[k].startLane, link.roadparam, []);
    if lg.Err? {
      return Err(lg.error);
    }
    lgs := lgs + [lg.value];
    k := k + 1;
  }
  r := Ok(lgs);
}

/** Once every link holds its partition's groups, the two counts agree. */
lemma {:induction false} PartitionCountIsLanegroupCount(links: seq<Link>, rcs: seq<RoadConnection>)
  requires forall i :: 0 <= i < |links| ==> HoldsPartition(links[i], rcs)
  ensures PartitionCount(links, rcs) == LanegroupCount(links)
{
  if links != [] {
    var n := |links| - 1;
    assert |Spans(links[n].lgs)| == |links[n].lgs|;
    PartitionCountIsLanegroupCount(links[..n], rcs);
  }
}

/**
 * A road connection as the network file gives it: the in-link, the out-link
 * and, when present, the integers of its "first-last" in_link_lanes string.
 */
datatype RoadConnectionEntry = RoadConnectionEntry(id: int, inLink: int, inLinkLanes: Option<seq<int>>, outLink: int)

/**
 * Lines 90-107 for one entry: the in-link must exist; given lanes take their
 * first two numbers, and without them the connection covers every lane of
 * the in-link.
 */
function ReadRoadConnection(links: seq<Link>, entry: RoadConnectionEntry): (r: Result<RoadConnection>)
  ensures LinkById(links, entry.inLink).None? ==> r == Err(KeyNotFound(entry.inLink))
  ensures entry.inLinkLanes.Some? && |entry.inLinkLanes.value| < 2 && LinkById(links, entry.inLink).Some? ==>
    r == Err(IndexOutOfRange)
  ensures r.Ok? ==> r.value.id == entry.id && r.value.inLink == entry.inLink && r.value.outLink == entry.outLink
  ensures r.Ok? && entry.inLinkLanes.Some? ==> r.value.inLinkLanes == (entry.inLinkLanes.value[0], entry.inLinkLanes.value[1])
  ensures entry.inLinkLanes.None? && LinkById(links, entry.inLink).Some? ==>
    r.Ok? && r.value.inLinkLanes == (1, LinkById(links, entry.inLink).value.fullLanes)
{
  match LinkById(links, entry.inLink)
  case None => Err(KeyNotFound(entry.inLink))
  case Some(inLink) =>
    match entry.inLinkLanes
    case Some(x) =>
      if |x| < 2 then Err(IndexOutOfRange)
      else Ok(RoadConnection(entry.id, entry.inLink, (x[0], x[1]), entry.outLink))
    case None => Ok(RoadConnection(entry.id, entry.inLink, (1, inLink.fullLanes), entry.outLink))
}

/**
 * A connection read without lanes reaches every lane group of its in-link
 * once the link's lanes are partitioned.
 */
lemma DefaultLanesReachAllLanegroups(links: seq<Link>, entry: RoadConnectionEntry, rcs: seq<RoadConnection>)
  requires entry.inLinkLanes.None? && LinkById(links, entry.inLink).Some?
  requires HoldsPartition(LinkById(links, entry.inLink).value, rcs)
  ensures ReadRoadConnection(links, entry).Ok?
  ensures InLanegroups(LinkById(links, entry.inLink).value.lgs, ReadRoadConnection(links, entry).value.inLinkLanes) ==
    LinkById(links, entry.inLink).value.lgs
{
  FullRangeReachesAll(LinkById(links, entry.inLink).value, rcs);
}
