// core.py, class Scenario: the map from road connections to the lane groups
// they leave from (lines 183-189), each link's map from next links to its lane
// groups (lines 192-201), and the lane-group queries (lines 309-328).
//
// A lane group is its own id here: `LaneGroup.get_id` is not defined by the
// source, and the object identity is what the queries need.

/** `links[id]`: the link with that id, if there is one. */
function LinkById(links: seq<Link>, id: int): (r: Option<Link>)
  ensures r.Some? ==> r.value in links && r.value.id == id
  ensures r.None? ==> forall i :: 0 <= i < |links| ==> links[i].id != id
{
  if links == [] then None
  else if links[0].id == id then Some(links[0])
  else LinkById(links[1..], id)
}

/** A lane group lies inside a lane range (lines 188-189). */
predicate WithinLanes(lg: LaneGroup, lanes: (int, int))
{
  lg.startLane >= lanes.0 && lg.startLane + lg.numLanes - 1 <= lanes.1
}

/** The lane groups of `lgs` that lie inside the lane range, in their order. */
function InLanegroups(lgs: seq<LaneGroup>, lanes: (int, int)): (r: seq<LaneGroup>)
  ensures forall i :: 0 <= i < |r| ==> r[i] in lgs && WithinLanes(r[i], lanes)
  ensures forall i :: 0 <= i < |lgs| && WithinLanes(lgs[i], lanes) ==> lgs[i] in r
  ensures (forall i :: 0 <= i < |lgs| ==> WithinLanes(lgs[i], lanes)) ==> r == lgs
{
  if lgs == [] then []
  else (if WithinLanes(lgs[0], lanes) then [lgs[0]] else []) + InLanegroups(lgs[1..], lanes)
}

/** No later road connection has the same id as the one at index k. */
predicate LastOfId(roadconn: seq<RoadConnection>, k: int)
  requires 0 <= k < |roadconn|
{
  forall j :: k < j < |roadconn| ==> roadconn[j].id != roadconn[k].id
}

/**
 * Lines 183-189: rc2inlgs maps each road connection to the lane groups of its
 * in-link that lie inside its lane range; a missing in-link is a KeyError.
 */
method BuildRc2Inlgs(links: seq<Link>, roadconn: seq<RoadConnection>)
  returns (r: Result<map<int, seq<LaneGroup>>>)
  ensures r.Ok? <==> forall k :: 0 <= k < |roadconn| ==> LinkById(links, roadconn[k].inLink).Some?
  ensures r.Err? ==>
    exists k :: 0 <= k < |roadconn| && LinkById(links, roadconn[k].inLink).None? && r.error == KeyNotFound(roadconn[k].inLink)
  ensures r.Ok? ==> forall key :: key in r.value <==> exists k :: 0 <= k < |roadconn| && roadconn[k].id == key
  ensures r.Ok? ==> forall k :: 0 <= k < |roadconn| && LastOfId(roadconn, k) ==>
    r.value[roadconn[k].id] == InLanegroups(LinkById(links, roadconn[k].inLink).value.lgs, roadconn[k].inLinkLanes)
{
  var m: map<int, seq<LaneGroup>> := map[];
  var i := 0;
  while i < |roadconn|
    invariant 0 <= i <= |roadconn|
    invariant forall k :: 0 <= k < i ==> LinkById(links, roadconn[k].inLink).Some?
    invariant forall key :: key in m <==> exists k :: 0 <= k < i && roadconn[k].id == key
    invariant forall k :: 0 <= k < i && (forall j :: k < j < i ==> roadconn[j].id != roadconn[k].id) ==>
      m[roadconn[k].id] == InLanegroups(LinkById(links, roadconn[k].inLink).value.lgs, roadconn[k].inLinkLanes)
  {
    var rc := roadconn[i];
    var inLink := LinkById(links, rc.inLink);
    if inLink.None? {
      return Err(KeyNotFound(rc.inLink));
    }
    var inlgs := InLanegroups(inLink.value.lgs, rc.inLinkLanes);
    Rc2InlgsStep(links, roadconn, m, i, inlgs);
    m := m[rc.id := inlgs];
    i := i + 1;
  }
  return Ok(m);
}

/** One iteration of lines 186-189 keeps the loop's three facts, one road connection further. */
lemma Rc2InlgsStep(links: seq<Link>, roadconn: seq<RoadConnection>, m: map<int, seq<LaneGroup>>, i: nat,
                   inlgs: seq<LaneGroup>)
  requires i < |roadconn|
  requires forall k :: 0 <= k <= i ==> LinkById(links, roadconn[k].inLink).Some?
  requires inlgs == InLanegroups(LinkById(links, roadconn[i].inLink).value.lgs, roadconn[i].inLinkLanes)
  requires forall key :: key in m <==> exists k :: 0 <= k < i && roadconn[k].id == key
  requires forall k :: 0 <= k < i && (forall j :: k < j < i ==> roadconn[j].id != roadconn[k].id) ==>
    m[roadconn[k].id] == InLanegroups(LinkById(links, roadconn[k].inLink).value.lgs, roadconn[k].inLinkLanes)
  ensures var m' := m[roadconn[i].id := inlgs];
    (forall key :: key in m' <==> exists k :: 0 <= k < i + 1 && roadconn[k].id == key) &&
    (forall k :: 0 <= k < i + 1 && (forall j :: k < j < i + 1 ==> roadconn[j].id != roadconn[k].id) ==>
      m'[roadconn[k].id] == InLanegroups(LinkById(links, roadconn[k].inLink).value.lgs, roadconn[k].inLinkLanes))
{
  var m' := m[roadconn[i].id := inlgs];
  forall key
    ensures key in m' <==> exists k :: 0 <= k < i + 1 && roadconn[k].id == key
  {
    if key == roadconn[i].id {
      assert 0 <= i < i + 1 && roadconn[i].id == key;
    } else if key in m {
      var k :| 0 <= k < i && roadconn[k].id == key;
      assert 0 <= k < i + 1 && roadconn[k].id == key;
    }
  }
  forall k | 0 <= k < i + 1 && (forall j :: k < j < i + 1 ==> roadconn[j].id != roadconn[k].id)
    ensures m'[roadconn[k].id] == InLanegroups(LinkById(links, roadconn[k].inLink).value.lgs, roadconn[k].inLinkLanes)
  {
    if k < i {
      assert roadconn[i].id != roadconn[k].id;
      assert forall j :: k < j < i ==> roadconn[j].id != roadconn[k].id;
    }
  }
}

/**
 * A road connection over the whole lane range (1, full_lanes), as lines 95-99
 * give one without in_link_lanes, reaches every lane group of a link that
 * holds its lane partition.
 */
lemma FullRangeReachesAll(link: Link, rcs: seq<RoadConnection>)
  requires HoldsPartition(link, rcs)
  ensures InLanegroups(link.lgs, (1, link.fullLanes)) == link.lgs
{
  var lgs := link.lgs;
  var outRcs := OutRcs(rcs, link.id);
  forall g | 0 <= g < |lgs|
    ensures WithinLanes(lgs[g], (1, link.fullLanes))
  {
    assert Spans(lgs)[g] == LaneSpan(lgs[g].startLane, lgs[g].numLanes);
    if |outRcs| > 0 {
      LanePartitionGroup(outRcs, link.fullLanes, g);
    }
  }
}

/**
 * The assignments lines 194-201 make to a link's next-link map, in order: none
 * for a sink; every out-link of the end node to all the link's lane groups
 * when no road connection leaves the link; else each leaving road
 * connection's out-link to that connection's rc2inlgs entry.
 */
function NextLinkEntries(link: Link, roadconn: seq<RoadConnection>, rc2inlgs: map<int, seq<LaneGroup>>)
  : seq<(int, seq<LaneGroup>)>
  requires link.endnode.ListedKeysPresent()
  requires forall rc :: rc in roadconn ==> rc.id in rc2inlgs
  reads link`isSink, link`lgs, link.endnode`outLinkOrder, link.endnode`outLinks
{
  EntriesFrom(link.isSink, link.id, link.lgs, link.endnode.outLinkOrder, link.endnode.outLinks, roadconn, rc2inlgs)
}

/** `NextLinkEntries` on the values of the fields it reads. */
function EntriesFrom(isSink: bool, linkId: int, lgs: seq<LaneGroup>, order: seq<int>, outs: map<int, Link>,
                     roadconn: seq<RoadConnection>, rc2inlgs: map<int, seq<LaneGroup>>)
  : seq<(int, seq<LaneGroup>)>
  requires forall j :: 0 <= j < |order| ==> order[j] in outs
  requires forall rc :: rc in roadconn ==> rc.id in rc2inlgs
{
  if isSink then []
  else
    var exiting := OutRcs(roadconn, linkId);
    if |exiting| == 0 then
      seq(|order|, j requires 0 <= j < |order| => (outs[order[j]].id, lgs))
    else
      seq(|exiting|, j requires 0 <= j < |exiting| => (exiting[j].outLink, rc2inlgs[exiting[j].id]))
}

/**
 * Lines 192-201: every link's next-link map gains its own assignments, made in
 * order, a later one for the same next link overwriting an earlier one (none
 * for a sink); no other link's map changes.
 */
method PopulateNextLinks(links: seq<Link>, roadconn: seq<RoadConnection>, rc2inlgs: map<int, seq<LaneGroup>>)
  requires forall i :: 0 <= i < |links| ==> links[i].endnode.ListedKeysPresent()
  requires forall rc :: rc in roadconn ==> rc.id in rc2inlgs
  requires forall i, j :: 0 <= i < j < |links| ==> links[i] != links[j]
  modifies links`outlink2lanegroups
  ensures forall i :: 0 <= i < |links| ==>
    links[i].outlink2lanegroups == old(links[i].outlink2lanegroups) + LastWins(NextLinkEntries(links[i], roadconn, rc2inlgs))
{
  ghost var before := seq(|links|, k requires 0 <= k < |links| reads links => links[k].outlink2lanegroups);
  var i := 0;
  while i < |links|
    invariant 0 <= i <= |links|
    invariant forall k :: 0 <= k < |links| ==> links[k].endnode.ListedKeysPresent()
    invariant forall k :: 0 <= k < i ==>
      links[k].outlink2lanegroups == before[k] + LastWins(NextLinkEntries(links[k], roadconn, rc2inlgs))
    invariant forall k :: i <= k < |links| ==> links[k].outlink2lanegroups == before[k]
  {
    PopulateStep(links, i, links[i], roadconn, rc2inlgs, before);
    i := i + 1;
  }
}

/** One iteration of `PopulateNextLinks`: link `i` gets its assignments. */
method PopulateStep(links: seq<Link>, i: nat, link: Link, roadconn: seq<RoadConnection>, rc2inlgs: map<int, seq<LaneGroup>>,
                    ghost before: seq<map<int, seq<LaneGroup>>>)
  requires i < |links| == |before|
  requires forall rc :: rc in roadconn ==> rc.id in rc2inlgs
  requires forall i, j :: 0 <= i < j < |links| ==> links[i] != links[j]
  requires forall k :: 0 <= k < |links| ==> links[k].endnode.ListedKeysPresent()
  requires forall k :: 0 <= k < i ==>
    links[k].outlink2lanegroups == before[k] + LastWins(NextLinkEntries(links[k], roadconn, rc2inlgs))
  requires forall k :: i <= k < |links| ==> links[k].outlink2lanegroups == before[k]
  requires link == links[i]
  modifies link`outlink2lanegroups
  ensures forall k :: 0 <= k < |links| ==> links[k].endnode.ListedKeysPresent()
  ensures forall k :: 0 <= k < i + 1 ==>
    links[k].outlink2lanegroups == before[k] + LastWins(NextLinkEntries(links[k], roadconn, rc2inlgs))
  ensures forall k :: i + 1 <= k < |links| ==> links[k].outlink2lanegroups == before[k]
{
  AddNextLinks(link, roadconn, rc2inlgs);
}

/** Lines 194-201 for one link. */
method AddNextLinks(link: Link, roadconn: seq<RoadConnection>, rc2inlgs: map<int, seq<LaneGroup>>)
  requires link.endnode.ListedKeysPresent()
  requires forall rc :: rc in roadconn ==> rc.id in rc2inlgs
  modifies link`outlink2lanegroups
  ensures link.outlink2lanegroups == old(link.outlink2lanegroups) + LastWins(NextLinkEntries(link, roadconn, rc2inlgs))
{
  var entries := NextLinkEntries(link, roadconn, rc2inlgs);
  link.outlink2lanegroups := link.outlink2lanegroups + LastWins(entries);
}

/** A sink link's map is left alone. */
lemma NextLinksOfSink(link: Link, roadconn: seq<RoadConnection>, rc2inlgs: map<int, seq<LaneGroup>>)
  requires link.endnode.ListedKeysPresent()
  requires forall rc :: rc in roadconn ==> rc.id in rc2inlgs
  requires link.isSink
  ensures LastWins(NextLinkEntries(link, roadconn, rc2inlgs)) == map[]
{
}

/**
 * A link that is not a sink and that no road connection leaves: each out-link
 * of its end node maps to all its lane groups, and nothing else is mapped.
 */
lemma {:induction false} NextLinksWithoutRoadConnections(link: Link, roadconn: seq<RoadConnection>, rc2inlgs: map<int, seq<LaneGroup>>)
  requires link.endnode.KeysInOrder()
  requires forall rc :: rc in roadconn ==> rc.id in rc2inlgs
  requires !link.isSink && OutRcs(roadconn, link.id) == []
  ensures var m := LastWins(NextLinkEntries(link, roadconn, rc2inlgs));
    (forall k :: k in link.endnode.outLinks ==> link.endnode.outLinks[k].id in m) &&
    (forall id :: id in m ==> m[id] == link.lgs && exists k :: k in link.endnode.outLinks && link.endnode.outLinks[k].id == id)
{
  var entries := NextLinkEntries(link, roadconn, rc2inlgs);
  var node := link.endnode;
  var m := LastWins(entries);
  LastWinsAllSame(entries, link.lgs);
  forall k | k in node.outLinks
    ensures node.outLinks[k].id in m
  {
    var j :| 0 <= j < |node.outLinkOrder| && node.outLinkOrder[j] == k;
    assert entries[j].0 == node.outLinks[k].id;
  }
  forall id | id in m
    ensures exists k :: k in node.outLinks && node.outLinks[k].id == id
  {
    var j :| 0 <= j < |entries| && entries[j].0 == id;
    assert node.outLinkOrder[j] in node.outLinks;
  }
}

/** When every entry carries the same value, every key maps to it. */
lemma {:induction false} LastWinsAllSame<K, V>(entries: seq<(K, V)>, v: V)
  requires forall i :: 0 <= i < |entries| ==> entries[i].1 == v
  ensures forall k :: k in LastWins(entries) ==> LastWins(entries)[k] == v
{
  if entries != [] {
    var prefix := entries[..|entries| - 1];
    assert forall i :: 0 <= i < |prefix| ==> prefix[i] == entries[i];
    LastWinsAllSame(prefix, v);
  }
}

/**
 * A link that is not a sink, left by road connections: exactly their out-links
 * are mapped.
 */
lemma {:induction false} NextLinksFromRoadConnectionsKeys(link: Link, roadconn: seq<RoadConnection>, rc2inlgs: map<int, seq<LaneGroup>>)
  requires link.endnode.ListedKeysPresent()
  requires forall rc :: rc in roadconn ==> rc.id in rc2inlgs
  requires !link.isSink && OutRcs(roadconn, link.id) != []
  ensures var exiting := OutRcs(roadconn, link.id);
    forall id :: id in LastWins(NextLinkEntries(link, roadconn, rc2inlgs)) <==>
      exists j :: 0 <= j < |exiting| && exiting[j].outLink == id
{
  var exiting := OutRcs(roadconn, link.id);
  var entries := NextLinkEntries(link, roadconn, rc2inlgs);
  assert |entries| == |exiting|;
  assert forall j :: 0 <= j < |entries| ==> entries[j].0 == exiting[j].outLink;
}

/**
 * A link that is not a sink, left by road connections: each out-link maps to
 * the rc2inlgs entry of the last road connection towards it.
 */
lemma {:induction false} NextLinksFromRoadConnections(link: Link, roadconn: seq<RoadConnection>, rc2inlgs: map<int, seq<LaneGroup>>, j: int)
  requires link.endnode.ListedKeysPresent()
  requires forall rc :: rc in roadconn ==> rc.id in rc2inlgs
  requires !link.isSink
  requires var exiting := OutRcs(roadconn, link.id);
    0 <= j < |exiting| && forall j' :: j < j' < |exiting| ==> exiting[j'].outLink != exiting[j].outLink
  ensures var exiting := OutRcs(roadconn, link.id);
    var m := LastWins(NextLinkEntries(link, roadconn, rc2inlgs));
    exiting[j].outLink in m && m[exiting[j].outLink] == rc2inlgs[exiting[j].id]
{
  var exiting := OutRcs(roadconn, link.id);
  var entries := NextLinkEntries(link, roadconn, rc2inlgs);
  assert |entries| == |exiting|;
  assert forall j' :: 0 <= j' < |entries| ==> entries[j'].0 == exiting[j'].outLink;
  assert entries[j] == (exiting[j].outLink, rc2inlgs[exiting[j].id]);
  LastWinsLookup(entries, j);
}

/** The lane groups of the links, link by link (the loops at lines 314-317). */
function AllLanegroups(links: seq<Link>): seq<LaneGroup>
  reads links
{
  if links == [] then [] else AllLanegroups(links[..|links| - 1]) + links[|links| - 1].lgs
}

/** The links named by `ids`, in order; the first missing id is a KeyError. */
function SelectLinks(links: seq<Link>, ids: seq<int>): (r: Result<seq<Link>>)
  ensures r.Ok? <==> forall i :: 0 <= i < |ids| ==> LinkById(links, ids[i]).Some?
  ensures r.Ok? ==> |r.value| == |ids| && forall i :: 0 <= i < |ids| ==> r.value[i] == LinkById(links, ids[i]).value
  ensures r.Err? ==> exists i :: 0 <= i < |ids| && LinkById(links, ids[i]).None? && r.error == KeyNotFound(ids[i])
{
  if ids == [] then Ok([])
  else
    match LinkById(links, ids[0])
    case None => Err(KeyNotFound(ids[0]))
    case Some(l) =>
      match SelectLinks(links, ids[1..])
      case Err(e) => Err(e)
      case Ok(rest) => Ok([l] + rest)
}

/**
 * get_lanegroup_ids (lines 309-318): the lane groups of all links, or of the
 * named links in the order named, link by link.
 */
method GetLanegroupIds(links: seq<Link>, linkids: Option<seq<int>>) returns (r: Result<seq<LaneGroup>>)
  ensures linkids.None? ==> r == Ok(AllLanegroups(links))
  ensures linkids.Some? ==> (r.Ok? <==> SelectLinks(links, linkids.value).Ok?)
  ensures linkids.Some? && r.Ok? ==> r.value == AllLanegroups(SelectLinks(links, linkids.value).value)
  ensures linkids.Some? && r.Err? ==> r == Err(SelectLinks(links, linkids.value).error)
{
  var chosen: seq<Link>;
  if linkids.None? {
    chosen := links;
  } else {
    var sel := SelectLinks(links, linkids.value);
    if sel.Err? {
      return Err(sel.error);
    }
    chosen := sel.value;
  }
  var lgs: seq<LaneGroup> := [];
  var i := 0;
  while i < |chosen|
    invariant 0 <= i <= |chosen|
    invariant lgs == AllLanegroups(chosen[..i])
  {
    var link := chosen[i];
    var j := 0;
    while j < |link.lgs|
      invariant 0 <= j <= |link.lgs|
      invariant lgs == AllLanegroups(chosen[..i]) + link.lgs[..j]
    {
      lgs := lgs + [link.lgs[j]];
      j := j + 1;
    }
    assert chosen[..i + 1][..i] == chosen[..i];
    assert link.lgs[..j] == link.lgs;
    i := i + 1;
  }
  assert chosen[..i] == chosen;
  return Ok(lgs);
}

/** There are as many lane groups as the links hold, so num_lgs of them after construction. */
lemma {:induction false} AllLanegroupsCount(links: seq<Link>)
  ensures |AllLanegroups(links)| == LanegroupCount(links)
{
  if links != [] {
    AllLanegroupsCount(links[..|links| - 1]);
  }
}

/** A lane group is listed exactly when some link holds it. */
lemma {:induction false} AllLanegroupsMembers(links: seq<Link>, lg: LaneGroup)
  ensures lg in AllLanegroups(links) <==> exists i :: 0 <= i < |links| && lg in links[i].lgs
{
  if links != [] {
    var n := |links| - 1;
    AllLanegroupsMembers(links[..n], lg);
    assert forall i :: 0 <= i < n ==> links[..n][i] == links[i];
  }
}

/** Lines 322-323: each of the link's lane groups gets an empty set, in order. */
function ResetKeys(d: map<LaneGroup, set<int>>, lgs: seq<LaneGroup>): map<LaneGroup, set<int>>
{
  if lgs == [] then d else ResetKeys(d, lgs[..|lgs| - 1])[lgs[|lgs| - 1] := {}]
}

/** The next links whose lane-group lists hold `lg`. */
function ListingIds(next: map<int, seq<LaneGroup>>, lg: LaneGroup): set<int>
{
  set id | id in next && lg in next[id]
}

/** Some lane group listed in `next` is not a key of `d`, so its lookup at line 326 fails. */
predicate ListsUnknown(next: map<int, seq<LaneGroup>>, d: map<LaneGroup, set<int>>)
{
  exists id, lg :: id in next && lg in next[id] && lg !in d
}

/** Lines 324-326: each lane group gains the next links whose lists hold it. */
function AddNextLinkIds(d: map<LaneGroup, set<int>>, next: map<int, seq<LaneGroup>>): map<LaneGroup, set<int>>
{
  map lg | lg in d :: d[lg] + ListingIds(next, lg)
}

/**
 * get_lg2nextlinks (lines 320-328), link by link: reset the link's lane
 * groups, then add its next links; a listed lane group that is not a key is a
 * KeyError. The adds commute, so the order of the dict's items does not matter.
 */
function Lg2NextLinks(links: seq<Link>): Result<map<LaneGroup, set<int>>>
  reads links
{
  if links == [] then Ok(map[])
  else
    match Lg2NextLinks(links[..|links| - 1])
    case Err(e) => Err(e)
    case Ok(d) =>
      var link := links[|links| - 1];
      var reset := ResetKeys(d, link.lgs);
      if ListsUnknown(link.outlink2lanegroups, reset) then Err(UnknownLaneGroup)
      else Ok(AddNextLinkIds(reset, link.outlink2lanegroups))
}

/** get_lg2nextlinks with its loops; an error ends it at once. */
method GetLg2NextLinks(links: seq<Link>) returns (r: Result<map<LaneGroup, set<int>>>)
  ensures r == Lg2NextLinks(links)
{
  var d: map<LaneGroup, set<int>> := map[];
  var i := 0;
  while i < |links|
    invariant 0 <= i <= |links|
    invariant Lg2NextLinks(links[..i]) == Ok(d)
  {
    var link := links[i];
    assert links[..i + 1][..i] == links[..i];
    ghost var before := d;
    var j := 0;
    while j < |link.lgs|
      invariant 0 <= j <= |link.lgs|
      invariant d == ResetKeys(before, link.lgs[..j])
    {
      assert link.lgs[..j + 1][..j] == link.lgs[..j];
      d := d[link.lgs[j] := {}];
      j := j + 1;
    }
    assert link.lgs[..j] == link.lgs;
    if ListsUnknown(link.outlink2lanegroups, d) {
      Lg2NextLinksErrorStays(links, i + 1);
      return Err(UnknownLaneGroup);
    }
    d := AddNextLinkIds(d, link.outlink2lanegroups);
    i := i + 1;
  }
  assert links[..i] == links;
  return Ok(d);
}

/** Once a prefix fails, every longer prefix fails with the same error. */
lemma {:induction false} Lg2NextLinksErrorStays(links: seq<Link>, k: nat)
  requires k <= |links| && Lg2NextLinks(links[..k]).Err?
  ensures Lg2NextLinks(links) == Lg2NextLinks(links[..k])
  decreases |links| - k
{
  if k < |links| {
    assert links[..k + 1][..k] == links[..k];
    Lg2NextLinksErrorStays(links, k + 1);
  } else {
    assert links[..k] == links;
  }
}

/** Each link's lane groups belong to no other link (every link creates its own). */
ghost predicate OwnedLanegroups(links: seq<Link>)
  reads links
{
  forall i, j, lg :: 0 <= i < j < |links| && lg in links[i].lgs ==> lg !in links[j].lgs
}

/** A link's next-link lists hold only its own lane groups. */
ghost predicate ListsOwnLanegroups(links: seq<Link>)
  reads links
{
  forall i, id, lg :: 0 <= i < |links| && id in links[i].outlink2lanegroups && lg in links[i].outlink2lanegroups[id] ==>
    lg in links[i].lgs
}

/** ResetKeys adds the lane groups as keys with empty sets and keeps the rest. */
lemma {:induction false} ResetKeysFacts(d: map<LaneGroup, set<int>>, lgs: seq<LaneGroup>, lg: LaneGroup)
  ensures lg in ResetKeys(d, lgs) <==> lg in d || lg in lgs
  ensures lg in lgs ==> ResetKeys(d, lgs)[lg] == {}
  ensures lg !in lgs && lg in d ==> ResetKeys(d, lgs)[lg] == d[lg]
{
  if lgs != [] {
    var n := |lgs| - 1;
    assert lgs == lgs[..n] + [lgs[n]];
    ResetKeysFacts(d, lgs[..n], lg);
  }
}

/** Adding one link whose lists hold only its own lane groups cannot fail, and changes only those lane groups. */
lemma AddLinkStep(d: map<LaneGroup, set<int>>, lgs: seq<LaneGroup>, next: map<int, seq<LaneGroup>>)
  requires forall id, lg :: id in next && lg in next[id] ==> lg in lgs
  ensures !ListsUnknown(next, ResetKeys(d, lgs))
  ensures forall lg :: lg in AddNextLinkIds(ResetKeys(d, lgs), next) <==> lg in d || lg in lgs
  ensures forall lg :: lg in lgs ==> AddNextLinkIds(ResetKeys(d, lgs), next)[lg] == ListingIds(next, lg)
  ensures forall lg :: lg in d && lg !in lgs ==> AddNextLinkIds(ResetKeys(d, lgs), next)[lg] == d[lg]
{
  var reset := ResetKeys(d, lgs);
  forall id, lg | id in next && lg in next[id]
    ensures lg in reset
  {
    ResetKeysFacts(d, lgs, lg);
  }
  forall lg
    ensures lg in reset <==> lg in d || lg in lgs
    ensures lg in lgs ==> reset[lg] == {}
    ensures lg !in lgs && lg in d ==> reset[lg] == d[lg] && ListingIds(next, lg) == {}
  {
    ResetKeysFacts(d, lgs, lg);
    if lg !in lgs {
      assert forall id :: id in next ==> lg !in next[id];
    }
  }
}

/**
 * When every link owns its lane groups and lists only its own, the result
 * is a map whose keys are the lane groups of the links and nothing else.
 */
lemma {:induction false} Lg2NextLinksKeys(links: seq<Link>)
  requires OwnedLanegroups(links) && ListsOwnLanegroups(links)
  ensures Lg2NextLinks(links).Ok?
  ensures forall lg :: lg in Lg2NextLinks(links).value <==> exists i :: 0 <= i < |links| && lg in links[i].lgs
{
  if links != [] {
    var n := |links| - 1;
    var pre := links[..n];
    var last := links[n];
    assert forall i :: 0 <= i < n ==> pre[i] == links[i];
    Lg2NextLinksKeys(pre);
    var d := Lg2NextLinks(pre).value;
    AddLinkStep(d, last.lgs, last.outlink2lanegroups);
    var result := AddNextLinkIds(ResetKeys(d, last.lgs), last.outlink2lanegroups);
    assert Lg2NextLinks(links) == Ok(result);
    forall lg
      ensures lg in result <==> exists i :: 0 <= i < |links| && lg in links[i].lgs
    {
      if lg in last.lgs {
        assert lg in links[n].lgs;
      } else if lg in d {
        var i :| 0 <= i < n && lg in pre[i].lgs;
        assert lg in links[i].lgs;
      }
    }
  }
}

/**
 * Under the same conditions, each lane group of a link maps to exactly the
 * next links whose lists, in that link, hold it.
 */
lemma {:induction false} Lg2NextLinksValues(links: seq<Link>)
  requires OwnedLanegroups(links) && ListsOwnLanegroups(links)
  ensures Lg2NextLinks(links).Ok?
  ensures forall i, lg :: 0 <= i < |links| && lg in links[i].lgs ==>
    lg in Lg2NextLinks(links).value && Lg2NextLinks(links).value[lg] == ListingIds(links[i].outlink2lanegroups, lg)
{
  Lg2NextLinksKeys(links);
  if links != [] {
    var n := |links| - 1;
    var pre := links[..n];
    var last := links[n];
    assert forall i :: 0 <= i < n ==> pre[i] == links[i];
    Lg2NextLinksValues(pre);
    Lg2NextLinksKeys(pre);
    var d := Lg2NextLinks(pre).value;
    AddLinkStep(d, last.lgs, last.outlink2lanegroups);
    forall i, lg | 0 <= i < n && lg in links[i].lgs
      ensures lg in d && lg !in last.lgs
    {
      assert lg in pre[i].lgs;
    }
  }
}
