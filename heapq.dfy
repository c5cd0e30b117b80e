// Python's heapq on the dispatcher's event list: heappush, heappop and their
// sift helpers, written as heapq writes them (a hole that travels down to a
// leaf, then back up), on the list's value.  Elements are the dispatcher's
// (timestamp, dispatch_order, event) tuples, compared with EntryLt.

/** Every child is no smaller than its parent (children of p sit at 2p+1 and 2p+2). */
ghost predicate IsHeap(h: seq<Event>)
{
  forall p, c :: 0 <= p < c < |h| && (c == 2 * p + 1 || c == 2 * p + 2) ==> KeyLe(h[p], h[c])
}

/** x is no larger than anything in h. */
ghost predicate IsMinimumOf(x: Event, h: seq<Event>)
{
  forall i :: 0 <= i < |h| ==> KeyLe(x, h[i])
}

/** The root of a heap is no larger than the element at i. */
lemma {:induction false} HeapRootIsMin(h: seq<Event>, i: nat)
  requires IsHeap(h) && i < |h|
  ensures KeyLe(h[0], h[i])
  decreases i
{
  if i > 0 {
    var p := (i - 1) / 2;
    HeapRootIsMin(h, p);
    assert KeyLe(h[p], h[i]);
  }
}

lemma HeapRootIsMinimum(h: seq<Event>)
  requires IsHeap(h) && |h| > 0
  ensures IsMinimumOf(h[0], h)
{
  forall i | 0 <= i < |h| ensures KeyLe(h[0], h[i]) {
    HeapRootIsMin(h, i);
  }
}

/** Every parent-child pair is ordered except those whose child sits at pos. */
ghost predicate HeapExceptAt(h: seq<Event>, pos: nat)
{
  forall p, c :: 0 <= p < c < |h| && (c == 2 * p + 1 || c == 2 * p + 2) && c != pos ==> KeyLe(h[p], h[c])
}

/** The element at pos is no larger than any of its children. */
ghost predicate AboveChildren(h: seq<Event>, x: Event, pos: nat)
{
  forall c :: 0 <= c < |h| && (c == 2 * pos + 1 || c == 2 * pos + 2) ==> KeyLe(x, h[c])
}

/**
 * heapq._siftdown(heap, 0, pos): the item at pos moves toward the root past
 * every parent it is smaller than.  When pos is a leaf and every other element
 * already respects its parent, the result is a heap.
 */
method SiftDown(h: seq<Event>, pos0: nat) returns (r: seq<Event>)
  requires pos0 < |h|
  ensures multiset(r) == multiset(h) && |r| == |h|
  ensures 2 * pos0 + 1 >= |h| && HeapExceptAt(h, pos0) ==> IsHeap(r)
{
  ghost var good := 2 * pos0 + 1 >= |h| && HeapExceptAt(h, pos0);
  var a := h;
  var pos: nat := pos0;
  var newitem := h[pos0];
  while pos > 0
    invariant |a| == |h| && pos < |a|
    invariant multiset(a[pos := newitem]) == multiset(h)
    invariant good ==> HeapExceptAt(a, pos)
    invariant good && pos > 0 ==> AboveChildren(a, a[(pos - 1) / 2], pos)
    invariant good ==> AboveChildren(a, newitem, pos)
  {
    var parentpos := (pos - 1) / 2;
    var parent := a[parentpos];
    if EntryLt(newitem, parent) {
      ghost var before := a;
      a := a[pos := parent];
      SwapHole(before, pos, parentpos, newitem);
      if good {
        SiftDownStep(before, pos, newitem);
      }
      pos := parentpos;
      continue;
    }
    break;
  }
  r := a[pos := newitem];
  if good {
    forall p, c | 0 <= p < c < |r| && (c == 2 * p + 1 || c == 2 * p + 2)
      ensures KeyLe(r[p], r[c])
    {
      if c == pos {
        assert p == (pos - 1) / 2;
      }
    }
  }
}

/** One step of _siftdown: the parent's value moves into the hole, the hole moves up. */
lemma SiftDownStep(a: seq<Event>, pos: nat, x: Event)
  requires 0 < pos < |a|
  requires HeapExceptAt(a, pos)
  requires AboveChildren(a, a[(pos - 1) / 2], pos)
  requires AboveChildren(a, x, pos)
  requires KeyLt(x, a[(pos - 1) / 2])
  ensures var pp := (pos - 1) / 2;
    HeapExceptAt(a[pos := a[pp]], pp) &&
    (pp > 0 ==> AboveChildren(a[pos := a[pp]], a[pos := a[pp]][(pp - 1) / 2], pp)) &&
    AboveChildren(a[pos := a[pp]], x, pp)
{
  var pp := (pos - 1) / 2;
  var b := a[pos := a[pp]];
  SiftDownStepOrder(a, pos);
  if pp > 0 {
    SiftDownStepGrandparent(a, pos);
  }
  forall c | 0 <= c < |b| && (c == 2 * pp + 1 || c == 2 * pp + 2)
    ensures KeyLe(x, b[c])
  {
    if c != pos {
      assert KeyLe(a[pp], a[c]);
    }
  }
}

/** After the step every pair is ordered except those whose child is the new hole. */
lemma SiftDownStepOrder(a: seq<Event>, pos: nat)
  requires 0 < pos < |a|
  requires HeapExceptAt(a, pos)
  requires AboveChildren(a, a[(pos - 1) / 2], pos)
  ensures HeapExceptAt(a[pos := a[(pos - 1) / 2]], (pos - 1) / 2)
{
  var pp := (pos - 1) / 2;
  var b := a[pos := a[pp]];
  forall p, c | 0 <= p < c < |b| && (c == 2 * p + 1 || c == 2 * p + 2) && c != pp
    ensures KeyLe(b[p], b[c])
  {
    if c == pos {
      assert p == pp;
    } else if p == pos {
      assert KeyLe(a[pp], a[c]);
    } else {
      assert KeyLe(a[p], a[c]);
    }
  }
}

/** After the step the new hole's parent is still above the hole's children. */
lemma SiftDownStepGrandparent(a: seq<Event>, pos: nat)
  requires 0 < pos < |a| && (pos - 1) / 2 > 0
  requires HeapExceptAt(a, pos)
  requires AboveChildren(a, a[(pos - 1) / 2], pos)
  ensures var pp := (pos - 1) / 2;
    AboveChildren(a[pos := a[pp]], a[(pp - 1) / 2], pp)
{
  var pp := (pos - 1) / 2;
  var gp := (pp - 1) / 2;
  var b := a[pos := a[pp]];
  forall c | 0 <= c < |b| && (c == 2 * pp + 1 || c == 2 * pp + 2)
    ensures KeyLe(a[gp], b[c])
  {
    assert KeyLe(a[gp], a[pp]);
    if c != pos {
      assert KeyLe(a[pp], a[c]);
    }
  }
}

/** Moving the hole from pos to pp keeps the multiset of the filled list. */
lemma SwapHole(a: seq<Event>, pos: nat, pp: nat, x: Event)
  requires pos < |a| && pp < |a| && pp != pos
  ensures multiset(a[pos := a[pp]][pp := x]) == multiset(a[pos := x])
{
  var b := a[pos := a[pp]];
  assert b[pp] == a[pp];
  assert multiset(b) == multiset(a) - multiset{a[pos]} + multiset{a[pp]};
  assert multiset(b[pp := x]) == multiset(b) - multiset{a[pp]} + multiset{x};
  assert multiset(a[pos := x]) == multiset(a) - multiset{a[pos]} + multiset{x};
}

/** Every parent-child pair is ordered except those whose parent is the root. */
ghost predicate HeapBelowRoot(h: seq<Event>)
{
  forall p, c :: 0 < p < c < |h| && (c == 2 * p + 1 || c == 2 * p + 2) ==> KeyLe(h[p], h[c])
}

/** Every parent-child pair not touching the hole at pos is ordered. */
ghost predicate HeapAroundHole(h: seq<Event>, pos: nat)
{
  forall p, c :: 0 <= p < c < |h| && (c == 2 * p + 1 || c == 2 * p + 2) && p != pos && c != pos ==> KeyLe(h[p], h[c])
}

/**
 * heapq._siftup(heap, 0): the hole at the root travels down to a leaf, always
 * taking the smaller child (the right one on a tie), and the displaced item is
 * then sifted back up from that leaf.
 */
method SiftUp(h: seq<Event>) returns (r: seq<Event>)
  requires |h| > 0
  ensures multiset(r) == multiset(h) && |r| == |h|
  ensures HeapBelowRoot(h) ==> IsHeap(r)
{
  ghost var good := HeapBelowRoot(h);
  var endpos := |h|;
  var a := h;
  var pos: nat := 0;
  var newitem := h[0];
  var childpos := 1;
  while childpos < endpos
    invariant |a| == endpos && pos < endpos && childpos == 2 * pos + 1
    invariant multiset(a[pos := newitem]) == multiset(h)
    invariant good ==> HeapAroundHole(a, pos)
    invariant good && pos > 0 ==> AboveChildren(a, a[(pos - 1) / 2], pos)
    decreases endpos - pos
  {
    var rightpos := childpos + 1;
    if rightpos < endpos && !EntryLt(a[childpos], a[rightpos]) {
      childpos := rightpos;
    }
    assert AboveChildren(a, a[childpos], pos) by {
      assert KeyLe(a[childpos], a[2 * pos + 1]);
      assert rightpos < endpos ==> KeyLe(a[childpos], a[rightpos]);
    }
    ghost var before := a;
    a := a[pos := a[childpos]];
    SwapHole(before, pos, childpos, newitem);
    if good {
      SiftUpStep(before, pos, childpos);
    }
    pos := childpos;
    childpos := 2 * pos + 1;
  }
  var filled := a[pos := newitem];
  if good {
    FillLeaf(a, pos, newitem);
  }
  r := SiftDown(filled, pos);
}

/** Filling a leaf hole leaves only the pair above the leaf unchecked. */
lemma FillLeaf(a: seq<Event>, pos: nat, x: Event)
  requires pos < |a| && 2 * pos + 1 >= |a|
  requires HeapAroundHole(a, pos)
  ensures HeapExceptAt(a[pos := x], pos)
{
  var b := a[pos := x];
  forall p, c | 0 <= p < c < |b| && (c == 2 * p + 1 || c == 2 * p + 2) && c != pos
    ensures KeyLe(b[p], b[c])
  {
    assert p != pos;
    assert KeyLe(a[p], a[c]);
  }
}

/** One step of _siftup: the smaller child moves into the hole, the hole moves down. */
lemma SiftUpStep(a: seq<Event>, pos: nat, cp: nat)
  requires cp < |a| && (cp == 2 * pos + 1 || cp == 2 * pos + 2)
  requires HeapAroundHole(a, pos)
  requires pos > 0 ==> AboveChildren(a, a[(pos - 1) / 2], pos)
  requires AboveChildren(a, a[cp], pos)
  ensures HeapAroundHole(a[pos := a[cp]], cp)
  ensures AboveChildren(a[pos := a[cp]], a[pos := a[cp]][(cp - 1) / 2], cp)
{
  var b := a[pos := a[cp]];
  forall p, c | 0 <= p < c < |b| && (c == 2 * p + 1 || c == 2 * p + 2) && p != cp && c != cp
    ensures KeyLe(b[p], b[c])
  {
    if c == pos {
      assert KeyLe(a[p], a[cp]);
    } else if p == pos {
      assert KeyLe(a[cp], a[c]);
    } else {
      assert KeyLe(a[p], a[c]);
    }
  }
  forall c | 0 <= c < |b| && (c == 2 * cp + 1 || c == 2 * cp + 2)
    ensures KeyLe(b[pos], b[c])
  {
    assert KeyLe(a[cp], a[c]);
  }
}

/** heapq.heappush: append, then sift the new last element toward the root. */
method HeapPush(h: seq<Event>, item: Event) returns (r: seq<Event>)
  ensures multiset(r) == multiset(h) + multiset{item} && |r| == |h| + 1
  ensures IsHeap(h) ==> IsHeap(r)
{
  r := SiftDown(h + [item], |h|);
}

/**
 * heapq.heappop: the last element fills the root and is sifted down.  The
 * popped item is always the list's first element; on a heap that is a minimum.
 */
method HeapPop(h: seq<Event>) returns (item: Event, r: seq<Event>)
  requires |h| > 0
  ensures item == h[0]
  ensures multiset(h) == multiset(r) + multiset{item} && |r| == |h| - 1
  ensures IsHeap(h) ==> IsHeap(r) && IsMinimumOf(item, h)
{
  var lastelt := h[|h| - 1];
  var rest := h[..|h| - 1];
  assert h == rest + [lastelt];
  if IsHeap(h) {
    HeapRootIsMinimum(h);
  }
  if |rest| > 0 {
    item := rest[0];
    var filled := rest[0 := lastelt];
    if IsHeap(h) {
      forall p, c | 0 < p < c < |filled| && (c == 2 * p + 1 || c == 2 * p + 2)
        ensures KeyLe(filled[p], filled[c])
      {
        assert KeyLe(h[p], h[c]);
      }
    }
    r := SiftUp(filled);
    assert multiset(filled) == multiset(rest) - multiset{item} + multiset{lastelt};
  } else {
    item := lastelt;
    r := rest;
  }
}
