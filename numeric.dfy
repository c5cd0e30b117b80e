// Python's numeric primitives as the simulator uses them, and the small
// wrapper datatypes shared by every component.

/** A value that may be missing (Python's `None`). */
datatype Option<T> = None | Some(value: T)

/** The exceptions the simulator raises, collapsed to their cause. */
datatype Error =
  | ZeroDivision         // a Python ZeroDivisionError
  | KeyNotFound(key: int) // a dict lookup on a missing key
  | IndexOutOfRange      // a list index past either end
  | EmptySequence        // numpy or random asked to choose from nothing
  | BadProbabilities     // np.random.choice with weights that are not a distribution
  | BadSplitValues       // split series of different lengths (Splits.py)
  | MissingLaneGroup     // an event whose vehicle has no lane group
  | MissingAttribute     // an attribute read before it was ever assigned
  | UnknownLaneGroup     // a dict lookup on a lane group that is not a key
  | StopIteration        // `next` on an empty iterator

datatype Result<T> = Ok(value: T) | Err(error: Error)

/** Python's `a % b` on floats: the result has the sign of `b`. */
function PyMod(a: real, b: real): real
  requires b != 0.0
{
  a - b * ((a / b).Floor as real)
}

/** Python's `int(x)` on a float: truncation toward zero. */
function Trunc(x: real): int
{
  if x >= 0.0 then x.Floor else -((-x).Floor)
}

/** Python's `max(0, min(i, n - 1))`: an index clamped into a list of length n. */
function ClampIndex(i: int, n: int): (r: int)
  ensures n >= 1 ==> 0 <= r < n
  ensures 0 <= i < n ==> r == i
  ensures i < 0 ==> r == 0
  ensures n >= 1 && i >= n ==> r == n - 1
{
  var m := if i < n - 1 then i else n - 1;
  if m < 0 then 0 else m
}

/** Python's `x[i]` on a list, including negative indices counted from the end. */
function PyIndex<T>(s: seq<T>, i: int): (r: Result<T>)
  ensures r.Ok? <==> -|s| <= i < |s|
  ensures 0 <= i < |s| ==> r == Ok(s[i])
  ensures -|s| <= i < 0 ==> r == Ok(s[|s| + i])
{
  if 0 <= i < |s| then Ok(s[i])
  else if -|s| <= i < 0 then Ok(s[|s| + i])
  else Err(IndexOutOfRange)
}

lemma FloorBounds(x: real)
  ensures x - 1.0 < x.Floor as real <= x
{
}

/** With a positive divisor the remainder lies in [0, b). */
lemma PyModRange(a: real, b: real)
  requires b > 0.0
  ensures 0.0 <= PyMod(a, b) < b
{
  var q := a / b;
  var f := q.Floor as real;
  FloorBounds(q);
  var g := q - f;
  assert a == b * q;
  assert PyMod(a, b) == a - b * f == b * g;
  assert b * g < b;
}

/** With a negative divisor the remainder lies in (b, 0]. */
lemma PyModRangeNeg(a: real, b: real)
  requires b < 0.0
  ensures b < PyMod(a, b) <= 0.0
{
  var q := a / b;
  var f := q.Floor as real;
  FloorBounds(q);
  var g := q - f;
  assert a == b * q;
  assert PyMod(a, b) == a - b * f == b * g;
  assert (-b) * g < -b;
}

/** The remainder does not change when a whole number of divisors is added. */
lemma PyModShift(a: real, b: real, k: int)
  requires b != 0.0
  ensures PyMod(a + (k as real) * b, b) == PyMod(a, b)
{
  var q := a / b;
  var q' := (a + (k as real) * b) / b;
  assert q' == q + k as real;
  ShiftFloor(q, k);
  assert q'.Floor as real == q.Floor as real + k as real;
  assert b * (q'.Floor as real) == b * (q.Floor as real) + (k as real) * b;
}

lemma ShiftFloor(x: real, k: int)
  ensures (x + k as real).Floor == x.Floor + k
{
  FloorBounds(x);
  FloorBounds(x + k as real);
}

/**
 * The dictionary that `for (k, v) in entries: d[k] = v` builds from an empty
 * one: a later entry with the same key overwrites an earlier one.
 */
function LastWins<K, V>(entries: seq<(K, V)>): (m: map<K, V>)
  ensures forall i :: 0 <= i < |entries| ==> entries[i].0 in m
  ensures forall k :: k in m ==> exists i :: 0 <= i < |entries| && entries[i].0 == k
{
  if entries == [] then map[]
  else
    var m := LastWins(entries[..|entries| - 1]);
    assert forall i :: 0 <= i < |entries| - 1 ==> entries[..|entries| - 1][i] == entries[i];
    m[entries[|entries| - 1].0 := entries[|entries| - 1].1]
}

/** One more assignment `d[k] = v` after the others. */
lemma LastWinsAppend<K, V>(entries: seq<(K, V)>, k: K, v: V)
  ensures LastWins(entries + [(k, v)]) == LastWins(entries)[k := v]
{
  assert (entries + [(k, v)])[..|entries|] == entries;
}

/** The value kept for a key is the one from its last entry. */
lemma {:induction false} LastWinsLookup<K, V>(entries: seq<(K, V)>, i: nat)
  requires i < |entries|
  requires forall j :: i < j < |entries| ==> entries[j].0 != entries[i].0
  ensures LastWins(entries)[entries[i].0] == entries[i].1
  decreases |entries|
{
  if i < |entries| - 1 {
    var prefix := entries[..|entries| - 1];
    assert prefix[i] == entries[i];
    assert forall j :: i < j < |prefix| ==> prefix[j] == entries[j];
    LastWinsLookup(prefix, i);
  }
}
