// abstract.py: the event ordering (AbstractEvent.__lt__) and the tuple order
// heapq uses on the dispatcher's (timestamp, dispatch_order, event) entries.
// The poke protocol of AbstractActuator/AbstractController is modelled on the
// concrete classes, ActuatorSignal.Poke and ControllerStage.Poke.

/** Ascending (timestamp, dispatch_order): the order the dispatcher is meant to follow. */
predicate KeyLt(a: Event, b: Event)
{
  a.timestamp < b.timestamp || (a.timestamp == b.timestamp && a.dispatchOrder < b.dispatchOrder)
}

predicate KeyLe(a: Event, b: Event)
{
  !KeyLt(b, a)
}

/**
 * AbstractEvent.__lt__: deliberately reversed, `self < that` holds exactly
 * when `that` comes first in (timestamp, dispatch_order) order.
 */
function EventLt(self: Event, that: Event): (r: bool)
  ensures r <==> KeyLt(that, self)
  ensures self.timestamp == that.timestamp && self.dispatchOrder == that.dispatchOrder ==> !r
{
  if self.timestamp < that.timestamp then false
  else if that.timestamp < self.timestamp then true
  else if self.dispatchOrder < that.dispatchOrder then false
  else if that.dispatchOrder < self.dispatchOrder then true
  else false
}

/**
 * Python's `<` on the heap entries (e.timestamp, e.dispatch_order, e): the
 * first differing component decides, and the events themselves are compared
 * (with __lt__) only when timestamp and order are equal.  Two events equal as
 * values compare as not-less, like one Python object compared with itself.
 * Because __lt__ is false on equal keys, the entry order is the key order.
 */
function EntryLt(a: Event, b: Event): (r: bool)
  ensures r <==> KeyLt(a, b)
{
  if a.timestamp != b.timestamp then a.timestamp < b.timestamp
  else if a.dispatchOrder != b.dispatchOrder then a.dispatchOrder < b.dispatchOrder
  else a != b && EventLt(a, b)
}
