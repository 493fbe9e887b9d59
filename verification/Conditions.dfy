/** Conditions: the Ready condition every object carries, and the merge patch that writes a status. Reasons and
    messages are the caller's types. */
module Conditions {
  import opened Wrappers

  // `since` is the last transition time.
  datatype Condition<R, M> = Condition(ready: bool, reason: R, message: M, generation: int, since: int)

  // meta.SetStatusCondition: the transition time moves only when ready flips.
  function SetCondition<R, M>(prior: Option<Condition<R, M>>, ready: bool, reason: R, message: M, generation: int, now: int)
    : Condition<R, M>
  {
    Condition(ready, reason, message, generation, if prior.Some? && prior.value.ready == ready then prior.value.since else now)
  }

  // SetStatusCondition's report: the content changed, whatever the transition time.
  predicate Transitioned<R(==), M(==)>(prior: Option<Condition<R, M>>, c: Condition<R, M>) {
    prior.None? || prior.value.ready != c.ready || prior.value.reason != c.reason || prior.value.message != c.message
    || prior.value.generation != c.generation
  }

  function OrNow(t: Option<int>, now: int): Option<int> {
    if t.Some? then t else Some(now)
  }

  // A merge patch carries the fields that differ from the copy that was read.
  function Merge<T(==)>(server: T, before: T, after: T): T {
    if before == after then server else after
  }
}
