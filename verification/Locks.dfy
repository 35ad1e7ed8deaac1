// A mutex that protects one section of code, shared by a sequence of threads.
module Locks {
  import opened Counting

  // The mutex is held by exactly the thread that is inside the section it protects.
  ghost predicate Guards<T>(mutex: Option<nat>, section: T -> bool, threads: seq<T>)
  {
    && (mutex.Some? ==> mutex.value < |threads|)
    && forall t :: 0 <= t < |threads| ==> (section(threads[t]) <==> mutex == Some(t))
  }

  // Thread t moves to next and locks, unlocks or leaves the mutex alone accordingly.
  lemma GuardsKept<T>(mutex: Option<nat>, section: T -> bool, threads: seq<T>, t: nat, next: T, mutex': Option<nat>)
    requires Guards(mutex, section, threads) && t < |threads|
    requires section(next) && !section(threads[t]) ==> mutex.None?
    requires mutex' == if section(next) then Some(t) else if section(threads[t]) then None else mutex
    ensures Guards(mutex', section, threads[t := next])
  {
  }

  lemma GuardsAppend<T>(mutex: Option<nat>, section: T -> bool, threads: seq<T>, next: T)
    requires Guards(mutex, section, threads) && !section(next)
    ensures Guards(mutex, section, threads + [next])
  {
  }
}
