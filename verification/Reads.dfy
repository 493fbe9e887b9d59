/** Reads: what the API server answers a controller's reads. */
module Reads {
  import opened Wrappers

  // Reads go to the live server or to a cache that may lag behind it.
  datatype View<J> = Live | Cached(jobs: map<string, J>)

  function Look<J>(v: View<J>, live: map<string, J>): map<string, J> {
    if v.Live? then live else v.jobs
  }

  // The alphabetically first node, "" when there is none.
  datatype NodesRead = NodesFail | FirstNode(node: string)

  // What a read shows of an object.
  function Seen<T>(stored: Option<T>, missed: bool): Option<T> {
    if missed then None else stored
  }

  // Creating an object the read missed: AlreadyExists, which is swallowed.
  predicate Taken<T>(stored: Option<T>, missed: bool) {
    missed && stored.Some?
  }
}
