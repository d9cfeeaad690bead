/**
 Streams as what successive polls of them return, so any pattern of pending and ready polls is one of them.
 A stream that has run out of answers has ended.
 */
module ScriptedStreams {
  import opened Wrappers

  datatype Answer<V, E> = NotYet | Item(v: V) | Failed(e: E)

  type Stream<V, E> = seq<Answer<V, E>>

  // The items a stream gives before it fails or ends, and the error it fails with, if it does.
  function Values<V, E>(s: Stream<V, E>): seq<V> {
    if s == [] || s[0].Failed? then []
    else (if s[0].Item? then [s[0].v] else []) + Values(s[1..])
  }

  function Failure<V, E>(s: Stream<V, E>): Option<E> {
    if s == [] then None
    else if s[0].Failed? then Some(s[0].e)
    else Failure(s[1..])
  }
}
