/** What a process that may die after any durable step leaves behind. */
module Interruption {

  /** The first `kept` steps, or all of them. */
  function Cut<T>(steps: seq<T>, kept: nat): (r: seq<T>)
    ensures r <= steps && |r| == if kept <= |steps| then kept else |steps|
  {
    if kept <= |steps| then steps[..kept] else steps
  }
}
