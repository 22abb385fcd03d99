/** The buffer that iceoryx2 keeps for each subscriber. */
module Buffers {

  /** How many payloads a buffer holds before the oldest is dropped: the size that publishers and subscribers
      ask iceoryx2 for. */
  const BUFFER_SIZE := 10

  function Push<T>(buffer: seq<T>, x: T): (r: seq<T>)
    ensures r != []
  {
    if |buffer| < BUFFER_SIZE then buffer + [x] else buffer[1..] + [x]
  }
}
