/** The driver's lazily opened stream (`DatabaseDriver.getStream`): an optional
    stored stream that is reused while it is open and replaced by a freshly
    opened one when it is missing or closed. */
module StreamHolder {
  import opened Common

  /** A stream handle: which stream it is, and whether the client reports it closed. */
  datatype Stream = Stream(id: nat, closed: bool)

  /** The driver's `stream` slot together with the client's count of opened
      streams; `client.openStream()` hands out stream number `openCount`. */
  datatype Holder = Holder(stream: Option<Stream>, openCount: nat)

  /** The stored stream, if any, was handed out by the client. */
  predicate Valid(h: Holder)
  {
    h.stream.Some? ==> h.stream.value.id < h.openCount
  }

  /** A stream that `getStream` may return as it is. */
  predicate Reusable(h: Holder)
  {
    h.stream.Some? && !h.stream.value.closed
  }

  datatype Acquired = Acquired(stream: Stream, holder: Holder)

  /** `client.openStream()`: a fresh, open stream, and the client's counter advanced. */
  function OpenStream(openCount: nat): (r: (Stream, nat))
    ensures !r.0.closed
    ensures r.0.id < r.1 == openCount + 1
  {
    (Stream(openCount, false), openCount + 1)
  }

  /** `getStream()`: reuse the stored stream unless it is missing or closed,
      in which case open one, store it and return it. */
  function GetStream(h: Holder): (a: Acquired)
    ensures a.holder.stream == Some(a.stream)
    ensures !a.stream.closed
    ensures Reusable(h) ==> a == Acquired(h.stream.value, h)
    ensures !Reusable(h) ==> a.holder.openCount == h.openCount + 1 && a.stream.id == h.openCount
    ensures Valid(h) ==> Valid(a.holder)
    ensures Valid(h) && h.stream.Some? && h.stream.value.closed ==> a.stream.id != h.stream.value.id
  {
    match h.stream
    case Some(s) =>
      if s.closed then
        var next := OpenStream(h.openCount);
        Acquired(next.0, Holder(Some(next.0), next.1))
      else
        Acquired(s, h)
    case None =>
      var next := OpenStream(h.openCount);
      Acquired(next.0, Holder(Some(next.0), next.1))
  }

  /** The client reports the stored stream closed (an event outside the driver). */
  function StreamClosed(h: Holder): (h': Holder)
    ensures h'.openCount == h.openCount
    ensures h.stream.Some? <==> h'.stream.Some?
    ensures h.stream.Some? ==> h'.stream.value.id == h.stream.value.id
    ensures !Reusable(h')
    ensures Valid(h) ==> Valid(h')
  {
    match h.stream
    case Some(s) => Holder(Some(s.(closed := true)), h.openCount)
    case None => h
  }

  /** Two consecutive `getStream` calls with no close in between return the same
      handle, and the second opens nothing. */
  lemma GetStreamIdempotent(h: Holder)
    ensures GetStream(GetStream(h).holder) == GetStream(h)
  {
  }

  /** `n` consecutive calls, each on the state the previous one left. */
  function GetStreamTimes(h: Holder, n: nat): (a: Acquired)
    requires n > 0
    decreases n
  {
    if n == 1 then GetStream(h) else GetStreamTimes(GetStream(h).holder, n - 1)
  }

  /** However many consecutive calls are made, they all return the stream the first
      call returned, and at most one stream is opened in all. */
  lemma {:induction false} GetStreamTimesStable(h: Holder, n: nat)
    requires n > 0
    ensures GetStreamTimes(h, n) == GetStream(h)
    ensures GetStreamTimes(h, n).holder.openCount <= h.openCount + 1
    decreases n
  {
    if n > 1 {
      GetStreamTimesStable(GetStream(h).holder, n - 1);
      GetStreamIdempotent(h);
    }
  }

  /** After the client closes the stored stream, the next call opens a stream
      different from every stream opened before. */
  lemma ReopenAfterClose(h: Holder)
    requires Valid(h)
    ensures GetStream(StreamClosed(h)).stream.id == h.openCount
    ensures h.stream.Some? ==> GetStream(StreamClosed(h)).stream.id != h.stream.value.id
  {
  }
}
