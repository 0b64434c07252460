/** Modification times as clients and sessions spell them: "<unix seconds>.<nanoseconds>". */
module Scalars {
  import opened Base
  import opened Decimal
  import opened Text

  const SECOND: int := 1_000_000_000

  /** A time.Time, normalised the way time.Unix does. */
  datatype Time = Time(seconds: int, nanos: int) {
    predicate Valid() {
      Int64(seconds) && 0 <= nanos < SECOND
    }
  }

  datatype TimeResult = TimeResult(time: Time, ok: bool)

  /** time.Unix: nanoseconds outside [0, 10^9) carry into the seconds, which wrap around. */
  function Unix(seconds: int, nanos: int): (t: Time)
    ensures t.Valid()
  {
    Time(Wrap64(seconds + nanos / SECOND), nanos % SECOND)
  }

  function TimeToOCMtime(t: Time): string {
    FormatInt(t.seconds) + "." + FormatInt(t.nanos)
  }

  function MTimeToTime(v: string): (r: TimeResult)
    ensures r.time.Valid()
  {
    var parts := SplitN2(v, '.');
    var sec := ParseInt(parts.head);
    var nsec := if sec.ok && parts.tail.Some? then ParseInt(parts.tail.value) else Parsed(0, sec.ok);
    TimeResult(Unix(sec.value, nsec.value), sec.ok && nsec.ok)
  }

  lemma FormatHasNoDot(n: int)
    ensures '.' !in FormatInt(n)
  {
  }

  /** A time a session stored is the time it reads back. */
  lemma MTimeRoundTrip(t: Time)
    requires t.Valid()
    ensures MTimeToTime(TimeToOCMtime(t)) == TimeResult(t, true)
  {
    FormatHasNoDot(t.seconds);
    SplitN2Join(FormatInt(t.seconds), '.', FormatInt(t.nanos));
    ParseFormat(t.seconds);
    ParseFormat(t.nanos);
  }

  /** Carrying keeps the instant, unless the seconds wrap around. */
  lemma UnixKeepsInstant(seconds: int, nanos: int)
    requires Int64(seconds + nanos / 1_000_000_000)
    ensures
      var t := Unix(seconds, nanos);
      t.seconds * 1_000_000_000 + t.nanos == seconds * 1_000_000_000 + nanos
  {
  }

  /** Seconds alone are a time, and any nanoseconds carry. */
  lemma MTimeMeans(seconds: int, nanos: int)
    requires Int64(seconds) && Int64(nanos)
    ensures MTimeToTime(FormatInt(seconds)) == TimeResult(Time(seconds, 0), true)
    ensures MTimeToTime(FormatInt(seconds) + "." + FormatInt(nanos)) == TimeResult(Unix(seconds, nanos), true)
  {
    FormatHasNoDot(seconds);
    SplitN2Whole(FormatInt(seconds), '.');
    SplitN2Join(FormatInt(seconds), '.', FormatInt(nanos));
    ParseFormat(seconds);
    ParseFormat(nanos);
  }

  /** A text is no time exactly when what precedes its first dot is no number, or what follows it is none. */
  lemma MTimeMalformed(head: string, tail: string)
    requires '.' !in head
    ensures MTimeToTime(head).ok <==> ParseInt(head).ok
    ensures MTimeToTime(head + "." + tail).ok <==> ParseInt(head).ok && ParseInt(tail).ok
  {
    SplitN2Whole(head, '.');
    SplitN2Join(head, '.', tail);
  }
}
