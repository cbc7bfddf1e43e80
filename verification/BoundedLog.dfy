/**
 A log that keeps only its newest entries, as the gate's CONNECT log
 (routing/provider/gate.go:118-129) and the monitor's event log
 (controller/health/health.go:153-159) do: append, then cut the front.
 */
module BoundedLog {

  /** The newest `max` entries of `s`, or all of them. */
  function Tail<T>(s: seq<T>, max: nat): seq<T> {
    if |s| <= max then s else s[|s| - max..]
  }

  /** One append followed by the trim. */
  function Append<T>(buffer: seq<T>, x: T, max: nat): seq<T> {
    var grown := buffer + [x];
    if |grown| > max then grown[|grown| - max..] else grown
  }

  /** The buffer after recording all of `xs`, oldest first. */
  function AppendAll<T>(buffer: seq<T>, xs: seq<T>, max: nat): seq<T> {
    if xs == [] then buffer
    else Append(AppendAll(buffer, xs[..|xs| - 1], max), xs[|xs| - 1], max)
  }

  lemma AppendKeepsTail<T>(log: seq<T>, x: T, max: nat)
    ensures Append(Tail(log, max), x, max) == Tail(log + [x], max)
  {
    var grown := Tail(log, max) + [x];
    if |log| > max {
      assert grown == (log + [x])[|log| - max..];
    }
  }

  /** Over every recording run the buffer is the newest part of the whole history. */
  lemma {:induction false} AppendAllIsTail<T>(xs: seq<T>, max: nat)
    ensures AppendAll([], xs, max) == Tail(xs, max)
    ensures |AppendAll([], xs, max)| == if |xs| < max then |xs| else max
  {
    if xs != [] {
      var front := xs[..|xs| - 1];
      AppendAllIsTail(front, max);
      AppendKeepsTail(front, xs[|xs| - 1], max);
      assert front + [xs[|xs| - 1]] == xs;
    }
  }

  /** Entries from `cursor` on; a cursor outside the buffer counts as 0. */
  function Since<T>(buffer: seq<T>, cursor: int): seq<T> {
    if cursor < 0 || cursor > |buffer| then buffer else buffer[cursor..]
  }

  /**
   What an EventCount cursor is worth. `log` is everything recorded so far and `taken` is
   how much of it had been recorded when the cursor was taken. The cursor is an index into
   a buffer that is trimmed later, so entries can be missed but never invented.
   */
  lemma GenuineCursor<T>(log: seq<T>, taken: nat, max: nat)
    requires taken <= |log|
    ensures var cursor := |Tail(log[..taken], max)|;
            var buffer := Tail(log, max);
            var got := Since(buffer, cursor);
            && 0 <= cursor <= |buffer|
            && |got| <= |log| - taken
            && got == log[|log| - |got|..]
            && |got| == (if taken >= max then 0 else (if |log| < max then |log| else max) - taken)
            && (got == log[taken..] <==> |log| <= max || taken == |log|)
  {
    var cursor := |Tail(log[..taken], max)|;
    var buffer := Tail(log, max);
    var got := Since(buffer, cursor);
    assert got == log[|log| - |got|..];
    if |got| == |log| - taken {
      assert |log| - |got| == taken;
    }
  }

  /** The entry is among the newest `max`. */
  ghost predicate Recent<T>(log: seq<T>, x: T, max: nat) {
    exists i :: 0 <= i < |log| && |log| - max <= i && log[i] == x
  }

  lemma TailHasRecent<T>(log: seq<T>, x: T, max: nat)
    ensures x in Tail(log, max) <==> Recent(log, x, max)
  {
    var from := if |log| <= max then 0 else |log| - max;
    var kept := Tail(log, max);
    if x in kept {
      var i :| 0 <= i < |kept| && kept[i] == x;
      assert log[from + i] == x;
    }
    if Recent(log, x, max) {
      var i :| 0 <= i < |log| && |log| - max <= i && log[i] == x;
      assert kept[i - from] == x;
    }
  }
}
