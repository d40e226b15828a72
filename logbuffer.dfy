/**
 * The in-memory log handler the application installs on the root logger: it keeps the formatted
 * records in a list for display, appends the newest at the end and drops the oldest once the list
 * holds more than 500 records.
 */
module LogBuffer {
  import opened SeqUtil

  const Capacity: nat := 500

  /** The records a buffer of `Capacity` shows after the formatted messages `emitted`: the last
      `Capacity` of them, in order. */
  function Retained(emitted: seq<string>): (r: seq<string>)
    ensures |r| == if |emitted| <= Capacity then |emitted| else Capacity
    ensures r == emitted[|emitted| - |r|..]
  {
    if |emitted| <= Capacity then emitted else emitted[|emitted| - Capacity..]
  }

  /** One more message: append it, then drop the head if the list has grown past the capacity. */
  lemma RetainedSnoc(emitted: seq<string>, msg: string)
    ensures var grown := Retained(emitted) + [msg];
      Retained(emitted + [msg]) == if |grown| > Capacity then grown[1..] else grown
  {
    var e := emitted + [msg];
    if |emitted| > Capacity {
      assert e[|e| - Capacity..] == emitted[|emitted| - Capacity..][1..] + [msg];
    } else if |emitted| == Capacity {
      assert e[|e| - Capacity..] == emitted[1..] + [msg];
    }
  }

  class ListLogHandler {
    /** `log_records`: the formatted records, oldest first. */
    var logRecords: seq<string>
    /** Every message formatted so far, oldest first. */
    ghost var emitted: seq<string>

    ghost predicate Valid()
      reads this
    {
      logRecords == Retained(emitted)
    }

    constructor()
      ensures Valid() && logRecords == [] && emitted == []
    {
      logRecords := [];
      emitted := [];
    }

    /** `emit`: `formatted` is the record as the handler's formatter renders it, or `None` when
        formatting raises, in which case the error goes to `handleError` and the buffer is kept. */
    method Emit(formatted: Option<string>)
      requires Valid()
      modifies this
      ensures Valid()
      ensures formatted.None? ==> logRecords == old(logRecords) && emitted == old(emitted)
      ensures formatted.Some? ==> emitted == old(emitted) + [formatted.value]
      ensures formatted.Some? ==>
                (logRecords == if |old(logRecords)| + 1 > Capacity
                               then (old(logRecords) + [formatted.value])[1..]
                               else old(logRecords) + [formatted.value])
      ensures |logRecords| <= Capacity
    {
      if formatted.None? {
        return;
      }
      var msg := formatted.value;
      RetainedSnoc(emitted, msg);
      logRecords := logRecords + [msg];
      if |logRecords| > Capacity {
        logRecords := logRecords[1..];
      }
      emitted := emitted + [msg];
    }
  }
}
