/** The webhook: a trading signal `botid[&botid...]_PAIR_COMMAND[_PERCENT]`
    arrives in the `command` form field and becomes one pending message per
    bot id. */
module Webhook {
  import opened Wrappers
  import opened Text
  import opened Records

  const Ok := 200
  const BadRequest := 400
  /** The status Flask answers with when the handler raises an error it does
      not catch. */
  const ServerError := 500
  /** `Message.percent`'s default. */
  const NoPercent := "none"

  /** A parsed signal. */
  datatype Signal = Signal(botIds: seq<string>, pair: string, command: string, percent: string)

  /** The `try` block: split on "_", the first field on "&"; a fourth field
      is the percent, taken verbatim; a payload with fewer than three fields
      is refused (`IndexError`). */
  function Parse(payload: string): Option<Signal> {
    var fields := Split(payload, '_');
    if |fields| < 3 then None
    else Some(Signal(Split(fields[0], '&'), fields[1], fields[2], if |fields| > 3 then fields[3] else NoPercent))
  }

  // ---------------------------------------------------------------------------
  // What the parse accepts

  /** Occurrences of `c` in `s`. */
  function Count(s: string, c: char): nat
    decreases |s|
  {
    if |s| == 0 then 0 else (if s[0] == c then 1 else 0) + Count(s[1..], c)
  }

  /** `split` gives one more piece than there are separators. */
  lemma {:induction false} SplitCount(s: string, sep: char)
    ensures |Split(s, sep)| == Count(s, sep) + 1
    decreases |s|
  {
    if |s| > 0 {
      SplitCount(s[1..], sep);
    }
  }

  /** A signal is refused exactly when it holds fewer than two underscores,
      and an accepted one names at least one bot. */
  lemma ParseAccepts(payload: string)
    ensures Parse(payload).None? <==> Count(payload, '_') < 2
    ensures Parse(payload).Some? ==> |Parse(payload).value.botIds| >= 1
  {
    SplitCount(payload, '_');
  }

  /** The signal a sender writes: bot ids joined by "&", then pair, command
      and percent, joined by "_". */
  function Format(s: Signal): string
    requires |s.botIds| >= 1
  {
    Join([Join(s.botIds, '&'), s.pair, s.command, s.percent], '_')
  }

  /** Fields that cannot be confused with the separators. */
  predicate WellFormed(s: Signal) {
    && |s.botIds| >= 1
    && (forall i :: 0 <= i < |s.botIds| ==> '&' !in s.botIds[i] && '_' !in s.botIds[i])
    && '_' !in s.pair && '_' !in s.command && '_' !in s.percent
  }

  lemma {:induction false} JoinAvoids(parts: seq<string>, sep: char, c: char)
    requires |parts| >= 1
    requires c != sep
    requires forall i :: 0 <= i < |parts| ==> c !in parts[i]
    ensures c !in Join(parts, sep)
    decreases |parts|
  {
    if |parts| > 1 {
      JoinAvoids(parts[1..], sep, c);
    }
  }

  /** A well-formed signal is read back exactly as it was written. */
  lemma ParseFormat(s: Signal)
    requires WellFormed(s)
    ensures Parse(Format(s)) == Some(s)
  {
    JoinAvoids(s.botIds, '&', '_');
    var fields := [Join(s.botIds, '&'), s.pair, s.command, s.percent];
    SplitJoin(fields, '_');
    SplitJoin(s.botIds, '&');
  }

  /** And a four-field payload is exactly the format of what it parses to. */
  lemma FormatParse(payload: string)
    requires Count(payload, '_') == 3
    ensures Parse(payload).Some?
    ensures Format(Parse(payload).value) == payload
  {
    SplitCount(payload, '_');
    var fields := Split(payload, '_');
    JoinSplit(payload, '_');
    JoinSplit(fields[0], '&');
    assert fields == [fields[0], fields[1], fields[2], fields[3]];
  }

  /** Splitting at a separator splits the two sides independently, the last
      piece of the left meeting nothing. */
  lemma {:induction false} SplitAppend(a: string, b: string, sep: char)
    ensures Split(a + [sep] + b, sep) == Split(a, sep) + Split(b, sep)
    decreases |a|
  {
    if |a| == 0 {
      assert a + [sep] + b == [sep] + b;
      assert ([sep] + b)[1..] == b;
    } else {
      assert (a + [sep] + b)[1..] == a[1..] + [sep] + b;
      SplitAppend(a[1..], b, sep);
    }
  }

  /** Fields after the fourth are ignored. */
  lemma ExtraFieldsIgnored(payload: string, extra: string)
    requires Count(payload, '_') >= 3
    ensures Parse(payload + "_" + extra) == Parse(payload)
  {
    SplitCount(payload, '_');
    SplitAppend(payload, extra, '_');
    var fields := Split(payload, '_');
    var longer := Split(payload + "_" + extra, '_');
    assert longer == fields + Split(extra, '_');
    assert longer[..4] == fields[..4];
  }

  // ---------------------------------------------------------------------------
  // The handler

  /** `webhook()` on a POST: `form` is the `command` field, absent or given.
      A refused signal answers 400 and saves nothing; an accepted one saves a
      new pending message per bot id, in order, with the signal's pair,
      command and percent and the creation time `now(k)` of the k-th one. */
  method HandleWebhook(queue: MessageQueue, form: Option<string>, now: nat -> int) returns (status: int)
    requires queue.Valid()
    modifies queue
    ensures queue.Valid()
    ensures form.None? ==> status == ServerError && queue.records == old(queue.records)
    ensures form.Some? && Parse(form.value).None? ==> status == BadRequest && queue.records == old(queue.records)
    ensures form.Some? && Parse(form.value).Some? ==>
      var s := Parse(form.value).value;
      var n := |old(queue.records)|;
      && status == Ok
      && |queue.records| == n + |s.botIds|
      && queue.records[..n] == old(queue.records)
      && forall k :: n <= k < |queue.records| ==>
        var m := queue.records[k];
        && fresh(m)
        && m.botId == s.botIds[k - n] && m.pair == s.pair && m.command == s.command
        && m.percent == s.percent && m.timestamp == now(k - n)
        && m.status == Pending && m.errorMsg == None && m.errorSeverity == None
  {
    if form.None? {
      return ServerError;
    }
    var signal := Parse(form.value);
    if signal.None? {
      return BadRequest;
    }
    var s := signal.value;
    ghost var n := |queue.records|;
    var i := 0;
    while i < |s.botIds|
      invariant 0 <= i <= |s.botIds|
      invariant queue.Valid()
      invariant |queue.records| == n + i
      invariant queue.records[..n] == old(queue.records)
      invariant forall k :: n <= k < |queue.records| ==>
        var m := queue.records[k];
        && fresh(m)
        && m.botId == s.botIds[k - n] && m.pair == s.pair && m.command == s.command
        && m.percent == s.percent && m.timestamp == now(k - n)
        && m.status == Pending && m.errorMsg == None && m.errorSeverity == None
    {
      var m := new Message(s.botIds[i], s.pair, s.command, s.percent, now(i));
      queue.Save(m);
      i := i + 1;
    }
    return Ok;
  }
}
