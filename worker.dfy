/** The trade worker's run for one bot: the credentials check, the timing
    limits, the batch of pending messages in timestamp order, one decision per
    message written onto its record, and the lock release. Also the retry
    helper. The exchange's answers for the k-th message of the batch come from
    `observe(k)`. */
module Worker {
  import opened Wrappers
  import opened Text
  import opened Positions
  import opened Trade
  import Records

  // ---------------------------------------------------------------------------
  // Records as the worker sees them

  /** The mutable part of a message record. */
  datatype RecordState = RecordState(status: string, errorMsg: Option<string>, errorSeverity: Option<string>)

  function StateOf(m: Records.Message): RecordState
    reads m
  {
    RecordState(m.status, m.errorMsg, m.errorSeverity)
  }

  function FieldsOf(m: Records.Message): MessageFields {
    MessageFields(m.botId, m.pair, m.command, m.percent, m.timestamp)
  }

  /** The record after a step's outcome: `log_error`, `log_success`, or no
      write at all. */
  function AfterOutcome(o: Outcome, before: RecordState): (after: RecordState)
    ensures o.StillPending? ==> after == before
    ensures o.Succeeded? ==>
      after.status == Records.Succeeded && after.errorMsg == before.errorMsg && after.errorSeverity == before.errorSeverity
    ensures o.Failed? ==>
      && after.status == Records.FailedStatus && after.errorMsg == Some(o.text) && after.errorSeverity.Some?
      && (after.errorSeverity.value == Records.Warn <==> o.severity == Records.Warn)
  {
    match o
    case Failed(text, severity) => RecordState(Records.FailedStatus, Some(text), Some(Records.StoredSeverity(severity)))
    case Succeeded(_) => before.(status := Records.Succeeded)
    case StillPending => before
  }

  /** A processed record stays pending only when its step left it so, and
      a failed record's severity is always one of the two stored values. */
  lemma RecordLeavesPending(o: Outcome, before: RecordState)
    requires before.status == Records.Pending
    ensures AfterOutcome(o, before).status == Records.Pending <==> o.StillPending?
    ensures AfterOutcome(o, before).errorSeverity.Some? && before.errorSeverity.None? ==>
      AfterOutcome(o, before).errorSeverity.value in {Records.Warn, Records.High}
  {
  }

  /** One pass of the message loop body: scan the positions response, read
      the ladder, decide, and write the outcome onto the record. */
  method ProcessMessage(m: Records.Message, cfg: WorkerConfig, env: MessageEnv) returns (actions: seq<Action>)
    modifies m
    ensures actions == Decide(FieldsOf(m), cfg, env).actions
    ensures StateOf(m) == AfterOutcome(Decide(FieldsOf(m), cfg, env).outcome, old(StateOf(m)))
  {
    var scan := ScanResponse(env.positions);
    var ladder, _ := ReadLadder(cfg.trade, Upper(m.pair));
    var step := DecideWith(FieldsOf(m), cfg, env, scan, ladder);
    match step.outcome {
      case Failed(text, severity) => m.LogError(text, severity);
      case Succeeded(_) => m.LogSuccess();
      case StillPending =>
    }
    actions := step.actions;
  }

  // ---------------------------------------------------------------------------
  // Timing

  const DefaultMaxMessageAge := 90
  const DefaultMaxOrderTime := 60
  /** Both names are already lower-case, so ConfigParser's folding of option
      names leaves them as they are stored. */
  const MaxMessageAgeKey := "max_webhook_message_age_time"
  const MaxOrderTimeKey := "max_order_time"

  datatype Limits = Limits(maxMessageAge: int, maxOrderTime: int)

  function LimitFrom(timing: map<string, string>, key: string, default: int): Option<int> {
    if key in timing then ParseInt(timing[key]) else Some(default)
  }

  /** The two limits: 90 and 60 seconds unless the `[timing]` section sets
      them; `None` when a set value is not an integer (the worker dies). */
  function TimingLimits(timing: Option<map<string, string>>): Option<Limits> {
    match timing
    case None => Some(Limits(DefaultMaxMessageAge, DefaultMaxOrderTime))
    case Some(t) =>
      match LimitFrom(t, MaxMessageAgeKey, DefaultMaxMessageAge)
      case None => None
      case Some(age) =>
        match LimitFrom(t, MaxOrderTimeKey, DefaultMaxOrderTime)
        case None => None
        case Some(orderTime) => Some(Limits(age, orderTime))
  }

  /** Each limit is its default when absent and the written integer when
      present, independently of the other limit and of any other key; the
      limits exist exactly when every limit that is present reads as an
      integer. */
  lemma TimingOverrides(timing: Option<map<string, string>>, age: int, orderTime: int)
    ensures timing.None? ==> TimingLimits(timing) == Some(Limits(90, 60))
    ensures timing.Some? ==>
      (TimingLimits(timing).Some? <==>
        (MaxMessageAgeKey in timing.value ==> ParseInt(timing.value[MaxMessageAgeKey]).Some?) &&
        (MaxOrderTimeKey in timing.value ==> ParseInt(timing.value[MaxOrderTimeKey]).Some?))
    ensures timing.Some? && TimingLimits(timing).Some? ==>
      var limits := TimingLimits(timing).value;
      && (MaxMessageAgeKey in timing.value ==> ParseInt(timing.value[MaxMessageAgeKey]) == Some(limits.maxMessageAge))
      && (MaxMessageAgeKey !in timing.value ==> limits.maxMessageAge == 90)
      && (MaxOrderTimeKey in timing.value ==> ParseInt(timing.value[MaxOrderTimeKey]) == Some(limits.maxOrderTime))
      && (MaxOrderTimeKey !in timing.value ==> limits.maxOrderTime == 60)
    ensures timing.Some? && MaxMessageAgeKey !in timing.value ==>
      MaxOrderTimeKey in timing.value && timing.value[MaxOrderTimeKey] == IntStr(orderTime) ==>
      TimingLimits(timing) == Some(Limits(90, orderTime))
    ensures timing.Some? && MaxOrderTimeKey !in timing.value ==>
      MaxMessageAgeKey in timing.value && timing.value[MaxMessageAgeKey] == IntStr(age) ==>
      TimingLimits(timing) == Some(Limits(age, 60))
    ensures timing.Some? && MaxMessageAgeKey !in timing.value && MaxOrderTimeKey !in timing.value ==>
      TimingLimits(timing) == Some(Limits(90, 60))
    ensures timing.Some? && timing.value == map[MaxMessageAgeKey := IntStr(age), MaxOrderTimeKey := IntStr(orderTime)] ==>
      TimingLimits(timing) == Some(Limits(age, orderTime))
  {
    ParseIntOfIntStr(age);
    ParseIntOfIntStr(orderTime);
  }

  // ---------------------------------------------------------------------------
  // The batch

  /** The bot's pending records, in store order. */
  function PendingFor(records: seq<Records.Message>, botId: string): (r: seq<Records.Message>)
    reads records
    ensures forall i :: 0 <= i < |r| ==> r[i] in records && r[i].botId == botId && r[i].status == Records.Pending
    ensures forall i :: 0 <= i < |records| && records[i].botId == botId && records[i].status == Records.Pending ==>
      records[i] in r
    ensures |r| <= |records|
    decreases |records|
  {
    if |records| == 0 then []
    else
      var rest := PendingFor(records[..|records| - 1], botId);
      var m := records[|records| - 1];
      if m.botId == botId && m.status == Records.Pending then rest + [m] else rest
  }

  predicate Distinct<T(==)>(s: seq<T>) {
    forall i, j :: 0 <= i < j < |s| ==> s[i] != s[j]
  }

  lemma {:induction false} PendingForDistinct(records: seq<Records.Message>, botId: string)
    requires Distinct(records)
    ensures Distinct(PendingFor(records, botId))
    decreases |records|
  {
    if |records| > 0 {
      var init := records[..|records| - 1];
      assert Distinct(init);
      PendingForDistinct(init, botId);
      var m := records[|records| - 1];
      assert m !in init;
    }
  }

  predicate SortedByTime(s: seq<Records.Message>) {
    forall i, j :: 0 <= i < j < |s| ==> s[i].timestamp <= s[j].timestamp
  }

  /** Insert after every record with a timestamp not later than `m`'s. */
  function Insert(m: Records.Message, s: seq<Records.Message>): (r: seq<Records.Message>)
    ensures multiset(r) == multiset(s) + multiset{m}
    ensures |r| == |s| + 1
    decreases |s|
  {
    if |s| == 0 then [m]
    else if m.timestamp < s[0].timestamp then [m] + s
    else
      assert s == [s[0]] + s[1..];
      [s[0]] + Insert(m, s[1..])
  }

  /** `order_by('+timestamp')`, equal timestamps in store order. */
  function SortByTime(s: seq<Records.Message>): (r: seq<Records.Message>)
    ensures multiset(r) == multiset(s)
    decreases |s|
  {
    if |s| == 0 then []
    else
      assert s == s[..|s| - 1] + [s[|s| - 1]];
      Insert(s[|s| - 1], SortByTime(s[..|s| - 1]))
  }

  lemma {:induction false} InsertSorted(m: Records.Message, s: seq<Records.Message>)
    requires SortedByTime(s)
    ensures SortedByTime(Insert(m, s))
    decreases |s|
  {
    if |s| > 0 && m.timestamp >= s[0].timestamp {
      InsertSorted(m, s[1..]);
      var r := Insert(m, s);
      var t := Insert(m, s[1..]);
      assert r == [s[0]] + t;
      assert forall k :: 0 <= k < |t| ==> t[k] in multiset(s[1..]) + multiset{m};
      forall k | 0 <= k < |t| ensures s[0].timestamp <= t[k].timestamp {
        assert t[k] in multiset(s[1..]) + multiset{m};
        if t[k] in multiset(s[1..]) {
          var j :| 0 <= j < |s[1..]| && s[1..][j] == t[k];
          assert s[1..][j] == s[j + 1];
        }
      }
    }
  }

  /** The batch is in timestamp order and holds exactly the pending records. */
  lemma {:induction false} SortByTimeSorted(s: seq<Records.Message>)
    ensures SortedByTime(SortByTime(s))
    ensures multiset(SortByTime(s)) == multiset(s)
    decreases |s|
  {
    if |s| > 0 {
      SortByTimeSorted(s[..|s| - 1]);
      InsertSorted(s[|s| - 1], SortByTime(s[..|s| - 1]));
    }
  }

  /** Reordering keeps a sequence free of repeats. */
  lemma {:induction false} DistinctCount<T>(s: seq<T>, x: T)
    requires Distinct(s)
    ensures multiset(s)[x] <= 1
    decreases |s|
  {
    if |s| > 0 {
      var init := s[..|s| - 1];
      assert s == init + [s[|s| - 1]];
      assert Distinct(init);
      DistinctCount(init, x);
      if x == s[|s| - 1] {
        assert x !in init;
      }
    }
  }

  lemma PermutationDistinct<T>(s: seq<T>, t: seq<T>)
    requires Distinct(s)
    requires multiset(s) == multiset(t)
    ensures Distinct(t)
  {
    forall i, j | 0 <= i < j < |t| ensures t[i] != t[j] {
      DistinctCount(s, t[i]);
      assert t == t[..j] + t[j..];
      assert t[i] in multiset(t[..j]);
      assert t[j] in multiset(t[j..]);
      assert multiset(t)[t[i]] == multiset(t[..j])[t[i]] + multiset(t[j..])[t[i]];
    }
  }

  /** The pending records of a bot, in the order the worker handles them. */
  function Batch(records: seq<Records.Message>, botId: string): (r: seq<Records.Message>)
    reads records
    ensures forall i :: 0 <= i < |r| ==> r[i] in records
  {
    var pending := PendingFor(records, botId);
    var sorted := SortByTime(pending);
    assert forall i :: 0 <= i < |sorted| ==> sorted[i] in multiset(sorted);
    sorted
  }

  lemma BatchFacts(records: seq<Records.Message>, botId: string)
    requires Distinct(records)
    ensures Distinct(Batch(records, botId))
    ensures SortedByTime(Batch(records, botId))
    ensures forall m :: m in Batch(records, botId) <==> m in records && m.botId == botId && m.status == Records.Pending
  {
    PendingForDistinct(records, botId);
    SortByTimeSorted(PendingFor(records, botId));
    PermutationDistinct(PendingFor(records, botId), Batch(records, botId));
    forall m ensures m in Batch(records, botId) <==> m in PendingFor(records, botId) {
      assert m in multiset(Batch(records, botId)) <==> m in multiset(PendingFor(records, botId));
    }
  }

  // ---------------------------------------------------------------------------
  // The run

  /** Record `m` was handled against `env`: the requests sent are its step's
      and its new state is its step's outcome applied to `before`. */
  predicate Handled(m: Records.Message, cfg: WorkerConfig, env: MessageEnv, actions: seq<Action>, before: RecordState)
    reads m
  {
    var step := Decide(FieldsOf(m), cfg, env);
    actions == step.actions && StateOf(m) == AfterOutcome(step.outcome, before)
  }

  /** The message loop: each record of the batch in turn, the k-th against
      `observe(k)`. */
  method ProcessBatch(batch: seq<Records.Message>, cfg: WorkerConfig, observe: nat -> MessageEnv)
    returns (sent: seq<seq<Action>>)
    requires Distinct(batch)
    modifies batch
    ensures |sent| == |batch|
    ensures forall k :: 0 <= k < |batch| ==> Handled(batch[k], cfg, observe(k), sent[k], old(StateOf(batch[k])))
  {
    sent := [];
    var i := 0;
    while i < |batch|
      invariant 0 <= i <= |batch|
      invariant |sent| == i
      invariant forall k :: 0 <= k < i ==> Handled(batch[k], cfg, observe(k), sent[k], old(StateOf(batch[k])))
      invariant forall k :: i <= k < |batch| ==> StateOf(batch[k]) == old(StateOf(batch[k]))
    {
      assert forall k :: 0 <= k < |batch| && k != i ==> batch[k] != batch[i];
      var actions := ProcessMessage(batch[i], cfg, observe(i));
      sent := sent + [actions];
      i := i + 1;
    }
  }

  /** How the process ends: `sys.exit(-1)`, a normal end (status 0), or an
      uncaught ValueError while reading the timing limits. */
  datatype RunResult = Exited(code: int) | Crashed

  /** The worker's main block for `botId`. `keyRows` is the number of rows
      for the bot in the key file. */
  method RunWorker(botId: string, keyRows: nat, timing: Option<map<string, string>>, trade: map<string, string>,
                   markets: set<string>, queue: Records.MessageQueue, registry: Records.LockRegistry,
                   observe: nat -> MessageEnv)
    returns (result: RunResult, sent: seq<seq<Action>>)
    requires queue.Valid()
    modifies registry, Batch(queue.records, botId)
    ensures keyRows != 1 ==> result == Exited(-1) && sent == []
    ensures keyRows == 1 && TimingLimits(timing).None? ==> result == Crashed && sent == []
    ensures result == Crashed ==> registry.locks == old(registry.locks)
    ensures result != Crashed ==> registry.locks == old(registry.locks) - {botId}
    ensures keyRows == 1 && TimingLimits(timing).Some? ==>
      result == (if |old(Batch(queue.records, botId))| == 0 then Exited(-1) else Exited(0))
    ensures var batch := old(Batch(queue.records, botId));
      && |sent| == (if result == Exited(0) then |batch| else 0)
      && (result == Exited(0) ==>
            var limits := TimingLimits(timing).value;
            var cfg := WorkerConfig(trade, limits.maxMessageAge, limits.maxOrderTime, markets);
            forall k :: 0 <= k < |sent| ==>
              Handled(batch[k], cfg, observe(k), sent[k], old(StateOf(Batch(queue.records, botId)[k]))))
    ensures result != Exited(0) ==>
      forall m :: m in old(Batch(queue.records, botId)) ==> StateOf(m) == old(StateOf(m))
    ensures queue.records == old(queue.records)
  {
    sent := [];
    var batch := Batch(queue.records, botId);
    if keyRows != 1 {
      var _ := registry.ReleaseLock(botId);
      return Exited(-1), sent;
    }
    var limits := TimingLimits(timing);
    if limits.None? {
      return Crashed, sent;
    }
    var cfg := WorkerConfig(trade, limits.value.maxMessageAge, limits.value.maxOrderTime, markets);
    BatchFacts(queue.records, botId);
    if |batch| == 0 {
      var _ := registry.ReleaseLock(botId);
      return Exited(-1), sent;
    }
    sent := ProcessBatch(batch, cfg, observe);
    var _ := registry.ReleaseLock(botId);
    result := Exited(0);
  }

  // ---------------------------------------------------------------------------
  // do_with_retry

  const RetryLimit := 3

  /** Calls the action until it succeeds, at most three times; `attempt(k)`
      is the error the (k+1)-th call raises, `None` when it succeeds. On three
      failures the last error is raised again. */
  method DoWithRetry(attempt: nat -> Option<string>) returns (calls: nat, raised: Option<string>)
    ensures 1 <= calls <= RetryLimit
    ensures forall k :: 0 <= k < calls - 1 ==> attempt(k).Some?
    ensures raised.None? <==> attempt(calls - 1).None?
    ensures raised.Some? ==> calls == RetryLimit && raised == attempt(RetryLimit - 1)
    ensures raised.None? <==> exists k :: 0 <= k < RetryLimit && attempt(k).None?
  {
    calls := 0;
    var lastError: Option<string> := None;
    while calls < RetryLimit
      invariant 0 <= calls <= RetryLimit
      invariant forall k :: 0 <= k < calls ==> attempt(k).Some?
      invariant calls > 0 ==> lastError == attempt(calls - 1)
    {
      var outcome := attempt(calls);
      if outcome.None? {
        calls := calls + 1;
        raised := None;
        return;
      }
      lastError := outcome;
      calls := calls + 1;
    }
    raised := lastError;
  }
}
