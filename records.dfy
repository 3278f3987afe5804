/** The two record kinds the services share through the database: a queued
    `Message` (the command record) and a `Lock` (one per busy bot id), plus
    the message collection the webhook appends to. */
module Records {
  import opened Wrappers

  const Pending := "pending"
  const Succeeded := "success"
  const FailedStatus := "failed"
  const Warn := "warn"
  const High := "high"

  /** What `log_error` stores as the severity: "warn" stays, anything else
      becomes "high". */
  function StoredSeverity(severity: string): (r: string)
    ensures r == Warn || r == High
    ensures r == Warn <==> severity == Warn
  {
    if severity == Warn then Warn else High
  }

  /** One queued command. The creation fields never change after the
      webhook saves the record; the worker updates status and error fields. */
  class Message {
    const botId: string
    const pair: string
    const command: string
    const percent: string
    /** Creation time, UTC, in microseconds. */
    const timestamp: int
    var status: string
    var errorMsg: Option<string>
    var errorSeverity: Option<string>

    /** A new record as the webhook saves it: status "pending", no error. */
    constructor (botId: string, pair: string, command: string, percent: string, timestamp: int)
      ensures this.botId == botId && this.pair == pair && this.command == command
      ensures this.percent == percent && this.timestamp == timestamp
      ensures status == Pending && errorMsg == None && errorSeverity == None
    {
      this.botId := botId;
      this.pair := pair;
      this.command := command;
      this.percent := percent;
      this.timestamp := timestamp;
      status := Pending;
      errorMsg := None;
      errorSeverity := None;
    }

    /** `log_error`: the record fails with the text and a severity that is
        "warn" when asked for and "high" otherwise. */
    method LogError(text: string, severity: string)
      modifies this
      ensures status == FailedStatus
      ensures errorMsg == Some(text)
      ensures errorSeverity == Some(StoredSeverity(severity))
    {
      var stored := if severity == Warn then Warn else High;
      errorMsg := Some(text);
      errorSeverity := Some(stored);
      status := FailedStatus;
    }

    /** `log_success`: only the status changes (the text is console output). */
    method LogSuccess()
      modifies this
      ensures status == Succeeded
      ensures errorMsg == old(errorMsg) && errorSeverity == old(errorSeverity)
    {
      status := Succeeded;
    }
  }

  /** The Lock collection, as the set of bot ids that hold a lock. */
  class LockRegistry {
    var locks: set<string>

    constructor ()
      ensures locks == {}
    {
      locks := {};
    }

    /** `Lock.objects(bot_id=b).first() is not None`. */
    method IsLocked(botId: string) returns (locked: bool)
      ensures locked <==> botId in locks
    {
      locked := botId in locks;
    }

    /** `Lock(bot_id=b).save()`. */
    method Create(botId: string)
      modifies this
      ensures locks == old(locks) + {botId}
    {
      locks := locks + {botId};
    }

    /** `release_lock`: deletes the bot's lock when there is one; `found` is
        false on the path that only prints a warning. */
    method ReleaseLock(botId: string) returns (found: bool)
      modifies this
      ensures found <==> botId in old(locks)
      ensures locks == old(locks) - {botId}
    {
      found := botId in locks;
      if found {
        locks := locks - {botId};
      }
    }

    /** `Lock.objects().delete()`. */
    method DeleteAll()
      modifies this
      ensures locks == {}
    {
      locks := {};
    }
  }

  /** The Message collection: distinct records in insertion order. */
  class MessageQueue {
    var records: seq<Message>

    ghost predicate Valid()
      reads this
    {
      forall i, j :: 0 <= i < j < |records| ==> records[i] != records[j]
    }

    constructor ()
      ensures Valid() && records == []
    {
      records := [];
    }

    /** `Message(...).save()` of a new record. */
    method Save(m: Message)
      requires Valid()
      requires m !in records
      modifies this
      ensures Valid()
      ensures records == old(records) + [m]
    {
      records := records + [m];
    }
  }
}
