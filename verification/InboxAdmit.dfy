/**
 * One admission (src/cloudflare.ts:3639-3690) and the inbox row it settles (src/slack/gateway/inbox.ts:355-411).
 * The store writes a row only in the states its statements name, so a second settlement finds nothing.
 */
module InboxAdmit {
  import opened Common

  /** Where a row stands; a pending row may be claimable only after a delay. */
  datatype Status = Pending(delay: nat) | InFlight | Completed | RecoveryRequired

  datatype Row = Row(status: Status, attempts: nat, maxAttempts: nat)

  /**
   * How the processing of a delivery ends: accepted, and then the callback may throw; rejected; or it
   * throws itself. A throw carries the delay that its error asks for.
   */
  datatype Processing = Accepted(callback: Option<nat>) | Rejected | Threw(delay: nat)

  /** What an admission leaves: the row, how often it was written, and what it asks for. */
  datatype Admission = Admission(row: Row, writes: nat, needsRetry: bool, deadLetter: bool)

  /** `complete` */
  function CompletedRow(row: Row): Row {
    if row.status == InFlight then row.(status := Completed) else row
  }

  /** `markRecoveryRequired` */
  function MarkedRow(row: Row): Row {
    if row.status.Pending? || row.status == InFlight then row.(status := RecoveryRequired) else row
  }

  /** `retryOrRecover` on the row; it answers `pending` exactly when the row may be tried again. */
  function RetriedRow(row: Row, delay: nat): Row {
    if row.status != InFlight then row
    else if row.attempts >= row.maxAttempts then MarkedRow(row)
    else row.(status := Pending(delay))
  }

  predicate MayRetry(row: Row) {
    row.status == InFlight && row.attempts < row.maxAttempts
  }

  function Written(row: Row, row': Row): nat {
    if row' == row then 0 else 1
  }

  /** The catch clause, after `writes` writes. */
  function Caught(row: Row, writes: nat, delay: nat): Admission {
    var row' := RetriedRow(row, delay);
    Admission(row', writes + Written(row, row'), MayRetry(row) && delay == 0, !MayRetry(row))
  }

  function Admitted(row: Row, processing: Processing): Admission {
    match processing
    case Accepted(callback) =>
      var row' := CompletedRow(row);
      if callback.None? then Admission(row', Written(row, row'), false, false)
      else Caught(row', Written(row, row'), callback.value)
    case Rejected =>
      var row' := MarkedRow(row);
      Admission(row', Written(row, row'), false, false)
    case Threw(delay) => Caught(row, 0, delay)
  }

  /** What the end of an admission of the claimed row `row` tells about its processing. */
  predicate Told(
    row: Row, processing: Processing, status: Status, writes: nat, needsRetry: bool, deadLetter: bool)
  {
    var spent := row.attempts >= row.maxAttempts;
    && writes == 1 && status != InFlight
    && (status == Completed <==> processing.Accepted?)
    && (status == RecoveryRequired <==> processing.Rejected? || (processing.Threw? && spent))
    && (status.Pending? <==> processing.Threw? && !spent)
    && (status.Pending? ==> status.delay == processing.delay)
    && (needsRetry <==> status == Pending(0))
    && (deadLetter <==> (processing.Threw? && spent) || (processing.Accepted? && processing.callback.Some?))
  }

  /**
   * A claimed row is written exactly once, whatever the processing and the callback do, and its new state
   * tells how the processing ended. Another drain is asked for exactly when the row may be tried again
   * at once; a dead letter is recorded when the attempts are spent, and also for a completed delivery
   * whose callback throws.
   */
  lemma SettledExactlyOnce(row: Row, processing: Processing)
    requires row.status == InFlight
    ensures var a := Admitted(row, processing);
            Told(row, processing, a.row.status, a.writes, a.needsRetry, a.deadLetter)
  {
  }

  // ---- the row in the store ----

  class Delivery {
    var status: Status
    const attempts: nat
    const maxAttempts: nat
    ghost var writes: nat

    ghost function Value(): Row
      reads this
    {
      Row(status, attempts, maxAttempts)
    }

    constructor (row: Row)
      ensures Value() == row && writes == 0
    {
      status, attempts, maxAttempts, writes := row.status, row.attempts, row.maxAttempts, 0;
    }

    method Complete()
      modifies this
      ensures Value() == CompletedRow(old(Value())) && writes == old(writes) + Written(old(Value()), Value())
    {
      if status == InFlight {
        status, writes := Completed, writes + 1;
      }
    }

    method MarkRecoveryRequired()
      modifies this
      ensures Value() == MarkedRow(old(Value())) && writes == old(writes) + Written(old(Value()), Value())
    {
      if status.Pending? || status == InFlight {
        status, writes := RecoveryRequired, writes + 1;
      }
    }

    method RetryOrRecover(delay: nat) returns (pending: bool)
      modifies this
      ensures Value() == RetriedRow(old(Value()), delay) && writes == old(writes) + Written(old(Value()), Value())
      ensures pending <==> MayRetry(old(Value()))
    {
      if status != InFlight {
        return false;
      }
      if attempts >= maxAttempts {
        MarkRecoveryRequired();
        return false;
      }
      status, writes := Pending(delay), writes + 1;
      return true;
    }

    /** The catch clause of an admission. */
    method Catch(delay: nat) returns (needsRetry: bool, deadLetter: bool)
      modifies this
      ensures Admission(Value(), writes, needsRetry, deadLetter) == Caught(old(Value()), old(writes), delay)
    {
      var pending := RetryOrRecover(delay);
      needsRetry, deadLetter := pending && delay == 0, !pending;
    }

    /** `admit`, once the processing has ended. */
    method Admit(processing: Processing) returns (needsRetry: bool, deadLetter: bool)
      requires writes == 0
      modifies this
      ensures Admission(Value(), writes, needsRetry, deadLetter) == Admitted(old(Value()), processing)
      ensures old(status) == InFlight ==> Told(old(Value()), processing, status, writes, needsRetry, deadLetter)
    {
      if status == InFlight {
        SettledExactlyOnce(Value(), processing);
      }
      needsRetry, deadLetter := false, false;
      match processing
      case Accepted(callback) =>
        Complete();
        if callback.Some? {
          needsRetry, deadLetter := Catch(callback.value);
        }
      case Rejected => MarkRecoveryRequired();
      case Threw(delay) => needsRetry, deadLetter := Catch(delay);
    }
  }
}
