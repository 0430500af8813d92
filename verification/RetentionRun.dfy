/**
 A whole prune run: six delete statements, each its own transaction, then one webhook
 transaction of four statements that share one row budget.
 */
module RetentionRun {
  import opened Wrappers
  import opened Retention

  const MAX_BATCH_SIZE: nat := 10_000
  const I64_MAX: nat := 0x7fff_ffff_ffff_ffff
  const U64_MAX: nat := 0xffff_ffff_ffff_ffff

  const CLASSES: seq<Statement> :=
    [PruneLogins, PruneLogouts, PruneGenerations, PruneSessions, PruneBrowsers, PruneSmtpTests]

  const WEBHOOK: seq<Statement> :=
    [CancelDeliveries, PruneAttempts, PruneDeliveries, PruneEvents]

  /** When each statement runs and which rows other transactions hold at that moment. */
  type Windows = Statement -> Window

  datatype Report = Report(
    loginAggregates: nat, browserLogoutInteractions: nat, refreshTokenGenerations: nat,
    applicationSessionAggregates: nat, browserSessionAggregates: nat, smtpTestOperations: nat,
    webhookRecords: nat, total: nat)

  datatype Error = InvalidBatchSize | SchemaVerification | DatabaseFailure | CountOverflow

  // ----- specification -----

  /** The tables after the first k classes. */
  function After(k: nat, at: Windows, limit: nat, t: Tables): Tables
    requires k <= |CLASSES|
  {
    if k == 0 then t
    else Execute(CLASSES[k - 1], at(CLASSES[k - 1]), limit, After(k - 1, at, limit, t)).0
  }

  function Deleted(k: nat, at: Windows, limit: nat, t: Tables): nat
    requires k < |CLASSES|
  {
    Execute(CLASSES[k], at(CLASSES[k]), limit, After(k, at, limit, t)).1
  }

  /** The webhook statements, each limited by what the earlier ones left of the budget. */
  function Pipeline(stmts: seq<Statement>, at: Windows, budget: nat, t: Tables): (r: (Tables, nat))
    ensures r.1 <= budget
  {
    if stmts == [] || budget == 0 then (t, 0)
    else
      var (u, n) := Execute(stmts[0], at(stmts[0]), budget, t);
      var (v, m) := Pipeline(stmts[1..], at, budget - n, u);
      (v, n + m)
  }

  function Pruned(at: Windows, limit: nat, t: Tables): Tables {
    Pipeline(WEBHOOK, at, limit, After(|CLASSES|, at, limit, t)).0
  }

  function WebhookRecords(at: Windows, limit: nat, t: Tables): nat {
    Pipeline(WEBHOOK, at, limit, After(|CLASSES|, at, limit, t)).1
  }

  function Counts(at: Windows, limit: nat, t: Tables): (counts: seq<nat>)
    ensures |counts| == 7
  {
    [Deleted(0, at, limit, t), Deleted(1, at, limit, t), Deleted(2, at, limit, t), Deleted(3, at, limit, t),
     Deleted(4, at, limit, t), Deleted(5, at, limit, t), WebhookRecords(at, limit, t)]
  }

  function Total(at: Windows, limit: nat, t: Tables): nat {
    Sum(Counts(at, limit, t))
  }

  /** The unrolled run. */
  lemma ClassByClass(at: Windows, limit: nat, t: Tables)
    ensures After(0, at, limit, t) == t
    ensures Execute(PruneLogins, at(PruneLogins), limit, t)
            == (After(1, at, limit, t), Deleted(0, at, limit, t))
    ensures Execute(PruneLogouts, at(PruneLogouts), limit, After(1, at, limit, t))
            == (After(2, at, limit, t), Deleted(1, at, limit, t))
    ensures Execute(PruneGenerations, at(PruneGenerations), limit, After(2, at, limit, t))
            == (After(3, at, limit, t), Deleted(2, at, limit, t))
    ensures Execute(PruneSessions, at(PruneSessions), limit, After(3, at, limit, t))
            == (After(4, at, limit, t), Deleted(3, at, limit, t))
    ensures Execute(PruneBrowsers, at(PruneBrowsers), limit, After(4, at, limit, t))
            == (After(5, at, limit, t), Deleted(4, at, limit, t))
    ensures Execute(PruneSmtpTests, at(PruneSmtpTests), limit, After(5, at, limit, t))
            == (After(6, at, limit, t), Deleted(5, at, limit, t))
  {
    hide Execute;
  }

  // ----- checked counting -----

  function CheckedAdd(a: nat, b: nat): Option<nat> {
    if a + b <= U64_MAX then Some(a + b) else None
  }

  function CheckedSum(counts: seq<nat>): Option<nat> {
    if counts == [] then Some(0)
    else
      match CheckedSum(counts[..|counts| - 1])
      case Some(sum) => CheckedAdd(sum, counts[|counts| - 1])
      case None => None
  }

  function Fields(r: Report): seq<nat> {
    [r.loginAggregates, r.browserLogoutInteractions, r.refreshTokenGenerations, r.applicationSessionAggregates,
     r.browserSessionAggregates, r.smtpTestOperations, r.webhookRecords]
  }

  function Sum(counts: seq<nat>): nat {
    if counts == [] then 0 else Sum(counts[..|counts| - 1]) + counts[|counts| - 1]
  }

  /** The checked sum is the sum as long as every count is one batch of at most MAX_BATCH_SIZE rows. */
  lemma {:induction false} BoundedCountsNeverOverflow(counts: seq<nat>)
    requires |counts| <= 7 && forall i :: 0 <= i < |counts| ==> counts[i] <= MAX_BATCH_SIZE
    ensures Sum(counts) <= |counts| * MAX_BATCH_SIZE
    ensures CheckedSum(counts) == Some(Sum(counts))
  {
    if counts == [] {
    } else {
      BoundedCountsNeverOverflow(counts[..|counts| - 1]);
    }
  }

  // ----- the operations -----

  class Database {
    var tables: Tables

    /** One delete statement in its own transaction; a failure rolls it back. */
    method DeleteCount(stmt: Statement, w: Window, limit: nat) returns (r: Result<nat, Error>)
      modifies this
      ensures r.Ok? ==> (tables, r.value) == Execute(stmt, w, limit, old(tables)) && r.value <= limit
      ensures r.Err? ==> r.error == DatabaseFailure && tables == old(tables)
    {
      if * {
        return Err(DatabaseFailure);
      }
      var (t, n) := Execute(stmt, w, limit, tables);
      tables := t;
      r := Ok(n);
    }

    /** The webhook transaction; nothing is kept unless every statement succeeds. */
    method PruneWebhookRecords(at: Windows, limit: nat) returns (r: Result<nat, Error>)
      requires limit <= MAX_BATCH_SIZE
      modifies this
      ensures r.Ok? ==> (tables, r.value) == Pipeline(WEBHOOK, at, limit, old(tables)) && r.value <= limit
      ensures r.Err? ==> r.error == DatabaseFailure && tables == old(tables)
    {
      hide Execute;
      var work, affected: nat, i := tables, 0, 0;
      while i < |WEBHOOK|
        invariant 0 <= i <= |WEBHOOK| && affected <= limit
        invariant var rest := Pipeline(WEBHOOK[i..], at, limit - affected, work);
                  Pipeline(WEBHOOK, at, limit, tables) == (rest.0, affected + rest.1)
        invariant tables == old(tables)
      {
        assert affected <= I64_MAX; // i64::try_from(affected) succeeds
        var remaining := limit - affected;
        if remaining == 0 {
          break;
        }
        if * {
          return Err(DatabaseFailure);
        }
        assert WEBHOOK[i..][1..] == WEBHOOK[i + 1..];
        var (t, rows) := Execute(WEBHOOK[i], at(WEBHOOK[i]), remaining, work);
        work, affected, i := t, CheckedAdd(affected, rows).value, i + 1;
      }
      if * {
        return Err(DatabaseFailure);
      }
      tables := work;
      r := Ok(affected);
    }

    /** All classes in order; a failure keeps the classes already committed and nothing else. */
    method PrunePool(at: Windows, limit: nat) returns (r: Result<Report, Error>)
      requires limit <= MAX_BATCH_SIZE
      modifies this
      ensures r.Ok? ==> tables == Pruned(at, limit, old(tables))
      ensures r.Ok? ==> Fields(r.value) == Counts(at, limit, old(tables))
      ensures r.Ok? ==> r.value.total == Total(at, limit, old(tables))
      ensures r.Err? ==> r.error == DatabaseFailure
      ensures r.Err? ==> exists k: nat :: k <= |CLASSES| && tables == After(k, at, limit, old(tables))
    {
      hide Execute, Pipeline, Sum, CheckedSum, After, Deleted;
      ClassByClass(at, limit, tables);
      var logins := DeleteCount(PruneLogins, at(PruneLogins), limit);
      if logins.Err? { return Err(logins.error); }
      var logouts := DeleteCount(PruneLogouts, at(PruneLogouts), limit);
      if logouts.Err? { return Err(logouts.error); }
      var generations := DeleteCount(PruneGenerations, at(PruneGenerations), limit);
      if generations.Err? { return Err(generations.error); }
      var sessions := DeleteCount(PruneSessions, at(PruneSessions), limit);
      if sessions.Err? { return Err(sessions.error); }
      var browsers := DeleteCount(PruneBrowsers, at(PruneBrowsers), limit);
      if browsers.Err? { return Err(browsers.error); }
      var smtpTests := DeleteCount(PruneSmtpTests, at(PruneSmtpTests), limit);
      if smtpTests.Err? { return Err(smtpTests.error); }
      var webhook := PruneWebhookRecords(at, limit);
      if webhook.Err? { return Err(webhook.error); }
      var report := Report(logins.value, logouts.value, generations.value, sessions.value, browsers.value,
                           smtpTests.value, webhook.value, 0);
      BoundedCountsNeverOverflow(Fields(report));
      r := Ok(report.(total := CheckedSum(Fields(report)).value));
    }

    /** The operator command: options and schema are checked before any row is touched. */
    method Prune(at: Windows, batchSize: nat, schemaVerified: bool) returns (r: Result<Report, Error>)
      modifies this
      ensures r == Err(InvalidBatchSize) <==> !(1 <= batchSize <= MAX_BATCH_SIZE)
      ensures r == Err(SchemaVerification) <==> 1 <= batchSize <= MAX_BATCH_SIZE && !schemaVerified
      ensures r == Err(InvalidBatchSize) || r == Err(SchemaVerification) ==> tables == old(tables)
      ensures r != Err(CountOverflow)
      ensures r.Ok? ==> tables == Pruned(at, batchSize, old(tables))
      ensures r.Ok? ==> Fields(r.value) == Counts(at, batchSize, old(tables))
      ensures r.Ok? ==> r.value.total == Total(at, batchSize, old(tables))
      ensures r == Err(DatabaseFailure) ==>
                exists k: nat :: k <= |CLASSES| && tables == After(k, at, batchSize, old(tables))
    {
      hide Execute, Counts, Total;
      if !(1 <= batchSize <= MAX_BATCH_SIZE) {
        return Err(InvalidBatchSize);
      }
      if !schemaVerified {
        return Err(SchemaVerification);
      }
      if * {
        assert tables == After(0, at, batchSize, tables);
        return Err(DatabaseFailure);
      }
      r := PrunePool(at, batchSize);
    }
  }

  // ----- safety of every run -----

  lemma {:induction false} AfterKeepsIntegrity(k: nat, at: Windows, limit: nat, t: Tables)
    requires k <= |CLASSES| && Integrity(t)
    ensures Integrity(After(k, at, limit, t))
  {
    if k == 0 {
    } else {
      AfterKeepsIntegrity(k - 1, at, limit, t);
      var s := CLASSES[k - 1];
      var u := After(k - 1, at, limit, t);
      ApplyKeepsIntegrity(s, at(s).now, u, Chosen(s, at(s), limit, u));
    }
  }

  lemma {:induction false} PipelineKeepsIntegrity(stmts: seq<Statement>, at: Windows, budget: nat, t: Tables)
    requires Integrity(t)
    ensures Integrity(Pipeline(stmts, at, budget, t).0)
    decreases |stmts|
  {
    hide Apply, Eligible, Chosen, Integrity;
    if stmts == [] || budget == 0 {
    } else {
      var s := stmts[0];
      var ids := Chosen(s, at(s), budget, t);
      ApplyKeepsIntegrity(s, at(s).now, t, ids);
      PipelineKeepsIntegrity(stmts[1..], at, budget - |ids|, Apply(s, at(s).now, t, ids));
    }
  }

  /** Every run, complete or cut short by a failure, leaves every key intact. */
  lemma RunKeepsIntegrity(at: Windows, limit: nat, t: Tables)
    requires Integrity(t)
    ensures Integrity(Pruned(at, limit, t))
    ensures forall k :: 0 <= k <= |CLASSES| ==> Integrity(After(k, at, limit, t))
  {
    forall k | 0 <= k <= |CLASSES| ensures Integrity(After(k, at, limit, t)) {
      AfterKeepsIntegrity(k, at, limit, t);
    }
    PipelineKeepsIntegrity(WEBHOOK, at, limit, After(|CLASSES|, at, limit, t));
  }
}
