/** What no prune run removes, and how much every run shrinks the tables. */
module RetentionSafety {
  import opened Batch
  import opened Retention
  import opened RetentionRun

  // ----- frames -----

  predicate WebhookStatement(stmt: Statement) {
    stmt.CancelDeliveries? || stmt.PruneAttempts? || stmt.PruneDeliveries? || stmt.PruneEvents?
  }

  /** Same tables, except for the three webhook tables. */
  predicate SameOutsideWebhooks(t: Tables, u: Tables) {
    u == t.(events := u.events, deliveries := u.deliveries, attempts := u.attempts)
  }

  predicate SameWebhooks(t: Tables, u: Tables) {
    u.events == t.events && u.deliveries == t.deliveries && u.attempts == t.attempts
  }

  lemma StatementFrame(stmt: Statement, w: Window, limit: nat, t: Tables)
    ensures WebhookStatement(stmt) ==> SameOutsideWebhooks(t, Execute(stmt, w, limit, t).0)
    ensures !WebhookStatement(stmt) ==> SameWebhooks(t, Execute(stmt, w, limit, t).0)
  {
    hide Chosen;
  }

  lemma {:induction false} PipelineFrame(stmts: seq<Statement>, at: Windows, budget: nat, t: Tables)
    requires forall i :: 0 <= i < |stmts| ==> WebhookStatement(stmts[i])
    ensures SameOutsideWebhooks(t, Pipeline(stmts, at, budget, t).0)
    decreases |stmts|
  {
    hide Execute;
    if stmts == [] || budget == 0 {
    } else {
      StatementFrame(stmts[0], at(stmts[0]), budget, t);
      var (u, n) := Execute(stmts[0], at(stmts[0]), budget, t);
      PipelineFrame(stmts[1..], at, budget - n, u);
    }
  }

  lemma {:induction false} AfterFrame(k: nat, at: Windows, limit: nat, t: Tables)
    requires k <= |CLASSES|
    ensures SameWebhooks(t, After(k, at, limit, t))
  {
    hide Execute;
    if k == 0 {
    } else {
      AfterFrame(k - 1, at, limit, t);
      StatementFrame(CLASSES[k - 1], at(CLASSES[k - 1]), limit, After(k - 1, at, limit, t));
    }
  }

  // ----- refresh generations -----

  lemma GenerationFrame(stmt: Statement, w: Window, limit: nat, t: Tables)
    requires Integrity(t)
    ensures Execute(stmt, w, limit, t).0.generations ==
            if stmt.PruneGenerations? then t.generations - Chosen(stmt, w, limit, t) else t.generations
  {
    hide Chosen, Eligible, Integrity;
    if stmt.PruneSessions? {
      SessionCascadeIsEmpty(w.now, t, Chosen(stmt, w, limit, t));
    }
  }

  /**
   No cascade removes a refresh generation: a run removes exactly the generations its third
   class counted, and each of those was past its own retain_until.
   */
  lemma GenerationsLeaveOnlyByRetention(at: Windows, limit: nat, t: Tables)
    requires Integrity(t)
    ensures var gone := t.generations.Keys - Pruned(at, limit, t).generations.Keys;
            && Pruned(at, limit, t).generations == t.generations - gone
            && |gone| == Deleted(2, at, limit, t)
            && forall g :: g in gone ==> t.generations[g].retainUntil <= at(PruneGenerations).now
  {
    hide Execute, Chosen, Eligible, Pipeline, Integrity;
    RunKeepsIntegrity(at, limit, t);
    GenerationsBefore(at, limit, t);
    GenerationsAfter(at, limit, t);
    var u := After(2, at, limit, t);
    var w := at(PruneGenerations);
    GenerationFrame(PruneGenerations, w, limit, u);
    ChosenGenerations(w, limit, u);
    assert Pruned(at, limit, t).generations == t.generations - Chosen(PruneGenerations, w, limit, u);
    assert t.generations.Keys - Pruned(at, limit, t).generations.Keys == Chosen(PruneGenerations, w, limit, u);
  }

  lemma ChosenGenerations(w: Window, limit: nat, t: Tables)
    ensures Chosen(PruneGenerations, w, limit, t) <= t.generations.Keys
    ensures Execute(PruneGenerations, w, limit, t).1 == |Chosen(PruneGenerations, w, limit, t)|
    ensures forall g :: g in Chosen(PruneGenerations, w, limit, t) ==> t.generations[g].retainUntil <= w.now
  {
  }

  lemma GenerationsBefore(at: Windows, limit: nat, t: Tables)
    requires Integrity(t)
    ensures After(2, at, limit, t).generations == t.generations
  {
    hide Execute, Integrity;
    RunKeepsIntegrity(at, limit, t);
    assert After(0, at, limit, t) == t;
    GenerationFrame(PruneLogins, at(PruneLogins), limit, After(0, at, limit, t));
    GenerationFrame(PruneLogouts, at(PruneLogouts), limit, After(1, at, limit, t));
  }

  lemma GenerationsAfter(at: Windows, limit: nat, t: Tables)
    requires Integrity(t)
    ensures Pruned(at, limit, t).generations == After(3, at, limit, t).generations
  {
    hide Execute, Integrity, Pipeline;
    RunKeepsIntegrity(at, limit, t);
    GenerationFrame(PruneSessions, at(PruneSessions), limit, After(3, at, limit, t));
    GenerationFrame(PruneBrowsers, at(PruneBrowsers), limit, After(4, at, limit, t));
    GenerationFrame(PruneSmtpTests, at(PruneSmtpTests), limit, After(5, at, limit, t));
    PipelineFrame(WEBHOOK, at, limit, After(6, at, limit, t));
  }

  // ----- size -----

  function PendingRows(deliveries: map<Id, Delivery>): set<Id> {
    set d | d in deliveries && deliveries[d].state.Pending?
  }

  /** All rows, with every pending delivery counted twice. */
  function Size(t: Tables): nat {
    |t.logins| + |t.challenges| + |t.outbox| + |t.handoffs| + |t.browsers| + |t.sessions| + |t.logouts|
    + |t.families| + |t.generations| + |t.materials| + |t.smtpTests| + |t.events| + |t.deliveries|
    + |t.attempts| + |PendingRows(t.deliveries)|
  }

  lemma RemoveRows<V>(table: map<Id, V>, ids: set<Id>)
    ensures |table - ids| <= |table|
    ensures ids <= table.Keys ==> |table - ids| == |table| - |ids|
  {
    assert (table - ids).Keys == table.Keys - ids;
    assert table.Keys == (table.Keys - ids) + (table.Keys * ids);
    if ids <= table.Keys {
      assert table.Keys * ids == ids;
    }
  }

  lemma CancelShrinksPending(now: int, deliveries: map<Id, Delivery>, ids: set<Id>)
    requires ids <= PendingRows(deliveries)
    ensures |CancelAll(now, deliveries, ids)| == |deliveries|
    ensures |PendingRows(CancelAll(now, deliveries, ids))| == |PendingRows(deliveries)| - |ids|
  {
    assert CancelAll(now, deliveries, ids).Keys == deliveries.Keys;
    assert PendingRows(CancelAll(now, deliveries, ids)) == PendingRows(deliveries) - ids;
  }

  lemma RemoveFinished(deliveries: map<Id, Delivery>, ids: set<Id>)
    requires forall d :: d in ids ==> d in deliveries && !deliveries[d].state.Pending?
    ensures PendingRows(deliveries - ids) == PendingRows(deliveries)
  {
  }

  lemma EligibleDeliveries(now: int, t: Tables)
    ensures ExpiredPending(now, t.deliveries, t.events) <= PendingRows(t.deliveries)
    ensures forall d :: d in ExpiredDeliveries(now, t.deliveries, t.events, t.attempts) ==>
              !t.deliveries[d].state.Pending?
  {
  }

  lemma LoginsShrink(now: int, t: Tables, ids: set<Id>)
    requires ids <= t.logins.Keys
    ensures Size(Apply(PruneLogins, now, t, ids)) + |ids| <= Size(t)
  {
    hide CascadedChallenges, CascadedOutbox, CascadedHandoffs, PendingRows;
    var challenges := CascadedChallenges(t.challenges, ids);
    RemoveRows(t.logins, ids);
    RemoveRows(t.challenges, challenges);
    RemoveRows(t.outbox, CascadedOutbox(t.outbox, challenges));
    RemoveRows(t.handoffs, CascadedHandoffs(t.handoffs, ids));
  }

  lemma SessionsShrink(now: int, t: Tables, ids: set<Id>)
    requires ids <= t.sessions.Keys
    ensures Size(Apply(PruneSessions, now, t, ids)) + |ids| <= Size(t)
  {
    hide CascadedFamilies, CascadedGenerations, PendingRows;
    var families := CascadedFamilies(t.families, ids);
    RemoveRows(t.sessions, ids);
    RemoveRows(t.families, families);
    RemoveRows(t.generations, CascadedGenerations(t.generations, families));
  }

  /** Every row a statement counts leaves its table, or its pending state, for good. */
  lemma StatementShrinks(stmt: Statement, now: int, t: Tables, ids: set<Id>)
    requires ids <= Eligible(stmt, now, t)
    ensures Size(Apply(stmt, now, t, ids)) + |ids| <= Size(t)
  {
    hide ExpiredRows, ExpiredLogouts, ExpiredGenerations, ExpiredSessions, ExpiredBrowsers, ExpiredSmtpTests,
      ExpiredAttempts, ExpiredEvents, CascadedChallenges, CascadedOutbox, CascadedHandoffs, CascadedFamilies,
      CascadedGenerations, ErasedRecipients, CancelAll, ExpiredPending, ExpiredDeliveries, PendingRows;
    match stmt {
      case PruneLogins => LoginsShrink(now, t, ids);
      case PruneLogouts => RemoveRows(t.logouts, ids);
      case PruneGenerations => RemoveRows(t.generations, ids);
      case PruneSessions => SessionsShrink(now, t, ids);
      case PruneBrowsers => RemoveRows(t.browsers, ids);
      case PruneSmtpTests =>
        RemoveRows(t.smtpTests, ids);
        RemoveRows(t.materials, ErasedRecipients(t.materials, t.smtpTests, ids));
      case CancelDeliveries =>
        EligibleDeliveries(now, t);
        CancelShrinksPending(now, t.deliveries, ids);
      case PruneAttempts => RemoveRows(t.attempts, ids);
      case PruneDeliveries =>
        EligibleDeliveries(now, t);
        RemoveRows(t.deliveries, ids);
        RemoveFinished(t.deliveries, ids);
      case PruneEvents => RemoveRows(t.events, ids);
    }
  }

  lemma ExecuteShrinks(stmt: Statement, w: Window, limit: nat, t: Tables)
    ensures Size(Execute(stmt, w, limit, t).0) + Execute(stmt, w, limit, t).1 <= Size(t)
  {
    hide Apply, Eligible, Size;
    StatementShrinks(stmt, w.now, t, Chosen(stmt, w, limit, t));
  }

  lemma {:induction false} PipelineShrinks(stmts: seq<Statement>, at: Windows, budget: nat, t: Tables)
    ensures Size(Pipeline(stmts, at, budget, t).0) + Pipeline(stmts, at, budget, t).1 <= Size(t)
    decreases |stmts|
  {
    hide Execute, Size;
    if stmts == [] || budget == 0 {
    } else {
      ExecuteShrinks(stmts[0], at(stmts[0]), budget, t);
      var (u, n) := Execute(stmts[0], at(stmts[0]), budget, t);
      PipelineShrinks(stmts[1..], at, budget - n, u);
    }
  }

  /** A run shrinks the tables by at least the total it reports, whatever was locked and whenever it ran. */
  lemma RunShrinks(at: Windows, limit: nat, t: Tables)
    ensures Size(Pruned(at, limit, t)) + Total(at, limit, t) <= Size(t)
  {
    hide Execute, Pipeline, Size, Sum;
    var t1, t2, t3 := After(1, at, limit, t), After(2, at, limit, t), After(3, at, limit, t);
    var t4, t5, t6 := After(4, at, limit, t), After(5, at, limit, t), After(6, at, limit, t);
    ExecuteShrinks(PruneLogins, at(PruneLogins), limit, t);
    ExecuteShrinks(PruneLogouts, at(PruneLogouts), limit, t1);
    ExecuteShrinks(PruneGenerations, at(PruneGenerations), limit, t2);
    ExecuteShrinks(PruneSessions, at(PruneSessions), limit, t3);
    ExecuteShrinks(PruneBrowsers, at(PruneBrowsers), limit, t4);
    ExecuteShrinks(PruneSmtpTests, at(PruneSmtpTests), limit, t5);
    PipelineShrinks(WEBHOOK, at, limit, t6);
    SumOfSeven(Counts(at, limit, t));
    assert After(0, at, limit, t) == t;
    assert Size(t1) + Deleted(0, at, limit, t) <= Size(t);
    assert Size(t2) + Deleted(1, at, limit, t) <= Size(t1);
    assert Size(t3) + Deleted(2, at, limit, t) <= Size(t2);
    assert Size(t4) + Deleted(3, at, limit, t) <= Size(t3);
    assert Size(t5) + Deleted(4, at, limit, t) <= Size(t4);
    assert Size(t6) + Deleted(5, at, limit, t) <= Size(t5);
  }

  lemma SumOfSeven(counts: seq<nat>)
    requires |counts| == 7
    ensures Sum(counts) == counts[0] + counts[1] + counts[2] + counts[3] + counts[4] + counts[5] + counts[6]
  {
    var s6, s5, s4, s3, s2, s1 := counts[..6], counts[..5], counts[..4], counts[..3], counts[..2], counts[..1];
    assert s6[..5] == s5 && s5[..4] == s4 && s4[..3] == s3 && s3[..2] == s2 && s2[..1] == s1 && s1[..0] == [];
    assert Sum(s1) == counts[0];
    assert Sum(s2) == Sum(s1) + counts[1];
    assert Sum(s3) == Sum(s2) + counts[2];
    assert Sum(s4) == Sum(s3) + counts[3];
    assert Sum(s5) == Sum(s4) + counts[4];
    assert Sum(s6) == Sum(s5) + counts[5];
  }
}
