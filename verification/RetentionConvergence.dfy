/** Repeated pruning at one instant, with no row locked, settles; and what it then leaves. */
module RetentionConvergence {
  import opened Batch
  import opened Retention
  import opened RetentionRun
  import opened RetentionSafety

  function Unlocked(now: int): Windows {
    (stmt: Statement) => Window(now, {})
  }

  /** No statement has a row left to take. */
  ghost predicate Settled(now: int, t: Tables) {
    forall stmt: Statement :: Eligible(stmt, now, t) == {}
  }

  // ----- a run that reports zero -----

  lemma RemoveNothing<V>(table: map<Id, V>)
    ensures table - {} == table
  {
  }

  lemma NothingCascades(now: int, t: Tables)
    ensures CancelAll(now, t.deliveries, {}) == t.deliveries
    ensures CascadedChallenges(t.challenges, {}) == {} && CascadedFamilies(t.families, {}) == {}
    ensures CascadedOutbox(t.outbox, {}) == {} && CascadedHandoffs(t.handoffs, {}) == {}
    ensures CascadedGenerations(t.generations, {}) == {} && ErasedRecipients(t.materials, t.smtpTests, {}) == {}
  {
  }

  lemma ApplyNothing(stmt: Statement, now: int, t: Tables)
    ensures Apply(stmt, now, t, {}) == t
  {
    hide CancelAll, CascadedChallenges, CascadedFamilies, CascadedOutbox, CascadedHandoffs, CascadedGenerations,
      ErasedRecipients;
    NothingCascades(now, t);
    match stmt {
      case PruneLogins =>
        RemoveNothing(t.logins); RemoveNothing(t.challenges); RemoveNothing(t.outbox); RemoveNothing(t.handoffs);
      case PruneLogouts => RemoveNothing(t.logouts);
      case PruneGenerations => RemoveNothing(t.generations);
      case PruneSessions => RemoveNothing(t.sessions); RemoveNothing(t.families); RemoveNothing(t.generations);
      case PruneBrowsers => RemoveNothing(t.browsers);
      case PruneSmtpTests => RemoveNothing(t.smtpTests); RemoveNothing(t.materials);
      case CancelDeliveries =>
      case PruneAttempts => RemoveNothing(t.attempts);
      case PruneDeliveries => RemoveNothing(t.deliveries);
      case PruneEvents => RemoveNothing(t.events);
    }
  }

  lemma ExecuteNothing(stmt: Statement, now: int, limit: nat, t: Tables)
    requires limit >= 1
    ensures Execute(stmt, Window(now, {}), limit, t).1 == 0 <==> Eligible(stmt, now, t) == {}
    ensures Execute(stmt, Window(now, {}), limit, t).1 == 0 ==> Execute(stmt, Window(now, {}), limit, t).0 == t
  {
    hide Eligible, Apply;
    assert Eligible(stmt, now, t) - {} == Eligible(stmt, now, t);
    ApplyNothing(stmt, now, t);
  }

  lemma {:induction false} PipelineNothing(stmts: seq<Statement>, now: int, budget: nat, t: Tables)
    requires budget >= 1
    ensures Pipeline(stmts, Unlocked(now), budget, t).1 == 0 <==>
            forall i :: 0 <= i < |stmts| ==> Eligible(stmts[i], now, t) == {}
    ensures Pipeline(stmts, Unlocked(now), budget, t).1 == 0 ==> Pipeline(stmts, Unlocked(now), budget, t).0 == t
    decreases |stmts|
  {
    hide Eligible, Execute;
    if stmts == [] {
    } else {
      ExecuteNothing(stmts[0], now, budget, t);
      var (u, n) := Execute(stmts[0], Unlocked(now)(stmts[0]), budget, t);
      if n == 0 {
        PipelineNothing(stmts[1..], now, budget, t);
        assert forall i :: 0 <= i < |stmts| ==> i == 0 || stmts[i] == stmts[1..][i - 1];
      }
    }
  }

  lemma {:induction false} AfterNothing(k: nat, now: int, limit: nat, t: Tables)
    requires limit >= 1 && k <= |CLASSES|
    requires (forall j :: 0 <= j < k ==> Deleted(j, Unlocked(now), limit, t) == 0)
          || (forall j :: 0 <= j < k ==> Eligible(CLASSES[j], now, t) == {})
    ensures After(k, Unlocked(now), limit, t) == t
    ensures forall j :: 0 <= j < k ==> Eligible(CLASSES[j], now, t) == {} && Deleted(j, Unlocked(now), limit, t) == 0
  {
    hide Eligible, Execute;
    if k == 0 {
    } else {
      AfterNothing(k - 1, now, limit, t);
      ExecuteNothing(CLASSES[k - 1], now, limit, t);
      assert Deleted(k - 1, Unlocked(now), limit, t) == Execute(CLASSES[k - 1], Window(now, {}), limit, t).1;
    }
  }

  /** A run reports zero exactly when nothing is eligible, and then it changes nothing. */
  lemma ZeroTotalIffSettled(now: int, limit: nat, t: Tables)
    requires limit >= 1
    ensures Total(Unlocked(now), limit, t) == 0 <==> Settled(now, t)
    ensures Settled(now, t) ==> Pruned(Unlocked(now), limit, t) == t
  {
    hide Eligible, Execute, Pipeline, Sum;
    var at := Unlocked(now);
    SumOfSeven(Counts(at, limit, t));
    if Total(at, limit, t) == 0 {
      assert forall j :: 0 <= j < 6 ==> Deleted(j, at, limit, t) == Counts(at, limit, t)[j] == 0;
      AfterNothing(6, now, limit, t);
      PipelineNothing(WEBHOOK, now, limit, t);
      forall stmt: Statement ensures Eligible(stmt, now, t) == {} {
        EveryStatement(stmt);
      }
    }
    if Settled(now, t) {
      AfterNothing(6, now, limit, t);
      PipelineNothing(WEBHOOK, now, limit, t);
    }
  }

  lemma EveryStatement(stmt: Statement)
    ensures (exists j :: 0 <= j < 6 && CLASSES[j] == stmt) || (exists j :: 0 <= j < 4 && WEBHOOK[j] == stmt)
  {
    match stmt {
      case PruneLogins => assert CLASSES[0] == stmt;
      case PruneLogouts => assert CLASSES[1] == stmt;
      case PruneGenerations => assert CLASSES[2] == stmt;
      case PruneSessions => assert CLASSES[3] == stmt;
      case PruneBrowsers => assert CLASSES[4] == stmt;
      case PruneSmtpTests => assert CLASSES[5] == stmt;
      case CancelDeliveries => assert WEBHOOK[0] == stmt;
      case PruneAttempts => assert WEBHOOK[1] == stmt;
      case PruneDeliveries => assert WEBHOOK[2] == stmt;
      case PruneEvents => assert WEBHOOK[3] == stmt;
    }
  }

  // ----- repeated runs -----

  function Times(n: nat, now: int, limit: nat, t: Tables): Tables {
    if n == 0 then t else Times(n - 1, now, limit, Pruned(Unlocked(now), limit, t))
  }

  lemma {:induction false} SettledStays(n: nat, now: int, limit: nat, t: Tables)
    requires limit >= 1 && Settled(now, t)
    ensures Times(n, now, limit, t) == t
  {
    hide Settled, Pruned, Total, Eligible;
    if n == 0 {
    } else {
      ZeroTotalIffSettled(now, limit, t);
      SettledStays(n - 1, now, limit, t);
    }
  }

  /** Any batch size settles the tables within Size(t) runs, and further runs report zero and change nothing. */
  lemma {:induction false} PruningSettles(n: nat, now: int, limit: nat, t: Tables)
    requires limit >= 1 && n >= Size(t)
    ensures Settled(now, Times(n, now, limit, t))
    ensures Total(Unlocked(now), limit, Times(n, now, limit, t)) == 0
    ensures Pruned(Unlocked(now), limit, Times(n, now, limit, t)) == Times(n, now, limit, t)
    decreases n
  {
    hide Settled, Pruned, Size, Total;
    ZeroTotalIffSettled(now, limit, t);
    RunShrinks(Unlocked(now), limit, t);
    if Total(Unlocked(now), limit, t) == 0 {
      SettledStays(n, now, limit, t);
    } else {
      PruningSettles(n - 1, now, limit, Pruned(Unlocked(now), limit, t));
    }
  }

  lemma {:induction false} TimesKeepsIntegrity(n: nat, now: int, limit: nat, t: Tables)
    requires Integrity(t)
    ensures Integrity(Times(n, now, limit, t))
  {
    hide Integrity, Pruned;
    if n == 0 {
    } else {
      RunKeepsIntegrity(Unlocked(now), limit, t);
      TimesKeepsIntegrity(n - 1, now, limit, Pruned(Unlocked(now), limit, t));
    }
  }
}
