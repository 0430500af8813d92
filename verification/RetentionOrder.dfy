/**
 The order of the first five classes is topological: one run with a large enough batch takes
 everything these classes will ever take at that instant.
 */
module RetentionOrder {
  import opened Batch
  import opened Collections
  import opened Retention
  import opened RetentionRun
  import opened RetentionSafety
  import opened RetentionConvergence

  const LAYERS: nat := 5

  /** The first k classes have nothing left to take. */
  predicate Exhausted(k: nat, now: int, t: Tables)
    requires k <= LAYERS
  {
    && (k > 0 ==> ExpiredRows(now, t.logins) == {})
    && (k > 1 ==> ExpiredLogouts(now, t.logouts) == {})
    && (k > 2 ==> ExpiredGenerations(now, t.generations, t.families, t.sessions, t.logouts) == {})
    && (k > 3 ==> ExpiredSessions(now, t.sessions, t.logouts, t.generations, t.families) == {})
    && (k > 4 ==> ExpiredBrowsers(now, t.browsers, t.sessions, t.logouts, t.handoffs) == {})
  }

  /** The batch is at least as large as each of the five tables. */
  predicate Fits(limit: nat, t: Tables) {
    |t.logins| <= limit && |t.logouts| <= limit && |t.generations| <= limit
    && |t.sessions| <= limit && |t.browsers| <= limit
  }

  lemma FullBatch(stmt: Statement, now: int, limit: nat, t: Tables)
    requires |Eligible(stmt, now, t)| <= limit
    ensures Chosen(stmt, Window(now, {}), limit, t) == Eligible(stmt, now, t)
  {
    hide Eligible;
    var all := Eligible(stmt, now, t);
    var ids := Chosen(stmt, Window(now, {}), limit, t);
    assert all - {} == all;
    assert all == ids + (all - ids);
  }

  lemma EligibleFits(k: nat, now: int, limit: nat, t: Tables)
    requires k < LAYERS && Fits(limit, t)
    ensures |Eligible(CLASSES[k], now, t)| <= limit
  {
    hide ExpiredRows, ExpiredLogouts, ExpiredGenerations, ExpiredSessions, ExpiredBrowsers;
    match CLASSES[k] {
      case PruneLogins => SubsetSize(Eligible(CLASSES[k], now, t), t.logins.Keys);
      case PruneLogouts => SubsetSize(Eligible(CLASSES[k], now, t), t.logouts.Keys);
      case PruneGenerations => SubsetSize(Eligible(CLASSES[k], now, t), t.generations.Keys);
      case PruneSessions => SubsetSize(Eligible(CLASSES[k], now, t), t.sessions.Keys);
      case PruneBrowsers => SubsetSize(Eligible(CLASSES[k], now, t), t.browsers.Keys);
    }
  }

  lemma StillFits(stmt: Statement, now: int, limit: nat, t: Tables, ids: set<Id>)
    requires Fits(limit, t)
    ensures Fits(limit, Apply(stmt, now, t, ids))
  {
    hide CancelAll, CascadedChallenges, CascadedFamilies, CascadedOutbox, CascadedHandoffs, CascadedGenerations,
      ErasedRecipients;
    RemoveRows(t.logins, ids);
    RemoveRows(t.logouts, ids);
    RemoveRows(t.generations, ids);
    RemoveRows(t.sessions, ids);
    RemoveRows(t.browsers, ids);
    RemoveRows(t.generations, CascadedGenerations(t.generations, CascadedFamilies(t.families, ids)));
  }

  // ----- taking one layer leaves the layers before it exhausted -----

  lemma SessionsExhausted(now: int, t: Tables)
    requires Integrity(t)
    requires ExpiredGenerations(now, t.generations, t.families, t.sessions, t.logouts) == {}
    ensures var u := Apply(PruneSessions, now, t, Eligible(PruneSessions, now, t));
            && ExpiredGenerations(now, u.generations, u.families, u.sessions, u.logouts) == {}
            && ExpiredSessions(now, u.sessions, u.logouts, u.generations, u.families) == {}
  {
    var ids := ExpiredSessions(now, t.sessions, t.logouts, t.generations, t.families);
    SessionCascadeIsEmpty(now, t, ids);
    var families, sessions := t.families - CascadedFamilies(t.families, ids), t.sessions - ids;
    assert t.generations - {} == t.generations;
    GenerationsStayExhausted(now, t.generations, t.families, t.sessions, families, sessions, t.logouts);
    NoSessionLeft(now, t.generations, t.families, t.sessions, t.logouts);
  }

  lemma GenerationsStayExhausted(now: int, generations: map<Id, Generation>, families: map<Id, Id>,
                                 sessions: map<Id, Session>, families': map<Id, Id>, sessions': map<Id, Session>,
                                 logouts: map<Id, Logout>)
    requires forall f :: f in families' ==> f in families && families'[f] == families[f]
    requires forall s :: s in sessions' ==> s in sessions && sessions'[s] == sessions[s]
    ensures ExpiredGenerations(now, generations, families', sessions', logouts)
         <= ExpiredGenerations(now, generations, families, sessions, logouts)
  {
  }

  lemma NoSessionLeft(now: int, generations: map<Id, Generation>, families: map<Id, Id>,
                      sessions: map<Id, Session>, logouts: map<Id, Logout>)
    ensures var ids := ExpiredSessions(now, sessions, logouts, generations, families);
            ExpiredSessions(now, sessions - ids, logouts, generations, families - CascadedFamilies(families, ids)) == {}
  {
    var ids := ExpiredSessions(now, sessions, logouts, generations, families);
    var left := families - CascadedFamilies(families, ids);
    forall s | s in sessions && s !in ids && SessionClosed(now, sessions - ids, logouts, s)
      ensures HasGeneration(generations, left, s)
    {
      assert HasGeneration(generations, families, s);
      var g :| g in generations && generations[g].family in families && families[generations[g].family] == s;
      assert generations[g].family in left;
    }
  }

  lemma RowsExhausted(now: int, table: map<Id, int>)
    ensures ExpiredRows(now, table - ExpiredRows(now, table)) == {}
  {
  }

  lemma LogoutsExhausted(now: int, logouts: map<Id, Logout>)
    ensures ExpiredLogouts(now, logouts - ExpiredLogouts(now, logouts)) == {}
  {
  }

  lemma GenerationsExhausted(now: int, t: Tables)
    ensures var ids := ExpiredGenerations(now, t.generations, t.families, t.sessions, t.logouts);
            ExpiredGenerations(now, t.generations - ids, t.families, t.sessions, t.logouts) == {}
  {
  }

  lemma BrowsersExhausted(now: int, t: Tables)
    ensures var ids := ExpiredBrowsers(now, t.browsers, t.sessions, t.logouts, t.handoffs);
            ExpiredBrowsers(now, t.browsers - ids, t.sessions, t.logouts, t.handoffs) == {}
  {
  }

  lemma LoginLayer(now: int, t: Tables)
    requires Exhausted(0, now, t)
    ensures Exhausted(1, now, Apply(PruneLogins, now, t, Eligible(PruneLogins, now, t)))
  {
    hide ExpiredRows, ExpiredLogouts, ExpiredGenerations, ExpiredSessions, ExpiredBrowsers, Integrity,
      CascadedChallenges, CascadedFamilies, CascadedOutbox, CascadedHandoffs, CascadedGenerations;
    RowsExhausted(now, t.logins);
  }

  lemma LogoutLayer(now: int, t: Tables)
    requires Exhausted(1, now, t)
    ensures Exhausted(2, now, Apply(PruneLogouts, now, t, Eligible(PruneLogouts, now, t)))
  {
    hide ExpiredRows, ExpiredLogouts, ExpiredGenerations, ExpiredSessions, ExpiredBrowsers, Integrity,
      CascadedChallenges, CascadedFamilies, CascadedOutbox, CascadedHandoffs, CascadedGenerations;
    LogoutsExhausted(now, t.logouts);
  }

  lemma GenerationLayer(now: int, t: Tables)
    requires Exhausted(2, now, t)
    ensures Exhausted(3, now, Apply(PruneGenerations, now, t, Eligible(PruneGenerations, now, t)))
  {
    hide ExpiredRows, ExpiredLogouts, ExpiredGenerations, ExpiredSessions, ExpiredBrowsers, Integrity,
      CascadedChallenges, CascadedFamilies, CascadedOutbox, CascadedHandoffs, CascadedGenerations;
    GenerationsExhausted(now, t);
  }

  lemma SessionLayer(now: int, t: Tables)
    requires Integrity(t) && Exhausted(3, now, t)
    ensures Exhausted(4, now, Apply(PruneSessions, now, t, Eligible(PruneSessions, now, t)))
  {
    hide ExpiredRows, ExpiredLogouts, ExpiredGenerations, ExpiredSessions, ExpiredBrowsers, Integrity,
      CascadedChallenges, CascadedFamilies, CascadedOutbox, CascadedHandoffs, CascadedGenerations;
    SessionsExhausted(now, t);
  }

  lemma BrowserLayer(now: int, t: Tables)
    requires Exhausted(4, now, t)
    ensures Exhausted(5, now, Apply(PruneBrowsers, now, t, Eligible(PruneBrowsers, now, t)))
  {
    hide ExpiredRows, ExpiredLogouts, ExpiredGenerations, ExpiredSessions, ExpiredBrowsers, Integrity,
      CascadedChallenges, CascadedFamilies, CascadedOutbox, CascadedHandoffs, CascadedGenerations;
    BrowsersExhausted(now, t);
  }

  lemma NoLayer(now: int, t: Tables)
    ensures Exhausted(0, now, t)
  {
  }

  lemma {:induction false} AfterExhausted(k: nat, now: int, limit: nat, t: Tables)
    requires k <= LAYERS && Integrity(t) && Fits(limit, t)
    ensures Exhausted(k, now, After(k, Unlocked(now), limit, t))
    ensures Fits(limit, After(k, Unlocked(now), limit, t))
  {
    hide Apply, Eligible, Integrity, Fits, Chosen, Exhausted;
    if k > 0 {
      AfterExhausted(k - 1, now, limit, t);
      AfterKeepsIntegrity(k - 1, Unlocked(now), limit, t);
      var u, stmt := After(k - 1, Unlocked(now), limit, t), CLASSES[k - 1];
      EligibleFits(k - 1, now, limit, u);
      FullBatch(stmt, now, limit, u);
      match stmt {
        case PruneLogins => LoginLayer(now, u);
        case PruneLogouts => LogoutLayer(now, u);
        case PruneGenerations => GenerationLayer(now, u);
        case PruneSessions => SessionLayer(now, u);
        case PruneBrowsers => BrowserLayer(now, u);
      }
      StillFits(stmt, now, limit, u, Eligible(stmt, now, u));
    } else {
      NoLayer(now, t);
    }
  }

  lemma ExhaustedFrame(now: int, t: Tables, u: Tables)
    requires Exhausted(LAYERS, now, t)
    requires SameOutsideWebhooks(t, u) || u == t.(smtpTests := u.smtpTests, materials := u.materials)
    ensures Exhausted(LAYERS, now, u)
  {
    hide ExpiredRows, ExpiredLogouts, ExpiredGenerations, ExpiredSessions, ExpiredBrowsers;
  }

  /** With a batch that fits the five tables, one run leaves none of their rows eligible. */
  lemma OneRunExhausts(now: int, limit: nat, t: Tables)
    requires Integrity(t) && Fits(limit, t)
    ensures Exhausted(LAYERS, now, Pruned(Unlocked(now), limit, t))
  {
    hide Eligible, Chosen, Pipeline, Integrity, Fits, Exhausted;
    var at := Unlocked(now);
    AfterExhausted(LAYERS, now, limit, t);
    ExhaustedFrame(now, After(5, at, limit, t), After(6, at, limit, t));
    PipelineFrame(WEBHOOK, at, limit, After(6, at, limit, t));
    ExhaustedFrame(now, After(6, at, limit, t), Pruned(at, limit, t));
  }

  /** ... so the next run at that instant reports zero for these classes, whatever its batch and locks. */
  lemma {:induction false} NextRunReportsZero(k: nat, now: int, at: Windows, limit: nat, t: Tables)
    requires k <= LAYERS && Exhausted(LAYERS, now, t)
    requires forall stmt :: at(stmt).now == now
    ensures After(k, at, limit, t) == t
    ensures forall j :: 0 <= j < k ==> Deleted(j, at, limit, t) == 0
  {
    hide Eligible, Execute, Exhausted;
    if k == 0 {
    } else {
      NextRunReportsZero(k - 1, now, at, limit, t);
      var stmt := CLASSES[k - 1];
      ExhaustedClass(k - 1, now, t);
      NothingChosen(stmt, at(stmt), limit, t);
    }
  }

  lemma ExhaustedClass(k: nat, now: int, t: Tables)
    requires k < LAYERS && Exhausted(LAYERS, now, t)
    ensures Eligible(CLASSES[k], now, t) == {}
  {
    hide ExpiredRows, ExpiredLogouts, ExpiredGenerations, ExpiredSessions, ExpiredBrowsers;
  }

  lemma NothingChosen(stmt: Statement, w: Window, limit: nat, t: Tables)
    requires Eligible(stmt, w.now, t) == {}
    ensures Execute(stmt, w, limit, t) == (t, 0)
  {
    hide Eligible, Apply;
    assert Chosen(stmt, w, limit, t) == {};
    ApplyNothing(stmt, w.now, t);
  }

  /** Both together: the run after a large enough run is idle in the first five classes. */
  lemma SecondRunIsIdle(now: int, limit: nat, at: Windows, again: nat, t: Tables)
    requires Integrity(t) && Fits(limit, t) && forall stmt :: at(stmt).now == now
    ensures forall j :: 0 <= j < LAYERS ==> Deleted(j, at, again, Pruned(Unlocked(now), limit, t)) == 0
  {
    hide Deleted, Pruned, Integrity, Fits, Exhausted;
    OneRunExhausts(now, limit, t);
    NextRunReportsZero(LAYERS, now, at, again, Pruned(Unlocked(now), limit, t));
  }
}
