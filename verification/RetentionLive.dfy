/** Data safety: no prune run removes a row that is still within its retention. */
module RetentionLive {
  import opened Wrappers
  import opened Batch
  import opened Retention
  import opened RetentionRun
  import opened RetentionSafety

  // ----- aggregates -----

  /** Every row of before that satisfies live is in after, unchanged. */
  predicate Keeps<V(==)>(before: map<Id, V>, after: map<Id, V>, live: set<Id>) {
    forall i :: i in before && i in live ==> i in after && after[i] == before[i]
  }

  function LiveRows(horizon: int, table: map<Id, int>): set<Id> {
    set i | i in table && table[i] > horizon - DAY
  }

  function LiveLogouts(horizon: int, logouts: map<Id, Logout>): set<Id> {
    set i | i in logouts && logouts[i].expiresAt > horizon - DAY
  }

  function LiveSessions(horizon: int, sessions: map<Id, Session>): set<Id> {
    set i | i in sessions && sessions[i].expiresAt > horizon - DAY
  }

  /** Tests that have not completed, or completed less than a day before. */
  function LiveTests(horizon: int, tests: map<Id, SmtpTest>): set<Id> {
    set i | i in tests && (tests[i].completedAt.Some? ==> tests[i].completedAt.value > horizon - DAY)
  }

  /** Challenges of a live login, or of none. */
  function LiveChallenges(horizon: int, challenges: map<Id, Option<Id>>, logins: map<Id, int>): set<Id> {
    set c | c in challenges && (challenges[c].Some? ==> challenges[c].value in LiveRows(horizon, logins))
  }

  function LiveMail(outbox: map<Id, Id>, challenges: set<Id>): set<Id> {
    set m | m in outbox && outbox[m] in challenges
  }

  function LiveHandoffs(horizon: int, handoffs: map<Id, Handoff>, logins: map<Id, int>): set<Id> {
    set h | h in handoffs && handoffs[h].login in LiveRows(horizon, logins)
  }

  function LiveFamilies(horizon: int, families: map<Id, Id>, sessions: map<Id, Session>): set<Id> {
    set f | f in families && families[f] in LiveSessions(horizon, sessions)
  }

  function Unerased(materials: map<Id, Material>): set<Id> {
    set m | m in materials && !materials[m].erased
  }

  predicate KeepsLogins(horizon: int, t: Tables, u: Tables) {
    && Keeps(t.logins, u.logins, LiveRows(horizon, t.logins))
    && Keeps(t.challenges, u.challenges, LiveChallenges(horizon, t.challenges, t.logins))
    && Keeps(t.outbox, u.outbox, LiveMail(t.outbox, LiveChallenges(horizon, t.challenges, t.logins)))
    && Keeps(t.handoffs, u.handoffs, LiveHandoffs(horizon, t.handoffs, t.logins))
  }

  predicate KeepsSessions(horizon: int, t: Tables, u: Tables) {
    && Keeps(t.browsers, u.browsers, LiveRows(horizon, t.browsers))
    && Keeps(t.logouts, u.logouts, LiveLogouts(horizon, t.logouts))
    && Keeps(t.sessions, u.sessions, LiveSessions(horizon, t.sessions))
    && Keeps(t.families, u.families, LiveFamilies(horizon, t.families, t.sessions))
  }

  predicate KeepsTests(horizon: int, t: Tables, u: Tables) {
    && Keeps(t.smtpTests, u.smtpTests, LiveTests(horizon, t.smtpTests))
    && Keeps(t.materials, u.materials, Unerased(t.materials))
  }

  function LiveGenerations(horizon: int, generations: map<Id, Generation>): set<Id> {
    set g | g in generations && generations[g].retainUntil > horizon
  }

  // ----- webhook rows -----

  /** Leased, or of an event that has not expired. */
  predicate Retained(now: int, t: Tables, d: Id) {
    d in t.deliveries && (t.deliveries[d].state.Leased? || !EventExpired(now, t.events, t.deliveries[d].event))
  }

  /** d in u is d in t, unless it was pending and has been cancelled. */
  predicate SameOrCancelled(before: Delivery, after: Delivery) {
    after == before.(state := after.state, updatedAt := after.updatedAt, terminalAt := after.terminalAt)
    && (after.state == before.state || (before.state.Pending? && after.state.Cancelled?))
  }

  ghost predicate DeliveriesThinned(now: int, t: Tables, u: Tables) {
    && (forall d :: d in u.deliveries ==> d in t.deliveries && SameOrCancelled(t.deliveries[d], u.deliveries[d]))
    && (forall d :: Retained(now, t, d) ==> d in u.deliveries && u.deliveries[d] == t.deliveries[d])
  }

  ghost predicate EventsThinned(now: int, t: Tables, u: Tables) {
    && (forall e :: e in u.events ==> e in t.events && u.events[e] == t.events[e])
    && (forall e :: e in t.events && t.events[e] > now ==> e in u.events)
  }

  ghost predicate AttemptsThinned(now: int, t: Tables, u: Tables) {
    && (forall a :: a in u.attempts ==> a in t.attempts && u.attempts[a] == t.attempts[a])
    && (forall a :: a in t.attempts && Retained(now, t, t.attempts[a].delivery) ==> a in u.attempts)
  }

  /** Webhook rows only leave or are cancelled; leased deliveries and all of unexpired events stay as they are. */
  ghost predicate Thinned(now: int, t: Tables, u: Tables) {
    DeliveriesThinned(now, t, u) && EventsThinned(now, t, u) && AttemptsThinned(now, t, u)
  }

  lemma ThinnedTwice(now: int, t: Tables, u: Tables, v: Tables)
    requires Thinned(now, t, u) && Thinned(now, u, v)
    ensures Thinned(now, t, v)
  {
    hide DeliveriesThinned, AttemptsThinned;
    StillRetained(now, t, u);
    DeliveriesThinnedTwice(now, t, u, v);
    AttemptsThinnedTwice(now, t, u, v);
  }

  lemma DeliveriesThinnedTwice(now: int, t: Tables, u: Tables, v: Tables)
    requires DeliveriesThinned(now, t, u) && DeliveriesThinned(now, u, v)
    requires forall d :: Retained(now, t, d) ==> Retained(now, u, d)
    ensures DeliveriesThinned(now, t, v)
  {
    hide Retained;
  }

  lemma StillRetained(now: int, t: Tables, u: Tables)
    requires Thinned(now, t, u)
    ensures forall d :: Retained(now, t, d) ==> Retained(now, u, d)
  {
    hide AttemptsThinned;
  }

  lemma AttemptsThinnedTwice(now: int, t: Tables, u: Tables, v: Tables)
    requires AttemptsThinned(now, t, u) && AttemptsThinned(now, u, v)
    requires forall d :: Retained(now, t, d) ==> Retained(now, u, d)
    ensures AttemptsThinned(now, t, v)
  {
    hide Retained;
  }

  lemma StatementThins(stmt: Statement, w: Window, limit: nat, t: Tables)
    ensures Thinned(w.now, t, Execute(stmt, w, limit, t).0)
  {
    hide Chosen, Thinned;
    var ids := Chosen(stmt, w, limit, t);
    match stmt {
      case CancelDeliveries => CancelThins(w.now, t, ids);
      case PruneAttempts => AttemptsThin(w.now, t, ids);
      case PruneDeliveries => DeliveriesThin(w.now, t, ids);
      case PruneEvents => EventsThin(w.now, t, ids);
      case _ =>
        StatementFrame(stmt, w, limit, t);
        ThinnedSame(w.now, t, Execute(stmt, w, limit, t).0);
    }
  }

  lemma CancelThins(now: int, t: Tables, ids: set<Id>)
    requires ids <= ExpiredPending(now, t.deliveries, t.events)
    ensures Thinned(now, t, t.(deliveries := CancelAll(now, t.deliveries, ids)))
  {
  }

  lemma AttemptsThin(now: int, t: Tables, ids: set<Id>)
    requires ids <= ExpiredAttempts(now, t.attempts, t.deliveries, t.events)
    ensures Thinned(now, t, t.(attempts := t.attempts - ids))
  {
  }

  lemma DeliveriesThin(now: int, t: Tables, ids: set<Id>)
    requires ids <= ExpiredDeliveries(now, t.deliveries, t.events, t.attempts)
    ensures Thinned(now, t, t.(deliveries := t.deliveries - ids))
  {
    hide HasAttempt, HasReplay;
  }

  lemma EventsThin(now: int, t: Tables, ids: set<Id>)
    requires ids <= ExpiredEvents(now, t.events, t.deliveries)
    ensures Thinned(now, t, t.(events := t.events - ids))
  {
    hide HasDelivery;
  }

  lemma ThinnedSame(now: int, t: Tables, u: Tables)
    requires SameWebhooks(t, u)
    ensures Thinned(now, t, u)
  {
  }

  /** What stays at a later time stays now. */
  lemma ThinnedLater(now: int, horizon: int, t: Tables, u: Tables)
    requires Thinned(now, t, u) && now <= horizon
    ensures Thinned(horizon, t, u)
  {
    assert forall d :: Retained(horizon, t, d) ==> Retained(now, t, d);
  }

  // ----- everything live -----

  /**
   Aggregates within a day of their expiry, refresh generations within their retention, unerased
   material, leased deliveries and everything of unexpired events stay.
   */
  ghost predicate KeepsLive(horizon: int, t: Tables, u: Tables) {
    && KeepsLogins(horizon, t, u) && KeepsSessions(horizon, t, u) && KeepsTests(horizon, t, u)
    && Keeps(t.generations, u.generations, LiveGenerations(horizon, t.generations))
    && Thinned(horizon, t, u)
  }

  lemma KeepsLiveTwice(horizon: int, t: Tables, u: Tables, v: Tables)
    requires KeepsLive(horizon, t, u) && KeepsLive(horizon, u, v)
    ensures KeepsLive(horizon, t, v)
  {
    hide Thinned;
    KeepsLoginsTwice(horizon, t, u, v);
    KeepsSessionsTwice(horizon, t, u, v);
    ThinnedTwice(horizon, t, u, v);
    assert LiveTests(horizon, t.smtpTests) <= LiveTests(horizon, u.smtpTests);
    assert Unerased(t.materials) <= Unerased(u.materials);
    assert LiveGenerations(horizon, t.generations) <= LiveGenerations(horizon, u.generations);
  }

  lemma KeepsLoginsTwice(horizon: int, t: Tables, u: Tables, v: Tables)
    requires KeepsLogins(horizon, t, u) && KeepsLogins(horizon, u, v)
    ensures KeepsLogins(horizon, t, v)
  {
    assert LiveRows(horizon, t.logins) <= LiveRows(horizon, u.logins);
    assert LiveChallenges(horizon, t.challenges, t.logins) <= LiveChallenges(horizon, u.challenges, u.logins);
    assert LiveMail(t.outbox, LiveChallenges(horizon, t.challenges, t.logins))
        <= LiveMail(u.outbox, LiveChallenges(horizon, u.challenges, u.logins));
    assert LiveHandoffs(horizon, t.handoffs, t.logins) <= LiveHandoffs(horizon, u.handoffs, u.logins);
  }

  lemma KeepsSessionsTwice(horizon: int, t: Tables, u: Tables, v: Tables)
    requires KeepsSessions(horizon, t, u) && KeepsSessions(horizon, u, v)
    ensures KeepsSessions(horizon, t, v)
  {
    assert LiveRows(horizon, t.browsers) <= LiveRows(horizon, u.browsers);
    assert LiveLogouts(horizon, t.logouts) <= LiveLogouts(horizon, u.logouts);
    assert LiveSessions(horizon, t.sessions) <= LiveSessions(horizon, u.sessions);
    assert LiveFamilies(horizon, t.families, t.sessions) <= LiveFamilies(horizon, u.families, u.sessions);
  }

  lemma LoginsKeepLive(now: int, horizon: int, t: Tables, ids: set<Id>)
    requires now <= horizon && ids <= ExpiredRows(now, t.logins)
    ensures KeepsLogins(horizon, t, Apply(PruneLogins, now, t, ids))
  {
    assert ids !! LiveRows(horizon, t.logins);
  }

  lemma SessionsKeepLive(now: int, horizon: int, t: Tables, ids: set<Id>)
    requires now <= horizon && ids <= Eligible(PruneSessions, now, t)
    ensures KeepsSessions(horizon, t, Apply(PruneSessions, now, t, ids))
  {
    hide HasGeneration, LoggingOut, CascadedGenerations;
    assert ids !! LiveSessions(horizon, t.sessions);
  }

  lemma ApplyKeepsAggregates(stmt: Statement, now: int, horizon: int, t: Tables, ids: set<Id>)
    requires now <= horizon && ids <= Eligible(stmt, now, t)
    ensures var u := Apply(stmt, now, t, ids);
            && KeepsLogins(horizon, t, u) && KeepsSessions(horizon, t, u) && KeepsTests(horizon, t, u)
  {
    hide SessionClosed, HasGeneration, BrowserInUse, CascadedChallenges, CascadedOutbox, CascadedHandoffs,
      CascadedFamilies, CascadedGenerations, LiveChallenges, LiveMail, LiveHandoffs, LiveFamilies, CancelAll,
      ExpiredGenerations, ExpiredSessions, ExpiredPending, ExpiredAttempts, ExpiredDeliveries, ExpiredEvents;
    match stmt {
      case PruneLogins => LoginsKeepLive(now, horizon, t, ids);
      case PruneLogouts => assert ids !! LiveLogouts(horizon, t.logouts);
      case PruneSessions => SessionsKeepLive(now, horizon, t, ids);
      case PruneBrowsers => assert ids !! LiveRows(horizon, t.browsers);
      case PruneSmtpTests => assert ids !! LiveTests(horizon, t.smtpTests);
      case _ =>
    }
  }

  /** A generation that a session would take with it keeps the session. */
  lemma ApplyKeepsGenerations(stmt: Statement, now: int, horizon: int, t: Tables, ids: set<Id>)
    requires now <= horizon && ids <= Eligible(stmt, now, t)
    ensures var u := Apply(stmt, now, t, ids);
            Keeps(t.generations, u.generations, LiveGenerations(horizon, t.generations))
  {
    if stmt.PruneSessions? {
      assert CascadedGenerations(t.generations, CascadedFamilies(t.families, ids)) == {} by {
        forall g | g in t.generations ensures t.generations[g].family !in CascadedFamilies(t.families, ids) {
          var f := t.generations[g].family;
          if f in t.families {
            assert HasGeneration(t.generations, t.families, t.families[f]);
          }
        }
      }
    }
  }

  lemma ExecuteKeepsLive(stmt: Statement, w: Window, horizon: int, limit: nat, t: Tables)
    requires w.now <= horizon
    ensures KeepsLive(horizon, t, Execute(stmt, w, limit, t).0)
  {
    hide Apply, Eligible, Chosen, KeepsLogins, KeepsSessions, KeepsTests, Keeps, Thinned;
    ApplyKeepsAggregates(stmt, w.now, horizon, t, Chosen(stmt, w, limit, t));
    ApplyKeepsGenerations(stmt, w.now, horizon, t, Chosen(stmt, w, limit, t));
    StatementThins(stmt, w, limit, t);
    ThinnedLater(w.now, horizon, t, Execute(stmt, w, limit, t).0);
  }

  lemma {:induction false} AfterKeepsLive(k: nat, at: Windows, horizon: int, limit: nat, t: Tables)
    requires k <= |CLASSES| && forall stmt :: at(stmt).now <= horizon
    ensures KeepsLive(horizon, t, After(k, at, limit, t))
  {
    hide Execute, KeepsLive;
    if k == 0 {
      NothingLost(horizon, t);
    } else {
      AfterKeepsLive(k - 1, at, horizon, limit, t);
      var s, u := CLASSES[k - 1], After(k - 1, at, limit, t);
      ExecuteKeepsLive(s, at(s), horizon, limit, u);
      KeepsLiveTwice(horizon, t, u, Execute(s, at(s), limit, u).0);
    }
  }

  lemma NothingLost(horizon: int, t: Tables)
    ensures KeepsLive(horizon, t, t)
  {
    hide Thinned;
    ThinnedSame(horizon, t, t);
  }

  lemma {:induction false} PipelineKeepsLive(stmts: seq<Statement>, at: Windows, horizon: int, budget: nat, t: Tables)
    requires forall stmt :: at(stmt).now <= horizon
    ensures KeepsLive(horizon, t, Pipeline(stmts, at, budget, t).0)
    decreases |stmts|
  {
    hide Execute, KeepsLive;
    NothingLost(horizon, t);
    if stmts == [] || budget == 0 {
    } else {
      var (u, n) := Execute(stmts[0], at(stmts[0]), budget, t);
      ExecuteKeepsLive(stmts[0], at(stmts[0]), horizon, budget, t);
      PipelineKeepsLive(stmts[1..], at, horizon, budget - n, u);
      KeepsLiveTwice(horizon, t, u, Pipeline(stmts[1..], at, budget - n, u).0);
    }
  }

  /**
   A run that ends by the horizon, complete or cut short, at any times and under any locks, leaves
   every login, logout interaction, session and browser that was not a day past its expiry then, the
   challenges, messages, handoffs and token families they own, every refresh generation within its
   retention, every test that was not a day past its completion, every material that was not erased,
   every leased delivery, and every event that had not expired with its deliveries and attempts.
   */
  lemma RunKeepsLive(at: Windows, horizon: int, limit: nat, t: Tables)
    requires forall stmt :: at(stmt).now <= horizon
    ensures KeepsLive(horizon, t, Pruned(at, limit, t))
    ensures forall k :: 0 <= k <= |CLASSES| ==> KeepsLive(horizon, t, After(k, at, limit, t))
  {
    hide KeepsLive;
    forall k | 0 <= k <= |CLASSES| ensures KeepsLive(horizon, t, After(k, at, limit, t)) {
      AfterKeepsLive(k, at, horizon, limit, t);
    }
    var u := After(|CLASSES|, at, limit, t);
    PipelineKeepsLive(WEBHOOK, at, horizon, limit, u);
    KeepsLiveTwice(horizon, t, u, Pruned(at, limit, t));
  }
}
