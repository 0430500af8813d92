/**
 The retention tables and the ten statements of a prune run, as functions on table values.
 Each statement picks eligible rows in its ORDER BY, up to its LIMIT, leaving out locked rows;
 deleting them follows the ON DELETE CASCADE edges of the schema.
 */
module Retention {
  import opened Wrappers
  import opened Batch

  const DAY := 86_400_000_000 // 24 hours at the microsecond resolution of timestamptz

  datatype DeliveryState = Pending | Leased | Delivered | Terminal | Cancelled

  datatype SmtpTestState = Preparing | Queued | Submitting | TestDelivered | TestFailed | TestAmbiguous

  datatype Handoff = Handoff(login: Id, browser: Id)
  datatype Session = Session(browser: Option<Id>, expiresAt: int)
  datatype Logout = Logout(session: Id, browser: Id, expiresAt: int)
  datatype Generation = Generation(family: Id, retainUntil: int)
  datatype Material = Material(smtpTestRecipient: bool, erased: bool)
  datatype SmtpTest = SmtpTest(state: SmtpTestState, erasedAt: Option<int>, completedAt: Option<int>, recipient: Id)
  datatype Delivery = Delivery(event: Id, state: DeliveryState, createdAt: int, updatedAt: int,
                               terminalAt: Option<int>, sequence: nat, replayOf: Option<Id>)
  datatype Attempt = Attempt(delivery: Id, number: nat)

  datatype Tables = Tables(
    logins: map<Id, int>,            // expires_at
    challenges: map<Id, Option<Id>>, // login transaction, when a login owns the challenge
    outbox: map<Id, Id>,             // challenge
    handoffs: map<Id, Handoff>,
    browsers: map<Id, int>,          // absolute_expires_at
    sessions: map<Id, Session>,
    logouts: map<Id, Logout>,
    families: map<Id, Id>,           // application session
    generations: map<Id, Generation>,
    materials: map<Id, Material>,
    smtpTests: map<Id, SmtpTest>,
    events: map<Id, int>,            // retain_until
    deliveries: map<Id, Delivery>,
    attempts: map<Id, Attempt>)      // keyed by physical row

  datatype Statement =
    | PruneLogins | PruneLogouts | PruneGenerations | PruneSessions | PruneBrowsers | PruneSmtpTests
    | CancelDeliveries | PruneAttempts | PruneDeliveries | PruneEvents

  // ----- WHERE -----

  predicate Finished(state: DeliveryState) {
    state.Delivered? || state.Terminal? || state.Cancelled?
  }

  predicate EventExpired(now: int, events: map<Id, int>, event: Id) {
    event in events && events[event] <= now
  }

  predicate LoggingOut(logouts: map<Id, Logout>, session: Id) {
    exists l :: l in logouts && logouts[l].session == session
  }

  predicate HasGeneration(generations: map<Id, Generation>, families: map<Id, Id>, session: Id) {
    exists g :: g in generations && generations[g].family in families && families[generations[g].family] == session
  }

  predicate BrowserInUse(sessions: map<Id, Session>, logouts: map<Id, Logout>, handoffs: map<Id, Handoff>,
                         browser: Id) {
    || (exists s :: s in sessions && sessions[s].browser == Some(browser))
    || (exists l :: l in logouts && logouts[l].browser == browser)
    || (exists h :: h in handoffs && handoffs[h].browser == browser)
  }

  predicate HasAttempt(attempts: map<Id, Attempt>, delivery: Id) {
    exists a :: a in attempts && attempts[a].delivery == delivery
  }

  predicate HasReplay(deliveries: map<Id, Delivery>, delivery: Id) {
    exists r :: r in deliveries && deliveries[r].replayOf == Some(delivery)
  }

  predicate HasDelivery(deliveries: map<Id, Delivery>, event: Id) {
    exists d :: d in deliveries && deliveries[d].event == event
  }

  function ExpiredRows(now: int, table: map<Id, int>): (rows: set<Id>)
    ensures rows <= table.Keys
  {
    set i | i in table && table[i] <= now - DAY
  }

  function ExpiredLogouts(now: int, logouts: map<Id, Logout>): (rows: set<Id>)
    ensures rows <= logouts.Keys
  {
    set i | i in logouts && logouts[i].expiresAt <= now - DAY
  }

  predicate SessionClosed(now: int, sessions: map<Id, Session>, logouts: map<Id, Logout>, session: Id) {
    session in sessions && sessions[session].expiresAt <= now - DAY && !LoggingOut(logouts, session)
  }

  function ExpiredGenerations(now: int, generations: map<Id, Generation>, families: map<Id, Id>,
                              sessions: map<Id, Session>, logouts: map<Id, Logout>): (rows: set<Id>)
    ensures rows <= generations.Keys
  {
    set i | i in generations && generations[i].retainUntil <= now && generations[i].family in families
         && SessionClosed(now, sessions, logouts, families[generations[i].family])
  }

  function ExpiredSessions(now: int, sessions: map<Id, Session>, logouts: map<Id, Logout>,
                           generations: map<Id, Generation>, families: map<Id, Id>): (rows: set<Id>)
    ensures rows <= sessions.Keys
  {
    set i | i in sessions && SessionClosed(now, sessions, logouts, i) && !HasGeneration(generations, families, i)
  }

  function ExpiredBrowsers(now: int, browsers: map<Id, int>, sessions: map<Id, Session>,
                           logouts: map<Id, Logout>, handoffs: map<Id, Handoff>): (rows: set<Id>)
    ensures rows <= browsers.Keys
  {
    set i | i in browsers && browsers[i] <= now - DAY && !BrowserInUse(sessions, logouts, handoffs, i)
  }

  function ExpiredSmtpTests(now: int, tests: map<Id, SmtpTest>): (rows: set<Id>)
    ensures rows <= tests.Keys
  {
    set i | i in tests
         && (tests[i].state.TestDelivered? || tests[i].state.TestFailed? || tests[i].state.TestAmbiguous?)
         && tests[i].erasedAt.Some?
         && tests[i].completedAt.Some? && tests[i].completedAt.value <= now - DAY
  }

  function ExpiredPending(now: int, deliveries: map<Id, Delivery>, events: map<Id, int>): (rows: set<Id>)
    ensures rows <= deliveries.Keys
  {
    set i | i in deliveries && deliveries[i].state.Pending? && EventExpired(now, events, deliveries[i].event)
  }

  predicate DeliveryExpired(now: int, deliveries: map<Id, Delivery>, events: map<Id, int>, delivery: Id) {
    && delivery in deliveries
    && Finished(deliveries[delivery].state)
    && EventExpired(now, events, deliveries[delivery].event)
  }

  function ExpiredAttempts(now: int, attempts: map<Id, Attempt>, deliveries: map<Id, Delivery>,
                           events: map<Id, int>): (rows: set<Id>)
    ensures rows <= attempts.Keys
  {
    set i | i in attempts && DeliveryExpired(now, deliveries, events, attempts[i].delivery)
  }

  function ExpiredDeliveries(now: int, deliveries: map<Id, Delivery>, events: map<Id, int>,
                             attempts: map<Id, Attempt>): (rows: set<Id>)
    ensures rows <= deliveries.Keys
  {
    set i | i in deliveries && DeliveryExpired(now, deliveries, events, i)
         && !HasAttempt(attempts, i) && !HasReplay(deliveries, i)
  }

  function ExpiredEvents(now: int, events: map<Id, int>, deliveries: map<Id, Delivery>): (rows: set<Id>)
    ensures rows <= events.Keys
  {
    set i | i in events && EventExpired(now, events, i) && !HasDelivery(deliveries, i)
  }

  function Eligible(stmt: Statement, now: int, t: Tables): set<Id> {
    match stmt
    case PruneLogins => ExpiredRows(now, t.logins)
    case PruneLogouts => ExpiredLogouts(now, t.logouts)
    case PruneGenerations => ExpiredGenerations(now, t.generations, t.families, t.sessions, t.logouts)
    case PruneSessions => ExpiredSessions(now, t.sessions, t.logouts, t.generations, t.families)
    case PruneBrowsers => ExpiredBrowsers(now, t.browsers, t.sessions, t.logouts, t.handoffs)
    case PruneSmtpTests => ExpiredSmtpTests(now, t.smtpTests)
    case CancelDeliveries => ExpiredPending(now, t.deliveries, t.events)
    case PruneAttempts => ExpiredAttempts(now, t.attempts, t.deliveries, t.events)
    case PruneDeliveries => ExpiredDeliveries(now, t.deliveries, t.events, t.attempts)
    case PruneEvents => ExpiredEvents(now, t.events, t.deliveries)
  }

  // ----- ORDER BY -----

  function SortKey(stmt: Statement, now: int, t: Tables, id: Id): Key
    requires id in Eligible(stmt, now, t)
  {
    match stmt
    case PruneLogins => Key(t.logins[id], 0, 0, id)
    case PruneLogouts => Key(t.logouts[id].expiresAt, 0, 0, id)
    case PruneGenerations => Key(t.generations[id].retainUntil, 0, 0, id)
    case PruneSessions => Key(t.sessions[id].expiresAt, 0, 0, id)
    case PruneBrowsers => Key(t.browsers[id], 0, 0, id)
    case PruneSmtpTests => Key(t.smtpTests[id].completedAt.value, 0, 0, id)
    case CancelDeliveries => Key(t.events[t.deliveries[id].event], t.deliveries[id].createdAt, 0, id)
    case PruneAttempts =>
      Key(t.events[t.deliveries[t.attempts[id].delivery].event], t.attempts[id].delivery, t.attempts[id].number, id)
    case PruneDeliveries => Key(t.events[t.deliveries[id].event], 0 - t.deliveries[id].sequence, 0, id)
    case PruneEvents => Key(t.events[id], 0, 0, id)
  }

  // ----- DELETE and UPDATE -----

  /** The challenges that deleting logins cascades to. */
  function CascadedChallenges(challenges: map<Id, Option<Id>>, logins: set<Id>): set<Id> {
    set c | c in challenges && challenges[c].Some? && challenges[c].value in logins
  }

  function CascadedOutbox(outbox: map<Id, Id>, challenges: set<Id>): set<Id> {
    set m | m in outbox && outbox[m] in challenges
  }

  function CascadedHandoffs(handoffs: map<Id, Handoff>, logins: set<Id>): set<Id> {
    set h | h in handoffs && handoffs[h].login in logins
  }

  function CascadedFamilies(families: map<Id, Id>, sessions: set<Id>): set<Id> {
    set f | f in families && families[f] in sessions
  }

  function CascadedGenerations(generations: map<Id, Generation>, families: set<Id>): set<Id> {
    set g | g in generations && generations[g].family in families
  }

  /** The materials deleted together with SMTP test operations. */
  function ErasedRecipients(materials: map<Id, Material>, smtpTests: map<Id, SmtpTest>, tests: set<Id>): set<Id> {
    set m | m in materials && materials[m].smtpTestRecipient && materials[m].erased
         && exists i :: i in tests && i in smtpTests && smtpTests[i].recipient == m
  }

  function CancelAll(now: int, deliveries: map<Id, Delivery>, ids: set<Id>): map<Id, Delivery> {
    map d | d in deliveries ::
      if d in ids then deliveries[d].(state := Cancelled, terminalAt := Some(now), updatedAt := now) else deliveries[d]
  }

  function Apply(stmt: Statement, now: int, t: Tables, ids: set<Id>): Tables {
    match stmt
    case PruneLogins =>
      var challenges := CascadedChallenges(t.challenges, ids);
      t.(logins := t.logins - ids,
         challenges := t.challenges - challenges,
         outbox := t.outbox - CascadedOutbox(t.outbox, challenges),
         handoffs := t.handoffs - CascadedHandoffs(t.handoffs, ids))
    case PruneLogouts => t.(logouts := t.logouts - ids)
    case PruneGenerations => t.(generations := t.generations - ids)
    case PruneSessions =>
      var families := CascadedFamilies(t.families, ids);
      t.(sessions := t.sessions - ids,
         families := t.families - families,
         generations := t.generations - CascadedGenerations(t.generations, families))
    case PruneBrowsers => t.(browsers := t.browsers - ids)
    case PruneSmtpTests =>
      t.(smtpTests := t.smtpTests - ids,
         materials := t.materials - ErasedRecipients(t.materials, t.smtpTests, ids))
    case CancelDeliveries => t.(deliveries := CancelAll(now, t.deliveries, ids))
    case PruneAttempts => t.(attempts := t.attempts - ids)
    case PruneDeliveries => t.(deliveries := t.deliveries - ids)
    case PruneEvents => t.(events := t.events - ids)
  }

  // ----- one statement -----

  /** The transaction timestamp of a statement and the rows it cannot lock. */
  datatype Window = Window(now: int, locked: set<Id>)

  function Order(stmt: Statement, w: Window, t: Tables): (order: map<Id, Key>)
    ensures order.Keys == Eligible(stmt, w.now, t) - w.locked
    ensures Keyed(order)
  {
    map i | i in Eligible(stmt, w.now, t) - w.locked :: SortKey(stmt, w.now, t, i)
  }

  /** The rows a statement takes: as many as its limit and the unlocked eligible rows allow. */
  function Chosen(stmt: Statement, w: Window, limit: nat, t: Tables): (ids: set<Id>)
    ensures ids <= Eligible(stmt, w.now, t) - w.locked
    ensures var free := |Eligible(stmt, w.now, t) - w.locked|; |ids| == if limit < free then limit else free
  {
    var order := Order(stmt, w, t);
    TakeSize(order, limit);
    Take(order, limit)
  }

  /** A statement as a whole: the tables it leaves and the number of rows it counted. */
  function Execute(stmt: Statement, w: Window, limit: nat, t: Tables): (r: (Tables, nat))
    ensures r.1 <= limit
  {
    var ids := Chosen(stmt, w, limit, t);
    (Apply(stmt, w.now, t, ids), |ids|)
  }

  /** Rows left behind by the limit sort after every row taken. */
  lemma ChosenAreFirst(stmt: Statement, w: Window, limit: nat, t: Tables, taken: Id, left: Id)
    requires taken in Chosen(stmt, w, limit, t)
    requires left in Eligible(stmt, w.now, t) - w.locked && left !in Chosen(stmt, w, limit, t)
    ensures Less(SortKey(stmt, w.now, t, taken), SortKey(stmt, w.now, t, left))
  {
    TakeIsFirst(Order(stmt, w, t), limit, taken, left);
  }

  /**
   What the limit means to a reader of the tables: rows that have been due longest go first, and
   among the deliveries of equally old events a later replay goes before an earlier one.
   */
  lemma LongestDueFirst(stmt: Statement, w: Window, limit: nat, t: Tables, taken: Id, left: Id)
    requires taken in Chosen(stmt, w, limit, t)
    requires left in Eligible(stmt, w.now, t) - w.locked && left !in Chosen(stmt, w, limit, t)
    ensures stmt.PruneLogins? ==> t.logins[taken] <= t.logins[left]
    ensures stmt.PruneLogouts? ==> t.logouts[taken].expiresAt <= t.logouts[left].expiresAt
    ensures stmt.PruneGenerations? ==> t.generations[taken].retainUntil <= t.generations[left].retainUntil
    ensures stmt.PruneSessions? ==> t.sessions[taken].expiresAt <= t.sessions[left].expiresAt
    ensures stmt.PruneBrowsers? ==> t.browsers[taken] <= t.browsers[left]
    ensures stmt.PruneSmtpTests? ==> t.smtpTests[taken].completedAt.value <= t.smtpTests[left].completedAt.value
    ensures stmt.PruneEvents? ==> t.events[taken] <= t.events[left]
    ensures stmt.CancelDeliveries? || stmt.PruneDeliveries? ==>
              EventDue(t, taken) <= EventDue(t, left)
    ensures stmt.CancelDeliveries? && EventDue(t, taken) == EventDue(t, left) ==>
              t.deliveries[taken].createdAt <= t.deliveries[left].createdAt
    ensures stmt.PruneDeliveries? && EventDue(t, taken) == EventDue(t, left) ==>
              t.deliveries[taken].sequence >= t.deliveries[left].sequence
    ensures stmt.PruneAttempts? ==> EventDue(t, t.attempts[taken].delivery) <= EventDue(t, t.attempts[left].delivery)
    ensures stmt.PruneAttempts? && t.attempts[taken].delivery == t.attempts[left].delivery ==>
              t.attempts[taken].number <= t.attempts[left].number
  {
    ChosenAreFirst(stmt, w, limit, t, taken, left);
  }

  /** When the event of a delivery may go. */
  function EventDue(t: Tables, delivery: Id): int
    requires delivery in t.deliveries && t.deliveries[delivery].event in t.events
  {
    t.events[t.deliveries[delivery].event]
  }

  // ----- integrity -----

  predicate LoginKeys(logins: map<Id, int>, challenges: map<Id, Option<Id>>, outbox: map<Id, Id>,
                      handoffs: map<Id, Handoff>) {
    && (forall c :: c in challenges && challenges[c].Some? ==> challenges[c].value in logins)
    && (forall m :: m in outbox ==> outbox[m] in challenges)
    && (forall h :: h in handoffs ==> handoffs[h].login in logins)
  }

  predicate BrowserKeys(browsers: map<Id, int>, sessions: map<Id, Session>, logouts: map<Id, Logout>,
                        handoffs: map<Id, Handoff>) {
    && (forall h :: h in handoffs ==> handoffs[h].browser in browsers)
    && (forall s :: s in sessions && sessions[s].browser.Some? ==> sessions[s].browser.value in browsers)
    && (forall l :: l in logouts ==> logouts[l].browser in browsers)
  }

  predicate SessionKeys(sessions: map<Id, Session>, logouts: map<Id, Logout>, families: map<Id, Id>,
                        generations: map<Id, Generation>) {
    && (forall l :: l in logouts ==> logouts[l].session in sessions)
    && (forall f :: f in families ==> families[f] in sessions)
    && (forall g :: g in generations ==> generations[g].family in families)
  }

  /** Foreign key and uniqueness of the recipient material. */
  predicate SmtpKeys(tests: map<Id, SmtpTest>, materials: map<Id, Material>) {
    && (forall i :: i in tests ==> tests[i].recipient in materials)
    && (forall i, j :: i in tests && j in tests && tests[i].recipient == tests[j].recipient ==> i == j)
  }

  /** A replay is of the same event as its parent and has a larger sequence. */
  predicate Replays(deliveries: map<Id, Delivery>, d: Delivery, parent: Id) {
    && parent in deliveries
    && deliveries[parent].event == d.event
    && deliveries[parent].sequence < d.sequence
  }

  /** The row checks: a replay has a parent, and exactly the given-up states carry the time of giving up. */
  predicate WellStated(d: Delivery) {
    && (d.replayOf.Some? <==> d.sequence > 0)
    && (d.terminalAt.Some? <==> d.state.Terminal? || d.state.Cancelled?)
  }

  predicate DeliveryKeys(deliveries: map<Id, Delivery>, events: map<Id, int>) {
    && (forall d :: d in deliveries ==> WellStated(deliveries[d]))
    && (forall d :: d in deliveries ==> deliveries[d].event in events)
    && (forall d :: d in deliveries && deliveries[d].replayOf.Some? ==>
          Replays(deliveries, deliveries[d], deliveries[d].replayOf.value))
  }

  /** Foreign key and primary key of the attempts. */
  predicate AttemptKeys(attempts: map<Id, Attempt>, deliveries: map<Id, Delivery>) {
    && (forall a :: a in attempts ==> attempts[a].delivery in deliveries)
    && (forall a, b :: a in attempts && b in attempts && attempts[a] == attempts[b] ==> a == b)
  }

  predicate Integrity(t: Tables) {
    && LoginKeys(t.logins, t.challenges, t.outbox, t.handoffs)
    && BrowserKeys(t.browsers, t.sessions, t.logouts, t.handoffs)
    && SessionKeys(t.sessions, t.logouts, t.families, t.generations)
    && SmtpKeys(t.smtpTests, t.materials)
    && DeliveryKeys(t.deliveries, t.events)
    && AttemptKeys(t.attempts, t.deliveries)
  }

  /** No statement breaks a key or a row check, whatever subset of its eligible rows it takes. */
  lemma ApplyKeepsIntegrity(stmt: Statement, now: int, t: Tables, ids: set<Id>)
    requires Integrity(t) && ids <= Eligible(stmt, now, t)
    ensures Integrity(Apply(stmt, now, t, ids))
  {
    match stmt {
      case PruneLogins => LoginsKeepKeys(t.logins, t.challenges, t.outbox, t.handoffs, ids);
      case PruneLogouts =>
        LogoutsKeepKeys(t.browsers, t.sessions, t.logouts, t.handoffs, t.families, t.generations, ids);
      case PruneSessions => SessionsKeepKeys(now, t, ids);
      case PruneBrowsers => BrowsersKeepKeys(now, t.browsers, t.sessions, t.logouts, t.handoffs, ids);
      case PruneSmtpTests => SmtpTestsKeepKeys(t.smtpTests, t.materials, ids);
      case CancelDeliveries => CancelKeepsKeys(now, t.deliveries, t.events, t.attempts, ids);
      case PruneDeliveries => DeliveriesKeepKeys(now, t, ids);
      case PruneEvents => EventsKeepKeys(now, t.events, t.deliveries, ids);
      case _ =>
    }
  }

  lemma LoginsKeepKeys(logins: map<Id, int>, challenges: map<Id, Option<Id>>, outbox: map<Id, Id>,
                       handoffs: map<Id, Handoff>, ids: set<Id>)
    requires LoginKeys(logins, challenges, outbox, handoffs)
    ensures var gone := CascadedChallenges(challenges, ids);
            LoginKeys(logins - ids, challenges - gone, outbox - CascadedOutbox(outbox, gone),
                      handoffs - CascadedHandoffs(handoffs, ids))
  {
  }

  lemma LogoutsKeepKeys(browsers: map<Id, int>, sessions: map<Id, Session>, logouts: map<Id, Logout>,
                        handoffs: map<Id, Handoff>, families: map<Id, Id>, generations: map<Id, Generation>,
                        ids: set<Id>)
    requires BrowserKeys(browsers, sessions, logouts, handoffs) && SessionKeys(sessions, logouts, families, generations)
    ensures BrowserKeys(browsers, sessions, logouts - ids, handoffs)
    ensures SessionKeys(sessions, logouts - ids, families, generations)
  {
  }

  lemma BrowsersKeepKeys(now: int, browsers: map<Id, int>, sessions: map<Id, Session>, logouts: map<Id, Logout>,
                         handoffs: map<Id, Handoff>, ids: set<Id>)
    requires BrowserKeys(browsers, sessions, logouts, handoffs)
    requires ids <= ExpiredBrowsers(now, browsers, sessions, logouts, handoffs)
    ensures BrowserKeys(browsers - ids, sessions, logouts, handoffs)
  {
    assert forall b :: b in ids ==> !BrowserInUse(sessions, logouts, handoffs, b);
  }

  /** The uniqueness of recipients keeps the foreign key of the tests that stay. */
  lemma SmtpTestsKeepKeys(tests: map<Id, SmtpTest>, materials: map<Id, Material>, ids: set<Id>)
    requires SmtpKeys(tests, materials)
    ensures SmtpKeys(tests - ids, materials - ErasedRecipients(materials, tests, ids))
  {
  }

  lemma CancelKeepsKeys(now: int, deliveries: map<Id, Delivery>, events: map<Id, int>,
                        attempts: map<Id, Attempt>, ids: set<Id>)
    requires DeliveryKeys(deliveries, events) && AttemptKeys(attempts, deliveries)
    ensures DeliveryKeys(CancelAll(now, deliveries, ids), events)
    ensures AttemptKeys(attempts, CancelAll(now, deliveries, ids))
  {
  }

  lemma EventsKeepKeys(now: int, events: map<Id, int>, deliveries: map<Id, Delivery>, ids: set<Id>)
    requires DeliveryKeys(deliveries, events) && ids <= ExpiredEvents(now, events, deliveries)
    ensures DeliveryKeys(deliveries, events - ids)
  {
    assert forall e :: e in ids ==> !HasDelivery(deliveries, e);
  }

  /** Deleting eligible sessions cascades to no refresh generation and orphans no logout interaction. */
  lemma SessionCascadeIsEmpty(now: int, t: Tables, ids: set<Id>)
    requires Integrity(t) && ids <= Eligible(PruneSessions, now, t)
    ensures CascadedGenerations(t.generations, CascadedFamilies(t.families, ids)) == {}
    ensures forall l :: l in t.logouts ==> t.logouts[l].session !in ids
  {
    forall g | g in t.generations
      ensures t.generations[g].family !in CascadedFamilies(t.families, ids)
    {
      var s := t.families[t.generations[g].family];
      assert s in ids ==> HasGeneration(t.generations, t.families, s);
    }
    forall l | l in t.logouts ensures t.logouts[l].session !in ids {
      assert t.logouts[l].session in ids ==> LoggingOut(t.logouts, t.logouts[l].session);
    }
  }

  lemma SessionsKeepKeys(now: int, t: Tables, ids: set<Id>)
    requires Integrity(t) && ids <= Eligible(PruneSessions, now, t)
    ensures SessionKeys(t.sessions - ids, t.logouts, t.families - CascadedFamilies(t.families, ids),
                        t.generations - CascadedGenerations(t.generations, CascadedFamilies(t.families, ids)))
    ensures BrowserKeys(t.browsers, t.sessions - ids, t.logouts, t.handoffs)
  {
    SessionCascadeIsEmpty(now, t, ids);
  }

  lemma DeliveriesKeepKeys(now: int, t: Tables, ids: set<Id>)
    requires Integrity(t) && ids <= Eligible(PruneDeliveries, now, t)
    ensures DeliveryKeys(t.deliveries - ids, t.events) && AttemptKeys(t.attempts, t.deliveries - ids)
  {
    LeafDeliveries(now, t, ids);
  }

  /** Eligible deliveries are nobody's parent and own no attempt. */
  lemma LeafDeliveries(now: int, t: Tables, ids: set<Id>)
    requires ids <= Eligible(PruneDeliveries, now, t)
    ensures forall d :: d in t.deliveries && t.deliveries[d].replayOf.Some? ==> t.deliveries[d].replayOf.value !in ids
    ensures forall a :: a in t.attempts ==> t.attempts[a].delivery !in ids
  {
    forall d | d in t.deliveries && t.deliveries[d].replayOf.Some?
      ensures t.deliveries[d].replayOf.value !in ids
    {
      assert t.deliveries[d].replayOf.value in ids ==> HasReplay(t.deliveries, t.deliveries[d].replayOf.value);
    }
    forall a | a in t.attempts ensures t.attempts[a].delivery !in ids {
      assert t.attempts[a].delivery in ids ==> HasAttempt(t.attempts, t.attempts[a].delivery);
    }
  }
}
