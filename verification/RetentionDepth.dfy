/**
 How many runs pruning takes: replay chains lose one delivery with every run, so a batch that fits
 the tables settles them in exactly as many runs as the longest removable chain has deliveries.
 */
module RetentionDepth {
  import opened Wrappers
  import opened Batch
  import opened Retention
  import opened RetentionRun
  import opened RetentionSafety
  import opened RetentionConvergence
  import opened RetentionOrder
  import opened RetentionLive
  import opened RetentionSurvivors

  /** Of an expired event, with no leased delivery below: it will go. */
  ghost predicate Doomed(now: int, t: Tables, d: Id) {
    && d in t.deliveries && EventExpired(now, t.events, t.deliveries[d].event)
    && forall leaf :: !LeasedLeaf(t.deliveries, leaf, d)
  }

  /** Each entry replays the next one. */
  ghost predicate Chain(deliveries: map<Id, Delivery>, path: seq<Id>) {
    && path != [] && (forall i :: 0 <= i < |path| ==> path[i] in deliveries)
    && forall i :: 0 < i < |path| ==> deliveries[path[i - 1]].replayOf == Some(path[i])
  }

  /** A chain that will go, from some replay up to a doomed delivery. */
  ghost predicate DoomedChain(now: int, t: Tables, path: seq<Id>) {
    Chain(t.deliveries, path) && Doomed(now, t, path[|path| - 1])
  }

  ghost predicate Within(now: int, t: Tables, n: nat) {
    forall path :: DoomedChain(now, t, path) ==> |path| <= n
  }

  // ----- doomed deliveries across runs -----

  lemma {:induction false} DescendsAfter(now: int, t: Tables, u: Tables, leaf: Id, d: Id)
    requires Integrity(u) && Thinned(now, t, u)
    requires leaf in t.deliveries && leaf in u.deliveries && Descends(t.deliveries, leaf, d)
    ensures Descends(u.deliveries, leaf, d)
    decreases t.deliveries[leaf].sequence
  {
    if leaf == d {
    } else {
      DescendsAfter(now, t, u, t.deliveries[leaf].replayOf.value, d);
    }
  }

  lemma DoomedBefore(now: int, t: Tables, u: Tables, d: Id)
    requires Integrity(u) && Thinned(now, t, u) && Doomed(now, u, d)
    ensures Doomed(now, t, d)
  {
    forall leaf ensures !LeasedLeaf(t.deliveries, leaf, d) {
      if LeasedLeaf(t.deliveries, leaf, d) {
        assert Retained(now, t, leaf);
        DescendsAfter(now, t, u, leaf, d);
        assert LeasedLeaf(u.deliveries, leaf, d);
      }
    }
  }

  lemma DoomedAfter(now: int, t: Tables, u: Tables, d: Id)
    requires Integrity(u) && Thinned(now, t, u) && Doomed(now, t, d) && d in u.deliveries
    ensures Doomed(now, u, d)
  {
    forall leaf ensures !LeasedLeaf(u.deliveries, leaf, d) {
      if LeasedLeaf(u.deliveries, leaf, d) {
        DescendedBefore(now, t, u, leaf, d);
        assert LeasedLeaf(t.deliveries, leaf, d);
      }
    }
  }

  /** Everything below a doomed delivery is doomed. */
  lemma {:induction false} ChainIsDoomed(now: int, t: Tables, path: seq<Id>)
    requires Integrity(t) && DoomedChain(now, t, path)
    ensures Doomed(now, t, path[0])
    decreases |path|
  {
    if |path| == 1 {
    } else {
      var front := path[..|path| - 1];
      var d, r := path[|path| - 1], path[|path| - 2];
      assert Replays(t.deliveries, t.deliveries[r], d);
      forall leaf ensures !LeasedLeaf(t.deliveries, leaf, r) {
        if LeasedLeaf(t.deliveries, leaf, r) {
          DescendsFurther(t.deliveries, leaf, r, d);
          assert LeasedLeaf(t.deliveries, leaf, d);
        }
      }
      assert DoomedChain(now, t, front);
      ChainIsDoomed(now, t, front);
    }
  }

  lemma ChainBefore(now: int, t: Tables, u: Tables, path: seq<Id>)
    requires Thinned(now, t, u) && Chain(u.deliveries, path)
    ensures Chain(t.deliveries, path)
  {
  }

  // ----- a run whose batch fits -----

  /** The webhook tables after a run that takes everything it finds. */
  function Cancelled(now: int, t: Tables): map<Id, Delivery> {
    CancelAll(now, t.deliveries, ExpiredPending(now, t.deliveries, t.events))
  }

  function AttemptsLeft(now: int, t: Tables): map<Id, Attempt> {
    t.attempts - ExpiredAttempts(now, t.attempts, Cancelled(now, t), t.events)
  }

  function DeliveriesLeft(now: int, t: Tables): map<Id, Delivery> {
    Cancelled(now, t) - ExpiredDeliveries(now, Cancelled(now, t), t.events, AttemptsLeft(now, t))
  }

  function EventsLeft(now: int, t: Tables): map<Id, int> {
    t.events - ExpiredEvents(now, t.events, DeliveriesLeft(now, t))
  }

  /** Every statement in turn takes all its eligible rows. */
  function Full(stmts: seq<Statement>, now: int, t: Tables): Tables {
    if stmts == [] then t
    else Full(stmts[1..], now, Apply(stmts[0], now, t, Eligible(stmts[0], now, t)))
  }

  lemma FitsIsFull(stmt: Statement, now: int, limit: nat, t: Tables)
    requires Size(t) <= limit
    ensures Execute(stmt, Window(now, {}), limit, t)
         == (Apply(stmt, now, t, Eligible(stmt, now, t)), |Eligible(stmt, now, t)|)
    ensures Size(Execute(stmt, Window(now, {}), limit, t).0) <= limit - Execute(stmt, Window(now, {}), limit, t).1
  {
    hide Eligible, Apply, Chosen, Size;
    StatementShrinks(stmt, now, t, Eligible(stmt, now, t));
    FullBatch(stmt, now, limit, t);
  }

  lemma {:induction false} PipelineIsFull(stmts: seq<Statement>, now: int, budget: nat, t: Tables)
    requires Size(t) <= budget
    ensures Pipeline(stmts, Unlocked(now), budget, t).0 == Full(stmts, now, t)
    decreases |stmts|
  {
    hide Eligible, Apply, Execute, Size;
    if stmts == [] {
    } else {
      FitsIsFull(stmts[0], now, budget, t);
      var (u, n) := Execute(stmts[0], Window(now, {}), budget, t);
      PipelineIsFull(stmts[1..], now, budget - n, u);
      if budget == 0 {
        EmptyIsIdle(stmts[0], now, t);
        PipelineOfNothing(stmts[1..], now, t);
      }
    }
  }

  lemma EmptyIsIdle(stmt: Statement, now: int, t: Tables)
    requires Size(t) == 0
    ensures Apply(stmt, now, t, Eligible(stmt, now, t)) == t
  {
    hide Eligible, Apply, Size;
    StatementShrinks(stmt, now, t, Eligible(stmt, now, t));
    assert Eligible(stmt, now, t) == {};
    ApplyNothing(stmt, now, t);
  }

  lemma PipelineOfNothing(stmts: seq<Statement>, now: int, t: Tables)
    ensures Pipeline(stmts, Unlocked(now), 0, t).0 == t
  {
  }

  lemma FullStep(stmt: Statement, rest: seq<Statement>, now: int, t: Tables)
    ensures Full([stmt] + rest, now, t) == Full(rest, now, Apply(stmt, now, t, Eligible(stmt, now, t)))
  {
    hide Apply, Eligible;
    assert ([stmt] + rest)[1..] == rest;
  }

  lemma FullWebhook(now: int, t: Tables)
    ensures var u := Full(WEBHOOK, now, t);
            && u.deliveries == DeliveriesLeft(now, t) && u.attempts == AttemptsLeft(now, t)
            && u.events == EventsLeft(now, t)
  {
    hide CancelAll, ExpiredPending, ExpiredAttempts, ExpiredDeliveries, ExpiredEvents, Full;
    var t1 := t.(deliveries := Cancelled(now, t));
    var t2 := t1.(attempts := AttemptsLeft(now, t));
    var t3 := t2.(deliveries := DeliveriesLeft(now, t));
    var t4 := t3.(events := EventsLeft(now, t));
    assert WEBHOOK == [CancelDeliveries] + ([PruneAttempts] + ([PruneDeliveries] + ([PruneEvents] + [])));
    FullStep(CancelDeliveries, [PruneAttempts] + ([PruneDeliveries] + ([PruneEvents] + [])), now, t);
    FullStep(PruneAttempts, [PruneDeliveries] + ([PruneEvents] + []), now, t1);
    FullStep(PruneDeliveries, [PruneEvents] + [], now, t2);
    FullStep(PruneEvents, [], now, t3);
    assert Full([], now, t4) == t4 by { NothingToDo(now, t4); }
  }

  lemma NothingToDo(now: int, t: Tables)
    ensures Full([], now, t) == t
  {
  }

  /** A run whose batch fits leaves exactly that of the webhook tables. */
  lemma FullRun(now: int, limit: nat, t: Tables)
    requires Size(t) <= limit
    ensures var u := Pruned(Unlocked(now), limit, t);
            && u.deliveries == DeliveriesLeft(now, t) && u.attempts == AttemptsLeft(now, t)
            && u.events == EventsLeft(now, t)
  {
    hide Execute, Pipeline, Full, Size, Cancelled, AttemptsLeft, DeliveriesLeft, EventsLeft, WEBHOOK;
    var at := Unlocked(now);
    var v := After(6, at, limit, t);
    AfterFrame(6, at, limit, t);
    AfterShrinks(6, at, limit, t);
    PipelineIsFull(WEBHOOK, now, limit, v);
    FullWebhook(now, v);
    SameLeft(now, t, v);
  }

  lemma SameLeft(now: int, t: Tables, u: Tables)
    requires SameWebhooks(t, u)
    ensures DeliveriesLeft(now, t) == DeliveriesLeft(now, u) && AttemptsLeft(now, t) == AttemptsLeft(now, u)
    ensures EventsLeft(now, t) == EventsLeft(now, u)
  {
    hide CancelAll, ExpiredPending, ExpiredAttempts, ExpiredDeliveries, ExpiredEvents;
  }

  lemma {:induction false} AfterShrinks(k: nat, at: Windows, limit: nat, t: Tables)
    requires k <= |CLASSES|
    ensures Size(After(k, at, limit, t)) <= Size(t)
  {
    hide Execute, Size;
    if k == 0 {
    } else {
      AfterShrinks(k - 1, at, limit, t);
      ExecuteShrinks(CLASSES[k - 1], at(CLASSES[k - 1]), limit, After(k - 1, at, limit, t));
    }
  }

  // ----- every run shortens the chains -----

  lemma NotLeased(now: int, t: Tables, d: Id)
    requires Doomed(now, t, d)
    ensures !t.deliveries[d].state.Leased?
  {
    assert !LeasedLeaf(t.deliveries, d, d);
  }

  /** A doomed delivery that a full run leaves had a replay. */
  lemma LeftHadReplay(now: int, t: Tables, d: Id)
    requires Doomed(now, t, d) && d in DeliveriesLeft(now, t)
    ensures HasReplay(t.deliveries, d)
  {
    hide Doomed;
    NotLeased(now, t, d);
    assert EventExpired(now, t.events, t.deliveries[d].event) by { DoomedIsExpired(now, t, d); }
    var c, a := Cancelled(now, t), AttemptsLeft(now, t);
    assert DeliveryExpired(now, c, t.events, d);
    forall x | x in a ensures a[x].delivery != d {
      assert x !in ExpiredAttempts(now, t.attempts, c, t.events);
    }
    assert HasReplay(c, d);
    var r :| r in c && c[r].replayOf == Some(d);
    assert t.deliveries[r].replayOf == Some(d);
  }

  lemma DoomedIsExpired(now: int, t: Tables, d: Id)
    requires Doomed(now, t, d)
    ensures EventExpired(now, t.events, t.deliveries[d].event)
  {
  }

  lemma LongerBefore(now: int, limit: nat, t: Tables, path: seq<Id>) returns (longer: seq<Id>)
    requires Integrity(t) && Size(t) <= limit && DoomedChain(now, Pruned(Unlocked(now), limit, t), path)
    ensures DoomedChain(now, t, longer) && |longer| == |path| + 1
  {
    hide Integrity, Size, Pruned, Thinned, Doomed, DeliveriesLeft, AttemptsLeft, EventsLeft, Chain;
    var u := Pruned(Unlocked(now), limit, t);
    RunKeepsLive(Unlocked(now), now, limit, t);
    RunKeepsIntegrity(Unlocked(now), limit, t);
    ChainBefore(now, t, u, path);
    ChainEnds(u.deliveries, path);
    DoomedBefore(now, t, u, path[|path| - 1]);
    ChainIsDoomed(now, t, path);
    FullRun(now, limit, t);
    LeftHadReplay(now, t, path[0]);
    var r :| r in t.deliveries && t.deliveries[r].replayOf == Some(path[0]);
    longer := [r] + path;
    ChainLonger(t.deliveries, r, path);
  }

  lemma ChainEnds(deliveries: map<Id, Delivery>, path: seq<Id>)
    requires Chain(deliveries, path)
    ensures path != [] && path[0] in deliveries
  {
  }

  lemma ChainLonger(deliveries: map<Id, Delivery>, r: Id, path: seq<Id>)
    requires Chain(deliveries, path) && r in deliveries && deliveries[r].replayOf == Some(path[0])
    ensures Chain(deliveries, [r] + path) && ([r] + path)[|path|] == path[|path| - 1]
  {
  }

  lemma WithinLess(now: int, limit: nat, t: Tables, n: nat)
    requires Integrity(t) && Size(t) <= limit && n >= 1 && Within(now, t, n)
    ensures Within(now, Pruned(Unlocked(now), limit, t), n - 1)
  {
    hide Integrity, Size, Pruned, DoomedChain;
    forall path | DoomedChain(now, Pruned(Unlocked(now), limit, t), path) ensures |path| <= n - 1 {
      var longer := LongerBefore(now, limit, t, path);
    }
  }

  // ----- and no run by more than one -----

  lemma ParentStays(stmt: Statement, w: Window, limit: nat, t: Tables, r: Id, d: Id)
    requires r in t.deliveries && d in t.deliveries && t.deliveries[r].replayOf == Some(d)
    ensures var u := Execute(stmt, w, limit, t).0;
            && d in u.deliveries
            && (stmt != PruneDeliveries ==> r in u.deliveries && u.deliveries[r].replayOf == Some(d))
  {
    hide Chosen;
    if stmt == PruneDeliveries {
      assert HasReplay(t.deliveries, d);
    } else if stmt != CancelDeliveries {
      hide Eligible;
    }
  }

  lemma KeysStay(stmt: Statement, w: Window, limit: nat, t: Tables)
    requires stmt != PruneDeliveries
    ensures Execute(stmt, w, limit, t).0.deliveries.Keys == t.deliveries.Keys
  {
    hide Chosen, Eligible;
  }

  lemma {:induction false} PipelineKeepsKeys(stmts: seq<Statement>, at: Windows, budget: nat, t: Tables)
    requires PruneDeliveries !in stmts
    ensures Pipeline(stmts, at, budget, t).0.deliveries.Keys == t.deliveries.Keys
    decreases |stmts|
  {
    hide Execute;
    if stmts == [] || budget == 0 {
    } else {
      KeysStay(stmts[0], at(stmts[0]), budget, t);
      var (u, n) := Execute(stmts[0], at(stmts[0]), budget, t);
      PipelineKeepsKeys(stmts[1..], at, budget - n, u);
    }
  }

  predicate Once(stmts: seq<Statement>) {
    stmts == [] || (if stmts[0] == PruneDeliveries then PruneDeliveries !in stmts[1..] else Once(stmts[1..]))
  }

  lemma {:induction false} PipelineKeepsParent(stmts: seq<Statement>, at: Windows, budget: nat, t: Tables, r: Id, d: Id)
    requires Once(stmts) && r in t.deliveries && d in t.deliveries && t.deliveries[r].replayOf == Some(d)
    ensures d in Pipeline(stmts, at, budget, t).0.deliveries
    decreases |stmts|
  {
    hide Execute;
    if stmts == [] || budget == 0 {
    } else {
      ParentStays(stmts[0], at(stmts[0]), budget, t, r, d);
      var (u, n) := Execute(stmts[0], at(stmts[0]), budget, t);
      if stmts[0] == PruneDeliveries {
        PipelineKeepsKeys(stmts[1..], at, budget - n, u);
      } else {
        PipelineKeepsParent(stmts[1..], at, budget - n, u, r, d);
      }
    }
  }

  lemma WebhookPrunesOnce()
    ensures Once(WEBHOOK)
  {
    assert WEBHOOK[1..][1..] == [PruneDeliveries, PruneEvents];
    assert PruneDeliveries !in [PruneDeliveries, PruneEvents][1..];
  }

  /** No run, whatever its batch, takes a delivery together with its replay. */
  lemma ParentSurvivesRun(now: int, limit: nat, t: Tables, r: Id, d: Id)
    requires r in t.deliveries && d in t.deliveries && t.deliveries[r].replayOf == Some(d)
    ensures d in Pruned(Unlocked(now), limit, t).deliveries
  {
    hide Execute, Pipeline, Once, WEBHOOK;
    var at := Unlocked(now);
    AfterFrame(6, at, limit, t);
    WebhookPrunesOnce();
    PipelineKeepsParent(WEBHOOK, at, limit, After(6, at, limit, t), r, d);
  }

  lemma ShorterAfter(now: int, limit: nat, t: Tables, path: seq<Id>)
    requires Integrity(t) && DoomedChain(now, t, path) && |path| > 1
    ensures DoomedChain(now, Pruned(Unlocked(now), limit, t), path[1..])
  {
    hide Integrity, Pruned, Doomed, DeliveriesThinned;
    var u, rest := Pruned(Unlocked(now), limit, t), path[1..];
    RunKeepsLive(Unlocked(now), now, limit, t);
    RunKeepsIntegrity(Unlocked(now), limit, t);
    forall i | 0 < i < |path| ensures path[i] in u.deliveries {
      ParentSurvivesRun(now, limit, t, path[i - 1], path[i]);
    }
    ChainAfter(now, t, u, path);
    DoomedAfter(now, t, u, path[|path| - 1]);
  }

  lemma ChainAfter(now: int, t: Tables, u: Tables, path: seq<Id>)
    requires Thinned(now, t, u) && Chain(t.deliveries, path) && |path| > 1
    requires forall i :: 0 < i < |path| ==> path[i] in u.deliveries
    ensures Chain(u.deliveries, path[1..])
  {
    hide EventsThinned, AttemptsThinned;
    var rest := path[1..];
    forall i | 0 < i < |rest| ensures u.deliveries[rest[i - 1]].replayOf == Some(rest[i]) {
      assert rest[i - 1] == path[i] && rest[i] == path[i + 1];
    }
  }

  // ----- settling -----

  lemma {:induction false} DescendantNeedsReplay(deliveries: map<Id, Delivery>, leaf: Id, d: Id)
    requires leaf in deliveries && Descends(deliveries, leaf, d) && leaf != d
    ensures HasReplay(deliveries, d)
    decreases deliveries[leaf].sequence
  {
    var parent := deliveries[leaf].replayOf.value;
    if parent == d {
      assert HasReplay(deliveries, d);
    } else {
      DescendantNeedsReplay(deliveries, parent, d);
    }
  }

  /** A delivery that could go is doomed. */
  lemma EligibleIsDoomed(now: int, t: Tables, d: Id)
    requires d in ExpiredDeliveries(now, t.deliveries, t.events, t.attempts)
    ensures Doomed(now, t, d)
  {
    forall leaf ensures !LeasedLeaf(t.deliveries, leaf, d) {
      if LeasedLeaf(t.deliveries, leaf, d) && leaf != d {
        DescendantNeedsReplay(t.deliveries, leaf, d);
      }
    }
  }

  lemma NothingPendingLeft(now: int, t: Tables)
    ensures ExpiredPending(now, DeliveriesLeft(now, t), EventsLeft(now, t)) == {}
    ensures ExpiredAttempts(now, AttemptsLeft(now, t), DeliveriesLeft(now, t), EventsLeft(now, t)) == {}
    ensures ExpiredEvents(now, EventsLeft(now, t), DeliveriesLeft(now, t)) == {}
  {
    hide ExpiredDeliveries;
  }

  lemma TestsExhausted(now: int, limit: nat, t: Tables)
    requires Size(t) <= limit
    ensures ExpiredSmtpTests(now, Pruned(Unlocked(now), limit, t).smtpTests) == {}
  {
    hide Execute, Pipeline, Size, ExpiredSmtpTests;
    var at := Unlocked(now);
    var v := After(5, at, limit, t);
    AfterShrinks(5, at, limit, t);
    FitsIsFull(PruneSmtpTests, now, limit, v);
    NoTestLeft(now, v.smtpTests);
    PipelineFrame(WEBHOOK, at, limit, After(6, at, limit, t));
  }

  lemma NoTestLeft(now: int, tests: map<Id, SmtpTest>)
    ensures ExpiredSmtpTests(now, tests - ExpiredSmtpTests(now, tests)) == {}
  {
  }

  lemma SizeFits(limit: nat, t: Tables)
    requires Size(t) <= limit
    ensures Fits(limit, t)
  {
  }

  /** A run whose batch fits settles everything but doomed deliveries. */
  lemma FullRunSettles(now: int, limit: nat, t: Tables)
    requires Integrity(t) && Size(t) <= limit
    requires forall d :: !Doomed(now, Pruned(Unlocked(now), limit, t), d)
    ensures Settled(now, Pruned(Unlocked(now), limit, t))
  {
    hide Integrity, Size, Pruned, Doomed, Exhausted, ExpiredPending, ExpiredAttempts, ExpiredEvents, ExpiredDeliveries,
      ExpiredSmtpTests, DeliveriesLeft, AttemptsLeft, EventsLeft;
    var u := Pruned(Unlocked(now), limit, t);
    SizeFits(limit, t);
    OneRunExhausts(now, limit, t);
    TestsExhausted(now, limit, t);
    FullRun(now, limit, t);
    NothingPendingLeft(now, t);
    forall d ensures d !in ExpiredDeliveries(now, u.deliveries, u.events, u.attempts) {
      if d in ExpiredDeliveries(now, u.deliveries, u.events, u.attempts) {
        EligibleIsDoomed(now, u, d);
      }
    }
    forall stmt: Statement ensures Eligible(stmt, now, u) == {} {
      ClassOrWebhook(stmt, now, u);
    }
  }

  lemma ClassOrWebhook(stmt: Statement, now: int, u: Tables)
    requires Exhausted(LAYERS, now, u) && ExpiredSmtpTests(now, u.smtpTests) == {}
    requires ExpiredPending(now, u.deliveries, u.events) == {}
    requires ExpiredAttempts(now, u.attempts, u.deliveries, u.events) == {}
    requires forall d :: d !in ExpiredDeliveries(now, u.deliveries, u.events, u.attempts)
    requires ExpiredEvents(now, u.events, u.deliveries) == {}
    ensures Eligible(stmt, now, u) == {}
  {
    hide ExpiredRows, ExpiredLogouts, ExpiredGenerations, ExpiredSessions, ExpiredBrowsers, ExpiredSmtpTests,
      ExpiredPending, ExpiredAttempts, ExpiredDeliveries, ExpiredEvents;
    assert ExpiredDeliveries(now, u.deliveries, u.events, u.attempts) == {};
  }

  lemma SettledHasNoDoomed(now: int, t: Tables, d: Id)
    requires Integrity(t) && Settled(now, t)
    ensures !Doomed(now, t, d)
  {
    hide Settled, Integrity;
    if Doomed(now, t, d) {
      var bound := SequenceBound(t.deliveries);
      var leaf := LeasedBelow(now, t, d, bound);
    }
  }

  lemma {:induction false} SettlesInTime(n: nat, now: int, limit: nat, t: Tables)
    requires Integrity(t) && Size(t) <= limit && n >= 1 && Within(now, t, n)
    ensures Settled(now, Times(n, now, limit, t))
  {
    hide Integrity, Size, Pruned, Settled, Within, Doomed, Total;
    var u := Pruned(Unlocked(now), limit, t);
    WithinLess(now, limit, t, n);
    RunKeepsIntegrity(Unlocked(now), limit, t);
    RunShrinks(Unlocked(now), limit, t);
    if n == 1 {
      forall d ensures !Doomed(now, u, d) {
        WithinZero(now, u, d);
      }
      FullRunSettles(now, limit, t);
      assert Times(0, now, limit, u) == u;
    } else {
      SettlesInTime(n - 1, now, limit, u);
    }
  }

  lemma WithinZero(now: int, t: Tables, d: Id)
    requires Within(now, t, 0)
    ensures !Doomed(now, t, d)
  {
    hide Doomed, DoomedChain;
    if Doomed(now, t, d) {
      DoomedAlone(now, t, d);
    }
  }

  lemma DoomedAlone(now: int, t: Tables, d: Id)
    requires Doomed(now, t, d)
    ensures DoomedChain(now, t, [d])
  {
  }

  /** No batch size settles a longer chain in fewer runs. */
  lemma {:induction false} NeverSooner(n: nat, now: int, limit: nat, t: Tables, path: seq<Id>)
    requires Integrity(t) && DoomedChain(now, t, path) && |path| > n
    ensures !Settled(now, Times(n, now, limit, t))
  {
    hide Integrity, Pruned, Settled, Doomed;
    if n == 0 {
      SettledOrDoomed(now, t, path[|path| - 1]);
    } else {
      RunKeepsIntegrity(Unlocked(now), limit, t);
      ShorterAfter(now, limit, t, path);
      NeverSooner(n - 1, now, limit, Pruned(Unlocked(now), limit, t), path[1..]);
    }
  }

  lemma SettledOrDoomed(now: int, t: Tables, d: Id)
    requires Integrity(t) && Doomed(now, t, d)
    ensures !Settled(now, t)
  {
    hide Settled, Integrity, Doomed;
    if Settled(now, t) {
      SettledHasNoDoomed(now, t, d);
    }
  }

  /**
   With a batch that fits the tables, n runs settle them exactly when no removable chain of replays
   has more than n deliveries.
   */
  lemma SettlesWithTheLongestChain(n: nat, now: int, limit: nat, t: Tables)
    requires Integrity(t) && Size(t) <= limit && n >= 1
    ensures Settled(now, Times(n, now, limit, t)) <==> Within(now, t, n)
  {
    hide Integrity, Size, Times, Settled, DoomedChain;
    if Within(now, t, n) {
      SettlesInTime(n, now, limit, t);
    } else {
      var path :| DoomedChain(now, t, path) && |path| > n;
      NeverSooner(n, now, limit, t, path);
    }
  }
}
