/**
 Start-up readiness: authenticate every live protected material page by page while other
 processes may change the inventory, and trust the scan only if the inventory revision stood still.
 */
module Readiness {
  import opened Wrappers
  import opened Collections
  import Context
  import Providers

  const PAGE_SIZE: nat := 128
  const ATTEMPTS: nat := 3

  /** Material identifiers are UUIDs. */
  const ID_BOUND: nat := 0x1_0000_0000_0000_0000_0000_0000_0000_0000
  type MaterialId = n: nat | n < ID_BOUND

  /** signingOwner: the material is owned by a signing key. */
  datatype Material = Material(provider: string, formatVersion: nat, kind: Context.MaterialKind, signingOwner: bool,
                               opaqueValue: seq<nat>)
  datatype Inventory = Inventory(revision: int, live: map<MaterialId, Material>)

  /** The inventory at every instant; each read happens at some instant. */
  type World = nat -> Inventory

  /** Revisions never go back, and two instants of one revision have the same inventory. */
  ghost predicate RevisionGuards(world: World) {
    forall i: nat, j: nat :: i <= j ==>
      world(i).revision <= world(j).revision && (world(i).revision == world(j).revision ==> world(i) == world(j))
  }

  /** The deployment around the check. */
  datatype Deployment = Deployment(
    world: World,
    readFails: nat -> bool,                           // does a database read at this instant fail?
    authenticates: (Material, nat) -> bool,           // does a provider authenticate the material at this instant?
    ownerMatches: (MaterialId, nat) -> bool,          // is there exactly one signing key for it, and does it agree?
    registrations: Providers.Registrations)

  ghost predicate Steady(world: World, from: nat, to: nat) {
    from <= to && world(from).revision == world(to).revision
  }

  lemma SteadyThroughout(world: World, from: nat, to: nat)
    requires RevisionGuards(world) && Steady(world, from, to)
    ensures forall t: nat :: from <= t <= to ==> world(t) == world(from)
  {
    forall t: nat | from <= t <= to ensures world(t) == world(from) {
      assert world(from).revision <= world(t).revision <= world(to).revision;
    }
  }

  predicate Supported(d: Deployment, m: Material) {
    Providers.SupportsRuntimeMaterial(d.registrations, m.provider, m.formatVersion, m.kind)
  }

  /** Signing keys and nothing else are owned by signing keys, which agree with them. */
  predicate Owned(d: Deployment, id: MaterialId, m: Material, t: nat) {
    if m.kind.SigningKey? then m.signingOwner && d.ownerMatches(id, t) else !m.signingOwner
  }

  /** Within the interval the material was found properly owned and was authenticated. */
  ghost predicate ReadyIn(d: Deployment, id: MaterialId, m: Material, from: nat, to: nat) {
    && (exists t: nat :: from <= t <= to && Owned(d, id, m, t))
    && (exists t: nat :: from <= t <= to && d.authenticates(m, t))
  }

  /** Every material of the inventory has a capability, is properly owned and was authenticated within the interval. */
  ghost predicate AllReady(d: Deployment, inventory: Inventory, from: nat, to: nat) {
    forall id :: id in inventory.live ==>
      Supported(d, inventory.live[id]) && ReadyIn(d, id, inventory.live[id], from, to)
  }

  /** Some material of the inventory has no capability or no proper owner or failed, or a read failed. */
  ghost predicate Blocked(d: Deployment, inventory: Inventory, from: nat, to: nat) {
    || (exists id :: id in inventory.live && !Supported(d, inventory.live[id]))
    || (exists id, t: nat :: id in inventory.live && from <= t <= to && !Owned(d, id, inventory.live[id], t))
    || (exists id, t: nat :: id in inventory.live && from <= t <= to && !d.authenticates(inventory.live[id], t))
    || (exists t: nat :: from <= t <= to && d.readFails(t))
  }

  // ----- keyset pages -----

  predicate Beyond(after: Option<MaterialId>, id: MaterialId) {
    after.None? || after.value < id
  }

  function Rest(live: map<MaterialId, Material>, after: Option<MaterialId>): set<MaterialId> {
    set id | id in live && Beyond(after, id)
  }

  lemma {:induction false} LeastExists(ids: set<MaterialId>) returns (least: MaterialId)
    requires ids != {}
    ensures least in ids && forall id :: id in ids ==> least <= id
  {
    var pick :| pick in ids;
    least := pick;
    if ids != {pick} {
      var other := LeastExists(ids - {pick});
      least := if pick < other then pick else other;
      assert forall id :: id in ids ==> id == pick || id in ids - {pick};
    }
  }

  function Least(ids: set<MaterialId>): (least: MaterialId)
    requires ids != {}
    ensures least in ids && forall id :: id in ids ==> least <= id
  {
    assert exists least :: least in ids && forall id :: id in ids ==> least <= id by {
      var least := LeastExists(ids);
    }
    var least :| least in ids && forall id :: id in ids ==> least <= id;
    least
  }

  /** The first limit identifiers strictly after the cursor, in ascending order. */
  function Page(live: map<MaterialId, Material>, after: Option<MaterialId>, limit: nat): (page: seq<MaterialId>)
    ensures |page| <= limit
    ensures page == [] <==> limit == 0 || Rest(live, after) == {}
    ensures forall i :: 0 <= i < |page| ==> page[i] in live && Beyond(after, page[i])
    ensures forall i, j :: 0 <= i < j < |page| ==> page[i] < page[j]
    decreases limit
  {
    if limit == 0 || Rest(live, after) == {} then []
    else
      var first := Least(Rest(live, after));
      [first] + Page(live, Some(first), limit - 1)
  }

  /** A page leaves out only what comes after all of it. */
  lemma {:induction false} PageIsComplete(live: map<MaterialId, Material>, after: Option<MaterialId>, limit: nat,
                                          id: MaterialId)
    requires id in live && Beyond(after, id) && id !in Page(live, after, limit)
    ensures forall i :: 0 <= i < |Page(live, after, limit)| ==> Page(live, after, limit)[i] < id
    decreases limit
  {
    if limit == 0 {
    } else {
      assert id in Rest(live, after);
      var first := Least(Rest(live, after));
      var page, rest := Page(live, after, limit), Page(live, Some(first), limit - 1);
      assert page == [first] + rest && id != first;
      assert id !in rest;
      PageIsComplete(live, Some(first), limit - 1, id);
    }
  }

  /** A page that is not full holds everything there is after its cursor. */
  lemma {:induction false} ShortPageIsLast(live: map<MaterialId, Material>, after: Option<MaterialId>, limit: nat,
                                           id: MaterialId)
    requires |Page(live, after, limit)| < limit && id in Rest(live, after)
    ensures id in Page(live, after, limit)
    decreases limit
  {
    var first := Least(Rest(live, after));
    assert Page(live, after, limit) == [first] + Page(live, Some(first), limit - 1);
    if id != first {
      ShortPageIsLast(live, Some(first), limit - 1, id);
    }
  }

  lemma ShortPageLeavesNothing(live: map<MaterialId, Material>, after: Option<MaterialId>)
    requires 0 < |Page(live, after, PAGE_SIZE)| < PAGE_SIZE
    ensures var page := Page(live, after, PAGE_SIZE); Rest(live, Some(page[|page| - 1])) == {}
  {
    hide Page;
    var page := Page(live, after, PAGE_SIZE);
    var last := page[|page| - 1];
    forall id | id in Rest(live, after) ensures id <= last {
      ShortPageIsLast(live, after, PAGE_SIZE, id);
      var i :| 0 <= i < |page| && page[i] == id;
    }
    forall id | id in live && last < id ensures id in Rest(live, after) {
      assert Beyond(after, last);
    }
  }

  /** The cursor after a number of pages of one inventory. */
  function Cursor(live: map<MaterialId, Material>, pages: nat): Option<MaterialId> {
    if pages == 0 then None else
    var page := Page(live, Cursor(live, pages - 1), PAGE_SIZE);
    if page == [] then Cursor(live, pages - 1) else Some(page[|page| - 1])
  }

  function Passed(live: map<MaterialId, Material>, after: Option<MaterialId>): set<MaterialId> {
    set id | id in live && !Beyond(after, id)
  }

  /** What a page holds lies after its cursor and up to its last entry, and nothing is held twice. */
  lemma PageEntries(live: map<MaterialId, Material>, after: Option<MaterialId>)
    requires Page(live, after, PAGE_SIZE) != []
    ensures var page := Page(live, after, PAGE_SIZE);
            && |Elements(page)| == |page|
            && forall id :: id in Elements(page) ==> id in live && Beyond(after, id) && id <= page[|page| - 1]
  {
    hide Page, Rest;
    SizeTellsDistinct(Page(live, after, PAGE_SIZE));
  }

  /** A page passes as many materials as it holds. */
  lemma PagePasses(live: map<MaterialId, Material>, after: Option<MaterialId>)
    requires Page(live, after, PAGE_SIZE) != []
    ensures var page := Page(live, after, PAGE_SIZE);
            |Passed(live, Some(page[|page| - 1]))| >= |Passed(live, after)| + |page|
  {
    hide Page, Rest, Elements;
    var page := Page(live, after, PAGE_SIZE);
    var ids, last := Elements(page), page[|page| - 1];
    PageEntries(live, after);
    assert ids !! Passed(live, after);
    assert Passed(live, after) <= Passed(live, Some(last)) by {
      assert forall id :: id in ids ==> Beyond(after, id);
      assert Beyond(after, last);
    }
    SubsetSize(Passed(live, after) + ids, Passed(live, Some(last)));
  }

  /** Every page either passes a full page of materials or leaves none behind. */
  lemma {:induction false} PagesPass(live: map<MaterialId, Material>, pages: nat)
    ensures Rest(live, Cursor(live, pages)) == {} || |Passed(live, Cursor(live, pages))| >= PAGE_SIZE * pages
  {
    hide Page, Passed;
    if pages == 0 {
    } else {
      PagesPass(live, pages - 1);
      var after := Cursor(live, pages - 1);
      var page := Page(live, after, PAGE_SIZE);
      if page != [] {
        PagePasses(live, after);
        if |page| < PAGE_SIZE {
          ShortPageLeavesNothing(live, after);
        }
      }
    }
  }

  /** One page more than the inventory fills, and nothing is left. */
  lemma ScanIsShort(live: map<MaterialId, Material>, pages: nat)
    requires pages > |live| / PAGE_SIZE
    ensures Page(live, Cursor(live, pages), PAGE_SIZE) == []
  {
    hide Cursor;
    PagesPass(live, pages);
    SubsetSize(Passed(live, Cursor(live, pages)), live.Keys);
    assert |live.Keys| == |live|;
  }

  // ----- the scan -----

  /** Everything up to the cursor has been authenticated since the scan began. */
  ghost predicate Covered(d: Deployment, inventory: Inventory, after: Option<MaterialId>, from: nat, to: nat) {
    forall id :: id in inventory.live && !Beyond(after, id) ==> ReadyIn(d, id, inventory.live[id], from, to)
  }

  lemma CoveredLater(d: Deployment, after: Option<MaterialId>, start: nat, before: nat, now: nat)
    requires RevisionGuards(d.world) && start <= before <= now
    requires Steady(d.world, start, before) ==> Covered(d, d.world(start), after, start, before)
    ensures Steady(d.world, start, now) ==> Steady(d.world, start, before)
    ensures Steady(d.world, start, now) ==> Covered(d, d.world(start), after, start, now)
  {
    if Steady(d.world, start, now) {
      SteadyThroughout(d.world, start, now);
      forall id | id in d.world(start).live && !Beyond(after, id)
        ensures ReadyIn(d, id, d.world(start).live[id], start, now)
      {
        assert ReadyIn(d, id, d.world(start).live[id], start, before);
      }
    }
  }

  /** A page skips nothing between two of its entries. */
  lemma PageHasNoGap(live: map<MaterialId, Material>, begun: Option<MaterialId>, i: nat, id: MaterialId)
    requires i < |Page(live, begun, PAGE_SIZE)| && id in live && id <= Page(live, begun, PAGE_SIZE)[i]
    requires Beyond(if i == 0 then begun else Some(Page(live, begun, PAGE_SIZE)[i - 1]), id)
    ensures id == Page(live, begun, PAGE_SIZE)[i]
  {
    hide Page, Rest;
    var page := Page(live, begun, PAGE_SIZE);
    if id !in page {
      PageIsComplete(live, begun, PAGE_SIZE, id);
    }
    var j :| 0 <= j < |page| && page[j] == id;
  }

  /** Authenticating the next entry of a page moves the covered part up to it. */
  lemma CoveredNext(d: Deployment, start: nat, read: nat, owners: nat, now: nat, begun: Option<MaterialId>, i: nat)
    requires RevisionGuards(d.world) && start <= read <= owners <= now && Steady(d.world, start, now)
    requires i < |Page(d.world(read).live, begun, PAGE_SIZE)|
    requires var page := Page(d.world(read).live, begun, PAGE_SIZE);
             && Covered(d, d.world(start), if i == 0 then begun else Some(page[i - 1]), start, now)
             && Owned(d, page[i], d.world(read).live[page[i]], owners)
             && d.authenticates(d.world(read).live[page[i]], now)
    ensures Covered(d, d.world(start), Some(Page(d.world(read).live, begun, PAGE_SIZE)[i]), start, now)
  {
    SteadyThroughout(d.world, start, now);
    var page := Page(d.world(read).live, begun, PAGE_SIZE);
    forall id | id in d.world(start).live && id <= page[i]
      ensures ReadyIn(d, id, d.world(start).live[id], start, now)
    {
      if Beyond(if i == 0 then begun else Some(page[i - 1]), id) {
        PageHasNoGap(d.world(read).live, begun, i, id);
      }
    }
  }

  /** One page: the owners of its signing keys are looked up, then entry by entry; the cursor follows the entries. */
  method AuthenticatePage(d: Deployment, ghost start: nat, read: nat, begun: Option<MaterialId>)
    returns (ok: bool, after: Option<MaterialId>, end: nat)
    requires RevisionGuards(d.world) && start <= read
    requires Steady(d.world, start, read) ==> Covered(d, d.world(start), begun, start, read)
    ensures read <= end
    ensures ok ==> var page := Page(d.world(read).live, begun, PAGE_SIZE);
                   after == if page == [] then begun else Some(page[|page| - 1])
    ensures ok && Steady(d.world, start, end) ==> Covered(d, d.world(start), after, start, end)
    ensures !ok && Steady(d.world, start, end) ==> Blocked(d, d.world(start), start, end)
  {
    hide Covered, Blocked, Rest, Owned;
    var candidates := d.world(read).live;
    var page := Page(candidates, begun, PAGE_SIZE);
    var i := 0;
    var lookup: nat :| true;
    var owners := read + lookup;
    after, end := begun, owners;
    CoveredLater(d, after, start, read, owners);
    if exists k :: 0 <= k < |page| && !Owned(d, page[k], candidates[page[k]], owners) {
      if Steady(d.world, start, owners) {
        var k :| 0 <= k < |page| && !Owned(d, page[k], candidates[page[k]], owners);
        BlockedHere(d, start, read, owners, page[k]);
      }
      return false, after, end;
    }
    while i < |page|
      invariant 0 <= i <= |page| && owners <= end
      invariant after == if i == 0 then begun else Some(page[i - 1])
      invariant Steady(d.world, start, end) ==> Covered(d, d.world(start), after, start, end)
    {
      ghost var before := end;
      var pause: nat :| true;
      end := end + pause;
      CoveredLater(d, after, start, before, end);
      if !d.authenticates(candidates[page[i]], end) {
        if Steady(d.world, start, end) {
          BlockedHere(d, start, read, end, page[i]);
        }
        return false, after, end;
      }
      if Steady(d.world, start, end) {
        CoveredNext(d, start, read, owners, end, begun, i);
      }
      after, i := Some(page[i]), i + 1;
    }
    ok := true;
  }

  lemma BlockedHere(d: Deployment, start: nat, read: nat, now: nat, id: MaterialId)
    requires RevisionGuards(d.world) && start <= read <= now && Steady(d.world, start, now)
    requires id in d.world(read).live
    requires !Owned(d, id, d.world(read).live[id], now) || !d.authenticates(d.world(read).live[id], now)
    ensures Blocked(d, d.world(start), start, now)
  {
    SteadyThroughout(d.world, start, now);
  }

  lemma NothingLeft(d: Deployment, start: nat, first: nat, now: nat, after: Option<MaterialId>)
    requires RevisionGuards(d.world) && start <= first <= now && Steady(d.world, start, now)
    requires Rest(d.world(now).live, after) == {} && Covered(d, d.world(start), after, start, now)
    requires forall id :: id in d.world(first).live ==> Supported(d, d.world(first).live[id])
    ensures AllReady(d, d.world(start), start, now)
  {
    SteadyThroughout(d.world, start, now);
    forall id | id in d.world(start).live
      ensures Supported(d, d.world(start).live[id]) && ReadyIn(d, id, d.world(start).live[id], start, now)
    {
      assert Beyond(after, id) ==> id in Rest(d.world(now).live, after);
      assert d.world(first) == d.world(start);
    }
  }

  lemma NothingToCover(d: Deployment, start: nat, now: nat)
    ensures Covered(d, d.world(start), None, start, now)
  {
  }

  /** The cursor is where that many full pages of this inventory lead. */
  predicate Follows(live: map<MaterialId, Material>, after: Option<MaterialId>, pages: nat) {
    after == Cursor(live, pages) && pages <= |live| / PAGE_SIZE + 1
  }

  /** No more reads than the inventory fills pages, one for the rest and one to see the end. */
  predicate FewPages(live: map<MaterialId, Material>, pages: nat) {
    pages <= |live| / PAGE_SIZE + 2
  }

  lemma FollowsFirst(live: map<MaterialId, Material>)
    ensures Follows(live, None, 0) && FewPages(live, 0)
  {
  }

  lemma FollowsNext(live: map<MaterialId, Material>, after: Option<MaterialId>, pages: nat)
    requires Follows(live, after, pages)
    ensures FewPages(live, pages + 1)
    ensures var page := Page(live, after, PAGE_SIZE); page != [] ==> Follows(live, Some(page[|page| - 1]), pages + 1)
  {
    hide Page, Rest;
    if pages > |live| / PAGE_SIZE {
      ScanIsShort(live, pages);
    }
  }

  /**
   The scan: whatever it answers is true of the inventory if the inventory stood still meanwhile, and
   it has then read at most two pages more than the inventory fills.
   */
  method AuthenticateInventory(d: Deployment, start: nat) returns (ok: bool, end: nat, pages: nat)
    requires RevisionGuards(d.world)
    ensures start <= end
    ensures ok && Steady(d.world, start, end) ==> AllReady(d, d.world(start), start, end)
    ensures !ok && Steady(d.world, start, end) ==> Blocked(d, d.world(start), start, end)
    ensures Steady(d.world, start, end) ==> FewPages(d.world(start).live, pages)
  {
    hide AllReady, Rest, Covered, Page, Follows, FewPages;
    FollowsFirst(d.world(start).live);
    pages := 0;
    var pause: nat :| true;
    end := start + pause;
    if d.readFails(end) {
      return false, end, pages;
    }
    ghost var first := end;
    var required := d.world(end).live;
    if exists id :: id in required && !Supported(d, required[id]) {
      if Steady(d.world, start, end) {
        SteadyThroughout(d.world, start, end);
      }
      return false, end, pages;
    }
    var after: Option<MaterialId> := None;
    assert Covered(d, d.world(start), after, start, end) by { NothingToCover(d, start, end); }
    while true
      invariant start <= first <= end
      invariant Steady(d.world, start, end) ==> Covered(d, d.world(start), after, start, end)
      invariant Steady(d.world, start, end) ==> Follows(d.world(start).live, after, pages)
      decreases if after.None? then ID_BOUND else ID_BOUND - 1 - after.value
    {
      ghost var before := end;
      pause :| true;
      end := end + pause;
      CoveredLater(d, after, start, before, end);
      if Steady(d.world, start, end) {
        FollowsNext(d.world(start).live, after, pages);
      }
      pages := pages + 1;
      if d.readFails(end) {
        return false, end, pages;
      }
      if Page(d.world(end).live, after, PAGE_SIZE) == [] {
        if Steady(d.world, start, end) {
          NothingLeft(d, start, first, end, after);
        }
        return true, end, pages;
      }
      ghost var read := end;
      ok, after, end := AuthenticatePage(d, start, end, after);
      if Steady(d.world, start, end) {
        SteadyThroughout(d.world, start, end);
        assert Steady(d.world, start, read);
      }
      if !ok {
        return false, end, pages;
      }
    }
  }

  // ----- the retry loop -----

  /** How a check ended. */
  datatype Ending =
    | NotNeeded
    | Ready(from: nat, to: nat)       // a scan of one steady inventory succeeded
    | ScanFailed(from: nat, to: nat)  // a scan of one steady inventory failed
    | ReadFailed(at: nat)
    | Unstable

  ghost predicate TrueOf(d: Deployment, start: nat, end: nat, ending: Ending) {
    match ending
    case NotNeeded => true
    case Ready(from, to) =>
      start <= from <= to <= end && Steady(d.world, from, to) && AllReady(d, d.world(from), from, to)
    case ScanFailed(from, to) =>
      start <= from <= to <= end && Steady(d.world, from, to) && Blocked(d, d.world(from), from, to)
    case ReadFailed(at) => start <= at <= end && d.readFails(at)
    case Unstable => start <= end && d.world(start).revision + ATTEMPTS <= d.world(end).revision
  }

  /** From this instant on the inventory is still, reads work, owners agree and providers authenticate. */
  ghost predicate Quiet(d: Deployment, start: nat) {
    && (forall t: nat :: t >= start ==> d.world(t) == d.world(start) && !d.readFails(t))
    && (forall id, t: nat :: id in d.world(start).live ==> Owned(d, id, d.world(start).live[id], t))
    && (forall id, t: nat :: id in d.world(start).live ==> d.authenticates(d.world(start).live[id], t))
  }

  ghost predicate AllSupported(d: Deployment, inventory: Inventory) {
    forall id :: id in inventory.live ==> Supported(d, inventory.live[id])
  }

  /** In a quiet deployment only an unsupported material is refused, however the check goes. */
  lemma QuietEndings(d: Deployment, start: nat)
    requires Quiet(d, start)
    ensures forall end: nat, ending :: TrueOf(d, start, end, ending) && !ending.NotNeeded? ==>
              (ending.Ready? <==> AllSupported(d, d.world(start)))
  {
  }

  /**
   The check accepts only if some scan of a single revision succeeded, and reports a scan failure
   only if the scan was of a single revision; otherwise the revision moved during every attempt. A
   quiet deployment is accepted exactly if every material is supported.
   */
  method ValidateReadiness(mode: Providers.Mode, d: Deployment, start: nat)
    returns (ready: bool, end: nat, ghost ending: Ending)
    requires RevisionGuards(d.world)
    ensures TrueOf(d, start, end, ending)
    ensures ending.NotNeeded? <==> mode.Control?
    ensures ready <==> ending.NotNeeded? || ending.Ready?
    ensures ready && !mode.Control? ==>
              exists from: nat, to: nat :: Steady(d.world, from, to) && AllReady(d, d.world(from), from, to)
    ensures Quiet(d, start) && !mode.Control? ==> (ready <==> AllSupported(d, d.world(start)))
  {
    hide Quiet, AllReady, Blocked;
    if Quiet(d, start) {
      QuietEndings(d, start);
    }
    end := start;
    if mode.Control? {
      return true, end, NotNeeded;
    }
    for attempt := 0 to ATTEMPTS
      invariant start <= end && d.world(start).revision + attempt <= d.world(end).revision
    {
      var pause: nat :| true;
      end := end + pause;
      if d.readFails(end) {
        return false, end, ReadFailed(end);
      }
      var from, revision := end, d.world(end).revision;
      var ok: bool;
      var pages: nat;
      ok, end, pages := AuthenticateInventory(d, from);
      ghost var scanned := end;
      pause :| true;
      end := end + pause;
      if d.readFails(end) {
        return false, end, ReadFailed(end);
      }
      if d.world(end).revision != revision {
        continue;
      }
      SteadyThroughout(d.world, from, end);
      return ok, end, if ok then Ready(from, scanned) else ScanFailed(from, scanned);
    }
    return false, end, Unstable;
  }
}
