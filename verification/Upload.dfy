/**
 The exact-byte crate upload: look the version up, publish once if it is absent, then poll until the
 registry shows the digest of the qualified archive. Other clients may publish at any time.
 */
module Upload {
  import opened Wrappers
  import opened Bytes

  const MAX_METADATA_BYTES: nat := 1024 * 1024
  const MAX_CRATE_BYTES: nat := 20 * 1024 * 1024
  const MAX_POLL_ATTEMPTS: nat := 60

  /** Crate name and version. */
  type Key = (string, string)
  type Digest = string

  // ----- the request body -----

  function Body(metadata: seq<Byte>, archive: seq<Byte>): seq<Byte> {
    LittleEndian(|metadata|, 4) + metadata + LittleEndian(|archive|, 4) + archive
  }

  function TakeBlock(bytes: seq<Byte>): Option<(seq<Byte>, seq<Byte>)> {
    if |bytes| < 4 || |bytes| < 4 + LittleNumber(bytes[..4]) then None else
    var n := LittleNumber(bytes[..4]);
    Some((bytes[4..4 + n], bytes[4 + n..]))
  }

  /** What a registry reads from a body: two blocks and nothing after them. */
  function ParseBody(bytes: seq<Byte>): Option<(seq<Byte>, seq<Byte>)> {
    match TakeBlock(bytes)
    case None => None
    case Some((metadata, rest)) =>
      match TakeBlock(rest)
      case None => None
      case Some((archive, left)) => if left == [] then Some((metadata, archive)) else None
  }

  lemma TakeBlockOfBlock(block: seq<Byte>, rest: seq<Byte>)
    requires |block| < U32_BOUND
    ensures TakeBlock(LittleEndian(|block|, 4) + block + rest) == Some((block, rest))
  {
    PowersOfWidths();
    NumberOfLittleEndian(|block|, 4);
    var bytes := LittleEndian(|block|, 4) + block + rest;
    assert bytes[..4] == LittleEndian(|block|, 4);
    assert bytes[4..4 + |block|] == block && bytes[4 + |block|..] == rest;
  }

  /** The framed body parses back to exactly the metadata and the archive. */
  lemma BodyRoundTrip(metadata: seq<Byte>, archive: seq<Byte>)
    requires |metadata| <= MAX_METADATA_BYTES && |archive| <= MAX_CRATE_BYTES
    ensures ParseBody(Body(metadata, archive)) == Some((metadata, archive))
  {
    hide TakeBlock;
    var second := LittleEndian(|archive|, 4) + archive;
    assert Body(metadata, archive) == LittleEndian(|metadata|, 4) + metadata + second;
    TakeBlockOfBlock(metadata, second);
    assert second == LittleEndian(|archive|, 4) + archive + [];
    TakeBlockOfBlock(archive, []);
  }

  // ----- the registry -----

  /** Published versions are never changed or removed. */
  ghost predicate Grows(before: map<Key, Digest>, after: map<Key, Digest>) {
    forall k :: k in before ==> k in after && after[k] == before[k]
  }

  datatype Found = Absent | Present(digest: Digest) | NoAnswer
  datatype Answer = Accepted | Conflict | Refused

  /** One exchange of a client with the registry: what it asked for and what came back. */
  datatype Exchange =
    | Looked(key: Key, found: Found)
    | Published(key: Key, body: seq<Byte>, answer: Answer)

  /** The first body to arrive decides a version, by its archive. */
  function Receive(published: map<Key, Digest>, key: Key, body: seq<Byte>, hash: seq<Byte> -> Digest)
    : map<Key, Digest>
  {
    if ParseBody(body).None? || key in published then published
    else published[key := hash(ParseBody(body).value.1)]
  }

  /** A registry as one client sees it: between any two of its requests others may publish. */
  class Registry {
    var published: map<Key, Digest>
    ghost var log: seq<Exchange> // of this client

    /** A lookup may fail, and may not show a version yet; what it does show is there. */
    method Lookup(key: Key) returns (found: Found)
      modifies this
      ensures Grows(old(published), published)
      ensures found.Present? ==> key in published && published[key] == found.digest
      ensures log == old(log) + [Looked(key, found)]
    {
      Interfere();
      if * {
        found := NoAnswer;
      } else if * {
        found := Absent;
      } else {
        found := if key in published then Present(published[key]) else Absent;
      }
      log := log + [Looked(key, found)];
    }

    /** A request may get lost on the way, and so may its answer. */
    method Publish(key: Key, body: seq<Byte>, hash: seq<Byte> -> Digest) returns (answer: Answer)
      modifies this
      ensures Grows(old(published), published)
      ensures answer.Accepted? ==> ParseBody(body).Some? && key !in old(published)
      ensures answer.Accepted? ==> key in published && published[key] == hash(ParseBody(body).value.1)
      ensures answer.Conflict? ==> key in published
      ensures log == old(log) + [Published(key, body, answer)]
    {
      Interfere();
      answer := Refused;
      if * {
        var taken := key in published;
        published := Receive(published, key, body, hash);
        if * {
          answer := if ParseBody(body).None? then Refused else if taken then Conflict else Accepted;
        }
      }
      log := log + [Published(key, body, answer)];
    }

    method Interfere()
      modifies this
      ensures Grows(old(published), published) && log == old(log)
    {
      var others: map<Key, Digest> :| true;
      published := others + published;
    }
  }

  // ----- the protocol of one run -----

  datatype Candidate = Candidate(key: Key, metadata: seq<Byte>, archive: seq<Byte>)

  predicate Admitted(c: Candidate, attempts: nat) {
    && 0 < |c.metadata| <= MAX_METADATA_BYTES && 0 < |c.archive| <= MAX_CRATE_BYTES
    && 1 <= attempts <= MAX_POLL_ATTEMPTS
  }

  datatype UploadError = Rejected | DifferentBytes | RegistryFailure | NotVisible

  /** Where a run is; Ended holds what it reports. */
  datatype Phase = Starting | Publishing | Polling(left: nat) | Ended(result: Result<Digest, UploadError>)

  function Start(c: Candidate, attempts: nat): Phase {
    if Admitted(c, attempts) then Starting else Ended(Err(Rejected))
  }

  /** May a run in this phase make this request? */
  predicate Permitted(c: Candidate, phase: Phase, e: Exchange) {
    match phase
    case Ended(_) => false
    case Publishing => e.Published? && e.key == c.key && e.body == Body(c.metadata, c.archive)
    case _ => e.Looked? && e.key == c.key
  }

  /** What the answer means to the run. */
  function Advance(phase: Phase, attempts: nat, expected: Digest, e: Exchange): Phase {
    match (phase, e)
    case (Starting, Looked(_, Absent)) => Publishing
    case (Polling(left), Looked(_, Absent)) => if left <= 1 then Ended(Err(NotVisible)) else Polling(left - 1)
    case (_, Looked(_, Present(digest))) => Ended(if digest == expected then Ok(expected) else Err(DifferentBytes))
    case (Publishing, Published(_, _, answer)) =>
      if answer.Refused? then Ended(Err(RegistryFailure)) else Polling(attempts)
    case _ => Ended(Err(RegistryFailure))
  }

  /** The phase a run reaches by these exchanges; None if it would not have made one of them. */
  function Reached(c: Candidate, attempts: nat, expected: Digest, log: seq<Exchange>): Option<Phase> {
    if log == [] then Some(Start(c, attempts)) else
    match Reached(c, attempts, expected, log[..|log| - 1])
    case None => None
    case Some(phase) =>
      if Permitted(c, phase, log[|log| - 1]) then Some(Advance(phase, attempts, expected, log[|log| - 1])) else None
  }

  /** At most one publish, of the qualified bytes, directly after the version was seen absent. */
  ghost predicate PublishesOnce(c: Candidate, log: seq<Exchange>) {
    && (forall i, j :: 0 <= i < j < |log| ==> !(log[i].Published? && log[j].Published?))
    && (forall i :: 0 <= i < |log| && log[i].Published? ==>
          i > 0 && log[i - 1] == Looked(c.key, Absent) && log[i].key == c.key
          && ParseBody(log[i].body) == Some((c.metadata, c.archive)))
  }

  /** Nothing has been published before this phase. */
  predicate Early(phase: Phase) {
    phase.Starting? || phase.Publishing?
  }

  /** Whatever the answers, a run that follows the protocol publishes at most once. */
  lemma {:induction false} ProtocolPublishesOnce(c: Candidate, attempts: nat, expected: Digest, log: seq<Exchange>)
    requires Reached(c, attempts, expected, log).Some?
    ensures PublishesOnce(c, log)
    ensures Early(Reached(c, attempts, expected, log).value) ==> forall i :: 0 <= i < |log| ==> !log[i].Published?
    ensures Reached(c, attempts, expected, log).value.Publishing? ==>
              log != [] && log[|log| - 1] == Looked(c.key, Absent)
    ensures log != [] ==> Admitted(c, attempts)
  {
    hide ParseBody, Body;
    if log == [] {
    } else {
      var front, last := log[..|log| - 1], log[|log| - 1];
      ProtocolPublishesOnce(c, attempts, expected, front);
      assert log == front + [last];
      if last.Published? {
        BodyRoundTrip(c.metadata, c.archive);
      }
    }
  }

  /** The number of exchanges says how far a run is. */
  predicate Paced(phase: Phase, attempts: nat, exchanges: nat) {
    match phase
    case Starting => exchanges == 0
    case Publishing => exchanges == 1
    case Polling(left) => 1 <= left <= attempts && exchanges == attempts + 2 - left
    case Ended(_) => exchanges <= attempts + 2
  }

  /** A run makes at most two exchanges more than it polls, and has then ended. */
  lemma {:induction false} ProtocolEnds(c: Candidate, attempts: nat, expected: Digest, log: seq<Exchange>)
    requires Reached(c, attempts, expected, log).Some?
    ensures Paced(Reached(c, attempts, expected, log).value, attempts, |log|)
    ensures |log| <= attempts + 2 && (|log| == attempts + 2 ==> Reached(c, attempts, expected, log).value.Ended?)
  {
    hide Body;
    if log == [] {
    } else {
      ProtocolEnds(c, attempts, expected, log[..|log| - 1]);
      ProtocolPublishesOnce(c, attempts, expected, log);
    }
  }

  // ----- the upload -----

  ghost predicate Holds(registry: Registry, key: Key, digest: Digest)
    reads registry
  {
    key in registry.published && registry.published[key] == digest
  }

  /** The exchanges of this client since a given log. */
  ghost function Since(registry: Registry, before: seq<Exchange>): seq<Exchange>
    reads registry
  {
    if before <= registry.log then registry.log[|before|..] else []
  }

  /** One more exchange of a run. */
  lemma OneMore(c: Candidate, attempts: nat, expected: Digest, log: seq<Exchange>, e: Exchange)
    requires Reached(c, attempts, expected, log).Some? && Permitted(c, Reached(c, attempts, expected, log).value, e)
    ensures Reached(c, attempts, expected, log + [e])
         == Some(Advance(Reached(c, attempts, expected, log).value, attempts, expected, e))
  {
    hide Advance, Permitted;
    assert (log + [e])[..|log + [e]| - 1] == log;
  }

  /** Poll until the version shows; only the expected digest is success. */
  method WaitForChecksum(registry: Registry, c: Candidate, expected: Digest, attempts: nat, ghost before: seq<Exchange>)
    returns (r: Result<Digest, UploadError>)
    requires attempts >= 1 && before <= registry.log
    requires Reached(c, attempts, expected, Since(registry, before)) == Some(Polling(attempts))
    modifies registry
    ensures Grows(old(registry.published), registry.published)
    ensures r.Ok? ==> r.value == expected && Holds(registry, c.key, expected)
    ensures r == Err(DifferentBytes) ==> c.key in registry.published && registry.published[c.key] != expected
    ensures r == Err(DifferentBytes) ==> !old(Holds(registry, c.key, expected))
    ensures before <= registry.log && old(Since(registry, before)) <= Since(registry, before)
    ensures Reached(c, attempts, expected, Since(registry, before)) == Some(Ended(r))
  {
    hide Reached;
    for attempt := 0 to attempts
      invariant Grows(old(registry.published), registry.published) && before <= registry.log
      invariant old(Since(registry, before)) <= Since(registry, before)
      invariant Reached(c, attempts, expected, Since(registry, before)) ==
                Some(if attempt < attempts then Polling(attempts - attempt) else Ended(Err(NotVisible)))
    {
      ghost var log := Since(registry, before);
      var found := registry.Lookup(c.key);
      assert Since(registry, before) == log + [Looked(c.key, found)];
      OneMore(c, attempts, expected, log, Looked(c.key, found));
      match found {
        case NoAnswer => return Err(RegistryFailure);
        case Present(digest) =>
          if digest != expected {
            return Err(DifferentBytes);
          }
          return Ok(expected);
        case Absent =>
      }
    }
    return Err(NotVisible);
  }

  lemma OnlyPublish(c: Candidate, log: seq<Exchange>, i: nat, e: Exchange)
    requires PublishesOnce(c, log) && i < |log| && log[i].Published? && e in log && e.Published?
    ensures e == log[i]
  {
    var j :| 0 <= j < |log| && log[j] == e;
    assert !(i < j) && !(j < i);
  }

  /** The log of a run after its first lookup. */
  lemma AfterLookup(c: Candidate, attempts: nat, expected: Digest, found: Found)
    requires Admitted(c, attempts)
    ensures var log := [Looked(c.key, found)];
            && Reached(c, attempts, expected, log) == Some(Advance(Starting, attempts, expected, log[0]))
            && PublishesOnce(c, log)
  {
    hide Advance;
    var log := [Looked(c.key, found)];
    assert log[..|log| - 1] == [] && Reached(c, attempts, expected, []) == Some(Starting);
  }

  /** The log of a run after its publish. */
  lemma AfterPublish(c: Candidate, attempts: nat, expected: Digest, answer: Answer)
    requires Admitted(c, attempts)
    ensures var log := [Looked(c.key, Absent), Published(c.key, Body(c.metadata, c.archive), answer)];
            && Reached(c, attempts, expected, log) == Some(Advance(Publishing, attempts, expected, log[1]))
            && PublishesOnce(c, log)
  {
    hide Reached, PublishesOnce, Body;
    AfterLookup(c, attempts, expected, Absent);
    var log := [Looked(c.key, Absent)] + [Published(c.key, Body(c.metadata, c.archive), answer)];
    OneMore(c, attempts, expected, [Looked(c.key, Absent)], log[1]);
    ProtocolPublishesOnce(c, attempts, expected, log);
    assert log == [Looked(c.key, Absent), Published(c.key, Body(c.metadata, c.archive), answer)];
  }

  /** What a finished log says about an accepted publish. */
  lemma AcceptedOnlyOnce(c: Candidate, attempts: nat, expected: Digest, answer: Answer, log: seq<Exchange>)
    requires Reached(c, attempts, expected, log).Some?
    requires [Looked(c.key, Absent), Published(c.key, Body(c.metadata, c.archive), answer)] <= log
    ensures PublishesOnce(c, log)
    ensures Published(c.key, Body(c.metadata, c.archive), Accepted) in log ==> answer == Accepted
  {
    hide Reached, PublishesOnce, Body;
    ProtocolPublishesOnce(c, attempts, expected, log);
    assert log[1] == Published(c.key, Body(c.metadata, c.archive), answer);
    if Published(c.key, Body(c.metadata, c.archive), Accepted) in log {
      OnlyPublish(c, log, 1, Published(c.key, Body(c.metadata, c.archive), Accepted));
    }
  }

  /**
   One run follows the protocol to its end: its exchanges hold at most one publish, of the qualified
   bytes, directly after the version was seen absent; success means the registry holds the digest of
   exactly those bytes, and an accepted publish is never reported as different bytes.
   */
  method Run(registry: Registry, c: Candidate, attempts: nat, hash: seq<Byte> -> Digest)
    returns (r: Result<Digest, UploadError>)
    modifies registry
    ensures Grows(old(registry.published), registry.published)
    ensures old(registry.log) <= registry.log
    ensures Reached(c, attempts, hash(c.archive), Since(registry, old(registry.log))) == Some(Ended(r))
    ensures PublishesOnce(c, Since(registry, old(registry.log)))
    ensures r == Err(Rejected) <==> !Admitted(c, attempts)
    ensures r == Err(Rejected) ==> registry.published == old(registry.published) && registry.log == old(registry.log)
    ensures r.Ok? ==> r.value == hash(c.archive) && Holds(registry, c.key, hash(c.archive))
    ensures r == Err(DifferentBytes) ==> c.key in registry.published && registry.published[c.key] != hash(c.archive)
    ensures Published(c.key, Body(c.metadata, c.archive), Accepted) in Since(registry, old(registry.log)) ==>
              Holds(registry, c.key, hash(c.archive)) && r != Err(DifferentBytes)
  {
    if !Admitted(c, attempts) {
      assert Since(registry, old(registry.log)) == [];
      return Err(Rejected);
    }
    assert 1 <= attempts && |c.metadata| <= MAX_METADATA_BYTES && |c.archive| <= MAX_CRATE_BYTES;
    hide Body, ParseBody, Reached, PublishesOnce, Admitted;
    ghost var before := registry.log;
    var expected := hash(c.archive);
    var existing := registry.Lookup(c.key);
    assert Since(registry, before) == [Looked(c.key, existing)];
    AfterLookup(c, attempts, expected, existing);
    match existing {
      case NoAnswer => return Err(RegistryFailure);
      case Present(digest) =>
        if digest != expected {
          return Err(DifferentBytes);
        }
        return Ok(expected);
      case Absent =>
    }
    var body := Body(c.metadata, c.archive);
    BodyRoundTrip(c.metadata, c.archive);
    var answer := registry.Publish(c.key, body, hash);
    assert Since(registry, before) == [Looked(c.key, Absent), Published(c.key, body, answer)];
    AfterPublish(c, attempts, expected, answer);
    if answer.Refused? {
      return Err(RegistryFailure);
    }
    r := WaitForChecksum(registry, c, expected, attempts, before);
    AcceptedOnlyOnce(c, attempts, expected, answer, Since(registry, before));
  }
}
