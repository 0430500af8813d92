/** A store that valid commands grow past what the next command can read. */
module ProfileGrowth {
  import opened Wrappers
  import opened Profiles
  import opened ProfileRuns

  /** One more profile than a readable store has bytes. */
  const ADDERS: nat := MAX_STORE_BYTES + 1

  const HOST: HostText := "a"
  const ORIGIN := Url("https", "", None, Some(Domain(HOST)), None, "/", None, None)
  const REPLY := Answered(RawDescriptor("1", OwlauthServer, "i", Text(ORIGIN), ["v1"], OperatorApiKey, None))
  const ENVIRONMENT: string := "K"

  function AddOne(k: nat): Command {
    Add(Decimal(k), Text(ORIGIN), Some(ENVIRONMENT), true)
  }

  /** Processes that each want to add a profile of their own; there is no store yet. */
  function Adders(): System {
    System(None, map k: nat | k < ADDERS :: Idle(AddOne(k)))
  }

  /** The first n of them run one after the other. */
  function AddSteps(n: nat): seq<Step> {
    if n == 0 then [] else AddSteps(n - 1) + [Begun(n - 1), Replied(n - 1, REPLY), Committed(n - 1)]
  }

  // ----- names -----

  lemma {:induction false} DecimalDigits(n: nat)
    ensures Decimal(n) != "" && forall i :: 0 <= i < |Decimal(n)| ==> '0' <= Decimal(n)[i] <= '9'
  {
    if n < 10 {
    } else {
      DecimalDigits(n / 10);
    }
  }

  function Power(digits: nat): nat {
    if digits == 0 then 1 else 10 * Power(digits - 1)
  }

  lemma {:induction false} DecimalIsShort(n: nat, digits: nat)
    requires digits >= 1 && n < Power(digits)
    ensures |Decimal(n)| <= digits
    decreases digits
  {
    if n < 10 {
    } else {
      DecimalIsShort(n / 10, digits - 1);
    }
  }

  lemma {:induction false} DecimalsDiffer(a: nat, b: nat)
    requires Decimal(a) == Decimal(b)
    ensures a == b
    decreases a
  {
    var s := Decimal(a);
    if a < 10 || b < 10 {
      DecimalDigits(a / 10);
      DecimalDigits(b / 10);
    } else {
      assert s[..|s| - 1] == Decimal(a / 10) == Decimal(b / 10);
      assert s[|s| - 1] == Digit(a % 10) == Digit(b % 10);
      DecimalsDiffer(a / 10, b / 10);
    }
  }

  lemma NamesAreValid(k: nat)
    requires k < ADDERS
    ensures ValidName(Decimal(k))
  {
    DecimalDigits(k);
    assert Power(7) == 10_000_000;
    DecimalIsShort(k, 7);
  }

  function Names(n: nat): set<string> {
    set k: nat | k < n :: Decimal(k)
  }

  lemma {:induction false} NamesAreDistinct(n: nat)
    ensures |Names(n)| == n
  {
    hide Decimal;
    if n == 0 {
      assert Names(n) == {};
    } else {
      NamesAreDistinct(n - 1);
      assert Names(n) == Names(n - 1) + {Decimal(n - 1)};
      if Decimal(n - 1) in Names(n - 1) {
        var k: nat :| k < n - 1 && Decimal(k) == Decimal(n - 1);
        DecimalsDiffer(k, n - 1);
      }
    }
  }

  // ----- one add -----

  const PROFILE := Profile(ORIGIN, OwlauthServer, "i", ORIGIN, ["v1"], OperatorApiKey, ENVIRONMENT, None)

  lemma OriginIsAccepted()
    ensures ValidateEndpoint(Text(ORIGIN)) == Ok(ORIGIN) && ValidEnvironment(ENVIRONMENT)
  {
    assert Href(ORIGIN) == "https:" + "//" + "a" + "/";
  }

  lemma AddIsAsked(k: nat, file: Option<Store>, bytes: Store -> nat)
    requires k < ADDERS
    ensures Begin(AddOne(k), file, bytes) == Ok(Request(AddOne(k), Decimal(k), ORIGIN, None))
  {
    hide ValidateEndpoint, ValidName, Decimal;
    NamesAreValid(k);
    OriginIsAccepted();
  }

  lemma AddIsAnswered(k: nat)
    ensures Receive(Request(AddOne(k), Decimal(k), ORIGIN, None), REPLY) == Ok(Insert(Decimal(k), PROFILE))
  {
    hide Decimal;
    OriginIsAccepted();
    assert ValidVersion("v1") && "v1" in ["v1"];
    assert Href(ORIGIN) == "https:" + "//" + "a" + "/";
    assert DescriptorUrl(ORIGIN, Text(ORIGIN), true);
  }

  predicate Fits(file: Option<Store>, bytes: Store -> nat) {
    file.Some? ==> bytes(file.value) <= MAX_STORE_BYTES
  }

  /** The first n adds are done and the others have not begun. */
  predicate Filled(s: System, n: nat) {
    && (s.file.None? <==> n == 0)
    && (s.file.Some? ==> s.file.value.profiles.Keys == Names(n) && Loadable(s.file.value))
    && (forall k: nat :: n <= k < ADDERS ==> k in s.processes && s.processes[k] == Idle(AddOne(k)))
  }

  lemma InsertKeepsLoadable(s: Store, name: string)
    requires Loadable(s) && ValidName(name) && name !in s.profiles
    ensures Mutate(s, Insert(name, PROFILE)).Ok? && Loadable(Mutate(s, Insert(name, PROFILE)).value)
  {
    hide ValidateEndpoint, ValidName, ValidEnvironment;
    OriginIsAccepted();
  }

  /** The add commits, whatever it does to the size of the store. */
  lemma AddCommits(file: Option<Store>, n: nat, bytes: Store -> nat)
    requires n < ADDERS && Fits(file, bytes) && (file.None? <==> n == 0)
    requires file.Some? ==> file.value.profiles.Keys == Names(n) && Loadable(file.value)
    ensures var r := Commit(file, Insert(Decimal(n), PROFILE), bytes);
            r.Ok? && r.value.profiles.Keys == Names(n + 1) && Loadable(r.value)
  {
    hide Loadable, ValidName, Decimal;
    NamesAreValid(n);
    assert Loadable(EMPTY) by { EmptyLoads(); }
    assert Names(n + 1) == Names(n) + {Decimal(n)};
    if Decimal(n) in Names(n) {
      var k: nat :| k < n && Decimal(k) == Decimal(n);
      DecimalsDiffer(k, n);
    }
    InsertKeepsLoadable(if file.Some? then file.value else EMPTY, Decimal(n));
  }

  lemma EmptyLoads()
    ensures Loadable(EMPTY)
  {
  }

  lemma OneAdd(s: System, n: nat, bytes: Store -> nat)
    requires n < ADDERS && Filled(s, n) && Fits(s.file, bytes)
    ensures var asked := Next(Next(s, Begun(n), bytes), Replied(n, REPLY), bytes);
            Commits(asked, Committed(n), bytes) && Filled(Next(asked, Committed(n), bytes), n + 1)
  {
    hide Begin, Receive, Commit, Loadable, Names, AddOne, Decimal;
    AddIsAsked(n, s.file, bytes);
    AddIsAnswered(n);
    AddCommits(s.file, n, bytes);
  }

  // ----- the run -----

  lemma RunOneMore(s: System, steps: seq<Step>, step: Step, bytes: Store -> nat)
    ensures Run(s, steps + [step], bytes) == Next(Run(s, steps, bytes), step, bytes)
  {
    hide Next;
    assert (steps + [step])[..|steps|] == steps;
  }

  lemma RunThreeMore(s: System, steps: seq<Step>, a: Step, b: Step, c: Step, bytes: Store -> nat)
    ensures var asked := Next(Next(Run(s, steps, bytes), a, bytes), b, bytes);
            && Run(s, steps + [a, b, c], bytes) == Next(asked, c, bytes)
            && Run(s, (steps + [a, b, c])[..|steps| + 2], bytes) == asked
  {
    hide Next, Run;
    RunOneMore(s, steps, a, bytes);
    RunOneMore(s, steps + [a], b, bytes);
    RunOneMore(s, steps + [a] + [b], c, bytes);
    assert steps + [a] + [b] + [c] == steps + [a, b, c];
    assert (steps + [a, b, c])[..|steps| + 2] == steps + [a] + [b];
  }

  /** The last of the first n adds succeeds and leaves a store that no command can read again. */
  ghost predicate Outgrows(n: nat, bytes: Store -> nat) {
    var steps := AddSteps(n);
    && steps != [] && Commits(Run(Adders(), steps[..|steps| - 1], bytes), steps[|steps| - 1], bytes)
    && !Fits(Run(Adders(), steps, bytes).file, bytes)
    && Load(Run(Adders(), steps, bytes).file, bytes) == Err(ProfileStorage)
  }

  lemma NothingAdded(bytes: Store -> nat)
    ensures Run(Adders(), AddSteps(0), bytes) == Adders()
    ensures Initial(Adders()) && Filled(Adders(), 0)
  {
    hide AddOne, Loadable, Names;
  }

  lemma LastSteps(n: nat)
    requires n >= 1
    ensures var steps := AddSteps(n);
            && |steps| == |AddSteps(n - 1)| + 3 && steps[|steps| - 1] == Committed(n - 1)
            && steps == AddSteps(n - 1) + [Begun(n - 1), Replied(n - 1, REPLY), Committed(n - 1)]
  {
    hide REPLY;
  }

  lemma AddOutcome(n: nat, bytes: Store -> nat)
    requires 1 <= n <= ADDERS
    requires Filled(Run(Adders(), AddSteps(n - 1), bytes), n - 1)
    requires Fits(Run(Adders(), AddSteps(n - 1), bytes).file, bytes)
    ensures Filled(Run(Adders(), AddSteps(n), bytes), n)
    ensures Fits(Run(Adders(), AddSteps(n), bytes).file, bytes) || Outgrows(n, bytes)
  {
    hide Next, Commits, AddOne, AddSteps, Adders, Run, REPLY, Filled, Names;
    var before := Run(Adders(), AddSteps(n - 1), bytes);
    OneAdd(before, n - 1, bytes);
    LastSteps(n);
    RunThreeMore(Adders(), AddSteps(n - 1), Begun(n - 1), Replied(n - 1, REPLY), Committed(n - 1), bytes);
  }

  lemma {:induction false} FilledOrOutgrown(n: nat, bytes: Store -> nat)
    requires n <= ADDERS
    ensures || (exists m: nat :: m <= n && Outgrows(m, bytes))
            || (Filled(Run(Adders(), AddSteps(n), bytes), n) && Fits(Run(Adders(), AddSteps(n), bytes).file, bytes))
  {
    hide Filled, Run, AddSteps, Adders, Outgrows;
    if n == 0 {
      NothingAdded(bytes);
      assert Adders().file == None by { NoStoreYet(); }
    } else {
      FilledOrOutgrown(n - 1, bytes);
      if forall m: nat :: m <= n - 1 ==> !Outgrows(m, bytes) {
        AddOutcome(n, bytes);
      }
    }
  }

  lemma NoStoreYet()
    ensures Adders().file == None
  {
    hide AddOne;
  }

  lemma FullStoreIsTooLarge(s: System, bytes: Store -> nat)
    requires Filled(s, ADDERS) && forall t :: bytes(t) >= |t.profiles|
    ensures !Fits(s.file, bytes)
  {
    hide Names, Loadable;
    NamesAreDistinct(ADDERS);
    assert |s.file.value.profiles| == |s.file.value.profiles.Keys|;
  }

  /**
   However stores are written out, as long as every profile takes a byte, valid adds with small
   replies, starting from no store, succeed in putting a store in place that cannot be read back.
   */
  lemma ValidAddsOutgrowTheLimit(bytes: Store -> nat)
    requires forall s :: bytes(s) >= |s.profiles|
    ensures Initial(Adders()) && Adders().file == None
    ensures exists n: nat :: n <= ADDERS && Outgrows(n, bytes)
  {
    hide Outgrows, Run, AddSteps, Adders, Filled, Fits;
    NoStoreYet();
    NothingAdded(bytes);
    FilledOrOutgrown(ADDERS, bytes);
    if Filled(Run(Adders(), AddSteps(ADDERS), bytes), ADDERS) {
      FullStoreIsTooLarge(Run(Adders(), AddSteps(ADDERS), bytes), bytes);
    }
  }
}
