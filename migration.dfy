/** The admin commands that move channels from the bot's own reposting to
    Discord's native channel following: `migratability` (how many channels
    could be moved), `migrate` (follow the announcement channel from each
    enabled channel, optionally disabling the legacy record) and
    `disable_moved` (disable the legacy record of channels that already
    follow).

    What Discord answers for a channel (fetching it, listing its webhooks,
    following) is an input: a function from channel id to those answers as
    they stand when the command starts. */
module MigrationCommands {
  import opened Base
  import CustomChecks

  // ---------------------------------------------------------------------
  // REST answers
  // ---------------------------------------------------------------------

  /** The errors the commands tell apart; `OtherError` is any other exception. */
  datatype RestError = BadRequest | Forbidden | NotFound | OtherError

  /** Looking a channel up in the cache or fetching it. */
  datatype ChannelFetch =
    | Fetched(inGuild: bool)          // a channel; `inGuild`: it has a `guild_id`
    | FetchFailed(error: RestError)

  /** The channel's webhooks: the source channel of each follower webhook. */
  datatype WebhookFetch =
    | FollowerSources(sources: seq<int>)
    | WebhooksFailed(error: RestError)

  /** Everything Discord answers about one channel during `migrate` and
      `disable_moved`; `follow` is the error of `follow_channel`, if any. */
  datatype Probe = Probe(channel: ChannelFetch, webhooks: WebhookFetch, follow: Option<RestError>)

  // ---------------------------------------------------------------------
  // Collecting the batch
  // ---------------------------------------------------------------------

  /** One autopost channel table with the announcement channel it follows. */
  datatype AutopostTable = AutopostTable(followChannel: int, rows: seq<ChannelRecord>)

  /** The enabled rows of every table, table after table. */
  function AllEnabled(tables: seq<AutopostTable>): seq<ChannelRecord> {
    if tables == [] then []
    else AllEnabled(tables[..|tables| - 1]) + EnabledOnly(tables[|tables| - 1].rows)
  }

  /** The batch holds exactly the enabled rows of the tables. */
  lemma {:induction false} AllEnabledMembers(tables: seq<AutopostTable>)
    ensures forall r :: r in AllEnabled(tables) <==> exists k :: 0 <= k < |tables| && r in tables[k].rows && r.enabled
  {
    if tables != [] {
      var init := tables[..|tables| - 1];
      AllEnabledMembers(init);
      assert forall k :: 0 <= k < |init| ==> init[k] == tables[k];
    }
  }

  /** The collection loop shared by `migrate` and `disable_moved`. Its loop
      variable outlives the loop, so the follow channel the commands go on
      to use is that of the LAST table, for the records of every table. */
  method CollectBatch(tables: seq<AutopostTable>) returns (batch: seq<ChannelRecord>, follow: Option<int>)
    ensures batch == AllEnabled(tables)
    ensures tables == [] ==> follow == None
    ensures tables != [] ==> follow == Some(tables[|tables| - 1].followChannel)
  {
    batch := [];
    follow := None;
    var k := 0;
    while k < |tables|
      invariant 0 <= k <= |tables|
      invariant batch == AllEnabled(tables[..k])
      invariant k == 0 ==> follow == None
      invariant k > 0 ==> follow == Some(tables[k - 1].followChannel)
    {
      assert tables[..k + 1][..k] == tables[..k];
      follow := Some(tables[k].followChannel);
      batch := batch + EnabledOnly(tables[k].rows);
      k := k + 1;
    }
    assert tables[..k] == tables;
  }

  // ---------------------------------------------------------------------
  // migrate
  // ---------------------------------------------------------------------

  /** What `migrate` makes of one record. */
  datatype MigrateOutcome =
    | Failed(error: RestError)   // counted under that error; OtherError is a misc exception
    | NotInGuild                 // `channel.guild_id` raised AttributeError
    | KyberSkipped               // the Kyber server's own channels are left alone
    | FollowingDisabled          // a negative follow id: FeatureDisabledError, only logged
    | AlreadyFollowing           // a follower webhook from the follow channel exists
    | Migrated                   // the channel now follows the announcement channel

  /** The try-block of `migrate` for one record, answered by `p`. The
      follower webhooks Discord lists for the channel are those of `p`
      plus one for every channel in `followed`, the channels this batch
      has already made follow the announcement channel. */
  function MigrateVerdict(r: ChannelRecord, p: Probe, follow: int, kyber: int, followed: set<int>): MigrateOutcome {
    match p.channel
    case FetchFailed(e) => Failed(e)
    case Fetched(inGuild) =>
      if !inGuild then NotInGuild
      else if r.serverId == kyber then KyberSkipped
      else if follow < 0 then FollowingDisabled
      else match p.webhooks
        case WebhooksFailed(e) => Failed(e)
        case FollowerSources(sources) =>
          if follow in sources || r.id in followed then AlreadyFollowing
          else match p.follow
            case Some(e) => Failed(e)
            case None => Migrated
  }

  /** The record loop of `migrate` run over `records`: the outcome of every
      record in batch order, and the channels it made follow. `probe`
      answers for each channel as it was before the batch. */
  function MigrateRun(records: seq<ChannelRecord>, follow: int, kyber: int, probe: int -> Probe)
    : (run: (seq<MigrateOutcome>, set<int>))
    ensures |run.0| == |records|
  {
    if records == [] then ([], {})
    else
      var last := records[|records| - 1];
      var prev := MigrateRun(records[..|records| - 1], follow, kyber, probe);
      var o := MigrateVerdict(last, probe(last.id), follow, kyber, prev.1);
      (prev.0 + [o], if o == Migrated then prev.1 + {last.id} else prev.1)
  }

  function MigrateOutcomes(records: seq<ChannelRecord>, follow: int, kyber: int, probe: int -> Probe): seq<MigrateOutcome> {
    MigrateRun(records, follow, kyber, probe).0
  }

  /** The outcome of record `i` is the verdict on it given the channels
      the records before it made follow. */
  lemma {:induction false} MigrateOutcomeAt(records: seq<ChannelRecord>, follow: int, kyber: int, probe: int -> Probe, i: nat)
    requires i < |records|
    ensures MigrateOutcomes(records, follow, kyber, probe)[i]
      == MigrateVerdict(records[i], probe(records[i].id), follow, kyber, MigrateRun(records[..i], follow, kyber, probe).1)
  {
    var init := records[..|records| - 1];
    if i < |records| - 1 {
      MigrateOutcomeAt(init, follow, kyber, probe, i);
      assert init[i] == records[i];
      assert init[..i] == records[..i];
    } else {
      assert records[..i] == init;
    }
  }

  /** The channels the loop made follow include every migrated record's. */
  lemma {:induction false} MigratedFollowed(records: seq<ChannelRecord>, follow: int, kyber: int, probe: int -> Probe, i: nat)
    requires i < |records| && MigrateOutcomes(records, follow, kyber, probe)[i] == Migrated
    ensures records[i].id in MigrateRun(records, follow, kyber, probe).1
  {
    var n := |records| - 1;
    if i < n {
      var init := records[..n];
      assert MigrateRun(records, follow, kyber, probe).0[i] == MigrateRun(init, follow, kyber, probe).0[i];
      MigratedFollowed(init, follow, kyber, probe, i);
      assert init[i] == records[i];
    }
  }

  /** A channel enabled in several tables is followed once: no two
      records of the same channel are both migrated in one batch. */
  lemma {:induction false} MigratedOnce(records: seq<ChannelRecord>, follow: int, kyber: int, probe: int -> Probe)
    ensures var os := MigrateOutcomes(records, follow, kyber, probe);
      forall i, j :: 0 <= i < j < |records| && os[i] == Migrated && os[j] == Migrated ==> records[i].id != records[j].id
  {
    if records != [] {
      var n := |records| - 1;
      var init := records[..n];
      var os := MigrateOutcomes(records, follow, kyber, probe);
      var prev := MigrateRun(init, follow, kyber, probe);
      MigratedOnce(init, follow, kyber, probe);
      assert os[..n] == prev.0;
      forall i, j | 0 <= i < j < |records| && os[i] == Migrated && os[j] == Migrated
        ensures records[i].id != records[j].id
      {
        assert init[i] == records[i];
        if j == n {
          MigratedFollowed(init, follow, kyber, probe, i);
          assert os[n] == MigrateVerdict(records[n], probe(records[n].id), follow, kyber, prev.1);
        } else {
          assert init[j] == records[j];
          assert prev.0[i] == os[i] && prev.0[j] == os[j];
        }
      }
    }
  }

  /** How many elements of `s` equal `x`. */
  function CountOf<T(==)>(s: seq<T>, x: T): nat {
    if s == [] then 0 else CountOf(s[..|s| - 1], x) + (if s[|s| - 1] == x then 1 else 0)
  }

  lemma CountSnoc<T>(s: seq<T>, y: T, x: T)
    ensures CountOf(s + [y], x) == CountOf(s, x) + (if y == x then 1 else 0)
  {
    assert (s + [y])[..|s|] == s;
  }

  /** `CountOf` is the multiplicity of `x` in the multiset of `s`. */
  lemma {:induction false} CountIsMultiplicity<T>(s: seq<T>, x: T)
    ensures CountOf(s, x) == multiset(s)[x]
  {
    if s != [] {
      var init := s[..|s| - 1];
      CountIsMultiplicity(init, x);
      assert s == init + [s[|s| - 1]];
      assert multiset(s) == multiset(init) + multiset{s[|s| - 1]};
    }
  }

  /** The counters `migrate` reports. */
  datatype MigrateTally = MigrateTally(
    badRequest: nat, forbidden: nat, notFound: nat, notGuild: nat, misc: nat,
    migrated: nat, iterations: nat)

  function Sum(t: MigrateTally): nat {
    t.badRequest + t.forbidden + t.notFound + t.notGuild + t.misc + t.migrated
  }

  /** The counters after the records with outcomes `os`: each error and
      each migration under its own counter, every record an iteration. */
  function TallyOf(os: seq<MigrateOutcome>): MigrateTally {
    MigrateTally(
      CountOf(os, Failed(BadRequest)), CountOf(os, Failed(Forbidden)), CountOf(os, Failed(NotFound)),
      CountOf(os, NotInGuild), CountOf(os, Failed(OtherError)), CountOf(os, Migrated), |os|)
  }

  /** No record is counted twice: the counters add up to at most the
      number of iterations, the rest being skipped or already following. */
  lemma {:induction false} TallyBounded(os: seq<MigrateOutcome>)
    ensures Sum(TallyOf(os)) <= TallyOf(os).iterations
  {
    if os != [] {
      TallyBounded(os[..|os| - 1]);
    }
  }

  /** A record after `migrate`: disabled iff it was migrated and the admin
      asked for moved channels to be disabled. */
  function AfterMigrate(r: ChannelRecord, o: MigrateOutcome, disableMoved: bool): ChannelRecord {
    if disableMoved && o == Migrated then r.(enabled := false) else r
  }

  /** The loop of `migrate` over the collected records: each record is
      sorted into at most one counter and, when it was migrated and the
      admin asked for it, disabled in place. A channel followed for one
      record already has its follower webhook for the next record of the
      same channel. */
  method Migrate(batch: array<ChannelRecord>, follow: int, kyber: int, disableMoved: bool, probe: int -> Probe)
    returns (tally: MigrateTally)
    modifies batch
    ensures tally == TallyOf(MigrateOutcomes(old(batch[..]), follow, kyber, probe))
    ensures forall i :: 0 <= i < batch.Length ==>
      batch[i] == AfterMigrate(old(batch[i]), MigrateOutcomes(old(batch[..]), follow, kyber, probe)[i], disableMoved)
  {
    ghost var before := batch[..];
    ghost var outcomes: seq<MigrateOutcome> := [];
    var followed: set<int> := {};
    var notFound, forbidden, badRequest, notGuild, misc, migrated, iterations := 0, 0, 0, 0, 0, 0, 0;
    var i := 0;
    while i < batch.Length
      invariant 0 <= i <= batch.Length
      invariant |outcomes| == i == iterations
      invariant (outcomes, followed) == MigrateRun(before[..i], follow, kyber, probe)
      invariant badRequest == CountOf(outcomes, Failed(BadRequest)) && forbidden == CountOf(outcomes, Failed(Forbidden))
      invariant notFound == CountOf(outcomes, Failed(NotFound)) && misc == CountOf(outcomes, Failed(OtherError))
      invariant notGuild == CountOf(outcomes, NotInGuild) && migrated == CountOf(outcomes, Migrated)
      invariant forall j :: 0 <= j < i ==> batch[j] == AfterMigrate(before[j], outcomes[j], disableMoved)
      invariant forall j :: i <= j < batch.Length ==> batch[j] == before[j]
    {
      var record := batch[i];
      var outcome := MigrateVerdict(record, probe(record.id), follow, kyber, followed);
      assert before[..i + 1][..i] == before[..i];
      batch[i] := AfterMigrate(record, outcome, disableMoved);
      if outcome == Failed(BadRequest) { badRequest := badRequest + 1; }
      else if outcome == Failed(Forbidden) { forbidden := forbidden + 1; }
      else if outcome == Failed(NotFound) { notFound := notFound + 1; }
      else if outcome == Failed(OtherError) { misc := misc + 1; }
      else if outcome == NotInGuild { notGuild := notGuild + 1; }
      else if outcome == Migrated { migrated := migrated + 1; followed := followed + {record.id}; }
      CountSnoc(outcomes, outcome, Failed(BadRequest));
      CountSnoc(outcomes, outcome, Failed(Forbidden));
      CountSnoc(outcomes, outcome, Failed(NotFound));
      CountSnoc(outcomes, outcome, Failed(OtherError));
      CountSnoc(outcomes, outcome, NotInGuild);
      CountSnoc(outcomes, outcome, Migrated);
      outcomes := outcomes + [outcome];
      iterations := iterations + 1;
      i := i + 1;
    }
    assert before[..i] == before;
    tally := MigrateTally(badRequest, forbidden, notFound, notGuild, misc, migrated, iterations);
  }

  /** `migrate` as a whole: collect the enabled records of the three tables,
      then run the record loop with the follow channel the collection loop
      left behind, the last table's, for every record. The records come
      back as the loop left them, ready to be committed. */
  method MigrateCommand(tables: seq<AutopostTable>, kyber: int, disableMoved: bool, probe: int -> Probe)
    returns (tally: MigrateTally, records: seq<ChannelRecord>)
    requires tables != []
    ensures tally == TallyOf(MigrateOutcomes(AllEnabled(tables), tables[|tables| - 1].followChannel, kyber, probe))
    ensures tally.iterations == |AllEnabled(tables)| == |records|
    ensures forall i :: 0 <= i < |records| ==>
      records[i] == AfterMigrate(AllEnabled(tables)[i],
                                 MigrateOutcomes(AllEnabled(tables), tables[|tables| - 1].followChannel, kyber, probe)[i],
                                 disableMoved)
  {
    var batch, follow := CollectBatch(tables);
    var rows := new ChannelRecord[|batch|](i requires 0 <= i < |batch| => batch[i]);
    assert rows[..] == batch;
    tally := Migrate(rows, follow.value, kyber, disableMoved, probe);
    records := rows[..];
  }

  /** The Kyber server's own channels are never followed, counted as
      migrated, or altered. */
  lemma KyberNeverMigrated(r: ChannelRecord, p: Probe, follow: int, kyber: int, followed: set<int>, disableMoved: bool)
    requires r.serverId == kyber
    ensures MigrateVerdict(r, p, follow, kyber, followed) != Migrated
    ensures AfterMigrate(r, MigrateVerdict(r, p, follow, kyber, followed), disableMoved) == r
  {
  }

  /** With following disabled (a negative follow id) nothing is migrated,
      and the only counted records are those whose channel could not be
      fetched or is not in a guild. */
  lemma NegativeFollowMigratesNothing(records: seq<ChannelRecord>, follow: int, kyber: int, probe: int -> Probe)
    requires follow < 0
    ensures TallyOf(MigrateOutcomes(records, follow, kyber, probe)).migrated == 0
    ensures forall i :: 0 <= i < |records| && MigrateOutcomes(records, follow, kyber, probe)[i].Failed? ==>
      probe(records[i].id).channel.FetchFailed?
  {
    var os := MigrateOutcomes(records, follow, kyber, probe);
    forall i | 0 <= i < |records|
      ensures os[i] != Migrated
      ensures os[i].Failed? ==> probe(records[i].id).channel.FetchFailed?
    {
      MigrateOutcomeAt(records, follow, kyber, probe, i);
    }
    assert Migrated !in os;
    CountIsMultiplicity(os, Migrated);
  }

  /** Without `disable_moved` the batch is left as it was. */
  lemma KeepWhenNotDisabling(r: ChannelRecord, o: MigrateOutcome)
    ensures AfterMigrate(r, o, false) == r
    ensures AfterMigrate(r, o, true).enabled != r.enabled ==> o == Migrated && r.enabled
  {
  }

  // ---------------------------------------------------------------------
  // disable_moved
  // ---------------------------------------------------------------------

  /** What `disable_moved` makes of one record. */
  datatype DisableOutcome =
    | Disabled       // already follows the announcement channel
    | NotFollowing
    | KyberIgnored
    | Logged         // an exception, only logged

  function DisableVerdict(r: ChannelRecord, p: Probe, follow: int, kyber: int): DisableOutcome {
    match p.channel
    case FetchFailed(_) => Logged
    case Fetched(_) =>
      if r.serverId == kyber then KyberIgnored
      else if follow < 0 then Logged
      else match p.webhooks
        case WebhooksFailed(_) => Logged
        case FollowerSources(sources) => if follow in sources then Disabled else NotFollowing
  }

  function DisableOutcomes(records: seq<ChannelRecord>, follow: int, kyber: int, probe: int -> Probe): (os: seq<DisableOutcome>)
    ensures |os| == |records|
  {
    if records == [] then []
    else
      var last := records[|records| - 1];
      DisableOutcomes(records[..|records| - 1], follow, kyber, probe) + [DisableVerdict(last, probe(last.id), follow, kyber)]
  }

  lemma {:induction false} DisableOutcomeAt(records: seq<ChannelRecord>, follow: int, kyber: int, probe: int -> Probe, i: nat)
    requires i < |records|
    ensures DisableOutcomes(records, follow, kyber, probe)[i] == DisableVerdict(records[i], probe(records[i].id), follow, kyber)
  {
    if i < |records| - 1 {
      var init := records[..|records| - 1];
      DisableOutcomeAt(init, follow, kyber, probe, i);
      assert init[i] == records[i];
    }
  }

  /** A record after `disable_moved`: disabled iff it already follows and
      this is not a dry run. */
  function AfterDisable(r: ChannelRecord, o: DisableOutcome, dryRun: bool): ChannelRecord {
    if !dryRun && o == Disabled then r.(enabled := false) else r
  }

  /** The loop of `disable_moved`: in a dry run the records are left alone
      but the channels that would be disabled are still counted, so the
      count does not depend on `dryRun`. */
  method DisableMovedChannels(batch: array<ChannelRecord>, follow: int, kyber: int, dryRun: bool, probe: int -> Probe)
    returns (disabled: nat, iterations: nat)
    modifies batch
    ensures iterations == batch.Length
    ensures disabled == CountOf(DisableOutcomes(old(batch[..]), follow, kyber, probe), Disabled)
    ensures dryRun ==> forall i :: 0 <= i < batch.Length ==> batch[i] == old(batch[i])
    ensures forall i :: 0 <= i < batch.Length ==>
      batch[i] == AfterDisable(old(batch[i]), DisableOutcomes(old(batch[..]), follow, kyber, probe)[i], dryRun)
  {
    ghost var before := batch[..];
    ghost var outcomes: seq<DisableOutcome> := [];
    disabled, iterations := 0, 0;
    var i := 0;
    while i < batch.Length
      invariant 0 <= i <= batch.Length
      invariant |outcomes| == i == iterations
      invariant forall j :: 0 <= j < i ==> outcomes[j] == DisableVerdict(before[j], probe(before[j].id), follow, kyber)
      invariant disabled == CountOf(outcomes, Disabled)
      invariant forall j :: 0 <= j < i ==> batch[j] == AfterDisable(before[j], outcomes[j], dryRun)
      invariant dryRun ==> forall j :: 0 <= j < batch.Length ==> batch[j] == before[j]
      invariant forall j :: i <= j < batch.Length ==> batch[j] == before[j]
    {
      var record := batch[i];
      var outcome := DisableVerdict(record, probe(record.id), follow, kyber);
      batch[i] := AfterDisable(record, outcome, dryRun);
      if outcome == Disabled {
        disabled := disabled + 1;
      }
      CountSnoc(outcomes, outcome, Disabled);
      outcomes := outcomes + [outcome];
      iterations := iterations + 1;
      i := i + 1;
    }
    DisablePointwise(before, outcomes, follow, kyber, probe);
  }

  lemma {:induction false} DisablePointwise(records: seq<ChannelRecord>, os: seq<DisableOutcome>, follow: int, kyber: int, probe: int -> Probe)
    requires |os| == |records|
    requires forall j :: 0 <= j < |os| ==> os[j] == DisableVerdict(records[j], probe(records[j].id), follow, kyber)
    ensures os == DisableOutcomes(records, follow, kyber, probe)
  {
    if records != [] {
      var n := |records| - 1;
      DisablePointwise(records[..n], os[..n], follow, kyber, probe);
      assert os == os[..n] + [os[n]];
    }
  }

  /** `disable_moved` as a whole: collect, then run the record loop with
      the last table's follow channel for every record. */
  method DisableMovedCommand(tables: seq<AutopostTable>, kyber: int, dryRun: bool, probe: int -> Probe)
    returns (disabled: nat, iterations: nat, records: seq<ChannelRecord>)
    requires tables != []
    ensures iterations == |AllEnabled(tables)| == |records|
    ensures disabled == CountOf(DisableOutcomes(AllEnabled(tables), tables[|tables| - 1].followChannel, kyber, probe), Disabled)
    ensures dryRun ==> records == AllEnabled(tables)
    ensures forall i :: 0 <= i < |records| ==>
      records[i] == AfterDisable(AllEnabled(tables)[i],
                                 DisableOutcomes(AllEnabled(tables), tables[|tables| - 1].followChannel, kyber, probe)[i],
                                 dryRun)
  {
    var batch, follow := CollectBatch(tables);
    var rows := new ChannelRecord[|batch|](i requires 0 <= i < |batch| => batch[i]);
    assert rows[..] == batch;
    disabled, iterations := DisableMovedChannels(rows, follow.value, kyber, dryRun, probe);
    records := rows[..];
  }

  /** With Kyber's channels and a negative follow id nothing is disabled. */
  lemma DisableSparesKyber(r: ChannelRecord, p: Probe, follow: int, kyber: int)
    requires r.serverId == kyber || follow < 0
    ensures DisableVerdict(r, p, follow, kyber) != Disabled
  {
  }

  // ---------------------------------------------------------------------
  // migratability
  // ---------------------------------------------------------------------

  /** What `migratability` learns about one channel. */
  datatype ChannelCheck =
    | Unreachable(error: RestError)            // fetching the channel raised
    | NotTextable                              // not a textable guild channel
    | Textable(botPermissions: Result<CustomChecks.Permissions, RestError>)
                                               // the bot's permissions there, or the error fetching guild or member

  datatype Reach = Migratable | NotApplicable | ReachNotFound | NoWebhookPermission | Aborts(error: RestError)

  /** One channel's contribution: not found for NotFound and Forbidden, any
      other error aborts the command. */
  function Classify(c: ChannelCheck): Reach {
    match c
    case Unreachable(e) => if e == NotFound || e == Forbidden then ReachNotFound else Aborts(e)
    case NotTextable => NotApplicable
    case Textable(Err(e)) => Aborts(e)
    case Textable(Ok(perms)) => if CustomChecks.MANAGE_WEBHOOKS <= perms then Migratable else NoWebhookPermission
  }

  /** The field `migratability` adds for one table. */
  datatype Census = Census(migratable: nat, notApplicable: nat, notFound: nat, total: nat)

  /** The counts after one more channel classified `c`; an error stays. */
  function Tick(acc: Result<Census, RestError>, c: Reach): Result<Census, RestError> {
    match acc
    case Err(e) => Err(e)
    case Ok(f) =>
      match c
      case Aborts(e) => Err(e)
      case Migratable => Ok(f.(migratable := f.migratable + 1))
      case NotApplicable => Ok(f.(notApplicable := f.notApplicable + 1))
      case ReachNotFound => Ok(f.(notFound := f.notFound + 1))
      case NoWebhookPermission => Ok(f)
  }

  /** The counts over the classified channels, or the first error that aborts. */
  function CensusOf(cls: seq<Reach>, total: nat): Result<Census, RestError> {
    if cls == [] then Ok(Census(0, 0, 0, total))
    else Tick(CensusOf(cls[..|cls| - 1], total), cls[|cls| - 1])
  }

  /** The census aborts exactly when some channel aborts, with the error of
      the first one; otherwise each channel lands in at most one count. */
  lemma {:induction false} CensusSpec(cls: seq<Reach>, total: nat)
    ensures CensusOf(cls, total).Err? <==> exists i :: 0 <= i < |cls| && cls[i].Aborts?
    ensures CensusOf(cls, total).Err? ==> (exists i :: 0 <= i < |cls| && cls[i] == Aborts(CensusOf(cls, total).error)
                                            && forall j :: 0 <= j < i ==> !cls[j].Aborts?)
    ensures CensusOf(cls, total).Ok? ==> (var f := CensusOf(cls, total).value;
                                           f.total == total
                                           && f.migratable == multiset(cls)[Migratable]
                                           && f.notApplicable == multiset(cls)[NotApplicable]
                                           && f.notFound == multiset(cls)[ReachNotFound]
                                           && f.migratable + f.notApplicable + f.notFound <= |cls|)
  {
    if cls != [] {
      var init := cls[..|cls| - 1];
      var c := cls[|cls| - 1];
      CensusSpec(init, total);
      assert cls == init + [c];
      assert multiset(cls) == multiset(init) + multiset{c};
      assert forall j :: 0 <= j < |init| ==> init[j] == cls[j];
    }
  }

  lemma CensusStep(cls: seq<Reach>, i: nat, total: nat)
    requires i < |cls|
    ensures CensusOf(cls[..i + 1], total) == Tick(CensusOf(cls[..i], total), cls[i])
  {
    assert cls[..i + 1][..i] == cls[..i];
  }

  function Ids(rows: seq<ChannelRecord>): (ids: seq<int>)
    ensures |ids| == |rows|
    ensures forall i :: 0 <= i < |rows| ==> ids[i] == rows[i].id
  {
    seq(|rows|, i requires 0 <= i < |rows| => rows[i].id)
  }

  function Classified(ids: seq<int>, check: int -> ChannelCheck): seq<Reach> {
    seq(|ids|, i requires 0 <= i < |ids| => Classify(check(ids[i])))
  }

  /** The field of one table: over its enabled channels. */
  function TableCensusOf(rows: seq<ChannelRecord>, check: int -> ChannelCheck): Result<Census, RestError> {
    CensusOf(Classified(Ids(EnabledOnly(rows)), check), |EnabledOnly(rows)|)
  }

  /** The per-channel loop of `migratability` for one table. */
  method TableCensus(ids: seq<int>, check: int -> ChannelCheck) returns (r: Result<Census, RestError>)
    ensures r == CensusOf(Classified(ids, check), |ids|)
  {
    ghost var cls := Classified(ids, check);
    var total := |ids|;
    var field := Census(0, 0, 0, total);
    var i := 0;
    while i < |ids|
      invariant 0 <= i <= |ids|
      invariant CensusOf(cls[..i], total) == Ok(field)
    {
      CensusStep(cls, i, total);
      var reach := Classify(check(ids[i]));
      match reach {
        case Aborts(e) =>
          AbortStaysAborted(cls, i + 1, total);
          return Err(e);
        case ReachNotFound =>
          field := field.(notFound := field.notFound + 1);
        case NotApplicable =>
          field := field.(notApplicable := field.notApplicable + 1);
        case Migratable =>
          field := field.(migratable := field.migratable + 1);
        case NoWebhookPermission =>
      }
      i := i + 1;
    }
    assert cls[..i] == cls;
    r := Ok(field);
  }

  /** Once the census of a prefix has aborted, so has every longer one, with the same error. */
  lemma {:induction false} AbortStaysAborted(cls: seq<Reach>, k: nat, total: nat)
    requires k <= |cls| && CensusOf(cls[..k], total).Err?
    ensures CensusOf(cls, total) == CensusOf(cls[..k], total)
    decreases |cls| - k
  {
    if k < |cls| {
      CensusStep(cls, k, total);
      AbortStaysAborted(cls, k + 1, total);
    } else {
      assert cls[..k] == cls;
    }
  }

  /** `migratability` over the tables: one field per table, or the first
      error that aborts the command. */
  method Migratability(tables: seq<seq<ChannelRecord>>, check: int -> ChannelCheck)
    returns (r: Result<seq<Census>, RestError>)
    ensures r.Ok? ==> (|r.value| == |tables|
                        && forall k :: 0 <= k < |tables| ==> TableCensusOf(tables[k], check) == Ok(r.value[k]))
    ensures r.Err? ==> (exists k :: 0 <= k < |tables| && TableCensusOf(tables[k], check) == Err(r.error)
                          && forall j :: 0 <= j < k ==> TableCensusOf(tables[j], check).Ok?)
  {
    var fields: seq<Census> := [];
    var k := 0;
    while k < |tables|
      invariant 0 <= k <= |tables|
      invariant |fields| == k
      invariant forall j :: 0 <= j < k ==> TableCensusOf(tables[j], check) == Ok(fields[j])
    {
      var rows := EnabledOnly(tables[k]);
      var field := TableCensus(Ids(rows), check);
      assert TableCensusOf(tables[k], check) == field;
      if field.Err? {
        return Err(field.error);
      }
      fields := fields + [field.value];
      k := k + 1;
    }
    r := Ok(fields);
  }

  /** Every channel of a table lands in at most one of the three counts,
      and the total is the table's number of enabled records. */
  lemma CensusBounded(rows: seq<ChannelRecord>, check: int -> ChannelCheck)
    requires TableCensusOf(rows, check).Ok?
    ensures var f := TableCensusOf(rows, check).value;
      f.total == |EnabledOnly(rows)| && f.migratable + f.notApplicable + f.notFound <= f.total
  {
    CensusSpec(Classified(Ids(EnabledOnly(rows)), check), |EnabledOnly(rows)|);
  }
}
