/** The handlers that drive the status pipeline, each run without interruption, and
    their agreement with the statements of the interleaving model. */
module StatusService {
  import opened Wrappers
  import opened StatusBits
  import opened StatusLists
  import opened IssuedCredentials
  import opened StatusPipeline
  import opened Backoff
  import opened Undisturbed

  datatype ApiError = NotFound | Conflict | Internal

  /** What signing the list and the PUT came to. A failed PUT may have been applied. */
  datatype PublishOutcome =
    | BuildFailed(error: string)
    | PutSucceeded
    | PutFailed(applied: bool, retryable: bool, error: string)

  datatype PublisherError = Inconsistent | Build | TokenAware

  const TERMINAL_RETRY_MS := 3_600_000

  // ---- What one call does to the rows ----

  predicate LifecycleReaches(lists: map<ListId, ListRow>, creds: map<CredentialId, CredentialRow>, c: CredentialId) {
    && c in creds && creds[c].list in lists
    && |lists[creds[c].list].bits| == BITSTRING_BYTES && creds[c].index < STATUS_LIST_CAPACITY
  }

  function LifecycleRow(lists: map<ListId, ListRow>, creds: map<CredentialId, CredentialRow>,
                        c: CredentialId, verb: Verb): ListRow
    requires LifecycleReaches(lists, creds, c)
  {
    var row := lists[creds[c].list];
    WithBits(row, WithSlot(row.bits, creds[c].index, HandlerBit(verb)))
  }

  function FailureRetryAt(snapshot: ListRow, outcome: PublishOutcome, now: Time, draw: nat): Time {
    now + if outcome.PutFailed? && outcome.retryable then BackoffDelay(snapshot.publishAttempts + 1, draw)
          else TERMINAL_RETRY_MS
  }

  function RoundRow(row: ListRow, snapshot: ListRow, outcome: PublishOutcome, now: Time, draw: nat): ListRow {
    if outcome.PutSucceeded? then WithPublishSuccess(row, snapshot.committedVersion, now)
    else WithPublishFailure(row, outcome.error, FailureRetryAt(snapshot, outcome, now, draw), now)
  }

  predicate RoundApplies(outcome: PublishOutcome) {
    outcome.PutSucceeded? || (outcome.PutFailed? && outcome.applied)
  }

  class StatusService {
    const table: StatusListTable
    var credentials: map<CredentialId, CredentialRow>
    var issuerOf: map<CredentialId, IssuerId>
    var registry: map<IssuerId, Bits>

    constructor (table: StatusListTable)
      ensures this.table == table && credentials == map[] && issuerOf == map[] && registry == map[]
    {
      this.table := table;
      credentials, issuerOf, registry := map[], map[], map[];
    }

    /** Suspend, unsuspend or revoke: both rows change or neither does. */
    method RunLifecycleOp(issuer: IssuerId, c: CredentialId, verb: Verb, commits: bool)
      returns (r: Result<CredentialState, ApiError>)
      modifies this`credentials, table`rows
      ensures r.Ok? <==> c in old(credentials) && c in issuerOf && issuerOf[c] == issuer
                         && Permits(verb, old(credentials)[c].state)
                         && LifecycleReaches(old(table.rows), old(credentials), c) && commits
      ensures r.Ok? ==> r.value == Target(verb)
                        && credentials == old(credentials)[c := old(credentials)[c].(state := Target(verb))]
                        && table.rows == old(table.rows)[
                             old(credentials)[c].list := LifecycleRow(old(table.rows), old(credentials), c, verb)]
      ensures r.Ok? ==>
                var state, l := old(credentials)[c].state, old(credentials)[c].list;
                && (match verb
                    case Suspend => state == CredentialState.Active && r.value == CredentialState.Suspended
                    case Unsuspend => state == CredentialState.Suspended && r.value == CredentialState.Active
                    case Revoke => state != CredentialState.Revoked && r.value == CredentialState.Revoked)
                && credentials == old(credentials)[c := old(credentials)[c].(state := r.value)]
                && |table.rows[l].bits| == |old(table.rows)[l].bits| == 32768
                && table.rows == old(table.rows)[
                     l := old(table.rows)[l].(bits := table.rows[l].bits,
                                              committedVersion := old(table.rows)[l].committedVersion + 1)]
                && old(credentials)[c].index < 131072
                && Slots(table.rows[l].bits) == Slots(old(table.rows)[l].bits)[
                     old(credentials)[c].index := match r.value
                                                  case Active => StatusValue.Valid
                                                  case Suspended => StatusValue.Suspended
                                                  case Revoked => StatusValue.Revoked]
      ensures r.Err? ==> credentials == old(credentials) && table.rows == old(table.rows)
      ensures c !in old(credentials) || c !in issuerOf || issuerOf[c] != issuer ==> r == Err(ApiError.NotFound)
      ensures c in old(credentials) && c in issuerOf && issuerOf[c] == issuer ==>
                (r == Err(Conflict) <==> !Permits(verb, old(credentials)[c].state))
    {
      if c !in credentials || c !in issuerOf || issuerOf[c] != issuer {
        return Err(ApiError.NotFound);
      }
      var before, rowsBefore := credentials[c], table.rows;
      var credential := new IssuedCredential.Load(before.state);
      var transition: Result<(), DomainError>;
      match verb {
        case Suspend => transition := credential.TrySuspend();
        case Unsuspend => transition := credential.TryUnsuspend();
        case Revoke => transition := credential.TryRevoke();
      }
      if transition.Err? {
        return Err(Conflict);
      }
      var written := table.WriteBit(before.list, before.index, HandlerBit(verb));
      if written.Err? {
        return Err(if written.error.NotFound? then ApiError.NotFound else Internal);
      }
      if !commits {
        table.rows := rowsBefore;
        return Err(Internal);
      }
      credentials := credentials[c := before.(state := credential.state)];
      r := Ok(credential.state);
    }

    /** The next index of the issuer's current list, with the list's public URL.
        No current list, no URL and a full list all refuse. */
    method AllocateStatusSlot(issuer: IssuerId) returns (r: Result<(ListId, nat, string), ApiError>)
      modifies table`rows
      ensures r.Ok? <==>
                && issuer in table.current && table.current[issuer].Some?
                && table.current[issuer].value in old(table.rows)
                && old(table.rows)[table.current[issuer].value].registryUrl.Some?
                && old(table.rows)[table.current[issuer].value].HasRoom()
      ensures r.Ok? ==>
                var l := table.current[issuer].value;
                && r.value == (l, old(table.rows)[l].allocatedCount, old(table.rows)[l].registryUrl.value)
                && table.rows == old(table.rows)[l := WithAllocation(old(table.rows)[l])]
      ensures r.Ok? ==>
                var l, row := r.value.0, old(table.rows)[r.value.0];
                && r.value.1 == row.allocatedCount < 131072
                && table.rows == old(table.rows)[l := row.(allocatedCount := row.allocatedCount + 1,
                                                           committedVersion := row.committedVersion + 1)]
      ensures r.Err? ==> r.error == Internal && table.rows == old(table.rows)
    {
      var found := table.CurrentForIssuerWithUrl(issuer);
      if found.None? || found.value.1.None? {
        return Err(Internal);
      }
      var index := table.AllocateIndex(found.value.0);
      if index.None? {
        return Err(Internal);
      }
      r := Ok((found.value.0, index.value, found.value.1.value));
    }

    /** The status half of the issuance transaction: take a slot, sign, insert, commit. */
    method Issue(issuer: IssuerId, c: CredentialId, signs: bool, commits: bool)
      returns (r: Result<(ListId, nat, string), ApiError>)
      requires c !in credentials
      modifies this`credentials, this`issuerOf, table`rows
      ensures r.Err? ==> credentials == old(credentials) && issuerOf == old(issuerOf) && table.rows == old(table.rows)
      ensures r.Ok? ==>
                var (l, index, _) := r.value;
                && l in old(table.rows) && index == old(table.rows)[l].allocatedCount < STATUS_LIST_CAPACITY
                && issuer in table.current && table.current[issuer] == Some(l)
                && table.rows == old(table.rows)[l := WithAllocation(old(table.rows)[l])]
                && credentials == old(credentials)[c := CredentialRow(l, index, CredentialState.Active)]
                && issuerOf == old(issuerOf)[c := issuer]
      ensures r.Ok? <==>
                && signs && commits && issuer in table.current && table.current[issuer].Some?
                && table.current[issuer].value in old(table.rows)
                && old(table.rows)[table.current[issuer].value].registryUrl.Some?
                && old(table.rows)[table.current[issuer].value].HasRoom()
    {
      var rowsBefore := table.rows;
      r := AllocateStatusSlot(issuer);
      if r.Err? {
        return;
      }
      if !signs || !commits {
        table.rows := rowsBefore;
        return Err(Internal);
      }
      credentials := credentials[c := CredentialRow(r.value.0, r.value.1, CredentialState.Active)];
      issuerOf := issuerOf[c := issuer];
    }

    /** One publish round of an acquired snapshot. Without the issuer, its tenant
        (`found`) or a registry entry it ends at once and records nothing, so the row
        waits for its lease to pass. */
    method RunRound(l: ListId, snapshot: ListRow, found: bool, outcome: PublishOutcome, now: Time, draw: nat)
      returns (r: Result<(), PublisherError>)
      modifies this`registry, table`rows
      ensures r == if !found || snapshot.registryEntry.None? then Err(Inconsistent)
                   else match outcome
                        case BuildFailed(_) => Err(Build)
                        case PutSucceeded => Ok(())
                        case PutFailed(_, _, _) => Err(TokenAware)
      ensures r == Err(Inconsistent) ==> registry == old(registry) && table.rows == old(table.rows)
      ensures r != Err(Inconsistent) ==>
                && registry == (if RoundApplies(outcome) then old(registry)[snapshot.issuer := snapshot.bits]
                                else old(registry))
                && table.rows == (if l in old(table.rows)
                                  then old(table.rows)[l := RoundRow(old(table.rows)[l], snapshot, outcome, now, draw)]
                                  else old(table.rows))
      ensures r != Err(Inconsistent) ==>
                registry == if outcome.PutSucceeded? || (outcome.PutFailed? && outcome.applied)
                            then old(registry)[snapshot.issuer := snapshot.bits] else old(registry)
      ensures r.Ok? && l in old(table.rows) ==>
                table.rows == if old(table.rows)[l].publishedVersion < snapshot.committedVersion
                              then old(table.rows)[l := old(table.rows)[l].(
                                     publishedVersion := snapshot.committedVersion, lastAttemptAt := Some(now),
                                     lastError := None, nextAttemptAt := None, publishAttempts := 0)]
                              else old(table.rows)
      // A failed build and a refusal wait an hour; a failure worth retrying waits a random
      // part of the backoff, any part of it for some draw.
      ensures r.Err? && r.error != Inconsistent && l in old(table.rows) ==>
                && l in table.rows && table.rows[l].nextAttemptAt.Some?
                && table.rows == old(table.rows)[l := old(table.rows)[l].(
                     nextAttemptAt := table.rows[l].nextAttemptAt, lastAttemptAt := Some(now),
                     lastError := Some(outcome.error),
                     publishAttempts := old(table.rows)[l].publishAttempts + 1)]
                && var wait := table.rows[l].nextAttemptAt.value - now;
                   if outcome.PutFailed? && outcome.retryable then
                     && 0 <= wait <= 60_000 * Pow2(snapshot.publishAttempts + 1) && wait <= 3_600_000
                     && (draw <= 60_000 * Pow2(snapshot.publishAttempts + 1) && draw <= 3_600_000 ==> wait == draw)
                   else wait == 3_600_000
    {
      if !found || snapshot.registryEntry.None? {
        return Err(Inconsistent);
      }
      match outcome
      case BuildFailed(error) =>
        table.RecordPublishFailure(l, error, now + TERMINAL_RETRY_MS, now);
        r := Err(Build);
      case PutSucceeded =>
        registry := registry[snapshot.issuer := snapshot.bits];
        var won := table.RecordPublishSuccess(l, snapshot.committedVersion, now);
        r := Ok(());
      case PutFailed(applied, retryable, error) =>
        if applied {
          registry := registry[snapshot.issuer := snapshot.bits];
        }
        var next := now + TERMINAL_RETRY_MS;
        if retryable {
          next := now + BackoffDelay(snapshot.publishAttempts + 1, draw);
          DelayRange(snapshot.publishAttempts + 1, draw);
        }
        table.RecordPublishFailure(l, error, next, now);
        r := Err(TokenAware);
    }
  }

  // ---- Agreement with the interleaving model ----

  lemma CommitAfterWrite(s: Sys, e: Sys, t: TxId, c: CredentialId, verb: Verb)
    requires t !in s.txs && LifecycleReaches(s.lists, s.creds, c) && s.creds[c].list in s.history
    requires e.(txs := s.txs) == s
    requires e.txs == s.txs[t := BitsWritten(c, verb, LifecycleRow(s.lists, s.creds, c, verb).bits)]
    ensures var l, row := s.creds[c].list, LifecycleRow(s.lists, s.creds, c, verb);
            Enabled(e, Commit(t)) && Apply(e, Commit(t)) ==
                  s.(lists := s.lists[l := row],
                     creds := s.creds[c := s.creds[c].(state := Target(verb))],
                     history := s.history[l := s.history[l] + [row.bits]])
  {
  }

  lemma TakenStep(s: Sys, step: Step)
    requires Enabled(s, step)
    ensures Next(s, step, Apply(s, step))
  {
  }

  lemma LifecycleStarts(s: Sys, t: TxId, c: CredentialId, verb: Verb)
    requires t !in s.txs && c in s.creds && Permits(verb, s.creds[c].state) && CredentialFree(s, t, c)
    ensures var a := s.(txs := s.txs[t := Found(c, verb)]);
            Next(s, Find(t, c, verb), a) && Next(a, SetState(t), s.(txs := s.txs[t := StateWritten(c, verb)]))
  {
    hide WithSlot, Zeros;
  }

  lemma LifecycleWrites(s: Sys, t: TxId, c: CredentialId, verb: Verb)
    requires t !in s.txs && LifecycleReaches(s.lists, s.creds, c) && ListFree(s, s.creds[c].list)
    ensures var b := s.(txs := s.txs[t := StateWritten(c, verb)]);
            var d := s.(txs := s.txs[t := ListLocked(c, verb, s.lists[s.creds[c].list].bits)]);
            && Next(b, LockList(t), d)
            && Next(d, WriteBits(t),
                    s.(txs := s.txs[t := BitsWritten(c, verb, LifecycleRow(s.lists, s.creds, c, verb).bits)]))
  {
    hide WithSlot, Zeros;
  }

  /** A lifecycle transaction that meets no lock does to the rows what the handler does. */
  lemma LifecycleIsOneTransaction(s: Sys, t: TxId, c: CredentialId, verb: Verb)
    requires t !in s.txs && c in s.creds && Permits(verb, s.creds[c].state)
    requires LifecycleReaches(s.lists, s.creds, c) && s.creds[c].list in s.history
    requires CredentialFree(s, t, c) && ListFree(s, s.creds[c].list)
    ensures var l, row := s.creds[c].list, LifecycleRow(s.lists, s.creds, c, verb);
            Leads(Next, s, [Find(t, c, verb), SetState(t), LockList(t), WriteBits(t), Commit(t)],
                  s.(lists := s.lists[l := row],
                     creds := s.creds[c := s.creds[c].(state := Target(verb))],
                     history := s.history[l := s.history[l] + [row.bits]]))
  {
    hide Next, Enabled, Apply, Leads, LifecycleRow, Zeros, CredentialFree, ListFree;
    var a := s.(txs := s.txs[t := Found(c, verb)]);
    var b := s.(txs := s.txs[t := StateWritten(c, verb)]);
    var d := s.(txs := s.txs[t := ListLocked(c, verb, s.lists[s.creds[c].list].bits)]);
    var e := s.(txs := s.txs[t := BitsWritten(c, verb, LifecycleRow(s.lists, s.creds, c, verb).bits)]);
    LifecycleStarts(s, t, c, verb);
    LifecycleWrites(s, t, c, verb);
    CommitAfterWrite(s, e, t, c, verb);
    TakenStep(e, Commit(t));
    LeadsByFour(Next, s, Find(t, c, verb), a, SetState(t), b, LockList(t), d, WriteBits(t), e);
    LeadsThen(Next, s, [Find(t, c, verb), SetState(t), LockList(t), WriteBits(t)], e, Commit(t), Apply(e, Commit(t)));
    assert [Find(t, c, verb), SetState(t), LockList(t), WriteBits(t)] + [Commit(t)]
        == [Find(t, c, verb), SetState(t), LockList(t), WriteBits(t), Commit(t)];
  }

  lemma CommitAfterInsert(s: Sys, d: Sys, t: TxId, l: ListId, c: CredentialId)
    requires t !in s.txs && l in s.lists && l in s.history
    requires d.txs == s.txs[t := Inserted(l, s.lists[l].allocatedCount, c)] && d.(txs := s.txs) == s
    ensures Enabled(d, Commit(t)) && Apply(d, Commit(t)) ==
                  s.(lists := s.lists[l := WithAllocation(s.lists[l])],
                     creds := s.creds[c := CredentialRow(l, s.lists[l].allocatedCount, CredentialState.Active)],
                     history := s.history[l := s.history[l] + [s.lists[l].bits]])
  {
  }

  /** So does an issuance transaction. */
  lemma IssuanceIsOneTransaction(s: Sys, t: TxId, issuer: IssuerId, c: CredentialId)
    requires t !in s.txs && issuer in s.current && s.current[issuer] in s.lists && s.current[issuer] in s.history
    requires var l := s.current[issuer];
             s.lists[l].HasRoom() && ListFree(s, l) && IdUnused(s, c) && SlotUnused(s, l, s.lists[l].allocatedCount)
    ensures var l := s.current[issuer];
            var index := s.lists[l].allocatedCount;
            Leads(Next, s, [ReadCurrent(t, issuer), AllocateIndex(t), InsertCredential(t, c), Commit(t)],
                  s.(lists := s.lists[l := WithAllocation(s.lists[l])],
                     creds := s.creds[c := CredentialRow(l, index, CredentialState.Active)],
                     history := s.history[l := s.history[l] + [s.lists[l].bits]]))
  {
    hide Leads, Zeros, WithSlot;
    var l := s.current[issuer];
    var a := Apply(s, ReadCurrent(t, issuer));
    var b := Apply(a, AllocateIndex(t));
    var d := Apply(b, InsertCredential(t, c));
    CommitAfterInsert(s, d, t, l, c);
    LeadsByFour(Next, s, ReadCurrent(t, issuer), a, AllocateIndex(t), b, InsertCredential(t, c), d,
                Commit(t), Apply(d, Commit(t)));
  }

  /** What a round leaves of the network: nothing after a failed build, a landed
      request, or one that is still under way although reported failed. */
  function NetworkAfter(net: Network, l: ListId, snapshot: ListRow, q: PutId, outcome: PublishOutcome): Network {
    if outcome.BuildFailed? then net
    else
      var sent := net.(puts := net.puts[q := PutRequest(l, snapshot)]);
      if RoundApplies(outcome) then Landed(sent, q) else sent
  }

  function RoundSteps(p: PublisherId, q: PutId, snapshot: ListRow, outcome: PublishOutcome, now: Time, draw: nat)
    : seq<Step>
  {
    var next := FailureRetryAt(snapshot, outcome, now, draw);
    match outcome
    case BuildFailed(error) => [RecordFailure(p, error, next, now)]
    case PutSucceeded => [SendPut(p, q), LandPut(q), ReportPut(p, true), RecordSuccess(p, now)]
    case PutFailed(true, _, error) => [SendPut(p, q), LandPut(q), ReportPut(p, false), RecordFailure(p, error, next, now)]
    case PutFailed(false, _, error) => [SendPut(p, q), ReportPut(p, false), RecordFailure(p, error, next, now)]
  }

  ghost predicate RoundReady(s: Sys, p: PublisherId, q: PutId) {
    && p in s.rounds && s.rounds[p].Acquired? && s.rounds[p].list in s.lists && ListFree(s, s.rounds[p].list)
    && q !in s.net.puts && q !in s.net.landed
  }

  /** A publish round does what the handler does: a PUT, if any, then one record. */
  lemma RoundIsPutThenRecord(s: Sys, p: PublisherId, q: PutId, outcome: PublishOutcome, now: Time, draw: nat)
    requires RoundReady(s, p, q)
    ensures var r := s.rounds[p];
            Leads(Next, s, RoundSteps(p, q, r.snapshot, outcome, now, draw),
                  s.(lists := s.lists[r.list := RoundRow(s.lists[r.list], r.snapshot, outcome, now, draw)],
                     net := NetworkAfter(s.net, r.list, r.snapshot, q, outcome),
                     rounds := s.rounds - {p}))
    ensures NetworkAfter(s.net, s.rounds[p].list, s.rounds[p].snapshot, q, outcome).registry ==
            if RoundApplies(outcome) then s.net.registry[s.rounds[p].snapshot.issuer := s.rounds[p].snapshot.bits]
            else s.net.registry
  {
    hide BackoffDelay, Leads, Next, Enabled, Apply, ListFree;
    var next := FailureRetryAt(s.rounds[p].snapshot, outcome, now, draw);
    match outcome
    case BuildFailed(error) => BuildFailureIsOneRecord(s, p, error, next, now);
    case PutSucceeded => LandedRound(s, p, q, true, RecordSuccess(p, now));
    case PutFailed(true, _, error) => LandedRound(s, p, q, false, RecordFailure(p, error, next, now));
    case PutFailed(false, _, error) => LostRound(s, p, q, RecordFailure(p, error, next, now));
  }

  lemma BuildFailureIsOneRecord(s: Sys, p: PublisherId, error: string, next: Time, now: Time)
    requires p in s.rounds && s.rounds[p].Acquired? && s.rounds[p].list in s.lists && ListFree(s, s.rounds[p].list)
    ensures Leads(Next, s, [RecordFailure(p, error, next, now)],
                  Recorded(s, p, s.net, RecordFailure(p, error, next, now)))
  {
    LeadsNowhere(Next, s);
    LeadsThen(Next, s, [], s, RecordFailure(p, error, next, now),
              Recorded(s, p, s.net, RecordFailure(p, error, next, now)));
    assert [] + [RecordFailure(p, error, next, now)] == [RecordFailure(p, error, next, now)];
  }

  ghost predicate Records(p: PublisherId, success: bool, record: Step) {
    if success then record.RecordSuccess? && record.pub == p else record.RecordFailure? && record.pub == p
  }

  /** The state of a round whose request `net` carries, once it is reported. */
  function Reported(s: Sys, p: PublisherId, net: Network, success: bool): Sys
    requires p in s.rounds
  {
    s.(net := net, rounds := s.rounds[p := PutReported(s.rounds[p].list, s.rounds[p].snapshot, success)])
  }

  /** A round whose request has been sent. */
  function Sent(s: Sys, p: PublisherId, q: PutId): Sys
    requires p in s.rounds
  {
    var r := s.rounds[p];
    s.(net := s.net.(puts := s.net.puts[q := PutRequest(r.list, r.snapshot)]),
       rounds := s.rounds[p := PutSent(r.list, r.snapshot, q)])
  }

  lemma SendStep(s: Sys, p: PublisherId, q: PutId)
    requires RoundReady(s, p, q)
    ensures Next(s, SendPut(p, q), Sent(s, p, q))
  {
  }

  lemma LandStep(s: Sys, q: PutId)
    requires q in s.net.puts
    ensures Next(s, LandPut(q), s.(net := Landed(s.net, q)))
  {
  }

  lemma ReportStep(s: Sys, p: PublisherId, success: bool, a: Sys)
    requires p in s.rounds && p in a.rounds && a.rounds[p].PutSent? && (success ==> a.rounds[p].put in a.net.landed)
    requires a.rounds[p].list == s.rounds[p].list && a.rounds[p].snapshot == s.rounds[p].snapshot
    requires a.(net := s.net, rounds := s.rounds) == s && a.rounds - {p} == s.rounds - {p}
    ensures Next(a, ReportPut(p, success), Reported(s, p, a.net, success))
  {
    hide WithSlot, Zeros;
    assert forall x :: x in s.rounds && x != p ==> x in s.rounds - {p};
    assert forall x :: x in a.rounds && x != p ==> x in a.rounds - {p};
    assert a.rounds[p := PutReported(s.rounds[p].list, s.rounds[p].snapshot, success)]
        == s.rounds[p := PutReported(s.rounds[p].list, s.rounds[p].snapshot, success)];
  }

  /** The round's row recorded and the round over. */
  function Recorded(s: Sys, p: PublisherId, net: Network, record: Step): Sys
    requires p in s.rounds && s.rounds[p].list in s.lists && (record.RecordSuccess? || record.RecordFailure?)
  {
    var r := s.rounds[p];
    var row := if record.RecordSuccess? then WithPublishSuccess(s.lists[r.list], r.snapshot.committedVersion, record.at)
               else WithPublishFailure(s.lists[r.list], record.error, record.next, record.at);
    s.(lists := s.lists[r.list := row], net := net, rounds := s.rounds - {p})
  }

  lemma RecordStep(s: Sys, p: PublisherId, net: Network, success: bool, record: Step)
    requires p in s.rounds && s.rounds[p].list in s.lists && ListFree(s, s.rounds[p].list) && Records(p, success, record)
    ensures Next(Reported(s, p, net, success), record, Recorded(s, p, net, record))
  {
    hide WithSlot, Zeros;
    assert Reported(s, p, net, success).rounds - {p} == s.rounds - {p};
  }

  lemma LandedRound(s: Sys, p: PublisherId, q: PutId, success: bool, record: Step)
    requires RoundReady(s, p, q) && Records(p, success, record)
    ensures var net := NetworkAfter(s.net, s.rounds[p].list, s.rounds[p].snapshot, q, PutSucceeded);
            Leads(Next, s, [SendPut(p, q), LandPut(q), ReportPut(p, success), record], Recorded(s, p, net, record))
  {
    hide Next, Enabled, Apply, Leads, ListFree;
    var a := Sent(s, p, q);
    SendStep(s, p, q);
    LandStep(a, q);
    var b := a.(net := Landed(a.net, q));
    ReportStep(s, p, success, b);
    var c := Reported(s, p, b.net, success);
    RecordStep(s, p, b.net, success, record);
    LeadsByFour(Next, s, SendPut(p, q), a, LandPut(q), b, ReportPut(p, success), c, record, Recorded(s, p, b.net, record));
  }

  lemma LostRound(s: Sys, p: PublisherId, q: PutId, record: Step)
    requires RoundReady(s, p, q) && Records(p, false, record)
    ensures var sent := s.net.(puts := s.net.puts[q := PutRequest(s.rounds[p].list, s.rounds[p].snapshot)]);
            Leads(Next, s, [SendPut(p, q), ReportPut(p, false), record], Recorded(s, p, sent, record))
  {
    hide Next, Enabled, Apply, Leads, ListFree;
    var a := Sent(s, p, q);
    SendStep(s, p, q);
    ReportStep(s, p, false, a);
    var b := Reported(s, p, a.net, false);
    RecordStep(s, p, a.net, false, record);
    LeadsByThree(Next, s, SendPut(p, q), a, ReportPut(p, false), b, record, Recorded(s, p, a.net, record));
  }
}
