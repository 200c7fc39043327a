/** The credential status pipeline as a state machine over its statements.

    Issuance and lifecycle transactions interleave statement by statement under
    READ COMMITTED: plain reads see committed rows, an UPDATE or a locking read
    waits until no other open transaction holds the row, writes become visible at
    commit, and a rollback or a crash drops them. Publishers acquire, PUT and
    record in separate steps. */
module StatusPipeline {
  import opened Wrappers
  import opened StatusBits
  import opened StatusLists
  import opened IssuedCredentials

  type CredentialId = nat
  type TxId = nat
  type PublisherId = nat
  type PutId = nat

  datatype CredentialRow = CredentialRow(list: ListId, index: nat, state: CredentialState)

  datatype Tx =
    // Lifecycle call: row found and verb permitted; state written; list row
    // locked and bitstring read; bitstring written.
    | Found(cred: CredentialId, verb: Verb)
    | StateWritten(cred: CredentialId, verb: Verb)
    | ListLocked(cred: CredentialId, verb: Verb, bits: Bits)
    | BitsWritten(cred: CredentialId, verb: Verb, bits: Bits)
    // Issuance: current list read; index taken; credential inserted.
    | ListChosen(list: ListId)
    | IndexTaken(list: ListId, index: nat)
    | Inserted(list: ListId, index: nat, cred: CredentialId)

  /** A publish round in flight: the snapshot, the request sent, its reported result. */
  datatype Round =
    | Acquired(list: ListId, snapshot: ListRow)
    | PutSent(list: ListId, snapshot: ListRow, put: PutId)
    | PutReported(list: ListId, snapshot: ListRow, success: bool)

  /** A PUT on its way to the registry. */
  datatype PutRequest = PutRequest(list: ListId, snapshot: ListRow)

  /** The public registry and what is on its way to it. */
  datatype Network = Network(
    // One registry entry per issuer: the entry its create_issuer task obtained.
    registry: map<IssuerId, Bits>,
    // Requests that may still land, at any time and whatever became of their round.
    puts: map<PutId, PutRequest>,
    // Auxiliary: the requests that have landed, and the version each entry shows.
    landed: set<PutId>,
    shown: map<IssuerId, nat>)

  datatype Sys = Sys(
    lists: map<ListId, ListRow>,
    current: map<IssuerId, ListId>,
    creds: map<CredentialId, CredentialRow>,
    txs: map<TxId, Tx>,
    rounds: map<PublisherId, Round>,
    net: Network,
    // Auxiliary: the committed bitstring of every version of every list.
    history: map<ListId, seq<Bits>>)

  datatype Step =
    | InsertList(list: ListId, issuer: IssuerId, entry: string, url: string, at: Time)
    | PointIssuer(issuer: IssuerId, list: ListId)
    | Find(tx: TxId, cred: CredentialId, verb: Verb)
    | SetState(tx: TxId)
    | LockList(tx: TxId)
    | WriteBits(tx: TxId)
    | ReadCurrent(tx: TxId, issuer: IssuerId)
    | AllocateIndex(tx: TxId)
    | InsertCredential(tx: TxId, cred: CredentialId)
    | Commit(tx: TxId)
    | Rollback(tx: TxId)
    | Acquire(pub: PublisherId, list: ListId, at: Time, lease: nat)
    | SendPut(pub: PublisherId, put: PutId)
    | LandPut(put: PutId)
    | ReportPut(pub: PublisherId, success: bool)
    | RecordSuccess(pub: PublisherId, at: Time)
    | RecordFailure(pub: PublisherId, error: string, next: Time, at: Time)
    | Abandon(pub: PublisherId)

  const Empty := Sys(map[], map[], map[], map[], map[], Network(map[], map[], {}, map[]), map[])

  predicate HoldsCredential(t: Tx, c: CredentialId) {
    (t.StateWritten? || t.ListLocked? || t.BitsWritten?) && t.cred == c
  }

  predicate HoldsList(s: Sys, t: Tx, l: ListId) {
    match t
    case ListLocked(c, _, _) => c in s.creds && s.creds[c].list == l
    case BitsWritten(c, _, _) => c in s.creds && s.creds[c].list == l
    case IndexTaken(list, _) => list == l
    case Inserted(list, _, _) => list == l
    case _ => false
  }

  predicate CredentialFree(s: Sys, tx: TxId, c: CredentialId) {
    forall o :: o in s.txs && o != tx ==> !HoldsCredential(s.txs[o], c)
  }

  predicate ListFree(s: Sys, l: ListId) {
    forall o :: o in s.txs ==> !HoldsList(s, s.txs[o], l)
  }

  /** The unique constraint on (status_list_id, status_list_index). */
  predicate SlotUnused(s: Sys, l: ListId, index: nat) {
    forall c :: c in s.creds ==> !(s.creds[c].list == l && s.creds[c].index == index)
  }

  predicate IdUnused(s: Sys, c: CredentialId) {
    c !in s.creds && forall o :: o in s.txs && s.txs[o].Inserted? ==> s.txs[o].cred != c
  }

  predicate Enabled(s: Sys, step: Step) {
    match step
    case InsertList(l, _, _, _, _) => l !in s.lists
    // The create_issuer worker provisions only an issuer that has no list.
    case PointIssuer(i, l) => i !in s.current && l in s.lists && s.lists[l].issuer == i
    case Find(t, c, verb) => t !in s.txs && c in s.creds && Permits(verb, s.creds[c].state)
    case SetState(t) => t in s.txs && s.txs[t].Found? && s.txs[t].cred in s.creds
                        && CredentialFree(s, t, s.txs[t].cred)
    case LockList(t) => t in s.txs && s.txs[t].StateWritten? && s.txs[t].cred in s.creds
                        && s.creds[s.txs[t].cred].list in s.lists
                        && ListFree(s, s.creds[s.txs[t].cred].list)
    case WriteBits(t) => t in s.txs && s.txs[t].ListLocked? && s.txs[t].cred in s.creds
                         && s.creds[s.txs[t].cred].index < 4 * |s.txs[t].bits|
    case ReadCurrent(t, i) => t !in s.txs && i in s.current
    case AllocateIndex(t) => t in s.txs && s.txs[t].ListChosen? && s.txs[t].list in s.lists
                             && ListFree(s, s.txs[t].list) && s.lists[s.txs[t].list].HasRoom()
    case InsertCredential(t, c) => t in s.txs && s.txs[t].IndexTaken? && IdUnused(s, c)
                                   && SlotUnused(s, s.txs[t].list, s.txs[t].index)
    case Commit(t) => LifecycleReady(s, t) || IssuanceReady(s, t)
    case Rollback(t) => t in s.txs
    case Acquire(p, l, at, _) => p !in s.rounds && l in s.lists && ListFree(s, l) && s.lists[l].IsRunnable(at)
    // Sent again with a new token after a 401 answer.
    case SendPut(p, q) => p in s.rounds && !s.rounds[p].PutReported? && q !in s.net.puts && q !in s.net.landed
    case LandPut(q) => q in s.net.puts
    // A success is answered only by a request that landed; a failure may be reported anyway.
    case ReportPut(p, success) => p in s.rounds && s.rounds[p].PutSent? && (success ==> s.rounds[p].put in s.net.landed)
    case RecordSuccess(p, _) => p in s.rounds && s.rounds[p].PutReported? && s.rounds[p].success
                                && s.rounds[p].list in s.lists && ListFree(s, s.rounds[p].list)
    // Recorded after a failed PUT and, with no PUT at all, after a failed build.
    case RecordFailure(p, _, _, _) => p in s.rounds && !s.rounds[p].PutSent?
                                      && (s.rounds[p].PutReported? ==> !s.rounds[p].success)
                                      && s.rounds[p].list in s.lists && ListFree(s, s.rounds[p].list)
    case Abandon(p) => p in s.rounds
  }

  predicate LifecycleReady(s: Sys, tx: TxId) {
    tx in s.txs && s.txs[tx].BitsWritten? && s.txs[tx].cred in s.creds
    && s.creds[s.txs[tx].cred].list in s.lists && s.creds[s.txs[tx].cred].list in s.history
  }

  predicate IssuanceReady(s: Sys, tx: TxId) {
    tx in s.txs && s.txs[tx].Inserted? && s.txs[tx].list in s.lists && s.txs[tx].list in s.history
  }

  function CommitLifecycle(s: Sys, tx: TxId): Sys
    requires LifecycleReady(s, tx)
  {
    var t := s.txs[tx];
    var l := s.creds[t.cred].list;
    s.(lists := s.lists[l := WithBits(s.lists[l], t.bits)],
       creds := s.creds[t.cred := s.creds[t.cred].(state := Target(t.verb))],
       history := s.history[l := s.history[l] + [t.bits]],
       txs := s.txs - {tx})
  }

  function CommitIssuance(s: Sys, tx: TxId): Sys
    requires IssuanceReady(s, tx)
  {
    var t := s.txs[tx];
    s.(lists := s.lists[t.list := WithAllocation(s.lists[t.list])],
       creds := s.creds[t.cred := CredentialRow(t.list, t.index, CredentialState.Active)],
       history := s.history[t.list := s.history[t.list] + [s.lists[t.list].bits]],
       txs := s.txs - {tx})
  }

  function Landed(net: Network, q: PutId): Network
    requires q in net.puts
  {
    var row := net.puts[q].snapshot;
    Network(net.registry[row.issuer := row.bits], net.puts - {q}, net.landed + {q},
            net.shown[row.issuer := row.committedVersion])
  }

  function Apply(s: Sys, step: Step): Sys
    requires Enabled(s, step)
  {
    match step
    case InsertList(l, i, entry, url, at) =>
      s.(lists := s.lists[l := FreshRow(i, Some(entry), Some(url), at)],
         history := s.history[l := [Zeros(BITSTRING_BYTES)]])
    case PointIssuer(i, l) => s.(current := s.current[i := l])
    case Find(t, c, verb) => s.(txs := s.txs[t := Found(c, verb)])
    case SetState(t) => s.(txs := s.txs[t := StateWritten(s.txs[t].cred, s.txs[t].verb)])
    case LockList(t) =>
      var x := s.txs[t];
      s.(txs := s.txs[t := ListLocked(x.cred, x.verb, s.lists[s.creds[x.cred].list].bits)])
    case WriteBits(t) =>
      var x := s.txs[t];
      s.(txs := s.txs[t := BitsWritten(x.cred, x.verb,
                                       WithSlot(x.bits, s.creds[x.cred].index, HandlerBit(x.verb)))])
    case ReadCurrent(t, i) => s.(txs := s.txs[t := ListChosen(s.current[i])])
    case AllocateIndex(t) =>
      s.(txs := s.txs[t := IndexTaken(s.txs[t].list, s.lists[s.txs[t].list].allocatedCount)])
    case InsertCredential(t, c) => s.(txs := s.txs[t := Inserted(s.txs[t].list, s.txs[t].index, c)])
    case Commit(t) => if LifecycleReady(s, t) then CommitLifecycle(s, t) else CommitIssuance(s, t)
    case Rollback(t) => s.(txs := s.txs - {t})
    case Acquire(p, l, at, lease) =>
      var row := WithLease(s.lists[l], at + lease);
      s.(lists := s.lists[l := row], rounds := s.rounds[p := Acquired(l, row)])
    case SendPut(p, q) =>
      var r := s.rounds[p];
      s.(net := s.net.(puts := s.net.puts[q := PutRequest(r.list, r.snapshot)]),
         rounds := s.rounds[p := PutSent(r.list, r.snapshot, q)])
    case LandPut(q) => s.(net := Landed(s.net, q))
    case ReportPut(p, success) =>
      var r := s.rounds[p];
      s.(rounds := s.rounds[p := PutReported(r.list, r.snapshot, success)])
    case RecordSuccess(p, at) =>
      var r := s.rounds[p];
      s.(lists := s.lists[r.list := WithPublishSuccess(s.lists[r.list], r.snapshot.committedVersion, at)],
         rounds := s.rounds - {p})
    case RecordFailure(p, error, next, at) =>
      var r := s.rounds[p];
      s.(lists := s.lists[r.list := WithPublishFailure(s.lists[r.list], error, next, at)],
         rounds := s.rounds - {p})
    case Abandon(p) => s.(rounds := s.rounds - {p})
  }

  ghost predicate Next(s: Sys, step: Step, s': Sys) {
    Enabled(s, step) && s' == Apply(s, step)
  }

  /** A run: states[k] is the state before steps[k]. */
  ghost predicate Run(states: seq<Sys>, steps: seq<Step>) {
    && |states| == |steps| + 1
    && states[0] == Empty
    && forall k :: 0 <= k < |steps| ==> Next(states[k], steps[k], states[k + 1])
  }

  // ---- What every interleaving keeps ----

  ghost predicate Rows(s: Sys) {
    && s.history.Keys == s.lists.Keys
    && (forall i :: i in s.current ==> s.current[i] in s.lists && s.lists[s.current[i]].issuer == i)
    && (forall c :: c in s.creds ==> s.creds[c].list in s.lists)
    && (forall l :: l in s.lists ==>
                 |s.lists[l].bits| == BITSTRING_BYTES
                 && s.lists[l].allocatedCount <= STATUS_LIST_CAPACITY)
  }

  /** Only a pointed-at list is ever allocated from or edited. */
  ghost predicate OnlyCurrentListsMove(s: Sys) {
    && (forall l :: l in s.lists && s.lists[l].committedVersion > 0 ==>
                 s.lists[l].issuer in s.current && s.current[s.lists[l].issuer] == l)
    && (forall c :: c in s.creds ==>
                 var l := s.creds[c].list;
                 l in s.lists && s.lists[l].issuer in s.current && s.current[s.lists[l].issuer] == l)
  }

  predicate OnCurrentList(t: Tx) {
    t.ListChosen? || t.IndexTaken? || t.Inserted?
  }

  ghost predicate AllocatesFromCurrent(s: Sys) {
    forall t :: t in s.txs && OnCurrentList(s.txs[t]) ==>
      var l := s.txs[t].list;
      l in s.lists && s.lists[l].issuer in s.current && s.current[s.lists[l].issuer] == l
  }

  ghost predicate SlotsMatchRows(s: Sys) {
    && (forall c :: c in s.creds ==>
                 var r := s.creds[c];
                 r.list in s.lists && r.index < s.lists[r.list].allocatedCount
                 && r.index < 4 * |s.lists[r.list].bits|
                 && SlotAt(s.lists[r.list].bits, r.index) == PublicStatus(r.state))
    && (forall l, i :: l in s.lists && s.lists[l].allocatedCount <= i < 4 * |s.lists[l].bits| ==>
                 SlotAt(s.lists[l].bits, i) == Valid)
  }

  ghost predicate SlotsAssigned(s: Sys) {
    && (forall c, d :: c in s.creds && d in s.creds && c != d ==>
                 s.creds[c].list != s.creds[d].list || s.creds[c].index != s.creds[d].index)
    && (forall l, i :: l in s.lists && 0 <= i < s.lists[l].allocatedCount ==> Owned(s, l, i))
  }

  ghost predicate Owned(s: Sys, l: ListId, i: int) {
    exists c :: c in s.creds && s.creds[c].list == l && s.creds[c].index == i
  }

  ghost predicate Locks(s: Sys) {
    && (forall t, o, c :: t in s.txs && o in s.txs && t != o && HoldsCredential(s.txs[t], c)
                 ==> !HoldsCredential(s.txs[o], c))
    && (forall t, o, l :: t in s.txs && o in s.txs && t != o && HoldsList(s, s.txs[t], l)
                 ==> !HoldsList(s, s.txs[o], l))
  }

  ghost predicate OpenTransaction(s: Sys, t: Tx) {
    match t
    case Found(c, _) => c in s.creds
    case StateWritten(c, _) => c in s.creds
    case ListLocked(c, _, bits) =>
      c in s.creds && s.creds[c].list in s.lists && bits == s.lists[s.creds[c].list].bits
    case BitsWritten(c, verb, bits) =>
      c in s.creds && s.creds[c].list in s.lists
      && s.creds[c].index < 4 * |s.lists[s.creds[c].list].bits|
      && bits == WithSlot(s.lists[s.creds[c].list].bits, s.creds[c].index, HandlerBit(verb))
    case ListChosen(l) => l in s.lists
    case IndexTaken(l, i) => l in s.lists && i == s.lists[l].allocatedCount < STATUS_LIST_CAPACITY
    case Inserted(l, i, c) =>
      l in s.lists && i == s.lists[l].allocatedCount < STATUS_LIST_CAPACITY && c !in s.creds
  }

  ghost predicate Transactions(s: Sys) {
    && (forall t :: t in s.txs ==> OpenTransaction(s, s.txs[t]))
    && (forall t, o :: t in s.txs && o in s.txs && t != o && s.txs[t].Inserted? && s.txs[o].Inserted?
                 ==> s.txs[t].cred != s.txs[o].cred)
  }

  ghost predicate History(s: Sys) {
    forall l :: l in s.lists ==>
      l in s.history
      && |s.history[l]| == s.lists[l].committedVersion + 1
      && s.history[l][s.lists[l].committedVersion] == s.lists[l].bits
  }

  ghost predicate RoundOk(s: Sys, r: Round) {
    && r.list in s.lists && r.list in s.history
    && r.snapshot.issuer == s.lists[r.list].issuer
    && 0 < r.snapshot.committedVersion <= s.lists[r.list].committedVersion
    && r.snapshot.committedVersion < |s.history[r.list]|
    && r.snapshot.bits == s.history[r.list][r.snapshot.committedVersion]
  }

  ghost predicate Rounds(s: Sys) {
    && (forall p :: p in s.rounds ==> RoundOk(s, s.rounds[p]))
    && (forall l :: l in s.lists ==> s.lists[l].publishedVersion <= s.lists[l].committedVersion)
  }

  ghost predicate Inv(s: Sys) {
    Rows(s) && OnlyCurrentListsMove(s) && AllocatesFromCurrent(s) && SlotsMatchRows(s) && SlotsAssigned(s)
    && Locks(s) && Transactions(s) && History(s) && Rounds(s)
  }

  /** Same rows up to the publish columns. */
  ghost predicate SameRows(s: Sys, s': Sys) {
    && s'.current == s.current && s'.creds == s.creds && s'.history == s.history
    && s'.lists.Keys == s.lists.Keys
    && forall l :: l in s.lists ==>
         var a, b := s.lists[l], s'.lists[l];
         a.issuer == b.issuer && a.bits == b.bits && a.allocatedCount == b.allocatedCount
         && a.committedVersion == b.committedVersion
  }

  predicate InsideTransaction(step: Step) {
    step.Find? || step.SetState? || step.LockList? || step.WriteBits? || step.ReadCurrent?
    || step.AllocateIndex? || step.InsertCredential? || step.Rollback?
  }

  predicate Publishing(step: Step) {
    step.Acquire? || step.SendPut? || step.LandPut? || step.ReportPut? || step.RecordSuccess?
    || step.RecordFailure? || step.Abandon?
  }

  lemma TransactionStepFrame(s: Sys, step: Step)
    requires Enabled(s, step) && InsideTransaction(step)
    ensures var s' := Apply(s, step);
            s'.lists == s.lists && SameRows(s, s') && s'.rounds == s.rounds && s'.net == s.net
  {
  }

  lemma PublishStepFrame(s: Sys, step: Step)
    requires Enabled(s, step) && Publishing(step)
    ensures SameRows(s, Apply(s, step)) && Apply(s, step).txs == s.txs
  {
    hide Zeros, WithSlot, ListFree, SlotUnused, IdUnused, CredentialFree;
  }

  // ---- Rows, current lists and slots: framed steps first, then the other four ----

  ghost predicate Placement(s: Sys) {
    Rows(s) && OnlyCurrentListsMove(s) && SlotsMatchRows(s) && SlotsAssigned(s) && History(s)
  }

  lemma PlacementFrame(s: Sys, s': Sys)
    requires Placement(s) && SameRows(s, s')
    ensures Placement(s')
  {
    forall l, i | l in s'.lists && 0 <= i < s'.lists[l].allocatedCount ensures Owned(s', l, i) {
      assert Owned(s, l, i);
    }
  }

  lemma OwnersFrame(s: Sys, s': Sys)
    requires SlotsAssigned(s)
    requires forall c :: c in s.creds ==> c in s'.creds && s'.creds[c].list == s.creds[c].list
                                          && s'.creds[c].index == s.creds[c].index
    ensures forall l, i :: l in s.lists && 0 <= i < s.lists[l].allocatedCount ==> Owned(s', l, i)
  {
    forall l, i | l in s.lists && 0 <= i < s.lists[l].allocatedCount ensures Owned(s', l, i) {
      assert Owned(s, l, i);
      var c :| c in s.creds && s.creds[c].list == l && s.creds[c].index == i;
      assert c in s'.creds && s'.creds[c].list == l && s'.creds[c].index == i;
    }
  }

  lemma PlacementInsertList(s: Sys, step: Step)
    requires Placement(s) && step.InsertList? && Enabled(s, step)
    ensures Placement(Apply(s, step))
  {
    InsertListRows(s, step);
    InsertListSlots(s, step);
    OwnersFrame(s, Apply(s, step));
  }

  /** Inserting a list adds a row and a history and touches nothing else. */
  ghost predicate ListAdded(s: Sys, s': Sys, l: ListId, row: ListRow) {
    && l !in s.lists && s'.lists == s.lists[l := row] && s'.history == s.history[l := [row.bits]]
    && s'.current == s.current && s'.creds == s.creds
  }

  lemma InsertListEffect(s: Sys, step: Step)
    requires step.InsertList? && Enabled(s, step)
    ensures ListAdded(s, Apply(s, step), step.list, FreshRow(step.issuer, Some(step.entry), Some(step.url), step.at))
  {
    hide ListFree, SlotUnused, IdUnused, CredentialFree, Zeros;
  }

  lemma RowsWithList(s: Sys, s': Sys, l: ListId, row: ListRow)
    requires Rows(s) && ListAdded(s, s', l, row) && |row.bits| == BITSTRING_BYTES && row.allocatedCount == 0
    ensures Rows(s')
  {
  }

  lemma CurrentListsWithList(s: Sys, s': Sys, l: ListId, row: ListRow)
    requires OnlyCurrentListsMove(s) && ListAdded(s, s', l, row) && row.committedVersion == 0
    ensures OnlyCurrentListsMove(s')
  {
  }

  lemma HistoryWithList(s: Sys, s': Sys, l: ListId, row: ListRow)
    requires History(s) && ListAdded(s, s', l, row) && row.committedVersion == 0
    ensures History(s')
  {
  }

  lemma InsertListRows(s: Sys, step: Step)
    requires Rows(s) && OnlyCurrentListsMove(s) && History(s) && step.InsertList? && Enabled(s, step)
    ensures var s' := Apply(s, step); Rows(s') && OnlyCurrentListsMove(s') && History(s')
  {
    hide Enabled, Apply, Rows, OnlyCurrentListsMove, History, Zeros, ListAdded;
    InsertListEffect(s, step);
    var row := FreshRow(step.issuer, Some(step.entry), Some(step.url), step.at);
    RowsWithList(s, Apply(s, step), step.list, row);
    CurrentListsWithList(s, Apply(s, step), step.list, row);
    HistoryWithList(s, Apply(s, step), step.list, row);
  }

  lemma InsertListSlots(s: Sys, step: Step)
    requires Rows(s) && SlotsMatchRows(s) && step.InsertList? && Enabled(s, step)
    ensures SlotsMatchRows(Apply(s, step))
  {
    hide SlotAt, Zeros;
  }

  lemma PlacementPointIssuer(s: Sys, step: Step)
    requires Placement(s) && step.PointIssuer? && Enabled(s, step)
    ensures Placement(Apply(s, step))
  {
    hide Zeros, WithSlot, SlotAt, Owned;
    OwnersFrame(s, Apply(s, step));
  }

  lemma LifecycleRows(s: Sys, tx: TxId)
    requires Rows(s) && OnlyCurrentListsMove(s) && History(s)
    requires LifecycleReady(s, tx) && OpenTransaction(s, s.txs[tx])
    ensures var s' := CommitLifecycle(s, tx); Rows(s') && History(s')
  {
  }

  lemma LifecycleCurrent(s: Sys, tx: TxId)
    requires OnlyCurrentListsMove(s) && LifecycleReady(s, tx)
    ensures OnlyCurrentListsMove(CommitLifecycle(s, tx))
  {
  }

  lemma LifecycleSlots(s: Sys, tx: TxId)
    requires Rows(s) && SlotsMatchRows(s) && SlotsAssigned(s)
    requires LifecycleReady(s, tx) && OpenTransaction(s, s.txs[tx])
    ensures SlotsMatchRows(CommitLifecycle(s, tx))
  {
    hide SlotAt, WithSlot, Owned;
    var s' := CommitLifecycle(s, tx);
    var t := s.txs[tx];
    var l, index := s.creds[t.cred].list, s.creds[t.cred].index;
    VerbsRealiseTheTransitions(t.verb, s.creds[t.cred].state);
    forall i | 0 <= i < 4 * |s.lists[l].bits|
      ensures SlotAt(s'.lists[l].bits, i) == if i == index then HandlerBit(t.verb) else SlotAt(s.lists[l].bits, i)
    {
      SlotLaw(s.lists[l].bits, index, HandlerBit(t.verb), i);
    }
  }

  lemma LifecycleOwners(s: Sys, tx: TxId)
    requires SlotsAssigned(s) && LifecycleReady(s, tx)
    ensures SlotsAssigned(CommitLifecycle(s, tx))
  {
    OwnersFrame(s, CommitLifecycle(s, tx));
  }

  lemma IssuanceRows(s: Sys, tx: TxId)
    requires Rows(s) && History(s)
    requires IssuanceReady(s, tx) && OpenTransaction(s, s.txs[tx])
    ensures var s' := CommitIssuance(s, tx); Rows(s') && History(s')
  {
  }

  lemma IssuanceCurrent(s: Sys, tx: TxId)
    requires OnlyCurrentListsMove(s) && AllocatesFromCurrent(s) && IssuanceReady(s, tx)
    ensures OnlyCurrentListsMove(CommitIssuance(s, tx))
  {
  }

  lemma IssuanceSlots(s: Sys, tx: TxId)
    requires Rows(s) && SlotsMatchRows(s)
    requires IssuanceReady(s, tx) && OpenTransaction(s, s.txs[tx])
    ensures SlotsMatchRows(CommitIssuance(s, tx))
  {
  }

  lemma IssuanceOwners(s: Sys, tx: TxId)
    requires SlotsAssigned(s) && SlotsMatchRows(s)
    requires IssuanceReady(s, tx) && OpenTransaction(s, s.txs[tx])
    ensures SlotsAssigned(CommitIssuance(s, tx))
  {
    var s' := CommitIssuance(s, tx);
    var t := s.txs[tx];
    OwnersFrame(s, s');
    assert s'.creds[t.cred].list == t.list && s'.creds[t.cred].index == t.index;
    assert Owned(s', t.list, t.index);
  }

  lemma PlacementKept(s: Sys, step: Step)
    requires Placement(s) && AllocatesFromCurrent(s) && Transactions(s) && Enabled(s, step)
    ensures Placement(Apply(s, step))
  {
    if InsideTransaction(step) {
      TransactionStepFrame(s, step);
      PlacementFrame(s, Apply(s, step));
    } else if Publishing(step) {
      PublishStepFrame(s, step);
      PlacementFrame(s, Apply(s, step));
    } else if step.InsertList? {
      PlacementInsertList(s, step);
    } else if step.PointIssuer? {
      PlacementPointIssuer(s, step);
    } else if LifecycleReady(s, step.tx) {
      LifecycleRows(s, step.tx);
      LifecycleCurrent(s, step.tx);
      LifecycleSlots(s, step.tx);
      LifecycleOwners(s, step.tx);
    } else {
      IssuanceRows(s, step.tx);
      IssuanceCurrent(s, step.tx);
      IssuanceSlots(s, step.tx);
      IssuanceOwners(s, step.tx);
    }
  }

  // ---- Locks and open transactions ----

  /** Only the step's own transaction gains a lock, on a row nobody else holds. */
  lemma CredentialLockEffect(s: Sys, step: Step, t: TxId, c: CredentialId)
    requires Enabled(s, step) && t in Apply(s, step).txs && HoldsCredential(Apply(s, step).txs[t], c)
    ensures (t in s.txs && HoldsCredential(s.txs[t], c))
            || (InsideTransaction(step) && step.tx == t && CredentialFree(s, t, c))
  {
    hide Zeros, WithSlot, ListFree, SlotUnused, IdUnused, CredentialFree;
  }

  lemma ListLockEffect(s: Sys, step: Step, t: TxId, l: ListId)
    requires Enabled(s, step) && t in Apply(s, step).txs && HoldsList(Apply(s, step), Apply(s, step).txs[t], l)
    requires t in s.txs ==> OpenTransaction(s, s.txs[t])
    requires step.Commit? && step.tx in s.txs ==> OpenTransaction(s, s.txs[step.tx])
    ensures (t in s.txs && HoldsList(s, s.txs[t], l))
            || (InsideTransaction(step) && step.tx == t && ListFree(s, l))
  {
    hide Zeros, WithSlot, ListFree, SlotUnused, IdUnused, CredentialFree;
  }

  lemma LocksKept(s: Sys, step: Step)
    requires Locks(s) && Transactions(s) && Enabled(s, step)
    ensures Locks(Apply(s, step))
  {
    hide Enabled, Apply, OpenTransaction, HoldsCredential, HoldsList;
    var s' := Apply(s, step);
    forall t, o, c | t in s'.txs && o in s'.txs && t != o && HoldsCredential(s'.txs[t], c)
      ensures !HoldsCredential(s'.txs[o], c)
    {
      CredentialLockEffect(s, step, t, c);
      if HoldsCredential(s'.txs[o], c) {
        CredentialLockEffect(s, step, o, c);
      }
    }
    forall t, o, l | t in s'.txs && o in s'.txs && t != o && HoldsList(s', s'.txs[t], l)
      ensures !HoldsList(s', s'.txs[o], l)
    {
      ListLockEffect(s, step, t, l);
      if HoldsList(s', s'.txs[o], l) {
        ListLockEffect(s, step, o, l);
      }
    }
  }

  /** A transaction only depends on rows it has locked. */
  lemma OpenTransactionFrame(s: Sys, s': Sys, t: Tx)
    requires OpenTransaction(s, t)
    requires forall c :: c in s.creds ==> c in s'.creds && s'.creds[c].list == s.creds[c].list
                                          && s'.creds[c].index == s.creds[c].index
    requires forall l :: l in s.lists ==> l in s'.lists
    requires forall l :: l in s.lists && HoldsList(s, t, l) ==>
               s'.lists[l].bits == s.lists[l].bits && s'.lists[l].allocatedCount == s.lists[l].allocatedCount
    requires t.Inserted? ==> t.cred !in s'.creds
    ensures OpenTransaction(s', t)
  {
  }

  lemma TransactionsCommit(s: Sys, tx: TxId, t: TxId)
    requires Rows(s) && Locks(s) && Transactions(s) && Enabled(s, Commit(tx))
    requires t in s.txs && t != tx
    ensures OpenTransaction(Apply(s, Commit(tx)), s.txs[t])
  {
    var s' := Apply(s, Commit(tx));
    assert OpenTransaction(s, s.txs[tx]) && OpenTransaction(s, s.txs[t]);
    var l := if LifecycleReady(s, tx) then s.creds[s.txs[tx].cred].list else s.txs[tx].list;
    assert HoldsList(s, s.txs[tx], l);
    assert !HoldsList(s, s.txs[t], l);
    assert forall m :: m in s.lists && m != l ==> s'.lists[m] == s.lists[m];
    OpenTransactionFrame(s, s', s.txs[t]);
  }

  lemma OwnTransaction(s: Sys, step: Step)
    requires Rows(s) && InsideTransaction(step) && Enabled(s, step) && step.tx in Apply(s, step).txs
    requires step.tx in s.txs ==> OpenTransaction(s, s.txs[step.tx])
    ensures OpenTransaction(Apply(s, step), Apply(s, step).txs[step.tx])
  {
    hide Zeros, WithSlot, ListFree, SlotUnused, CredentialFree;
  }

  lemma TransactionsInside(s: Sys, step: Step, t: TxId)
    requires Rows(s) && Transactions(s) && InsideTransaction(step) && Enabled(s, step) && t in Apply(s, step).txs
    ensures OpenTransaction(Apply(s, step), Apply(s, step).txs[t])
  {
    hide Enabled, Apply;
    if t == step.tx {
      hide *;
      OwnTransactionOf(s, step);
    } else {
      TransactionStepFrame(s, step);
      OtherTransactionsStay(s, step, t);
      OpenTransactionFrame(s, Apply(s, step), s.txs[t]);
    }
  }

  lemma OwnTransactionOf(s: Sys, step: Step)
    requires Rows(s) && Transactions(s) && InsideTransaction(step) && Enabled(s, step)
    requires step.tx in Apply(s, step).txs
    ensures OpenTransaction(Apply(s, step), Apply(s, step).txs[step.tx])
  {
    hide Enabled, Apply, OpenTransaction, Rows;
    OwnTransaction(s, step);
  }

  lemma InsertsApart(s: Sys, step: Step, t: TxId, o: TxId)
    requires Transactions(s) && Enabled(s, step) && t in Apply(s, step).txs && o in Apply(s, step).txs && t != o
    requires Apply(s, step).txs[t].Inserted? && Apply(s, step).txs[o].Inserted?
    ensures Apply(s, step).txs[t].cred != Apply(s, step).txs[o].cred
  {
  }

  lemma TransactionsKept(s: Sys, step: Step)
    requires Rows(s) && Locks(s) && Transactions(s) && Enabled(s, step)
    ensures Transactions(Apply(s, step))
  {
    var s' := Apply(s, step);
    forall t | t in s'.txs ensures OpenTransaction(s', s'.txs[t]) {
      OpenTransactionKept(s, step, t);
    }
    hide Rows, Locks, Enabled, Apply, OpenTransaction;
    forall t, o | t in s'.txs && o in s'.txs && t != o && s'.txs[t].Inserted? && s'.txs[o].Inserted?
      ensures s'.txs[t].cred != s'.txs[o].cred
    {
      InsertsApart(s, step, t, o);
    }
  }

  lemma OpenTransactionKept(s: Sys, step: Step, t: TxId)
    requires Rows(s) && Locks(s) && Transactions(s) && Enabled(s, step) && t in Apply(s, step).txs
    ensures OpenTransaction(Apply(s, step), Apply(s, step).txs[t])
  {
    OtherTransactionsStay(s, step, t);
    if step.Commit? {
      CommittedIsGone(s, step.tx);
      hide *;
      TransactionsCommit(s, step.tx, t);
    } else if InsideTransaction(step) {
      hide *;
      TransactionsInside(s, step, t);
    } else {
      TransactionsOutside(s, step, t);
    }
  }

  lemma CommittedIsGone(s: Sys, tx: TxId)
    requires Enabled(s, Commit(tx))
    ensures tx !in Apply(s, Commit(tx)).txs
  {
  }

  lemma TransactionsOutside(s: Sys, step: Step, t: TxId)
    requires Transactions(s) && Enabled(s, step) && !step.Commit? && !InsideTransaction(step) && t in s.txs
    ensures OpenTransaction(Apply(s, step), s.txs[t])
  {
  }

  lemma CurrentStays(s: Sys, step: Step, l: ListId)
    requires Enabled(s, step)
    requires l in s.lists && s.lists[l].issuer in s.current && s.current[s.lists[l].issuer] == l
    ensures var s' := Apply(s, step);
            l in s'.lists && s'.lists[l].issuer in s'.current && s'.current[s'.lists[l].issuer] == l
  {
    ListStays(s, step, l);
    CurrentEffect(s, step);
    hide Apply, Enabled;
  }

  lemma ListStays(s: Sys, step: Step, l: ListId)
    requires Enabled(s, step) && l in s.lists
    ensures l in Apply(s, step).lists && Apply(s, step).lists[l].issuer == s.lists[l].issuer
  {
    hide Zeros, WithSlot, ListFree, SlotUnused, IdUnused, CredentialFree;
  }

  lemma CurrentEffect(s: Sys, step: Step)
    requires Enabled(s, step)
    ensures if step.PointIssuer? then
              step.issuer !in s.current && step.list in s.lists && s.lists[step.list].issuer == step.issuer
              && Apply(s, step).current == s.current[step.issuer := step.list]
            else Apply(s, step).current == s.current
  {
    hide Zeros, WithSlot, ListFree, SlotUnused, IdUnused, CredentialFree;
  }

  lemma OtherTransactionsStay(s: Sys, step: Step, t: TxId)
    requires Enabled(s, step) && t in Apply(s, step).txs
    ensures (t in s.txs && Apply(s, step).txs[t] == s.txs[t]) || (InsideTransaction(step) && step.tx == t)
  {
  }

  /** A transaction past its read of the current list has it from an earlier stage or
      from that read. */
  lemma ChosenListEffect(s: Sys, step: Step, t: TxId)
    requires Enabled(s, step) && t in Apply(s, step).txs && OnCurrentList(Apply(s, step).txs[t])
    ensures var l := Apply(s, step).txs[t].list;
            (t in s.txs && OnCurrentList(s.txs[t]) && s.txs[t].list == l)
            || (step.ReadCurrent? && step.issuer in s.current && s.current[step.issuer] == l)
  {
    hide Zeros, WithSlot, ListFree, SlotUnused, IdUnused, CredentialFree;
  }

  lemma AllocatesFromCurrentKept(s: Sys, step: Step)
    requires Rows(s) && AllocatesFromCurrent(s) && Enabled(s, step)
    ensures AllocatesFromCurrent(Apply(s, step))
  {
    hide Apply, Enabled;
    var s' := Apply(s, step);
    forall t | t in s'.txs && OnCurrentList(s'.txs[t])
      ensures var l := s'.txs[t].list;
              l in s'.lists && s'.lists[l].issuer in s'.current && s'.current[s'.lists[l].issuer] == l
    {
      ChosenListEffect(s, step, t);
      CurrentStays(s, step, s'.txs[t].list);
    }
  }

  // ---- Publish rounds ----

  lemma RoundsKept(s: Sys, step: Step)
    requires Rows(s) && History(s) && Rounds(s) && Enabled(s, step)
    ensures Rounds(Apply(s, step))
  {
    if InsideTransaction(step) {
      TransactionStepFrame(s, step);
    } else if step.Commit? {
      RoundsCommit(s, step.tx);
    } else if Publishing(step) {
      RoundsPublish(s, step);
    }
  }

  lemma RoundsCommit(s: Sys, tx: TxId)
    requires Rows(s) && History(s) && Rounds(s) && Enabled(s, Commit(tx))
    ensures Rounds(Apply(s, Commit(tx)))
  {
    var s' := Apply(s, Commit(tx));
    forall p | p in s'.rounds ensures RoundOk(s', s'.rounds[p]) {
      assert RoundOk(s, s.rounds[p]);
    }
  }

  /** A round is one that was there, with its snapshot, or a list just acquired. */
  lemma RoundEffect(s: Sys, step: Step, p: PublisherId)
    requires Enabled(s, step) && Publishing(step) && p in Apply(s, step).rounds
    ensures var r := Apply(s, step).rounds[p];
            || (p in s.rounds && r.list == s.rounds[p].list && r.snapshot == s.rounds[p].snapshot)
            || (step.Acquire? && r.list in s.lists && s.lists[r.list].IsDirty()
                && r.snapshot == WithLease(s.lists[r.list], step.at + step.lease))
  {
  }

  /** A recorded success moves the published version up to its snapshot's. */
  lemma PublishedEffect(s: Sys, step: Step, l: ListId)
    requires Enabled(s, step) && Publishing(step) && l in s.lists && l in Apply(s, step).lists
    ensures var v := Apply(s, step).lists[l].publishedVersion;
            v == s.lists[l].publishedVersion
            || (step.RecordSuccess? && step.pub in s.rounds && s.rounds[step.pub].list == l
                && v == s.rounds[step.pub].snapshot.committedVersion)
  {
  }

  lemma RoundsPublish(s: Sys, step: Step)
    requires Rows(s) && History(s) && Rounds(s) && Publishing(step) && Enabled(s, step)
    ensures Rounds(Apply(s, step))
  {
    hide Apply, Enabled, Zeros;
    var s' := Apply(s, step);
    PublishStepFrame(s, step);
    forall p | p in s'.rounds ensures RoundOk(s', s'.rounds[p]) {
      RoundEffect(s, step, p);
      if p in s.rounds {
        assert RoundOk(s, s.rounds[p]);
      }
    }
    forall l | l in s'.lists ensures s'.lists[l].publishedVersion <= s'.lists[l].committedVersion {
      PublishedEffect(s, step, l);
      if step.RecordSuccess? && step.pub in s.rounds {
        assert RoundOk(s, s.rounds[step.pub]);
      }
    }
  }

  lemma InvKept(s: Sys, step: Step)
    requires Inv(s) && Enabled(s, step)
    ensures Inv(Apply(s, step))
  {
    PlacementKept(s, step);
    AllocatesFromCurrentKept(s, step);
    LocksKept(s, step);
    TransactionsKept(s, step);
    RoundsKept(s, step);
  }

  lemma InvInitially()
    ensures Inv(Empty)
  {
  }

  lemma InvNext(s: Sys, step: Step, s': Sys)
    requires Inv(s) && Next(s, step, s')
    ensures Inv(s')
  {
    InvKept(s, step);
  }

  lemma {:induction false} InvHolds(states: seq<Sys>, steps: seq<Step>, n: nat)
    requires Run(states, steps) && n <= |steps|
    ensures Inv(states[n])
  {
    hide Inv, Next;
    if n == 0 {
      InvInitially();
    } else {
      InvHolds(states, steps, n - 1);
      assert Next(states[n - 1], steps[n - 1], states[n - 1 + 1]);
      InvNext(states[n - 1], steps[n - 1], states[n]);
    }
  }
}
