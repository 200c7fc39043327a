/** What the registry shows while status lists are edited and published. */
module StatusPublication {
  import opened Wrappers
  import opened StatusBits
  import opened StatusLists
  import opened IssuedCredentials
  import opened StatusPipeline

  // ---- The history is the record of the run ----

  lemma HistoryStays(s: Sys, step: Step)
    requires Enabled(s, step) && !step.Commit?
    ensures forall l :: l in s.history && l in s.lists ==>
              l in Apply(s, step).history && Apply(s, step).history[l] == s.history[l]
  {
    hide Zeros, WithSlot, ListFree, SlotUnused, IdUnused, CredentialFree;
  }

  lemma CommitGrowsHistory(s: Sys, tx: TxId, l: ListId)
    requires Enabled(s, Commit(tx)) && l in s.lists && l in s.history
    ensures var s' := Apply(s, Commit(tx));
            l in s'.lists && l in s'.history && s.history[l] <= s'.history[l]
  {
    hide Zeros, WithSlot;
  }

  lemma HistoryGrows(s: Sys, step: Step, l: ListId)
    requires Enabled(s, step) && l in s.lists && l in s.history
    ensures l in Apply(s, step).lists && l in Apply(s, step).history
            && s.history[l] <= Apply(s, step).history[l]
  {
    if step.Commit? {
      CommitGrowsHistory(s, step.tx, l);
    } else {
      HistoryStays(s, step);
      ListStays(s, step, l);
      hide Apply, Enabled;
    }
  }

  lemma HistoryNow(s: Sys, l: ListId)
    requires Inv(s) && l in s.lists
    ensures l in s.history && s.lists[l].committedVersion < |s.history[l]|
            && s.history[l][s.lists[l].committedVersion] == s.lists[l].bits
            && s.lists[l].publishedVersion <= s.lists[l].committedVersion
  {
  }

  lemma HistoryNext(s: Sys, step: Step, s': Sys, l: ListId)
    requires Inv(s) && Next(s, step, s') && l in s.lists
    ensures l in s.history && l in s'.lists && l in s'.history && s.history[l] <= s'.history[l]
  {
    hide SlotsMatchRows, SlotsAssigned, Locks, Transactions, History, Rounds, OnlyCurrentListsMove,
         AllocatesFromCurrent, Apply, Enabled;
    HistoryGrows(s, step, l);
  }

  /** Version v of a list, looked up in any later state, is the bitstring the
      list had when its committed version was v. */
  lemma {:induction false} HistoryIsTheRecord(states: seq<Sys>, steps: seq<Step>, i: nat, j: nat, l: ListId)
    requires Run(states, steps) && i <= j <= |steps| && l in states[i].lists
    ensures l in states[j].lists && l in states[j].history
    ensures var v := states[i].lists[l].committedVersion;
            v < |states[j].history[l]| && states[j].history[l][v] == states[i].lists[l].bits
    decreases j
  {
    hide Inv, Apply, Enabled;
    if i == j {
      InvHolds(states, steps, i);
      HistoryNow(states[i], l);
    } else {
      HistoryIsTheRecord(states, steps, i, j - 1, l);
      InvHolds(states, steps, j - 1);
      assert Next(states[j - 1], steps[j - 1], states[j - 1 + 1]);
      HistoryNext(states[j - 1], steps[j - 1], states[j], l);
    }
  }

  // ---- Versions, with any number of publishers ----

  lemma PublishedNeverDecreasesStep(s: Sys, step: Step, s': Sys, l: ListId)
    requires Next(s, step, s') && l in s.lists
    ensures l in s'.lists && s.lists[l].publishedVersion <= s'.lists[l].publishedVersion
  {
  }

  /** However many publishers race, a list's published version never decreases
      and never passes its committed version. */
  lemma {:induction false} PublishedIsMonotone(states: seq<Sys>, steps: seq<Step>, i: nat, j: nat, l: ListId)
    requires Run(states, steps) && i <= j <= |steps| && l in states[i].lists
    ensures l in states[j].lists
            && states[i].lists[l].publishedVersion <= states[j].lists[l].publishedVersion
            && states[j].lists[l].publishedVersion <= states[j].lists[l].committedVersion
    decreases j
  {
    hide Inv, Apply, Enabled;
    if i < j {
      PublishedIsMonotone(states, steps, i, j - 1, l);
      assert Next(states[j - 1], steps[j - 1], states[j - 1 + 1]);
      PublishedNeverDecreasesStep(states[j - 1], steps[j - 1], states[j], l);
    }
    InvHolds(states, steps, j);
    HistoryNow(states[j], l);
  }

  // ---- Leases ----

  /** The step records an outcome on `l`: a failure, or a success that wins its guard. */
  predicate RecordsOutcome(s: Sys, step: Step, l: ListId) {
    match step
    case RecordSuccess(p, _) => p in s.rounds && s.rounds[p].list == l && l in s.lists
                                && s.lists[l].publishedVersion < s.rounds[p].snapshot.committedVersion
    case RecordFailure(p, _, _, _) => p in s.rounds && s.rounds[p].list == l
    case _ => false
  }

  lemma LeaseStays(s: Sys, step: Step, s': Sys, l: ListId)
    requires Next(s, step, s') && l in s.lists
    requires !RecordsOutcome(s, step, l) && !(step.Acquire? && step.list == l)
    ensures l in s'.lists && s'.lists[l].nextAttemptAt == s.lists[l].nextAttemptAt
  {
  }

  lemma LeaseTaken(s: Sys, step: Step, s': Sys)
    requires Next(s, step, s') && step.Acquire?
    ensures step.list in s'.lists && s'.lists[step.list].nextAttemptAt == Some(step.at + step.lease)
  {
  }

  lemma {:induction false} LeaseHeldBetween(states: seq<Sys>, steps: seq<Step>, i: nat, j: nat, l: ListId)
    requires Run(states, steps) && i < j <= |steps|
    requires steps[i].Acquire? && steps[i].list == l
    requires forall k :: i < k < j ==> !RecordsOutcome(states[k], steps[k], l)
                                       && !(steps[k].Acquire? && steps[k].list == l)
    ensures l in states[j].lists
            && states[j].lists[l].nextAttemptAt == Some(steps[i].at + steps[i].lease)
    decreases j
  {
    hide Apply, Enabled;
    assert Next(states[j - 1], steps[j - 1], states[j - 1 + 1]);
    if i + 1 == j {
      LeaseTaken(states[i], steps[i], states[j]);
    } else {
      LeaseHeldBetween(states, steps, i, j - 1, l);
      LeaseStays(states[j - 1], steps[j - 1], states[j], l);
    }
  }

  /** Two successive acquisitions of one list with no outcome recorded in between
      lie at least the first one's lease apart, whoever acquires. */
  lemma AcquisitionsAreALeaseApart(states: seq<Sys>, steps: seq<Step>, i: nat, j: nat, l: ListId)
    requires Run(states, steps) && i < j < |steps|
    requires steps[i].Acquire? && steps[i].list == l && steps[j].Acquire? && steps[j].list == l
    requires forall k :: i < k < j ==> !RecordsOutcome(states[k], steps[k], l)
                                       && !(steps[k].Acquire? && steps[k].list == l)
    ensures steps[j].at >= steps[i].at + steps[i].lease
  {
    LeaseHeldBetween(states, steps, i, j, l);
    assert Next(states[j], steps[j], states[j + 1]);
  }

  /** A list is acquired only while an edit is unpublished and no lease or retry time
      lies ahead, and the lease then runs from the moment of the acquisition. */
  lemma AcquisitionsAreDue(states: seq<Sys>, steps: seq<Step>, n: nat)
    requires Run(states, steps) && n < |steps| && steps[n].Acquire?
    ensures steps[n].list in states[n].lists && steps[n].list in states[n + 1].lists
    ensures var row := states[n].lists[steps[n].list];
            && row.publishedVersion < row.committedVersion
            && (row.nextAttemptAt.None? || row.nextAttemptAt.value <= steps[n].at)
            && states[n + 1].lists[steps[n].list] == row.(nextAttemptAt := Some(steps[n].at + steps[n].lease))
  {
    assert Next(states[n], steps[n], states[n + 1]);
  }

  // ---- What a recorded success leaves behind ----

  predicate EndsRound(step: Step, p: PublisherId) {
    match step
    case RecordSuccess(q, _) => q == p
    case RecordFailure(q, _, _, _) => q == p
    case Abandon(q) => q == p
    case _ => false
  }

  /** The step commits a bit edit or an allocation on `l`. */
  predicate Edits(s: Sys, step: Step, l: ListId) {
    step.Commit?
    && (if LifecycleReady(s, step.tx) then s.creds[s.txs[step.tx].cred].list == l
        else IssuanceReady(s, step.tx) && s.txs[step.tx].list == l)
  }

  lemma EditEffect(s: Sys, step: Step, s': Sys, l: ListId)
    requires Next(s, step, s') && l in s.lists
    ensures l in s'.lists
    ensures s'.lists[l].committedVersion == s.lists[l].committedVersion + if Edits(s, step, l) then 1 else 0
  {
    hide Zeros, WithSlot, ListFree, SlotUnused, IdUnused, CredentialFree;
  }

  lemma SnapshotStays(s: Sys, step: Step, s': Sys, p: PublisherId)
    requires Next(s, step, s') && p in s.rounds && !EndsRound(step, p)
    ensures p in s'.rounds && s'.rounds[p].list == s.rounds[p].list && s'.rounds[p].snapshot == s.rounds[p].snapshot
  {
    hide Zeros, WithSlot, ListFree, SlotUnused, IdUnused, CredentialFree;
  }

  lemma AcquireTakesTheRow(s: Sys, step: Step, s': Sys)
    requires Next(s, step, s') && step.Acquire?
    ensures step.list in s.lists && step.list in s'.lists && step.pub in s'.rounds
            && s'.rounds[step.pub].list == step.list
            && s'.rounds[step.pub].snapshot.committedVersion == s.lists[step.list].committedVersion
            && s'.lists[step.list].committedVersion == s.lists[step.list].committedVersion
  {
  }

  /** The round acquired at step i is still open before step j. */
  ghost predicate RoundSince(steps: seq<Step>, i: nat, j: nat, p: PublisherId, l: ListId) {
    i < j <= |steps| && steps[i].Acquire? && steps[i].pub == p && steps[i].list == l
    && forall k :: i < k < j ==> !EndsRound(steps[k], p)
  }

  ghost predicate EditedBetween(states: seq<Sys>, steps: seq<Step>, i: nat, j: nat, l: ListId)
    requires j <= |steps| && |states| == |steps| + 1
  {
    exists k :: i < k < j && Edits(states[k], steps[k], l)
  }

  lemma {:induction false} SnapshotAgesByEdits(states: seq<Sys>, steps: seq<Step>, i: nat, j: nat,
                                               p: PublisherId, l: ListId)
    requires Run(states, steps) && RoundSince(steps, i, j, p, l)
    ensures p in states[j].rounds && states[j].rounds[p].list == l && l in states[j].lists
    ensures states[j].rounds[p].snapshot.committedVersion <= states[j].lists[l].committedVersion
    ensures states[j].rounds[p].snapshot.committedVersion < states[j].lists[l].committedVersion <==>
              EditedBetween(states, steps, i, j, l)
    decreases j
  {
    hide Apply, Enabled, Edits;
    assert Next(states[j - 1], steps[j - 1], states[j - 1 + 1]);
    if i == j - 1 {
      AcquireTakesTheRow(states[i], steps[i], states[j]);
    } else {
      SnapshotAgesByEdits(states, steps, i, j - 1, p, l);
      SnapshotStays(states[j - 1], steps[j - 1], states[j], p);
      EditEffect(states[j - 1], steps[j - 1], states[j], l);
      assert EditedBetween(states, steps, i, j - 1, l) ==> EditedBetween(states, steps, i, j, l);
    }
  }

  /** A recorded success leaves its list dirty exactly when a commit on that list
      landed after the round had acquired it, whoever else publishes meanwhile. */
  lemma SuccessLeavesDirtyExactlyAfterAnEdit(states: seq<Sys>, steps: seq<Step>, i: nat, j: nat,
                                             p: PublisherId, l: ListId)
    requires Run(states, steps) && j < |steps| && RoundSince(steps, i, j, p, l)
    requires steps[j].RecordSuccess? && steps[j].pub == p && RecordsOutcome(states[j], steps[j], l)
    ensures l in states[j + 1].lists
    ensures states[j + 1].lists[l].IsDirty() <==> EditedBetween(states, steps, i, j, l)
  {
    SnapshotAgesByEdits(states, steps, i, j, p, l);
    assert Next(states[j], steps[j], states[j + 1]);
    hide Edits, EditedBetween;
  }

  // ---- What every step does to the registry, whoever publishes ----

  lemma PutEffect(s: Sys, step: Step, q: PutId)
    requires Enabled(s, step) && q in Apply(s, step).net.puts
    ensures var s' := Apply(s, step);
            || (q in s.net.puts && s'.net.puts[q] == s.net.puts[q] && step != LandPut(q))
            || (step.SendPut? && step.put == q && q !in s.net.puts && step.pub in s.rounds
                && s'.net.puts[q] == PutRequest(s.rounds[step.pub].list, s.rounds[step.pub].snapshot))
  {
    hide Zeros, WithSlot, ListFree, SlotUnused, IdUnused, CredentialFree;
  }

  lemma EntryEffect(s: Sys, step: Step)
    requires Enabled(s, step)
    ensures var n, n' := s.net, Apply(s, step).net;
            if step.LandPut? then
              step.put in n.puts && n'.landed == n.landed + {step.put}
              && n'.registry == n.registry[n.puts[step.put].snapshot.issuer := n.puts[step.put].snapshot.bits]
              && n'.shown == n.shown[n.puts[step.put].snapshot.issuer := n.puts[step.put].snapshot.committedVersion]
            else n'.registry == n.registry && n'.shown == n.shown && n'.landed == n.landed
  {
    hide Zeros, WithSlot, ListFree, SlotUnused, IdUnused, CredentialFree;
  }

  /** A list's published version moves only when a success wins its guard. */
  lemma PublishedNext(s: Sys, step: Step, l: ListId)
    requires Enabled(s, step) && l in s.lists
    ensures var s' := Apply(s, step);
            && l in s'.lists && s'.lists[l].issuer == s.lists[l].issuer
            && s.lists[l].committedVersion <= s'.lists[l].committedVersion
            && s'.lists[l].publishedVersion ==
                 if step.RecordSuccess? && RecordsOutcome(s, step, l)
                 then s.rounds[step.pub].snapshot.committedVersion else s.lists[l].publishedVersion
  {
    hide Zeros, WithSlot, ListFree, SlotUnused, IdUnused, CredentialFree;
  }

  ghost predicate PutOk(s: Sys, q: PutRequest) {
    RoundOk(s, Acquired(q.list, q.snapshot))
  }

  /** The entry of `i` is the version of the current list that its tag names. */
  ghost predicate TagOk(s: Sys, i: IssuerId) {
    && i in s.net.shown && i in s.net.registry && i in s.current && s.current[i] in s.lists
    && s.net.shown[i] <= s.lists[s.current[i]].committedVersion
    && ShowsVersion(s, i, s.current[i], s.net.shown[i])
  }

  ghost predicate ShowsVersion(s: Sys, i: IssuerId, l: ListId, v: nat) {
    i in s.net.registry && l in s.history && v < |s.history[l]| && s.net.registry[i] == s.history[l][v]
  }

  ghost predicate Tagged(s: Sys) {
    && s.net.shown.Keys == s.net.registry.Keys
    && (forall q :: q in s.net.puts ==> PutOk(s, s.net.puts[q]))
    && (forall i :: i in s.net.registry ==> TagOk(s, i))
  }

  lemma RoundOkStays(s: Sys, step: Step, r: Round)
    requires Rows(s) && Enabled(s, step) && RoundOk(s, r)
    ensures RoundOk(Apply(s, step), r)
  {
    HistoryGrows(s, step, r.list);
    PublishedNext(s, step, r.list);
    hide Apply, Enabled;
  }

  lemma PutOkKept(s: Sys, step: Step, q: PutId)
    requires Rows(s) && Rounds(s) && Tagged(s) && Enabled(s, step) && q in Apply(s, step).net.puts
    ensures PutOk(Apply(s, step), Apply(s, step).net.puts[q])
  {
    hide Apply, Enabled, Rows, RoundOk;
    PutEffect(s, step, q);
    if q in s.net.puts && step != LandPut(q) {
      RoundOkStays(s, step, Acquired(s.net.puts[q].list, s.net.puts[q].snapshot));
    } else {
      var r := s.rounds[step.pub];
      SameSnapshotOk(s, r);
      RoundOkStays(s, step, Acquired(r.list, r.snapshot));
    }
  }

  lemma SameSnapshotOk(s: Sys, r: Round)
    requires RoundOk(s, r)
    ensures RoundOk(s, Acquired(r.list, r.snapshot))
  {
  }

  /** The list of a request under way is its issuer's current one. */
  lemma PutOnCurrentList(s: Sys, q: PutRequest)
    requires OnlyCurrentListsMove(s) && PutOk(s, q)
    ensures var i := q.snapshot.issuer;
            && i in s.current && s.current[i] == q.list && q.list in s.lists
            && q.snapshot.committedVersion <= s.lists[q.list].committedVersion
            && q.list in s.history && q.snapshot.committedVersion < |s.history[q.list]|
            && q.snapshot.bits == s.history[q.list][q.snapshot.committedVersion]
  {
  }

  lemma TagKept(s: Sys, step: Step, i: IssuerId)
    requires Rows(s) && OnlyCurrentListsMove(s) && Tagged(s) && Enabled(s, step)
    requires i in Apply(s, step).net.registry
    ensures TagOk(Apply(s, step), i)
  {
    hide Apply, Enabled, Rows, OnlyCurrentListsMove, PutOk;
    EntryEffect(s, step);
    CurrentEffect(s, step);
    if step.LandPut? && i == s.net.puts[step.put].snapshot.issuer {
      PutOnCurrentList(s, s.net.puts[step.put]);
    } else {
      assert TagOk(s, i);
    }
    HistoryOf(s, s.current[i]);
    HistoryGrows(s, step, s.current[i]);
    PublishedNext(s, step, s.current[i]);
  }

  lemma HistoryOf(s: Sys, l: ListId)
    requires Rows(s) && l in s.lists
    ensures l in s.history
  {
  }

  lemma TaggedNext(s: Sys, step: Step, s': Sys)
    requires Inv(s) && Tagged(s) && Next(s, step, s')
    ensures Tagged(s')
  {
    hide Rows, OnlyCurrentListsMove, History, Rounds, SlotsMatchRows, SlotsAssigned, Locks, Transactions,
         AllocatesFromCurrent, Apply, Enabled, PutOk, TagOk;
    EntryEffect(s, step);
    forall q | q in s'.net.puts ensures PutOk(s', s'.net.puts[q]) {
      PutOkKept(s, step, q);
    }
    forall i | i in s'.net.registry ensures TagOk(s', i) {
      TagKept(s, step, i);
    }
  }

  lemma {:induction false} TaggedHolds(states: seq<Sys>, steps: seq<Step>, n: nat)
    requires Run(states, steps) && n <= |steps|
    ensures Tagged(states[n])
  {
    hide Inv, Apply, Enabled;
    if n == 0 {
      assert states[0] == Empty;
    } else {
      TaggedHolds(states, steps, n - 1);
      InvHolds(states, steps, n - 1);
      assert Next(states[n - 1], steps[n - 1], states[n - 1 + 1]);
      hide Tagged;
      TaggedNext(states[n - 1], steps[n - 1], states[n]);
    }
  }

  /** With any number of publishers, requests lost or landing late, and crashes, an
      entry is the bitstring some version of the issuer's current list had: the one
      its tag names, which is no newer than the committed one. */
  lemma EntriesShowTheirVersion(states: seq<Sys>, steps: seq<Step>, n: nat, i: IssuerId)
    requires Run(states, steps) && n <= |steps| && i in states[n].net.registry
    ensures var s := states[n];
            && i in s.net.shown && i in s.current && s.current[i] in s.lists && s.current[i] in s.history
            && s.net.shown[i] <= s.lists[s.current[i]].committedVersion
            && s.net.shown[i] < |s.history[s.current[i]]|
            && s.net.registry[i] == s.history[s.current[i]][s.net.shown[i]]
  {
    TaggedHolds(states, steps, n);
    assert TagOk(states[n], i);
  }

  // ---- When the registry is recent enough ----

  /** The entry's version lies between the published and the committed one; while
      there is no entry, nothing is recorded as published. */
  ghost predicate InWindow(s: Sys, i: IssuerId) {
    && i in s.current && s.current[i] in s.lists
    && var row := s.lists[s.current[i]];
       if i in s.net.shown then row.publishedVersion <= s.net.shown[i] <= row.committedVersion
       else row.publishedVersion == 0
  }

  ghost predicate AllInWindow(s: Sys) {
    forall i :: i in s.current ==> InWindow(s, i)
  }

  /** A PUT that lands is not older than what is recorded as published, and a success
      that wins its guard finds the entry at least at its own version. */
  predicate StepInOrder(s: Sys, step: Step) {
    match step
    case LandPut(q) =>
      q in s.net.puts && s.net.puts[q].list in s.lists ==>
        s.lists[s.net.puts[q].list].publishedVersion <= s.net.puts[q].snapshot.committedVersion
    case RecordSuccess(p, _) =>
      p in s.rounds && RecordsOutcome(s, step, s.rounds[p].list) ==>
        var row := s.rounds[p].snapshot;
        row.issuer in s.net.shown && s.net.shown[row.issuer] >= row.committedVersion
    case _ => true
  }

  lemma WindowKept(s: Sys, step: Step, i: IssuerId)
    requires Rows(s) && OnlyCurrentListsMove(s) && Rounds(s) && Tagged(s) && AllInWindow(s) && Enabled(s, step)
    requires StepInOrder(s, step) && i in s.current
    ensures InWindow(Apply(s, step), i)
  {
    hide Apply, Enabled, Rows, OnlyCurrentListsMove, PutOk, TagOk, RoundOk;
    assert InWindow(s, i);
    var l := s.current[i];
    EntryEffect(s, step);
    CurrentEffect(s, step);
    PublishedNext(s, step, l);
    if step.LandPut? {
      PutOnCurrentList(s, s.net.puts[step.put]);
    } else if step.RecordSuccess? && RecordsOutcome(s, step, l) {
      RoundOnCurrentList(s, step.pub);
      CurrentIssuer(s, i);
      if i in s.net.registry {
        TagBelowCommitted(s, i);
      }
    }
  }

  lemma CurrentIssuer(s: Sys, i: IssuerId)
    requires Rows(s) && i in s.current
    ensures s.current[i] in s.lists && s.lists[s.current[i]].issuer == i
  {
  }

  lemma TagBelowCommitted(s: Sys, i: IssuerId)
    requires TagOk(s, i)
    ensures i in s.net.shown && i in s.current && s.current[i] in s.lists
            && s.net.shown[i] <= s.lists[s.current[i]].committedVersion
  {
  }

  /** A round in flight is on its issuer's current list. */
  lemma RoundOnCurrentList(s: Sys, p: PublisherId)
    requires OnlyCurrentListsMove(s) && Rounds(s) && p in s.rounds
    ensures var r := s.rounds[p];
            r.snapshot.issuer in s.current && s.current[r.snapshot.issuer] == r.list && r.list in s.lists
            && s.lists[r.list].issuer == r.snapshot.issuer
            && r.snapshot.committedVersion <= s.lists[r.list].committedVersion
  {
    assert RoundOk(s, s.rounds[p]);
  }

  /** An issuer just pointed at its first list has nothing published and no entry. */
  lemma NewIssuerInWindow(s: Sys, step: Step)
    requires Rows(s) && OnlyCurrentListsMove(s) && Rounds(s) && Tagged(s) && Enabled(s, step) && step.PointIssuer?
    ensures InWindow(Apply(s, step), step.issuer)
  {
    hide RoundOk, PutOk, Zeros, WithSlot, ListFree, SlotUnused, IdUnused, CredentialFree;
  }

  lemma WindowBroken(s: Sys, step: Step)
    requires Rows(s) && OnlyCurrentListsMove(s) && Rounds(s) && Tagged(s) && AllInWindow(s) && Enabled(s, step)
    requires !StepInOrder(s, step)
    ensures !AllInWindow(Apply(s, step))
  {
    hide Apply, Enabled, Rows, OnlyCurrentListsMove, PutOk, TagOk, RoundOk;
    EntryEffect(s, step);
    CurrentEffect(s, step);
    var i;
    if step.LandPut? {
      PutOnCurrentList(s, s.net.puts[step.put]);
      i := s.net.puts[step.put].snapshot.issuer;
    } else {
      RoundOnCurrentList(s, step.pub);
      i := s.rounds[step.pub].snapshot.issuer;
    }
    PublishedNext(s, step, s.current[i]);
    assert !InWindow(Apply(s, step), i);
  }

  lemma WindowStep(s: Sys, step: Step, s': Sys)
    requires Inv(s) && Tagged(s) && AllInWindow(s) && Next(s, step, s')
    ensures AllInWindow(s') <==> StepInOrder(s, step)
  {
    hide Rows, OnlyCurrentListsMove, History, Rounds, SlotsMatchRows, SlotsAssigned, Locks, Transactions,
         AllocatesFromCurrent, Apply, Enabled, Tagged, InWindow, StepInOrder;
    CurrentEffect(s, step);
    if StepInOrder(s, step) {
      forall i | i in s'.current ensures InWindow(s', i) {
        if i in s.current {
          WindowKept(s, step, i);
        } else {
          NewIssuerInWindow(s, step);
        }
      }
    } else {
      WindowBroken(s, step);
    }
  }

  ghost predicate RegistryIsRecent(states: seq<Sys>) {
    forall n :: 0 <= n < |states| ==> AllInWindow(states[n])
  }

  ghost predicate InOrder(states: seq<Sys>, steps: seq<Step>)
    requires |states| == |steps| + 1
  {
    forall k :: 0 <= k < |steps| ==> StepInOrder(states[k], steps[k])
  }

  lemma {:induction false} WindowWhileInOrder(states: seq<Sys>, steps: seq<Step>, n: nat)
    requires Run(states, steps) && n <= |steps| && forall k :: 0 <= k < n ==> StepInOrder(states[k], steps[k])
    ensures AllInWindow(states[n])
  {
    hide Inv, Next, Tagged, AllInWindow, StepInOrder;
    if n == 0 {
      NothingInWindow();
    } else {
      WindowWhileInOrder(states, steps, n - 1);
      InvHolds(states, steps, n - 1);
      TaggedHolds(states, steps, n - 1);
      assert Next(states[n - 1], steps[n - 1], states[n - 1 + 1]);
      WindowStep(states[n - 1], steps[n - 1], states[n]);
    }
  }

  lemma NothingInWindow()
    ensures AllInWindow(Empty)
  {
  }

  /** Throughout a run every entry lies between the published and the committed version
      if and only if every PUT that lands is at least as new as what is recorded as
      published by then, and every success that wins its guard finds the entry at its
      own version or a newer one. Any number of publishers; PUTs may be lost, land
      though reported failed, and land after their round or publisher is gone. */
  lemma RegistryIsRecentExactlyInOrder(states: seq<Sys>, steps: seq<Step>)
    requires Run(states, steps)
    ensures RegistryIsRecent(states) <==> InOrder(states, steps)
  {
    hide Inv, Next, Tagged, AllInWindow, StepInOrder;
    if InOrder(states, steps) {
      forall n | 0 <= n < |states| ensures AllInWindow(states[n]) {
        WindowWhileInOrder(states, steps, n);
      }
    }
    if RegistryIsRecent(states) {
      forall k | 0 <= k < |steps| ensures StepInOrder(states[k], steps[k]) {
        InvHolds(states, steps, k);
        TaggedHolds(states, steps, k);
        assert Next(states[k], steps[k], states[k + 1]);
        assert AllInWindow(states[k]) && AllInWindow(states[k + 1]);
        WindowStep(states[k], steps[k], states[k + 1]);
      }
    }
  }

  // ---- What verifiers read ----

  /** The registry entry of `i` is some version between published and committed,
      or nothing was ever put there. */
  ghost predicate EntryCurrent(s: Sys, i: IssuerId) {
    i in s.current && s.current[i] in s.lists
    && var row := s.lists[s.current[i]];
       if i in s.net.registry then
         exists v :: row.publishedVersion <= v <= row.committedVersion && ShowsVersion(s, i, s.current[i], v)
       else row.publishedVersion == 0
  }

  lemma RegistryShowsARecentVersion(states: seq<Sys>, steps: seq<Step>, n: nat, i: IssuerId)
    requires Run(states, steps) && InOrder(states, steps) && n <= |steps| && i in states[n].current
    ensures EntryCurrent(states[n], i)
    ensures var s := states[n];
            && s.current[i] in s.lists
            && var row := s.lists[s.current[i]];
               if i in s.net.registry then
                 && i in s.net.shown && row.publishedVersion <= s.net.shown[i] <= row.committedVersion
                 && s.current[i] in s.history && s.net.shown[i] < |s.history[s.current[i]]|
                 && s.net.registry[i] == s.history[s.current[i]][s.net.shown[i]]
               else row.publishedVersion == 0
  {
    hide Inv, Next, StepInOrder;
    WindowWhileInOrder(states, steps, n);
    TaggedHolds(states, steps, n);
    assert InWindow(states[n], i);
    if i in states[n].net.registry {
      assert TagOk(states[n], i);
    }
  }

  /** Once something is published and nothing is pending, what verifiers read for
      every credential of the issuer's list is the state of its row. */
  lemma PublicStatusAgrees(states: seq<Sys>, steps: seq<Step>, n: nat, c: CredentialId)
    requires Run(states, steps) && InOrder(states, steps) && n <= |steps| && c in states[n].creds
    requires var l := states[n].creds[c].list;
             l in states[n].lists
             && 0 < states[n].lists[l].publishedVersion == states[n].lists[l].committedVersion
    ensures var s := states[n];
            var r := s.creds[c];
            var i := s.lists[r.list].issuer;
            i in s.net.registry && r.index < 4 * |s.net.registry[i]|
            && SlotAt(s.net.registry[i], r.index) == match r.state
                                                     case Active => StatusValue.Valid
                                                     case Suspended => StatusValue.Suspended
                                                     case Revoked => StatusValue.Revoked
  {
    hide SlotAt, Locks, Transactions, AllocatesFromCurrent, Rounds, StepInOrder, Next;
    InvHolds(states, steps, n);
    var s := states[n];
    var l := s.creds[c].list;
    var i := s.lists[l].issuer;
    assert s.current[i] == l;
    RegistryShowsARecentVersion(states, steps, n, i);
    var v :| s.lists[l].publishedVersion <= v <= s.lists[l].committedVersion && ShowsVersion(s, i, l, v);
    assert s.net.registry[i] == s.lists[l].bits;
  }

  // ---- One publisher, or rounds that do not overlap ----

  /** No list is acquired while another round on it is still in flight. One
      publisher guarantees this; several do when every round ends within its lease. */
  ghost predicate RoundsDisjoint(states: seq<Sys>, steps: seq<Step>)
    requires |states| == |steps| + 1
  {
    forall k :: 0 <= k < |steps| && steps[k].Acquire? ==> NoRoundOn(states[k], steps[k].list)
  }

  /** Every PUT lands, if at all, while its round is still waiting for the answer. */
  ghost predicate PutsLandInTime(states: seq<Sys>, steps: seq<Step>)
    requires |states| == |steps| + 1
  {
    forall k :: 0 <= k < |steps| && steps[k].LandPut? ==> Awaited(states[k], steps[k].put)
  }

  ghost predicate NoRoundOn(s: Sys, l: ListId) {
    forall p :: p in s.rounds ==> s.rounds[p].list != l
  }

  ghost predicate Awaited(s: Sys, q: PutId) {
    exists p :: p in s.rounds && s.rounds[p].PutSent? && s.rounds[p].put == q
  }

  /** The round is ahead of what is published, its request is the one under way, and
      once that has landed the entry is at the round's version. */
  ghost predicate RoundAhead(s: Sys, r: Round) {
    && r.list in s.lists
    && s.lists[r.list].publishedVersion < r.snapshot.committedVersion
    && (r.PutSent? && r.put in s.net.puts ==> s.net.puts[r.put] == PutRequest(r.list, r.snapshot))
    && ((if r.PutSent? then r.put in s.net.landed else r.PutReported? && r.success) ==>
          r.snapshot.issuer in s.net.shown && s.net.shown[r.snapshot.issuer] == r.snapshot.committedVersion)
    && (r.PutSent? ==> r.put in s.net.puts || r.put in s.net.landed)
  }

  ghost predicate Disjoint(s: Sys) {
    && (forall p, q :: p in s.rounds && q in s.rounds && p != q ==> s.rounds[p].list != s.rounds[q].list)
    && (forall p :: p in s.rounds ==> RoundAhead(s, s.rounds[p]))
    && (forall q :: q in s.net.puts ==> q !in s.net.landed)
  }

  ghost predicate StepDisjoint(s: Sys, step: Step) {
    && (step.Acquire? ==> NoRoundOn(s, step.list))
    && (step.LandPut? ==> Awaited(s, step.put))
  }

  lemma DisjointInOrder(s: Sys, step: Step)
    requires Rounds(s) && Disjoint(s) && StepDisjoint(s, step) && Enabled(s, step)
    ensures StepInOrder(s, step)
  {
    hide RoundOk, Zeros, WithSlot, ListFree, SlotUnused, IdUnused, CredentialFree;
    if step.LandPut? {
      var p :| p in s.rounds && s.rounds[p].PutSent? && s.rounds[p].put == step.put;
      assert RoundAhead(s, s.rounds[p]);
    } else if step.RecordSuccess? {
      assert RoundAhead(s, s.rounds[step.pub]);
    }
  }

  /** A round after the step: as it was, sent, reported or just acquired. */
  ghost predicate RoundMoved(s: Sys, step: Step, p: PublisherId, r: Round) {
    || (p in s.rounds && r == s.rounds[p] && !EndsRound(step, p))
    || (step.SendPut? && step.pub == p && p in s.rounds && step.put !in s.net.puts && step.put !in s.net.landed
        && r == PutSent(s.rounds[p].list, s.rounds[p].snapshot, step.put))
    || (step.ReportPut? && step.pub == p && p in s.rounds && s.rounds[p].PutSent?
        && (step.success ==> s.rounds[p].put in s.net.landed)
        && r == PutReported(s.rounds[p].list, s.rounds[p].snapshot, step.success))
    || (step.Acquire? && step.pub == p && step.list in s.lists && s.lists[step.list].IsDirty()
        && r == Acquired(step.list, WithLease(s.lists[step.list], step.at + step.lease)))
  }

  lemma RoundNext(s: Sys, step: Step, p: PublisherId)
    requires Enabled(s, step) && p in Apply(s, step).rounds
    ensures RoundMoved(s, step, p, Apply(s, step).rounds[p])
  {
    hide Zeros, WithSlot, ListFree, SlotUnused, IdUnused, CredentialFree;
  }

  /** What was under way stays under way or has landed. */
  lemma PutsNext(s: Sys, step: Step)
    requires Enabled(s, step)
    ensures Apply(s, step).net.puts == match step
                                       case SendPut(p, q) => s.net.puts[q := PutRequest(s.rounds[p].list, s.rounds[p].snapshot)]
                                       case LandPut(q) => s.net.puts - {q}
                                       case _ => s.net.puts
    ensures step.SendPut? ==> step.put !in s.net.puts && step.put !in s.net.landed
  {
    hide Zeros, WithSlot, ListFree, SlotUnused, IdUnused, CredentialFree;
  }

  lemma LandingKeepsRoundAhead(s: Sys, step: Step, p: PublisherId)
    requires OnlyCurrentListsMove(s) && Rounds(s) && Disjoint(s) && StepDisjoint(s, step) && Enabled(s, step)
    requires step.LandPut? && p in s.rounds && p in Apply(s, step).rounds
    ensures RoundAhead(Apply(s, step), Apply(s, step).rounds[p])
  {
    hide Apply, Enabled, OnlyCurrentListsMove, Rounds;
    RoundNext(s, step, p);
    PutsNext(s, step);
    EntryEffect(s, step);
    PublishedNext(s, step, s.rounds[p].list);
    RoundOnCurrentList(s, p);
    assert RoundAhead(s, s.rounds[p]);
    var o :| o in s.rounds && s.rounds[o].PutSent? && s.rounds[o].put == step.put;
    RoundOnCurrentList(s, o);
    assert RoundAhead(s, s.rounds[o]);
  }

  lemma RoundAheadKept(s: Sys, step: Step, p: PublisherId)
    requires OnlyCurrentListsMove(s) && Rounds(s) && Disjoint(s) && StepDisjoint(s, step) && Enabled(s, step)
    requires p in Apply(s, step).rounds && !step.LandPut?
    ensures RoundAhead(Apply(s, step), Apply(s, step).rounds[p])
  {
    hide Apply, Enabled, OnlyCurrentListsMove, Rounds;
    RoundNext(s, step, p);
    PutsNext(s, step);
    EntryEffect(s, step);
    PublishedNext(s, step, Apply(s, step).rounds[p].list);
    if p in s.rounds {
      RoundOnCurrentList(s, p);
      assert RoundAhead(s, s.rounds[p]);
    }
  }

  lemma DisjointNext(s: Sys, step: Step, s': Sys)
    requires Inv(s) && Disjoint(s) && StepDisjoint(s, step) && Next(s, step, s')
    ensures Disjoint(s')
  {
    hide Rows, OnlyCurrentListsMove, History, Rounds, SlotsMatchRows, SlotsAssigned, Locks, Transactions,
         AllocatesFromCurrent, Apply, Enabled, RoundAhead;
    forall p | p in s'.rounds ensures RoundAhead(s', s'.rounds[p]) {
      RoundNext(s, step, p);
      if step.LandPut? {
        LandingKeepsRoundAhead(s, step, p);
      } else {
        RoundAheadKept(s, step, p);
      }
    }
    forall p, q | p in s'.rounds && q in s'.rounds && p != q ensures s'.rounds[p].list != s'.rounds[q].list {
      RoundNext(s, step, p);
      RoundNext(s, step, q);
    }
    PutsNext(s, step);
    EntryEffect(s, step);
  }

  lemma {:induction false} DisjointHolds(states: seq<Sys>, steps: seq<Step>, n: nat)
    requires Run(states, steps) && RoundsDisjoint(states, steps) && PutsLandInTime(states, steps) && n <= |steps|
    ensures Disjoint(states[n])
  {
    hide Inv, Apply, Enabled;
    if n == 0 {
      assert states[0] == Empty;
    } else {
      DisjointHolds(states, steps, n - 1);
      InvHolds(states, steps, n - 1);
      assert Next(states[n - 1], steps[n - 1], states[n - 1 + 1]);
      hide Disjoint;
      DisjointNext(states[n - 1], steps[n - 1], states[n]);
    }
  }

  /** Rounds that do not overlap and PUTs that land in time keep everything in order. */
  lemma DisjointRoundsAreInOrder(states: seq<Sys>, steps: seq<Step>)
    requires Run(states, steps) && RoundsDisjoint(states, steps) && PutsLandInTime(states, steps)
    ensures InOrder(states, steps)
  {
    forall k | 0 <= k < |steps| ensures StepInOrder(states[k], steps[k]) {
      DisjointHolds(states, steps, k);
      InvHolds(states, steps, k);
      assert Next(states[k], steps[k], states[k + 1]);
      hide Disjoint, Apply, Enabled, StepInOrder, Rows, OnlyCurrentListsMove, History, Rounds, SlotsMatchRows,
           SlotsAssigned, Locks, Transactions, AllocatesFromCurrent;
      DisjointInOrder(states[k], steps[k]);
    }
  }

  /** The step is not another publisher's. */
  predicate PublisherOf(step: Step, p: PublisherId) {
    match step
    case Acquire(q, _, _, _) => q == p
    case SendPut(q, _) => q == p
    case ReportPut(q, _) => q == p
    case RecordSuccess(q, _) => q == p
    case RecordFailure(q, _, _, _) => q == p
    case Abandon(q) => q == p
    case _ => true
  }

  ghost predicate SolePublisher(steps: seq<Step>, p: PublisherId) {
    forall k :: 0 <= k < |steps| ==> PublisherOf(steps[k], p)
  }

  lemma SoleRound(s: Sys, step: Step, s': Sys, p: PublisherId)
    requires Next(s, step, s') && PublisherOf(step, p) && s.rounds.Keys <= {p}
    ensures s'.rounds.Keys <= {p}
  {
    hide Apply, Enabled;
    forall q | q in s'.rounds ensures q == p {
      RoundNext(s, step, q);
    }
  }

  lemma {:induction false} SolePublisherRounds(states: seq<Sys>, steps: seq<Step>, p: PublisherId, n: nat)
    requires Run(states, steps) && n <= |steps| && SolePublisher(steps, p)
    ensures states[n].rounds.Keys <= {p}
  {
    hide Next;
    if n > 0 {
      SolePublisherRounds(states, steps, p, n - 1);
      assert Next(states[n - 1], steps[n - 1], states[n - 1 + 1]) && PublisherOf(steps[n - 1], p);
      SoleRound(states[n - 1], steps[n - 1], states[n], p);
    }
  }

  /** With one publisher, rounds never overlap. */
  lemma SolePublisherIsDisjoint(states: seq<Sys>, steps: seq<Step>, p: PublisherId)
    requires Run(states, steps) && SolePublisher(steps, p)
    ensures RoundsDisjoint(states, steps)
  {
    forall k | 0 <= k < |steps| && steps[k].Acquire? ensures NoRoundOn(states[k], steps[k].list) {
      SolePublisherRounds(states, steps, p, k);
      assert Next(states[k], steps[k], states[k + 1]) && PublisherOf(steps[k], p);
    }
  }
}
