/** Two guarantees that a reader might expect and the pipeline does not give:
    Revoked is left when a call acts on a stale read, and a PUT that lands out of
    order hides a newer status although nothing is pending. */
module StatusCounterexamples {
  import opened Wrappers
  import opened StatusBits
  import opened StatusLists
  import opened IssuedCredentials
  import opened StatusPipeline
  import opened StatusPublication

  const Z := Zeros(BITSTRING_BYTES)

  lemma Extend(states: seq<Sys>, steps: seq<Step>, step: Step) returns (states': seq<Sys>, steps': seq<Step>)
    requires Run(states, steps) && Enabled(states[|steps|], step)
    ensures steps' == steps + [step] && states' == states + [Apply(states[|steps|], step)]
    ensures Run(states', steps')
    ensures forall p :: SolePublisher(steps, p) && PublisherOf(step, p) ==> SolePublisher(steps', p)
  {
    hide Apply, Enabled;
    states', steps' := states + [Apply(states[|steps|], step)], steps + [step];
    forall k | 0 <= k < |steps'| ensures Next(states'[k], steps'[k], states'[k + 1]) {
      if k < |steps| {
        assert Next(states[k], steps[k], states[k + 1]);
      }
    }
  }

  /** One list, one issuer, one active credential on index 0. */
  function OneCredential(): Sys {
    Sys(map[0 := WithAllocation(FreshRow(0, Some(""), Some(""), 0))], map[0 := 0],
        map[7 := CredentialRow(0, 0, CredentialState.Active)], map[], map[],
        Network(map[], map[], {}, map[]), map[0 := [Z, Z]])
  }

  /** A list provisioned and pointed at. */
  function OneList(): Sys {
    Sys(map[0 := FreshRow(0, Some(""), Some(""), 0)], map[0 := 0], map[], map[], map[],
        Network(map[], map[], {}, map[]), map[0 := [Z]])
  }

  lemma ProvisionOne() returns (states: seq<Sys>, steps: seq<Step>)
    ensures Run(states, steps) && states[|steps|] == OneList() && forall p :: SolePublisher(steps, p)
  {
    hide Zeros, WithSlot, SlotAt;
    states, steps := [Empty], [];
    assert forall p :: SolePublisher(steps, p);
    states, steps := Extend(states, steps, InsertList(0, 0, "", "", 0));
    assert states[|steps|] == OneList().(current := map[]);
    states, steps := Extend(states, steps, PointIssuer(0, 0));
  }

  lemma AllocateOne() returns (states: seq<Sys>, steps: seq<Step>)
    ensures Run(states, steps) && states[|steps|] == OneList().(txs := map[0 := IndexTaken(0, 0)])
    ensures forall p :: SolePublisher(steps, p)
  {
    hide Zeros, WithSlot, SlotAt;
    states, steps := ProvisionOne();
    states, steps := Extend(states, steps, ReadCurrent(0, 0));
    states, steps := Extend(states, steps, AllocateIndex(0));
  }

  lemma IssueOne() returns (states: seq<Sys>, steps: seq<Step>)
    ensures Run(states, steps) && states[|steps|] == OneCredential() && forall p :: SolePublisher(steps, p)
  {
    hide Zeros, WithSlot, SlotAt;
    states, steps := AllocateOne();
    states, steps := Extend(states, steps, InsertCredential(0, 7));
    assert states[|steps|] == OneList().(txs := map[0 := Inserted(0, 0, 7)]);
    states, steps := Extend(states, steps, Commit(0));
    var s := states[|steps|];
    assert s.txs == map[];
    assert [Z] + [Z] == [Z, Z];
  }

  /** A found call that meets no lock runs to its commit. */
  lemma FinishLifecycle(states: seq<Sys>, steps: seq<Step>, t: TxId)
    returns (states': seq<Sys>, steps': seq<Step>)
    requires Run(states, steps)
    requires var s := states[|steps|];
             && t in s.txs && s.txs[t].Found? && s.txs[t].cred == 7 && 7 in s.creds
             && s.creds[7].list == 0 && s.creds[7].index == 0
             && 0 in s.lists && |s.lists[0].bits| > 0 && 0 in s.history
             && forall o :: o in s.txs ==> s.txs[o].Found?
    ensures Run(states', steps') && |steps'| > |steps| && states <= states'
    ensures forall p :: SolePublisher(steps, p) ==> SolePublisher(steps', p)
    ensures var s, s' := states[|steps|], states'[|steps'|];
            var bits := WithSlot(s.lists[0].bits, 0, HandlerBit(s.txs[t].verb));
            s' == s.(txs := s.txs - {t},
                     creds := s.creds[7 := s.creds[7].(state := Target(s.txs[t].verb))],
                     lists := s.lists[0 := WithBits(s.lists[0], bits)],
                     history := s.history[0 := s.history[0] + [bits]])
  {
    hide WithSlot, SlotAt;
    var s := states[|steps|];
    states', steps' := Extend(states, steps, SetState(t));
    states', steps' := Extend(states', steps', LockList(t));
    states', steps' := Extend(states', steps', WriteBits(t));
    states', steps' := Extend(states', steps', Commit(t));
    assert states'[|steps'|].txs == s.txs - {t};
    assert states'[|steps'|].creds == s.creds[7 := s.creds[7].(state := Target(s.txs[t].verb))];
  }

  /** A suspend that read Active before a revoke committed takes the credential
      out of Revoked. */
  lemma StaleReadLeavesRevoked() returns (states: seq<Sys>, steps: seq<Step>, n: nat)
    ensures Run(states, steps) && n < |steps|
    ensures 7 in states[n].creds && states[n].creds[7].state == CredentialState.Revoked
    ensures 7 in states[|steps|].creds && states[|steps|].creds[7].state == CredentialState.Suspended
  {
    states, steps := IssueOne();
    states, steps := Extend(states, steps, Find(1, 7, Suspend));
    states, steps := Extend(states, steps, Find(2, 7, Revoke));
    states, steps := FinishLifecycle(states, steps, 2);
    n := |steps|;
    states, steps := FinishLifecycle(states, steps, 1);
  }

  /** A publisher acquires the list and sends its PUT. */
  lemma SendNow(states: seq<Sys>, steps: seq<Step>, p: PublisherId, q: PutId, at: Time)
    returns (states': seq<Sys>, steps': seq<Step>)
    requires Run(states, steps)
    requires var s := states[|steps|];
             p !in s.rounds && s.txs == map[] && 0 in s.lists && s.lists[0].IsRunnable(at)
             && q !in s.net.puts && q !in s.net.landed
    ensures Run(states', steps') && (SolePublisher(steps, p) ==> SolePublisher(steps', p))
    ensures var s, s' := states[|steps|], states'[|steps'|];
            var row := WithLease(s.lists[0], at + 30000);
            s' == s.(lists := s.lists[0 := row], rounds := s.rounds[p := PutSent(0, row, q)],
                     net := s.net.(puts := s.net.puts[q := PutRequest(0, row)]))
  {
    hide Zeros, WithSlot, SlotAt;
    var s := states[|steps|];
    states', steps' := Extend(states, steps, Acquire(p, 0, at, 30000));
    states', steps' := Extend(states', steps', SendPut(p, q));
    assert states'[|steps'|].rounds == s.rounds[p := PutSent(0, WithLease(s.lists[0], at + 30000), q)];
  }

  lemma LandNow(states: seq<Sys>, steps: seq<Step>, q: PutId) returns (states': seq<Sys>, steps': seq<Step>)
    requires Run(states, steps) && q in states[|steps|].net.puts
    ensures Run(states', steps') && forall p :: SolePublisher(steps, p) ==> SolePublisher(steps', p)
    ensures states'[|steps'|] == states[|steps|].(net := Landed(states[|steps|].net, q))
  {
    states', steps' := Extend(states, steps, LandPut(q));
  }

  /** The answer to a landed PUT arrives as a success and is recorded. */
  lemma SucceedNow(states: seq<Sys>, steps: seq<Step>, p: PublisherId, at: Time)
    returns (states': seq<Sys>, steps': seq<Step>)
    requires Run(states, steps)
    requires var s := states[|steps|];
             p in s.rounds && s.rounds[p].PutSent? && s.rounds[p].put in s.net.landed && s.rounds[p].list == 0
             && s.txs == map[] && 0 in s.lists
    ensures Run(states', steps') && (SolePublisher(steps, p) ==> SolePublisher(steps', p))
    ensures var s, s' := states[|steps|], states'[|steps'|];
            s' == s.(lists := s.lists[0 := WithPublishSuccess(s.lists[0], s.rounds[p].snapshot.committedVersion, at)],
                     rounds := s.rounds - {p})
  {
    hide Zeros, WithSlot, SlotAt;
    var s := states[|steps|];
    states', steps' := Extend(states, steps, ReportPut(p, true));
    states', steps' := Extend(states', steps', RecordSuccess(p, at));
    assert states'[|steps'|].rounds == s.rounds - {p};
  }

  /** A PUT is given up as failed although its request is still under way. */
  lemma TimeOutNow(states: seq<Sys>, steps: seq<Step>, p: PublisherId, at: Time)
    returns (states': seq<Sys>, steps': seq<Step>)
    requires Run(states, steps)
    requires var s := states[|steps|];
             p in s.rounds && s.rounds[p].PutSent? && s.rounds[p].list == 0 && s.txs == map[] && 0 in s.lists
    ensures Run(states', steps') && (SolePublisher(steps, p) ==> SolePublisher(steps', p))
    ensures var s, s' := states[|steps|], states'[|steps'|];
            s' == s.(lists := s.lists[0 := WithPublishFailure(s.lists[0], "timeout", at, at)], rounds := s.rounds - {p})
  {
    hide Zeros, WithSlot, SlotAt;
    var s := states[|steps|];
    states', steps' := Extend(states, steps, ReportPut(p, false));
    states', steps' := Extend(states', steps', RecordFailure(p, "timeout", at, at));
    assert states'[|steps'|].rounds == s.rounds - {p};
  }

  lemma SuspendNow(states: seq<Sys>, steps: seq<Step>) returns (states': seq<Sys>, steps': seq<Step>)
    requires Run(states, steps)
    requires var s := states[|steps|];
             && s.txs == map[] && 7 in s.creds && s.creds[7] == CredentialRow(0, 0, CredentialState.Active)
             && 0 in s.lists && |s.lists[0].bits| > 0 && 0 in s.history
    ensures Run(states', steps') && forall p :: SolePublisher(steps, p) ==> SolePublisher(steps', p)
    ensures var s, s' := states[|steps|], states'[|steps'|];
            var bits := WithSlot(s.lists[0].bits, 0, HandlerBit(Suspend));
            s' == s.(creds := s.creds[7 := CredentialRow(0, 0, CredentialState.Suspended)],
                     lists := s.lists[0 := WithBits(s.lists[0], bits)],
                     history := s.history[0 := s.history[0] + [bits]])
  {
    hide WithSlot, SlotAt, Zeros;
    states', steps' := Extend(states, steps, Find(1, 7, Suspend));
    states', steps' := FinishLifecycle(states', steps', 1);
    assert states'[|steps'|].txs == map[];
  }

  /** Publisher 1 sends version 1 and stalls past its lease; publisher 2 publishes
      version 2, a suspension; publisher 1's PUT lands afterwards. */
  lemma LatePutHidesSuspension() returns (states: seq<Sys>, steps: seq<Step>)
    ensures Run(states, steps)
    ensures var s := states[|steps|];
            && 7 in s.creds && s.creds[7] == CredentialRow(0, 0, CredentialState.Suspended)
            && 0 in s.lists && s.lists[0].issuer == 0
            && 0 < s.lists[0].publishedVersion == s.lists[0].committedVersion
            && 0 in s.net.registry && |s.net.registry[0]| > 0 && SlotAt(s.net.registry[0], 0) == Valid
  {
    hide WithSlot, SlotAt, Zeros;
    states, steps := IssueOne();
    states, steps := SendNow(states, steps, 1, 1, 0);
    states, steps := SuspendNow(states, steps);
    states, steps := SendNow(states, steps, 2, 2, 30000);
    states, steps := LandNow(states, steps, 2);
    states, steps := SucceedNow(states, steps, 2, 30001);
    states, steps := LandNow(states, steps, 1);
    ZerosShowValid(states[|steps|]);
  }

  /** Publisher 1's PUT of version 1 lands between publisher 2's PUT of version 2 and
      its record: nothing is recorded yet, so it is not older than what is published,
      and still the record makes it so. */
  lemma OvertakingPutHidesSuspension() returns (states: seq<Sys>, steps: seq<Step>)
    ensures Run(states, steps)
    ensures var s := states[|steps|];
            && 7 in s.creds && s.creds[7] == CredentialRow(0, 0, CredentialState.Suspended)
            && 0 in s.lists && s.lists[0].issuer == 0
            && 0 < s.lists[0].publishedVersion == s.lists[0].committedVersion
            && 0 in s.net.registry && |s.net.registry[0]| > 0 && SlotAt(s.net.registry[0], 0) == Valid
  {
    hide WithSlot, SlotAt, Zeros;
    states, steps := IssueOne();
    states, steps := SendNow(states, steps, 1, 1, 0);
    states, steps := SuspendNow(states, steps);
    states, steps := SendNow(states, steps, 2, 2, 30000);
    states, steps := LandNow(states, steps, 2);
    states, steps := LandNow(states, steps, 1);
    states, steps := SucceedNow(states, steps, 2, 30001);
    ZerosShowValid(states[|steps|]);
  }

  /** One publisher suffices: its PUT of version 1 times out, the retry publishes
      version 2, and the first request lands after all. */
  lemma TimedOutPutHidesSuspension() returns (states: seq<Sys>, steps: seq<Step>)
    ensures Run(states, steps) && forall k :: 0 <= k < |steps| ==> PublisherOf(steps[k], 1)
    ensures var s := states[|steps|];
            && 7 in s.creds && s.creds[7] == CredentialRow(0, 0, CredentialState.Suspended)
            && 0 in s.lists && s.lists[0].issuer == 0
            && 0 < s.lists[0].publishedVersion == s.lists[0].committedVersion
            && 0 in s.net.registry && |s.net.registry[0]| > 0 && SlotAt(s.net.registry[0], 0) == Valid
  {
    hide WithSlot, SlotAt, Zeros;
    states, steps := IssueOne();
    states, steps := SendNow(states, steps, 1, 1, 0);
    states, steps := TimeOutNow(states, steps, 1, 10000);
    states, steps := SuspendNow(states, steps);
    states, steps := SendNow(states, steps, 1, 2, 40000);
    states, steps := LandNow(states, steps, 2);
    states, steps := SucceedNow(states, steps, 1, 40001);
    states, steps := LandNow(states, steps, 1);
    ZerosShowValid(states[|steps|]);
  }

  lemma ZerosShowValid(s: Sys)
    requires 0 in s.net.registry && s.net.registry[0] == Z
    ensures |s.net.registry[0]| > 0 && SlotAt(s.net.registry[0], 0) == Valid
  {
  }
}
