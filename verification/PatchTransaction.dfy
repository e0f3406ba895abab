/** Managed patch transactions: the lifecycle of each, the registry of the open ones and
    the commit history, updated in place. */
module PatchTransaction {
  import opened Options
  import opened Workspace
  import opened BoundaryWalk
  import opened PatchCommit
  import TransactionHistory

  // ----- lifecycle -----

  datatype PatchState = Proposed | AppliedToTemp | Verified | Committed | RolledBack

  predicate MayMove(current: PatchState, next: PatchState) {
    match current
    case Proposed => next in {AppliedToTemp, RolledBack}
    case AppliedToTemp => next in {Verified, RolledBack}
    case Verified => next in {Committed, RolledBack}
    case Committed => next == RolledBack
    case RolledBack => false
  }

  /** The states a transaction has been in, the present one outermost. */
  datatype Life = Proposal | Moved(earlier: Life, to: PatchState)

  function StateIn(life: Life): PatchState {
    if life.Proposal? then Proposed else life.to
  }

  /** Every move was one the table allows. */
  predicate Permitted(life: Life) {
    life.Moved? ==> Permitted(life.earlier) && MayMove(StateIn(life.earlier), life.to)
  }

  predicate WentThrough(life: Life, past: Life) {
    life == past || (life.Moved? && WentThrough(life.earlier, past))
  }

  lemma {:induction false} PastIsPermitted(life: Life, past: Life)
    requires Permitted(life) && WentThrough(life, past)
    ensures Permitted(past)
    ensures StateIn(past).RolledBack? ==> past == life
  {
    if life != past { PastIsPermitted(life.earlier, past); }
  }

  lemma NothingLeadsBack(life: Life)
    requires Permitted(life) && StateIn(life) == Proposed
    ensures life == Proposal
  {
  }

  predicate Open(state: PatchState) {
    state !in {Committed, RolledBack}
  }

  class ManagedPatchTransaction {
    const txId: string
    const fileTxId: string
    const record: string
    const cwd: Path
    var state: PatchState
    var files: seq<Entry>
    var rollbackReason: Option<string>

    ghost var life: Life

    constructor (txId: string, fileTxId: string, record: string, cwd: Path, files: seq<Entry>)
      ensures this.txId == txId && this.fileTxId == fileTxId && this.record == record
      ensures this.cwd == cwd && this.files == files
      ensures state == Proposed && rollbackReason == None && life == Proposal
    {
      this.txId, this.fileTxId, this.record, this.cwd, this.files := txId, fileTxId, record, cwd, files;
      state, rollbackReason, life := Proposed, None, Proposal;
    }

    method MoveTo(next: PatchState)
      requires StateIn(life) == state && Permitted(life) && MayMove(state, next)
      modifies `state, `life
      ensures StateIn(life) == state == next && Permitted(life) && life == Moved(old(life), next)
    {
      state, life := next, Moved(life, next);
    }
  }

  function GuardOf(root: Path, secret: Path -> bool): Guard {
    (w: World, memory: Option<Memory>, target: Path) => CheckForbidden(w, root, memory, target, secret)
  }

  /** A file as the caller proposes it. `expectedBaseHash` is None when the caller leaves
      it to be computed from the old content. */
  datatype ProposedFile = ProposedFile(relative: Path, oldContent: Option<string>, newContent: string,
                                       expectedBaseHash: Option<Option<string>>)

  function EntryOf(f: ProposedFile, hash: string -> string): Entry {
    Entry(f.relative, f.oldContent, f.newContent,
          if f.expectedBaseHash.Some? then f.expectedBaseHash.value
          else if f.oldContent.None? then None else Some(hash(f.oldContent.value)), None)
  }

  function EntriesOf(proposed: seq<ProposedFile>, hash: string -> string): seq<Entry> {
    seq(|proposed|, i requires 0 <= i < |proposed| => EntryOf(proposed[i], hash))
  }

  datatype InitResult =
    | Ok(tx: ManagedPatchTransaction)
    | NoFiles
    | Forbidden(index: nat, verdict: Verdict)
    | RecordNotWritten

  /** What the forbidden-file check says with no memory of earlier checks. */
  function FreshVerdict(w: World, root: Path, target: Path, secret: Path -> bool): Verdict {
    CheckForbidden(w, root, None, target, secret).0
  }

  /** No file is denied. */
  predicate AllAllowed(w: World, root: Path, proposed: seq<ProposedFile>, secret: Path -> bool) {
    forall f :: f in proposed ==> FreshVerdict(w, root, root + f.relative, secret).Allowed?
  }

  ghost predicate RightAbout(w: World, root: Path, memory: Option<Memory>) {
    && (memory.None? ==> FreshMemory(w, root) == None)
    && (memory.Some? ==>
          w.realpath(root) == RealAt(memory.value.rootReal) && Sound(w, root, memory.value.rootReal, memory.value.safe))
  }

  /** With a memory that is right about an unchanged world, the check says the same. */
  lemma MemoryDoesNotShow(w: World, root: Path, memory: Option<Memory>, target: Path, secret: Path -> bool)
    requires RightAbout(w, root, memory)
    ensures var (verdict, later) := CheckForbidden(w, root, memory, target, secret);
            verdict == FreshVerdict(w, root, target, secret) && RightAbout(w, root, later)
  {
    if memory.Some? {
      var m := memory.value;
      CachedWalkAgrees(w, root, m.rootReal, m.safe, target, 0);
      CachedWalkAgrees(w, root, m.rootReal, {root}, target, 0);
    }
  }

  // ----- other patches -----

  /** What the other patches of a run do while a verification is awaited: what they add to
      the history, and how many writes they record. A rollback counts as a write too. */
  datatype Meanwhile = Meanwhile(events: seq<TransactionHistory.Event>, writes: nat)

  function Raised(seen: Meanwhile): nat {
    TransactionHistory.Rollbacks(seen.events) + seen.writes
  }

  /** Nothing, unless the verification was reached. */
  function Awaited(o: Outcome, meanwhile: Meanwhile): Meanwhile {
    if o.foreign == [] then Meanwhile([], 0) else meanwhile
  }

  // ----- the run-scoped state -----

  class PatchRuntime {
    const hash: string -> string
    const digest: string -> string
    const secret: Path -> bool

    var world: World
    var registry: map<string, ManagedPatchTransaction>
    var stateId: string
    var transactionCount: nat
    var latestTransactionId: Option<string>
    var writeGeneration: nat

    /** Every transaction ever made, and every event that moved the history. */
    ghost var created: set<ManagedPatchTransaction>
    ghost var log: seq<TransactionHistory.Event>

    constructor (world: World, hash: string -> string, digest: string -> string, secret: Path -> bool)
      ensures Valid() && registry == map[] && created == {} && log == [] && writeGeneration == 0 && this.world == world
    {
      this.world, this.hash, this.digest, this.secret := world, hash, digest, secret;
      registry, stateId, transactionCount, latestTransactionId := map[], "txstate_empty", 0, None;
      writeGeneration := 0;
      created, log := {}, [];
    }

    function History(): TransactionHistory.History
      reads `stateId, `transactionCount, `latestTransactionId
    {
      TransactionHistory.History(stateId, transactionCount, latestTransactionId)
    }

    /** The history is that of the events so far. */
    ghost predicate HistoryIsReplayed()
      reads `stateId, `transactionCount, `latestTransactionId, `log
    {
      History() == TransactionHistory.Replay(digest, log)
    }

    /** The registry holds exactly the transactions that are neither committed nor rolled
        back, under their own ids, and every transaction got where it is by allowed moves. */
    ghost predicate RegistryIsRight()
      reads `registry, `created, created
    {
      && (forall id :: id in registry ==> registry[id] in created && registry[id].txId == id)
      && (forall tx :: tx in created ==> (tx.txId in registry && registry[tx.txId] == tx <==> Open(tx.state)))
      && (forall tx, other :: tx in created && other in created && tx.txId == other.txId ==> tx == other)
      && (forall tx :: tx in created ==> StateIn(tx.life) == tx.state && Permitted(tx.life))
    }

    ghost predicate Valid()
      reads `registry, `stateId, `transactionCount, `latestTransactionId, `created, `log, created
    {
      HistoryIsReplayed() && RegistryIsRight()
    }

    /** However the operations of this class are called, a transaction gets committed only
        by way of staging and verification, and once rolled back it never moves again. */
    lemma CommittedOnlyThroughVerified(tx: ManagedPatchTransaction, past: Life)
      requires Valid() && tx in created && WentThrough(tx.life, past)
      ensures StateIn(past) == Committed ==> past == Moved(Moved(Moved(Proposal, AppliedToTemp), Verified), Committed)
      ensures StateIn(past) == RolledBack ==> past == tx.life
      ensures past == tx.life ==> StateIn(past) == tx.state
    {
      PastIsPermitted(tx.life, past);
      if StateIn(past) == Committed {
        var verified := past.earlier;
        assert MayMove(StateIn(verified), Committed) && Permitted(verified);
        var staged := verified.earlier;
        assert MayMove(StateIn(staged), Verified) && Permitted(staged);
        var proposed := staged.earlier;
        assert MayMove(StateIn(proposed), AppliedToTemp) && Permitted(proposed);
        NothingLeadsBack(proposed);
      }
    }

    function JobOf(tx: ManagedPatchTransaction): Job
      reads this, tx
    {
      Job(tx.cwd, tx.txId, tx.fileTxId, tx.record, tx.files, hash, GuardOf(tx.cwd, secret))
    }

    method RecordEvent(event: TransactionHistory.Event)
      requires HistoryIsReplayed()
      modifies this`stateId, this`transactionCount, this`latestTransactionId, this`log
      ensures HistoryIsReplayed() && log == old(log) + [event]
    {
      stateId := "txstate_" + digest(TransactionHistory.Preimage(stateId, event));
      transactionCount := transactionCount + 1;
      latestTransactionId := Some(event.txId);
      log := log + [event];
      assert log[..|log| - 1] == old(log);
    }

    /** The other patches of the run act. */
    method OthersMove(meanwhile: Meanwhile)
      requires HistoryIsReplayed()
      modifies this`stateId, this`transactionCount, this`latestTransactionId, this`log, this`writeGeneration
      ensures HistoryIsReplayed() && log == old(log) + meanwhile.events
      ensures writeGeneration == old(writeGeneration) + Raised(meanwhile)
    {
      OthersRecord(meanwhile.events);
      writeGeneration := writeGeneration + meanwhile.writes;
    }

    method OthersRecord(events: seq<TransactionHistory.Event>)
      requires HistoryIsReplayed()
      modifies this`stateId, this`transactionCount, this`latestTransactionId, this`log, this`writeGeneration
      ensures HistoryIsReplayed() && log == old(log) + events
      ensures writeGeneration == old(writeGeneration) + TransactionHistory.Rollbacks(events)
      decreases |events|
    {
      if events == [] { return; }
      var n := |events| - 1;
      OthersRecord(events[..n]);
      OtherMoves(events[n]);
      assert events[..n] + [events[n]] == events;
    }

    method OtherMoves(event: TransactionHistory.Event)
      requires HistoryIsReplayed()
      modifies this`stateId, this`transactionCount, this`latestTransactionId, this`log, this`writeGeneration
      ensures HistoryIsReplayed() && log == old(log) + [event]
      ensures writeGeneration == old(writeGeneration) + if event.RolledBack? then 1 else 0
    {
      RecordEvent(event);
      if event.RolledBack? { writeGeneration := writeGeneration + 1; }
    }

    /** The first file the forbidden-file check denies, or the number of files. The checks
        share a cache, which does not show. */
    method FirstForbidden(root: Path, proposed: seq<ProposedFile>) returns (first: nat, verdict: Verdict)
      ensures first <= |proposed| && AllAllowed(world, root, proposed[..first], secret)
      ensures first < |proposed| ==>
                !verdict.Allowed? && verdict == FreshVerdict(world, root, root + proposed[first].relative, secret)
    {
      var cache := CreateResolvedBoundaryCache(world, root);
      first, verdict := 0, Allowed;
      while first < |proposed|
        invariant first <= |proposed|
        invariant cache != null ==> fresh(cache) && cache.root == root
        invariant RightAbout(world, root, MemoryOf(cache))
        invariant AllAllowed(world, root, proposed[..first], secret)
      {
        verdict := CheckProposed(root, proposed[first], cache);
        if !verdict.Allowed? { return; }
        first := first + 1;
      }
    }

    method CheckProposed(root: Path, f: ProposedFile, cache: ResolvedBoundaryCache?) returns (verdict: Verdict)
      requires (cache != null ==> cache.root == root) && RightAbout(world, root, MemoryOf(cache))
      modifies if cache == null then {} else {cache}
      ensures verdict == FreshVerdict(world, root, root + f.relative, secret)
      ensures RightAbout(world, root, MemoryOf(cache))
    {
      MemoryDoesNotShow(world, root, MemoryOf(cache), root + f.relative, secret);
      verdict := CheckForbiddenFileWithCache(world, root, cache, root + f.relative, secret);
    }

    /** A patch as it stands when proposed. */
    function JobFor(txId: string, fileTxId: string, record: string, root: Path, proposed: seq<ProposedFile>): Job {
      Job(root, txId, fileTxId, record, EntriesOf(proposed, hash), hash, GuardOf(root, secret))
    }

    /** Proposes a patch. A forbidden file is reported by the first check that denies one,
        as if each had been made without a cache, and then nothing is written; otherwise
        the snapshot record is. */
    method InitManagedTransaction(txId: string, fileTxId: string, record: string, root: Path,
                                  proposed: seq<ProposedFile>, recordFails: bool) returns (r: InitResult)
      requires Valid() && forall tx :: tx in created ==> tx.txId != txId
      modifies this`world, this`registry, this`created
      ensures Valid() && (r.Ok? ==> fresh(r.tx))
      ensures !r.Ok? ==> registry == old(registry) && created == old(created)
      ensures r.NoFiles? || r.Forbidden? ==> world == old(world)
      ensures r.NoFiles? <==> proposed == []
      ensures r.Ok? || r.RecordNotWritten? ==>
                && (world, r.Ok?) == Propose(JobFor(txId, fileTxId, record, root, proposed), old(world), recordFails)
                && AllAllowed(old(world), root, proposed, secret)
      ensures match r
              case Forbidden(i, verdict) =>
                && i < |proposed| && !verdict.Allowed?
                && verdict == FreshVerdict(world, root, root + proposed[i].relative, secret)
                && AllAllowed(world, root, proposed[..i], secret)
              case Ok(tx) =>
                && created == old(created) + {tx} && registry == old(registry)[txId := tx] && tx.txId == txId
                && JobOf(tx) == JobFor(txId, fileTxId, record, root, proposed)
                && tx.state == Proposed && tx.rollbackReason == None
              case _ => true
    {
      if proposed == [] { return NoFiles; }
      var i, verdict := FirstForbidden(root, proposed);
      if i < |proposed| { return Forbidden(i, verdict); }
      var recorded := WriteRecord(JobFor(txId, fileTxId, record, root, proposed), recordFails);
      if !recorded { return RecordNotWritten; }
      var tx := new ManagedPatchTransaction(txId, fileTxId, record, root, EntriesOf(proposed, hash));
      Register(tx);
      return Ok(tx);
    }

    method Register(tx: ManagedPatchTransaction)
      requires RegistryIsRight() && tx.state == Proposed && tx.life == Proposal
      requires forall other :: other in created ==> other.txId != tx.txId
      modifies this`registry, this`created
      ensures RegistryIsRight() && created == old(created) + {tx} && registry == old(registry)[tx.txId := tx]
    {
      registry := registry[tx.txId := tx];
      created := created + {tx};
    }

    /** Makes the directory of the records and writes one. */
    method WriteRecord(job: Job, fails: bool) returns (ok: bool)
      modifies this`world
      ensures (world, ok) == Propose(job, old(world), fails)
    {
      var made := Mkdir(world, job.RecordDir());
      if made.None? { return false; }
      world := made.value;
      if fails { return false; }
      var written := WriteFile(world, job.RecordPath(), job.record);
      if written.None? { return false; }
      world := written.value;
      return true;
    }

    /** Writes every new content into the temp directory. */
    method ApplyToTemp(tx: ManagedPatchTransaction, fault: Option<nat>) returns (ok: bool)
      requires Valid() && tx in created
      modifies this`world, tx`state, tx`life, tx`files
      ensures Valid()
      ensures !MayMove(old(tx.state), AppliedToTemp) ==>
                !ok && world == old(world) && tx.state == old(tx.state) && tx.files == old(tx.files)
      ensures MayMove(old(tx.state), AppliedToTemp) ==>
                var job := old(JobOf(tx));
                var (staged, all) := StageFrom(job, RemoveTree(old(world), job.TempDir()), 0, fault);
                && world == staged && ok == all
                && (ok ==> tx.state == AppliedToTemp && JobOf(tx) == job.Staged())
                && (!ok ==> tx.state == old(tx.state) && SameButTemps(job, JobOf(tx)))
    {
      if !MayMove(tx.state, AppliedToTemp) { return false; }
      world := RemoveTree(world, tx.cwd + [".orcana", "patches", tx.txId]);
      ok := StageAll(tx, fault);
      if ok { Advance(tx, AppliedToTemp); }
    }

    method StageAll(tx: ManagedPatchTransaction, fault: Option<nat>) returns (ok: bool)
      modifies this`world, tx`files
      ensures (world, ok) == StageFrom(old(JobOf(tx)), old(world), 0, fault)
      ensures ok ==> JobOf(tx) == old(JobOf(tx)).Staged()
      ensures SameButTemps(old(JobOf(tx)), JobOf(tx))
    {
      ghost var job, written := JobOf(tx), 0;
      ok, written := StageEach(tx, fault, job);
      NothingButTemps(job, tx.files, written);
      if ok { AllAreStaged(job, tx.files); }
    }

    method StageEach(tx: ManagedPatchTransaction, fault: Option<nat>, ghost job: Job)
      returns (ok: bool, ghost written: nat)
      requires JobOf(tx) == job
      modifies this`world, tx`files
      ensures (world, ok) == StageFrom(job, old(world), 0, fault)
      ensures JobOf(tx) == job.(entries := tx.files) && StagedSoFar(job, tx.files, written)
      ensures ok ==> written == |tx.files|
    {
      ghost var whole := StageFrom(job, world, 0, fault);
      var i := 0;
      while i < |tx.files|
        invariant JobOf(tx) == job.(entries := tx.files) && StagedSoFar(job, tx.files, i)
        invariant StagesTo(job, world, i, fault, whole)
      {
        ok := StageNext(tx, i, fault, job, whole);
        if !ok { return false, i; }
        i := i + 1;
      }
      return true, i;
    }

    method StageNext(tx: ManagedPatchTransaction, i: nat, fault: Option<nat>, ghost job: Job,
                     ghost whole: (World, bool)) returns (ok: bool)
      requires i < |tx.files| && JobOf(tx) == job.(entries := tx.files) && StagedSoFar(job, tx.files, i)
      requires StagesTo(job, world, i, fault, whole)
      modifies this`world, tx`files
      ensures JobOf(tx) == job.(entries := tx.files)
      ensures ok ==> StagedSoFar(job, tx.files, i + 1) && StagesTo(job, world, i + 1, fault, whole)
      ensures !ok ==> StagedSoFar(job, tx.files, i) && whole == (world, false)
    {
      StagesOn(job, world, i, fault, whole);
      if fault == Some(i) { return false; }
      ok := StageFile(tx, i, job);
    }

    method StageFile(tx: ManagedPatchTransaction, i: nat, ghost job: Job) returns (ok: bool)
      requires i < |tx.files| && JobOf(tx) == job.(entries := tx.files) && StagedSoFar(job, tx.files, i)
      modifies this`world, tx`files
      ensures JobOf(tx) == job.(entries := tx.files)
      ensures ok == StageOne(job, old(world), i).Some?
      ensures ok ==> StageOne(job, old(world), i) == Some(world) && StagedSoFar(job, tx.files, i + 1)
      ensures !ok ==> world == old(world) && tx.files == old(tx.files)
    {
      var temp := tx.cwd + [".orcana", "patches", tx.txId] + tx.files[i].relative;
      assert temp == job.TempPath(i);
      var made := Mkdir(world, Parent(temp));
      if made.None? { return false; }
      var written := WriteFile(made.value, temp, tx.files[i].newContent);
      if written.None? { return false; }
      world := written.value;
      tx.files := tx.files[i := tx.files[i].(tempPath := Some(temp))];
      return true;
    }

    /** A transaction moves on and stays in the registry. */
    method Advance(tx: ManagedPatchTransaction, state: PatchState)
      requires RegistryIsRight() && tx in created && Open(state) && MayMove(tx.state, state)
      modifies tx`state, tx`life
      ensures RegistryIsRight() && tx.state == state
    {
      tx.MoveTo(state);
    }

    /** A committed or rolled-back transaction leaves the registry. */
    method Settle(tx: ManagedPatchTransaction, state: PatchState)
      requires RegistryIsRight() && tx in created && !Open(state) && MayMove(tx.state, state)
      modifies this`registry, tx`state, tx`life
      ensures RegistryIsRight() && tx.state == state && registry == old(registry) - {tx.txId}
    {
      registry := registry - {tx.txId};
      tx.MoveTo(state);
    }

    method VerifyManagedTransaction(tx: ManagedPatchTransaction) returns (ok: bool)
      requires Valid() && tx in created
      modifies tx`state, tx`life
      ensures Valid() && ok == MayMove(old(tx.state), Verified) && tx.state == if ok then Verified else old(tx.state)
    {
      ok := MayMove(tx.state, Verified);
      if ok { Advance(tx, Verified); }
    }

    /** Installs every file by renaming its temp file onto the target. The history moves
        and the transaction leaves the registry only when all were installed. */
    method CommitManagedTransaction(tx: ManagedPatchTransaction, steps: nat -> Step)
      returns (done: bool, failure: Option<Failure>)
      requires Valid() && tx in created
      modifies this, tx`state, tx`life
      ensures Valid() && created == old(created) && writeGeneration == old(writeGeneration)
      ensures !MayMove(old(tx.state), Committed) ==>
                !done && failure == None && world == old(world) && tx.state == old(tx.state) && log == old(log)
                && registry == old(registry)
      ensures MayMove(old(tx.state), Committed) ==>
                var run := Commit(old(JobOf(tx)), old(world), steps);
                && done == run.failure.None? && failure == run.failure
                && (done ==> world == RemoveTree(run.world, old(JobOf(tx)).TempDir()) && tx.state == Committed
                             && log == old(log) + [TransactionHistory.Committed(tx.txId)]
                             && registry == old(registry) - {tx.txId})
                && (!done ==>
                      world == run.world && tx.state == old(tx.state) && log == old(log) && registry == old(registry))
    {
      if !MayMove(tx.state, Committed) { return false, None; }
      failure := InstallAll(tx, steps);
      if failure.Some? { return false, failure; }
      Finish(tx);
      return true, None;
    }

    /** All files are installed. */
    method Finish(tx: ManagedPatchTransaction)
      requires Valid() && tx in created && MayMove(tx.state, Committed)
      modifies this, tx`state, tx`life
      ensures Valid() && created == old(created) && writeGeneration == old(writeGeneration) && tx.state == Committed
      ensures world == RemoveTree(old(world), old(JobOf(tx)).TempDir())
      ensures log == old(log) + [TransactionHistory.Committed(tx.txId)] && registry == old(registry) - {tx.txId}
    {
      DropTemp(tx);
      RecordEvent(TransactionHistory.Committed(tx.txId));
      Settle(tx, Committed);
    }

    method DropTemp(tx: ManagedPatchTransaction)
      modifies this`world
      ensures world == RemoveTree(old(world), JobOf(tx).TempDir())
    {
      world := RemoveTree(world, tx.cwd + [".orcana", "patches", tx.txId]);
    }

    /** The commit loop. */
    method InstallAll(tx: ManagedPatchTransaction, steps: nat -> Step) returns (failure: Option<Failure>)
      modifies this`world
      ensures var run := Commit(old(JobOf(tx)), old(world), steps); world == run.world && failure == run.failure
    {
      ghost var job, install := JobOf(tx), InstallerOf(JobOf(tx), steps);
      ghost var run := Commit(job, world, steps);
      var n := |tx.files|;
      var cache := CreateResolvedBoundaryCache(world, tx.cwd);
      var k := 0;
      while k < n
        invariant k <= n == |job.entries| && JobOf(tx) == job
        invariant cache != null ==> fresh(cache) && cache.root == tx.cwd
        invariant LeadsTo(install, n, world, MemoryOf(cache), k, run)
      {
        ghost var before, memory := world, MemoryOf(cache);
        ghost var one, m1;
        failure, one, m1 := InstallNext(tx, k, steps, cache, install);
        LeadsOn(install, n, before, memory, k, one, m1, run);
        if failure.Some? { return; }
        k := k + 1;
      }
      failure := None;
    }

    method InstallNext(tx: ManagedPatchTransaction, k: nat, steps: nat -> Step, cache: ResolvedBoundaryCache?,
                       ghost install: Installer)
      returns (problem: Option<Failure>, ghost one: StepRun, ghost memory: Option<Memory>)
      requires k < |tx.files| && (cache != null ==> cache.root == tx.cwd) && install == InstallerOf(JobOf(tx), steps)
      modifies this`world, if cache == null then {} else {cache}
      ensures install(old(world), old(MemoryOf(cache)), k) == (one, memory)
      ensures world == one.world && problem == (if one.Stopped? then Some(one.failure) else None)
      ensures one.Installed? ==> MemoryOf(cache) == memory
    {
      ghost var checks := ChecksAt(JobOf(tx), world, MemoryOf(cache), k, steps(k));
      one, memory := InstallOne(JobOf(tx), world, k, steps(k), checks), checks.memory;
      InstallerIs(JobOf(tx), steps, world, MemoryOf(cache), k);
      problem := InstallFile(tx, k, steps(k), cache);
    }

    /** One turn of the commit loop. */
    method InstallFile(tx: ManagedPatchTransaction, k: nat, step: Step, cache: ResolvedBoundaryCache?)
      returns (problem: Option<Failure>)
      requires k < |tx.files| && (cache != null ==> cache.root == tx.cwd)
      modifies this`world, if cache == null then {} else {cache}
      ensures var checks := ChecksAt(old(JobOf(tx)), old(world), old(MemoryOf(cache)), k, step);
              var one := InstallOne(old(JobOf(tx)), old(world), k, step, checks);
              && world == one.world
              && problem == (if one.Stopped? then Some(one.failure) else None)
              && (one.Installed? ==> MemoryOf(cache) == checks.memory)
    {
      ghost var job := JobOf(tx);
      var temp, target := tx.files[k].tempPath, tx.cwd + tx.files[k].relative;
      assert target == job.Target(k);
      world := Disturb(world, step.beforeTemp);
      if temp.None? || temp.value !in world.tree { return Some(OtherFailure); }
      world := Disturb(world, step.beforeFirst);
      var first := CheckForbiddenFileWithCache(world, tx.cwd, cache, target, secret);
      if !first.Allowed? { return Some(PathConflict(first, k)); }
      problem := InstallFileInside(tx, k, step, cache);
    }

    /** The turn from the making of the directory on. */
    method InstallFileInside(tx: ManagedPatchTransaction, k: nat, step: Step, cache: ResolvedBoundaryCache?)
      returns (problem: Option<Failure>)
      requires k < |tx.files| && (cache != null ==> cache.root == tx.cwd) && tx.files[k].tempPath.Some?
      modifies this`world, if cache == null then {} else {cache}
      ensures var job, target := old(JobOf(tx)), old(JobOf(tx)).Target(k);
              var after := AfterMkdir(old(world), target, step);
              var check := if after.Some? then job.guard(after.value, old(MemoryOf(cache)), target)
                           else (Verdict.Allowed, old(MemoryOf(cache)));
              var one := InstallInside(job, old(world), k, step, check.0);
              && world == one.world
              && problem == (if one.Stopped? then Some(one.failure) else None)
              && MemoryOf(cache) == check.1
    {
      ghost var job := JobOf(tx);
      var target := tx.cwd + tx.files[k].relative;
      assert target == job.Target(k);
      world := Disturb(world, step.beforeMkdir);
      if step.mkdirFails { return Some(OtherFailure); }
      var made := Mkdir(world, Parent(target));
      if made.None? { return Some(OtherFailure); }
      world := Disturb(made.value, step.beforeSecond);
      var second := CheckForbiddenFileWithCache(world, tx.cwd, cache, target, secret);
      if !second.Allowed? { return Some(PathConflict(second, k)); }
      problem := InstallFileChecked(tx, k, step);
    }

    /** The turn from the base hash on. */
    method InstallFileChecked(tx: ManagedPatchTransaction, k: nat, step: Step) returns (problem: Option<Failure>)
      requires k < |tx.files| && tx.files[k].tempPath.Some?
      modifies this`world
      ensures var one := InstallChecked(old(JobOf(tx)), old(world), k, step);
              && world == one.world
              && problem == (if one.Stopped? then Some(one.failure) else None)
    {
      ghost var job := JobOf(tx);
      var e, target := tx.files[k], tx.cwd + tx.files[k].relative;
      assert target == job.Target(k);
      world := Disturb(world, step.beforeHash);
      if !BaseHashMatches(world, target, e.expectedBaseHash, hash) { return Some(FreshnessConflict(k)); }
      world := Disturb(world, step.beforeRename);
      if step.renameFails { return Some(OtherFailure); }
      var renamed := Rename(world, e.tempPath.value, target);
      if renamed.None? { return Some(OtherFailure); }
      world := renamed.value;
      return None;
    }

    /** Closes the transaction and drops its temp files. The targets stay as they are, and
        a second call does nothing. */
    method RollbackManagedTransaction(tx: ManagedPatchTransaction, reason: string)
      requires Valid() && tx in created
      modifies this`world, this`registry, tx`state, tx`life, tx`files, tx`rollbackReason
      ensures Valid() && tx.state == RolledBack
      ensures old(tx.state) == RolledBack ==>
                world == old(world) && registry == old(registry) && tx.files == old(tx.files)
                && tx.rollbackReason == old(tx.rollbackReason)
      ensures old(tx.state) != RolledBack ==>
                && world == RemoveTree(old(world), old(JobOf(tx)).TempDir()) && registry == old(registry) - {tx.txId}
                && tx.rollbackReason == Some(reason)
                && |tx.files| == |old(tx.files)|
                && forall i :: 0 <= i < |tx.files| ==> tx.files[i] == old(tx.files)[i].(tempPath := None)
    {
      if tx.state == RolledBack { return; }
      tx.rollbackReason := Some(reason);
      world := RemoveTree(world, tx.cwd + [".orcana", "patches", tx.txId]);
      tx.files := seq(|tx.files|, i requires 0 <= i < |tx.files| reads tx => tx.files[i].(tempPath := None));
      Settle(tx, RolledBack);
    }

    /** Restores the snapshots of the first `n` files, if the record can be read; when
        that goes through, the history and the write generation move. */
    method RollbackCommitted(tx: ManagedPatchTransaction, n: nat, fault: Option<nat>) returns (restored: bool)
      requires Valid() && tx in created && n <= |tx.files|
      modifies this
      ensures Valid() && created == old(created) && registry == old(registry)
      ensures (world, restored) == RestoreSnapshots(old(JobOf(tx)), old(world), n, fault)
      ensures log == old(log) + (if restored then [TransactionHistory.RolledBack(tx.fileTxId)] else [])
      ensures writeGeneration == old(writeGeneration) + if restored then 1 else 0
    {
      restored := RestoreSnapshotFiles(tx, n, fault);
      if !restored { return; }
      RecordEvent(TransactionHistory.RolledBack(tx.fileTxId));
      writeGeneration := writeGeneration + 1;
    }

    method RestoreSnapshotFiles(tx: ManagedPatchTransaction, n: nat, fault: Option<nat>) returns (restored: bool)
      requires n <= |tx.files|
      modifies this`world
      ensures (world, restored) == RestoreSnapshots(old(JobOf(tx)), old(world), n, fault)
    {
      ghost var job := JobOf(tx);
      if !RecordReadable(JobOf(tx), world) { return false; }
      var i := 0;
      while i < n
        invariant i <= n && JobOf(tx) == job
        invariant RestoreSnapshots(job, old(world), n, fault) == RestoreFrom(job, world, i, n, fault)
      {
        if fault == Some(i) { return false; }
        var target := tx.cwd + tx.files[i].relative;
        assert target == job.Target(i);
        var one := RestoreOne(world, target, tx.files[i].oldContent);
        if one.None? { return false; }
        world := one.value;
        i := i + 1;
      }
      return true;
    }

    /** The failure path of a whole patch: restore, then close. A restore that fails is
        swallowed. `job` is the patch as it was proposed. */
    method RecoverFrom(tx: ManagedPatchTransaction, ghost job: Job, failure: Failure, fault: Option<nat>)
      requires Valid() && tx in created && Open(tx.state)
      requires SameButTemps(job, JobOf(tx)) && RestoreCount(job, failure) <= |job.entries|
      modifies this, tx`state, tx`life, tx`files, tx`rollbackReason
      ensures Valid() && created == old(created) && tx.state == RolledBack && registry == old(registry) - {tx.txId}
      ensures var (w1, _, events) := Recovered(job, old(world), failure, fault);
              world == w1 && log == old(log) + events
              && writeGeneration == old(writeGeneration) + TransactionHistory.Rollbacks(events)
    {
      RestoreWhatIsNeeded(tx, job, failure, fault);
      RollbackManagedTransaction(tx, "commit failed");
    }

    method RestoreWhatIsNeeded(tx: ManagedPatchTransaction, ghost job: Job, failure: Failure, fault: Option<nat>)
      requires Valid() && tx in created
      requires SameButTemps(job, JobOf(tx)) && RestoreCount(job, failure) <= |job.entries|
      modifies this
      ensures Valid() && created == old(created) && registry == old(registry)
      ensures var (w1, _, events) := Recovered(job, old(world), failure, fault);
              RemoveTree(world, job.TempDir()) == w1 && log == old(log) + events
              && writeGeneration == old(writeGeneration) + TransactionHistory.Rollbacks(events)
    {
      var n := match failure
        case FreshnessConflict(k) => k
        case PathConflict(_, k) => k
        case OtherFailure => |tx.files|;
      RestoreIgnoresTemps(job, JobOf(tx), world, 0, n, fault);
      if n > 0 || failure.OtherFailure? {
        TransactionHistory.OneEvent(TransactionHistory.RolledBack(tx.fileTxId));
        var _ := RollbackCommitted(tx, n, fault);
      }
    }

    /** The whole life of a patch, from proposal to commit or rollback. A failure after
        the proposal is thrown on to the caller. History and write generation move by what
        the patch itself does and, if the verification was reached, by what the other
        patches of the run do meanwhile. */
    method ApplyAndCommit(txId: string, fileTxId: string, record: string, root: Path, proposed: seq<ProposedFile>,
                          script: Script, meanwhile: Meanwhile) returns (r: InitResult, thrown: Option<Failure>)
      requires Valid() && forall tx :: tx in created ==> tx.txId != txId
      modifies this
      ensures Valid()
      ensures !r.Ok? ==> log == old(log) && registry == old(registry) && thrown == None
      ensures !r.Ok? ==> writeGeneration == old(writeGeneration)
      ensures r.NoFiles? || r.Forbidden? ==> world == old(world)
      ensures r.Ok? || r.RecordNotWritten? ==>
                var o := ApplyAndCommitOutcome(JobFor(txId, fileTxId, record, root, proposed), old(world), script);
                && world == o.world && registry == old(registry) - {txId}
                && log == old(log) + Awaited(o, meanwhile).events + o.events
                && writeGeneration
                   == old(writeGeneration) + Raised(Awaited(o, meanwhile)) + TransactionHistory.Rollbacks(o.events)
                && r.Ok? == !o.ending.NotProposed?
                && (r.Ok? ==> r.tx.state == (if o.ending.Done? then Committed else RolledBack))
                && thrown == (if o.ending.Failed? then Some(o.ending.failure) else None)
    {
      thrown := None;
      assert registry - {txId} == registry;
      r := InitManagedTransaction(txId, fileTxId, record, root, proposed, script.recordFails);
      if !r.Ok? { return; }
      var tx := r.tx;
      assert registry - {txId} == old(registry) - {txId};
      thrown := StageVerifyCommit(tx, script, meanwhile);
    }

    /** All that follows the proposal. */
    method StageVerifyCommit(tx: ManagedPatchTransaction, script: Script, meanwhile: Meanwhile)
      returns (thrown: Option<Failure>)
      requires Valid() && tx in created && tx.state == Proposed
      modifies this, tx
      ensures Valid() && registry == old(registry) - {tx.txId}
      ensures var o := RunProposed(old(JobOf(tx)), old(world), script);
              && world == o.world
              && log == old(log) + Awaited(o, meanwhile).events + o.events
              && writeGeneration
                 == old(writeGeneration) + Raised(Awaited(o, meanwhile)) + TransactionHistory.Rollbacks(o.events)
              && !o.ending.NotProposed?
              && tx.state == (if o.ending.Done? then Committed else RolledBack)
              && thrown == (if o.ending.Failed? then Some(o.ending.failure) else None)
    {
      ghost var job := JobOf(tx);
      var staged := ApplyToTemp(tx, script.tempFault);
      if !staged {
        RecoverFrom(tx, job, OtherFailure, script.restoreFault);
        return Some(OtherFailure);
      }
      thrown := AwaitAndCommit(tx, job, script, meanwhile);
    }

    method AwaitAndCommit(tx: ManagedPatchTransaction, ghost job: Job, script: Script, meanwhile: Meanwhile)
      returns (thrown: Option<Failure>)
      requires Valid() && tx in created && tx.state == AppliedToTemp && JobOf(tx) == job.Staged()
      modifies this, tx
      ensures Valid() && registry == old(registry) - {tx.txId}
      ensures var o := RunStaged(job, Disturb(old(world), script.duringVerify), script);
              && world == o.world && log == old(log) + meanwhile.events + o.events && o.foreign != []
              && writeGeneration == old(writeGeneration) + Raised(meanwhile) + TransactionHistory.Rollbacks(o.events)
              && !o.ending.NotProposed?
              && tx.state == (if o.ending.Done? then Committed else RolledBack)
              && thrown == (if o.ending.Failed? then Some(o.ending.failure) else None)
    {
      OthersMove(meanwhile);
      world := Disturb(world, script.duringVerify);
      thrown := CommitVerified(tx, job, script);
    }

    /** All that follows the verification. */
    method CommitVerified(tx: ManagedPatchTransaction, ghost job: Job, script: Script)
      returns (thrown: Option<Failure>)
      requires Valid() && tx in created && tx.state == AppliedToTemp && JobOf(tx) == job.Staged()
      modifies this, tx
      ensures Valid() && registry == old(registry) - {tx.txId}
      ensures var o := RunStaged(job, old(world), script);
              && world == o.world && log == old(log) + o.events && o.foreign != []
              && writeGeneration == old(writeGeneration) + TransactionHistory.Rollbacks(o.events)
              && !o.ending.NotProposed?
              && tx.state == (if o.ending.Done? then Committed else RolledBack)
              && thrown == (if o.ending.Failed? then Some(o.ending.failure) else None)
    {
      if script.answer.Throws? {
        RecoverFrom(tx, job, OtherFailure, script.restoreFault);
        return Some(OtherFailure);
      }
      if script.answer.Declines? {
        RollbackManagedTransaction(tx, "verification failed");
        return None;
      }
      var _ := VerifyManagedTransaction(tx);
      TransactionHistory.OneEvent(TransactionHistory.Committed(tx.txId));
      thrown := CommitOrRecover(tx, job, script);
    }

    method CommitOrRecover(tx: ManagedPatchTransaction, ghost job: Job, script: Script)
      returns (thrown: Option<Failure>)
      requires Valid() && tx in created && tx.state == Verified && JobOf(tx) == job.Staged()
      modifies this, tx
      ensures Valid() && registry == old(registry) - {tx.txId}
      ensures var run := Commit(old(JobOf(tx)), old(world), script.steps);
              && thrown == run.failure
              && tx.state == (if thrown.None? then Committed else RolledBack)
              && (thrown.None? ==>
                    world == RemoveTree(run.world, job.TempDir()) && writeGeneration == old(writeGeneration)
                    && log == old(log) + [TransactionHistory.Committed(tx.txId)])
              && (thrown.Some? ==> RestoreCount(job, thrown.value) <= |job.entries|)
              && (thrown.Some? ==>
                    var o := Recover(job, run.world, thrown.value, run.installed, [script.duringVerify] + run.foreign,
                                     script.restoreFault);
                    world == o.world && log == old(log) + o.events
                    && writeGeneration == old(writeGeneration) + TransactionHistory.Rollbacks(o.events))
    {
      ghost var run := Commit(JobOf(tx), world, script.steps);
      ConflictCountsInstalled(JobOf(tx), world, FreshMemory(world, job.root), 0, script.steps);
      var done, failure := CommitManagedTransaction(tx, script.steps);
      if done { return None; }
      RecoverFrom(tx, job, failure.value, script.restoreFault);
      return failure;
    }
  }

  /** The rest of the loop brings the outcome of the whole. */
  ghost predicate LeadsTo(install: Installer, n: nat, w: World, memory: Option<Memory>, k: nat, run: CommitRun)
    requires k <= n
  {
    var rest := CommitFrom(install, n, w, memory, k);
    run.world == rest.world && run.failure == rest.failure
  }

  lemma LeadsOn(install: Installer, n: nat, w: World, memory: Option<Memory>, k: nat, one: StepRun,
                m1: Option<Memory>, run: CommitRun)
    requires k < n && install(w, memory, k) == (one, m1) && LeadsTo(install, n, w, memory, k, run)
    ensures one.Stopped? ==> run.world == one.world && run.failure == Some(one.failure)
    ensures one.Installed? ==> LeadsTo(install, n, one.world, m1, k + 1, run)
  {
    CommitUnfolds(install, n, w, memory, k, one, m1);
  }

  /** The first `i` temp files are written. */
  ghost predicate StagedSoFar(job: Job, files: seq<Entry>, i: nat) {
    && i <= |files| == |job.entries|
    && forall j: nat :: j < |files| ==>
         files[j] == if j < i then job.entries[j].(tempPath := Some(job.TempPath(j))) else job.entries[j]
  }

  ghost predicate StagesTo(job: Job, w: World, i: nat, fault: Option<nat>, whole: (World, bool))
    requires i <= |job.entries|
  {
    StageFrom(job, w, i, fault) == whole
  }

  lemma StagesOn(job: Job, w: World, i: nat, fault: Option<nat>, whole: (World, bool))
    requires i < |job.entries| && StagesTo(job, w, i, fault, whole)
    ensures fault == Some(i) || StageOne(job, w, i).None? ==> whole == (w, false)
    ensures fault != Some(i) && StageOne(job, w, i).Some? ==>
              StagesTo(job, StageOne(job, w, i).value, i + 1, fault, whole)
  {
  }

  lemma NothingButTemps(job: Job, files: seq<Entry>, i: nat)
    requires StagedSoFar(job, files, i)
    ensures SameButTemps(job, job.(entries := files))
  {
  }

  lemma AllAreStaged(job: Job, files: seq<Entry>)
    requires StagedSoFar(job, files, |files|)
    ensures job.(entries := files) == job.Staged()
  {
  }

  ghost predicate SameButTemps(job: Job, other: Job) {
    && job.(entries := []) == other.(entries := []) && |job.entries| == |other.entries|
    && forall i :: 0 <= i < |job.entries| ==> job.entries[i].(tempPath := None) == other.entries[i].(tempPath := None)
  }

  /** Restoring looks at the snapshots only, not at what was staged. */
  lemma {:induction false} RestoreIgnoresTemps(job: Job, other: Job, w: World, i: nat, n: nat, fault: Option<nat>)
    requires SameButTemps(job, other) && i <= n <= |job.entries|
    ensures RestoreFrom(job, w, i, n, fault) == RestoreFrom(other, w, i, n, fault)
    decreases n - i
  {
    if i < n {
      assert job.entries[i].(tempPath := None).relative == other.entries[i].(tempPath := None).relative;
      assert job.Target(i) == other.Target(i) && job.entries[i].oldContent == other.entries[i].oldContent;
      var one := RestoreOne(w, job.Target(i), job.entries[i].oldContent);
      if one.Some? { RestoreIgnoresTemps(job, other, one.value, i + 1, n, fault); }
    }
  }
}
