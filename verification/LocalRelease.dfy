/**
 * Deploying a local release and rolling it back. Every effect may fail or the whole process may die, before or after
 * the effect has taken place; the state file is replaced atomically.
 */
module LocalRelease {
  import opened Options

  type Sha = string
  type Ref = string

  const HEADS := "refs/heads/"
  const ROLLBACKS := "refs/local-release/rollback/"
  const RELEASE_REF: Ref := "refs/heads/nav-local-release"
  const LEGACY_BRANCH := "nav-test"
  const DISABLED := "1"

  datatype Phase = Prepared | Switching | Rebooting | RolledBack | Recovered | Failed

  /** The persisted record. The original fields say where a rollback leads. */
  datatype Record = Record(sourceSha: Sha, sourceBranch: Option<string>, originalCommit: Sha, originalRef: Ref,
                           rollbackRef: Ref, disableUpdates: Option<string>, bootId: Option<string>, phase: Phase,
                           releaseSha: Option<Sha>)
  {
    /** The fields that no switch may change. */
    function Originals(): Record {
      this.(bootId := None, phase := Prepared, releaseSha := None)
    }
  }

  /** git (HEAD's branch, all refs, a clean tree, the last fetch, the stage, the source lines of commit messages), the
      update flag, the state file, the service, and the boot. */
  datatype World = World(head: Ref, refs: map<Ref, Sha>, clean: bool, fetchHead: Option<Sha>, staged: Option<Sha>,
                         sources: map<Sha, set<(string, Sha)>>, flag: Option<string>, saved: Option<Record>,
                         service: bool, bootId: string, rebooting: bool)
  {
    function Resolve(ref: Ref): Option<Sha> {
      if ref in refs then Some(refs[ref]) else None
    }

    function HeadCommit(): Option<Sha> {
      Resolve(head)
    }

    predicate CameFrom(commit: Sha, branch: string, source: Sha) {
      commit in sources && (branch, source) in sources[commit]
    }
  }

  predicate Hex(c: char) {
    '0' <= c <= '9' || 'a' <= c <= 'f'
  }

  predicate ValidSha(s: Sha) {
    |s| == 40 && forall i :: 0 <= i < 40 ==> Hex(s[i])
  }

  predicate IsHead(r: Ref) {
    HEADS <= r
  }

  predicate RefChar(c: char, first: bool) {
    'A' <= c <= 'Z' || 'a' <= c <= 'z' || '0' <= c <= '9' || c == '_' || (!first && (c == '.' || c == '/' || c == '-'))
  }

  predicate ValidSourceRef(r: Ref) {
    IsHead(r) && |r| > |HEADS| && forall i :: |HEADS| <= i < |r| ==> RefChar(r[i], i == |HEADS|)
  }

  function BranchOf(r: Ref): string
    requires IsHead(r)
  {
    r[|HEADS|..]
  }

  function RollbackRef(commit: Sha): Ref {
    ROLLBACKS + commit
  }

  // ---- effects that may fail ----

  /** How one effect goes: done, or an exception or the death of the process before or after it took place. */
  datatype Outcome = Done | RaisedBefore | RaisedAfter | DiedBefore | DiedAfter

  datatype How = Going | Raised | Dead

  /** A run in progress; the script holds the outcomes of the effects to come, and effects beyond it are done. */
  datatype Run = Run(w: World, script: seq<Outcome>, how: How)

  /** Steps after an exception or a death do nothing. */
  function Effect(r: Run, after: World): Run {
    if !r.how.Going? then r
    else
      var rest := if r.script == [] then [] else r.script[1..];
      match (if r.script == [] then Done else r.script[0])
      case Done => Run(after, rest, Going)
      case RaisedBefore => Run(r.w, rest, Raised)
      case RaisedAfter => Run(after, rest, Raised)
      case DiedBefore => Run(r.w, rest, Dead)
      case DiedAfter => Run(after, rest, Dead)
  }

  /** A command that only reads. */
  function Read(r: Run): Run {
    Effect(r, r.w)
  }

  function Require(r: Run, condition: bool): Run {
    if r.how.Going? && !condition then r.(how := Raised) else r
  }

  function Save(r: Run, record: Record): Run {
    Effect(r, r.w.(saved := Some(record)))
  }

  function WriteFlag(r: Run, value: Option<string>): Run {
    Effect(r, r.w.(flag := value))
  }

  /** Forced checkout of a branch reset to a commit. */
  function Checkout(r: Run, ref: Ref, target: Sha): Run {
    Effect(r, r.w.(head := ref, refs := r.w.refs[ref := target], clean := true))
  }

  function Service(r: Run, up: bool): Run {
    Effect(r, r.w.(service := up))
  }

  function VerifyTree(r: Run, commit: Sha): Run {
    Require(Read(Require(Read(r), r.w.HeadCommit() == Some(commit))), r.w.clean)
  }

  // ---- switching ----

  datatype Action = Consume | Rollback

  /** The record is well formed, and its commit still pinned. */
  function AdmitRecord(r: Run, s: Record): Run {
    var r1 := Read(Require(Require(r, ValidSha(s.originalCommit)), IsHead(s.originalRef)));
    Require(Read(r1), r.w.Resolve(s.rollbackRef) == Some(s.originalCommit))
  }

  /** The live tree is still the one that was prepared. */
  function AdmitLive(r: Run, s: Record): Run {
    var r1 := Require(Read(r), r.w.HeadCommit() == Some(s.originalCommit));
    VerifyTree(Require(Read(r1), r.w.head == s.originalRef), s.originalCommit)
  }

  /** The checks before the protected part. */
  function Admit(r: Run, s: Record, action: Action, source: Option<Sha>): Run {
    var r1 := AdmitRecord(r, s);
    if action.Rollback? then Require(r1, source.None? || source == Some(s.sourceSha))
    else AdmitLive(Require(r1, s.phase.Prepared? && source == Some(s.sourceSha)), s)
  }

  /** The protected part under way: the run, the record in memory, and whether the service was stopped. */
  datatype Try = Try(r: Run, s: Record, changed: bool)

  function AllowRelease(r: Run, release: Option<Sha>): Run {
    Require(Require(r, r.w.flag == Some(DISABLED)), release.Some? && ValidSha(release.value))
  }

  /** Fetching an empty stage fails. */
  function FetchStage(r: Run): Run {
    Require(Effect(r, r.w.(fetchHead := r.w.staged)), r.w.staged.Some?)
  }

  /** The fetched commit is the announced one, and its message names the prepared source. */
  function CheckRelease(r: Run, s: Record, release: Option<Sha>): Run {
    var r1 := Require(Read(r), r.w.fetchHead == release);
    Require(Read(r1), release.Some? && s.sourceBranch.Some?
            && r.w.CameFrom(release.value, s.sourceBranch.value, s.sourceSha))
  }

  function Fetch(r: Run, s: Record, release: Option<Sha>): Run {
    CheckRelease(FetchStage(AllowRelease(r, release)), s, release)
  }

  function TargetOf(s: Record, action: Action, release: Option<Sha>): (Ref, Sha) {
    if action.Consume? && release.Some? then (RELEASE_REF, release.value) else (s.originalRef, s.originalCommit)
  }

  /** Up to the forced checkout and its check. */
  function Move(r: Run, s: Record, action: Action, release: Option<Sha>): Try {
    var r1 := if action.Consume? then Fetch(r, s, release) else WriteFlag(r, Some(DISABLED));
    if !r1.how.Going? then Try(r1, s, false)
    else
      var s1 := s.(phase := Switching);
      var r2 := Service(Save(r1, s1), false);
      if !r2.how.Going? then Try(r2, s1, false)
      else
        var (ref, target) := TargetOf(s, action, release);
        Try(VerifyTree(Checkout(r2, ref, target), target), s1, true)
  }

  /** The flag of a rollback, the boot, the final phase, and the reboot. */
  function Finish(t: Try, action: Action, release: Option<Sha>): Try {
    var r1 := if action.Rollback? then WriteFlag(t.r, t.s.disableUpdates) else t.r;
    var s1 := if action.Consume? && r1.how.Going? then t.s.(releaseSha := release) else t.s;
    var r2 := Read(r1);
    if !r2.how.Going? then Try(r2, s1, t.changed)
    else
      var s2 := s1.(bootId := Some(r2.w.bootId), phase := if action.Consume? then Rebooting else RolledBack);
      var r3 := Save(r2, s2);
      Try(Effect(r3, r3.w.(rebooting := true)), s2, t.changed)
  }

  /** Put the code and the flag back; then always try to record the phase and to start the service, and raise. */
  function Recover(t: Try): Run {
    var r0 := t.r.(how := Going);
    var r1 := if t.changed then Checkout(r0, t.s.originalRef, t.s.originalCommit) else r0;
    var r2 := WriteFlag(VerifyTree(r1, t.s.originalCommit), t.s.disableUpdates);
    if r2.how.Dead? then r2
    else
      var r3 := Save(r2.(how := Going), t.s.(phase := if r2.how.Going? then Recovered else Failed));
      if r3.how.Dead? then r3
      else
        var r4 := Service(r3.(how := Going), true);
        if r4.how.Dead? then r4 else r4.(how := Raised)
  }

  function Attempt(r: Run, s: Record, action: Action, release: Option<Sha>): Try {
    var t := Move(r, s, action, release);
    if t.r.how.Going? then Finish(t, action, release) else t
  }

  function Switch(w: World, script: seq<Outcome>, action: Action, source: Option<Sha>, release: Option<Sha>): Run {
    if w.saved.None? then Run(w, script, Raised)
    else
      var r := Admit(Run(w, script, Going), w.saved.value, action, source);
      if !r.how.Going? then r
      else
        var t := Attempt(r, w.saved.value, action, release);
        if t.r.how.Raised? then Recover(t) else t.r
  }

  // ---- preparing ----

  /** The device has booted since; records without a boot need other evidence. */
  function CheckRebooted(r: Run, s: Record, bootedSince: bool): Run {
    if s.bootId.Some? && s.bootId != Some("") then Require(r, s.bootId != Some(r.w.bootId))
    else Require(Read(r), bootedSince)
  }

  function CheckLive(r: Run, s: Record, commit: Sha): Run {
    var branch := if s.sourceBranch.Some? then s.sourceBranch.value else LEGACY_BRANCH;
    Require(Require(Read(r), r.w.CameFrom(commit, branch, s.sourceSha)), r.w.flag == Some(DISABLED))
  }

  /** An earlier deployment must have gone live: rebooted, on its release, with updates disabled and the service up. */
  function CheckDeployed(r: Run, s: Record, commit: Sha, bootedSince: bool): Run {
    var r1 := Require(CheckRebooted(r, s, bootedSince), r.w.head == RELEASE_REF && s.releaseSha == Some(commit));
    Read(Require(Read(CheckLive(r1, s, commit)), r.w.service))
  }

  function CheckRolledBack(r: Run, s: Record, commit: Sha): Run {
    var r1 := Require(r, s.originalCommit == commit && s.originalRef == r.w.head);
    Require(Require(r1, r.w.flag == s.disableUpdates), s.bootId.Some? && s.bootId != Some(r.w.bootId))
  }

  function SamePreparation(r: Run, s: Record, source: Sha, branch: string, commit: Sha): Run {
    var r1 := Require(r, s.phase.Prepared? && s.sourceSha == source && s.sourceBranch == Some(branch));
    Require(r1, s.originalCommit == commit && s.originalRef == r.w.head && s.bootId == Some(r.w.bootId))
  }

  /** The same preparation again only disables updates again. */
  function Resume(r: Run, s: Record, source: Sha, branch: string, commit: Sha): Run {
    var r1 := SamePreparation(r, s, source, branch, commit);
    WriteFlag(Require(Read(r1), r.w.Resolve(s.rollbackRef) == Some(commit)), Some(DISABLED))
  }

  function NewRecord(w: World, source: Sha, branch: string, commit: Sha): Record {
    Record(source, Some(branch), commit, w.head, RollbackRef(commit), w.flag, Some(w.bootId), Prepared, None)
  }

  /** Install, pin the present commit, record it, and only then disable updates. */
  function Begin(r: Run, source: Sha, branch: string, commit: Sha): Run {
    var r1 := Read(r);
    var r2 := Effect(r1, r1.w.(refs := r1.w.refs[RollbackRef(commit) := commit]));
    WriteFlag(Save(r2, NewRecord(r.w, source, branch, commit)), Some(DISABLED))
  }

  function Identify(r: Run, source: Sha, sourceRef: Ref): Run {
    var r1 := Read(Require(Require(r, ValidSha(source)), ValidSourceRef(sourceRef)));
    var r2 := Require(Read(Require(Read(r1), r.w.HeadCommit().Some?)), IsHead(r.w.head));
    Read(if r.w.HeadCommit().Some? then VerifyTree(r2, r.w.HeadCommit().value) else r2)
  }

  function Prepare(w: World, script: seq<Outcome>, source: Sha, sourceRef: Ref, bootedSince: bool): Run {
    var r := Identify(Run(w, script, Going), source, sourceRef);
    if !r.how.Going? || w.HeadCommit().None? || !IsHead(sourceRef) then r
    else
      var commit, branch := w.HeadCommit().value, BranchOf(sourceRef);
      if w.saved.None? then Begin(r, source, branch, commit)
      else
        match w.saved.value.phase
        case Rebooting => Begin(CheckDeployed(r, w.saved.value, commit, bootedSince), source, branch, commit)
        case RolledBack => Begin(CheckRolledBack(r, w.saved.value, commit), source, branch, commit)
        case _ => Resume(r, w.saved.value, source, branch, commit)
  }

  // ---- what a rollback needs ----

  ghost predicate RefsValid(w: World) {
    forall ref :: ref in w.refs ==> ValidSha(w.refs[ref])
  }

  /** The recorded commit is pinned by its rollback ref. */
  predicate Pinned(w: World, s: Record) {
    && ValidSha(s.originalCommit) && IsHead(s.originalRef)
    && s.rollbackRef == RollbackRef(s.originalCommit) && w.Resolve(s.rollbackRef) == Some(s.originalCommit)
  }

  ghost predicate Sound(w: World) {
    RefsValid(w) && (w.saved.Some? ==> Pinned(w, w.saved.value))
  }

  /** Sound, with a record of these originals. */
  ghost predicate Keeps(w: World, s: Record) {
    RefsValid(w) && Pinned(w, s) && w.saved.Some? && w.saved.value.Originals() == s.Originals()
  }

  lemma EffectIsOneOfTwo(r: Run, after: World)
    ensures Effect(r, after).w == r.w || Effect(r, after).w == after
    ensures Effect(r, after).how.Going? ==> r.how.Going? && Effect(r, after).w == after
  {}

  lemma HeadIsNoRollback(ref: Ref, commit: Sha)
    requires IsHead(ref)
    ensures ref != RollbackRef(commit)
  {
    assert ref[5] == HEADS[5] && RollbackRef(commit)[5] == ROLLBACKS[5];
  }

  lemma CheckoutKeeps(r: Run, s: Record, ref: Ref, target: Sha)
    requires Keeps(r.w, s) && IsHead(ref) && ValidSha(target)
    ensures Keeps(Checkout(r, ref, target).w, s)
  {
    hide Effect, ValidSha, IsHead, RollbackRef, Record.Originals;
    HeadIsNoRollback(ref, s.originalCommit);
    EffectIsOneOfTwo(r, r.w.(head := ref, refs := r.w.refs[ref := target], clean := true));
  }

  lemma SaveKeeps(r: Run, s: Record, record: Record)
    requires Keeps(r.w, s) && record.Originals() == s.Originals()
    ensures Keeps(Save(r, record).w, s)
  {
    hide Effect, ValidSha, IsHead, RollbackRef, Record.Originals;
    EffectIsOneOfTwo(r, r.w.(saved := Some(record)));
  }

  /** Effects that touch neither refs nor the state file. */
  lemma OtherKeeps(r: Run, s: Record, after: World)
    requires Keeps(r.w, s) && after.refs == r.w.refs && after.saved == r.w.saved
    ensures Keeps(Effect(r, after).w, s)
  {
    hide Effect, ValidSha, IsHead, RollbackRef, Record.Originals;
    EffectIsOneOfTwo(r, after);
  }

  lemma ReadKeepsWorld(r: Run)
    ensures Read(r).w == r.w && (Read(r).how.Going? ==> r.how.Going?)
  {}

  lemma AdmitRecordReadsOnly(r: Run, s: Record)
    ensures AdmitRecord(r, s).w == r.w && (AdmitRecord(r, s).how.Going? ==> r.how.Going?)
  {
    hide ValidSha, IsHead, World.Resolve, Read;
    var r0 := Require(Require(r, ValidSha(s.originalCommit)), IsHead(s.originalRef));
    ReadKeepsWorld(r0);
    ReadKeepsWorld(Read(r0));
  }

  lemma AdmitLiveReadsOnly(r: Run, s: Record)
    ensures AdmitLive(r, s).w == r.w
    ensures AdmitLive(r, s).how.Going? ==>
              r.how.Going? && r.w.head == s.originalRef && r.w.HeadCommit() == Some(s.originalCommit) && r.w.clean
  {
    hide World.HeadCommit, Read, VerifyTree;
    var r1 := Require(Read(r), r.w.HeadCommit() == Some(s.originalCommit));
    ReadKeepsWorld(r);
    ReadKeepsWorld(r1);
    VerifyReadsOnly(Require(Read(r1), r.w.head == s.originalRef), s.originalCommit);
  }

  /** The checks before the protected part change nothing; a consume that passes them finds everything as recorded. */
  lemma AdmitReadsOnly(r: Run, s: Record, action: Action, source: Option<Sha>)
    ensures Admit(r, s, action, source).w == r.w
    ensures Admit(r, s, action, source).how.Going? && action.Consume? ==>
              r.w.head == s.originalRef && r.w.HeadCommit() == Some(s.originalCommit) && r.w.clean && s.phase.Prepared?
  {
    hide World.HeadCommit, AdmitRecord, AdmitLive;
    AdmitRecordReadsOnly(r, s);
    AdmitLiveReadsOnly(Require(AdmitRecord(r, s), s.phase.Prepared? && source == Some(s.sourceSha)), s);
  }

  lemma VerifyReadsOnly(r: Run, commit: Sha)
    ensures VerifyTree(r, commit).w == r.w
    ensures VerifyTree(r, commit).how.Going? ==> r.how.Going? && r.w.HeadCommit() == Some(commit) && r.w.clean
  {
    hide World.Resolve;
  }

  lemma AllowReadsOnly(r: Run, release: Option<Sha>)
    ensures AllowRelease(r, release).w == r.w
    ensures AllowRelease(r, release).how.Going? ==>
              r.how.Going? && r.w.flag == Some(DISABLED) && release.Some? && ValidSha(release.value)
  {
    hide ValidSha;
  }

  lemma StageFetched(r: Run)
    ensures FetchStage(r).w.(fetchHead := r.w.fetchHead) == r.w
    ensures FetchStage(r).how.Going? ==> r.how.Going?
  {
    hide Effect;
    EffectIsOneOfTwo(r, r.w.(fetchHead := r.w.staged));
  }

  lemma ReleaseChecked(r: Run, s: Record, release: Option<Sha>)
    ensures var f := CheckRelease(r, s, release);
      && f.w == r.w
      && (f.how.Going? ==> r.how.Going? && release.Some? && s.sourceBranch.Some?
                           && r.w.CameFrom(release.value, s.sourceBranch.value, s.sourceSha))
  {
    hide World.CameFrom, Read;
    ReadKeepsWorld(r);
    ReadKeepsWorld(Require(Read(r), r.w.fetchHead == release));
  }

  lemma FetchKeeps(r: Run, s: Record, release: Option<Sha>)
    ensures var f := Fetch(r, s, release);
      && f.w.(fetchHead := r.w.fetchHead) == r.w
      && (f.how.Going? ==> r.how.Going? && r.w.flag == Some(DISABLED) && release.Some? && ValidSha(release.value)
                           && s.sourceBranch.Some? && f.w.CameFrom(release.value, s.sourceBranch.value, s.sourceSha))
  {
    hide ValidSha, World.CameFrom, AllowRelease, FetchStage, CheckRelease;
    AllowReadsOnly(r, release);
    StageFetched(AllowRelease(r, release));
    ReleaseChecked(FetchStage(AllowRelease(r, release)), s, release);
  }

  lemma MoveKeeps(r: Run, s0: Record, s: Record, action: Action, release: Option<Sha>)
    requires Keeps(r.w, s0) && s.Originals() == s0.Originals()
    ensures var t := Move(r, s, action, release); Keeps(t.r.w, s0) && t.s.Originals() == s0.Originals()
  {
    hide Effect, Keeps, ValidSha, IsHead, Fetch, Pinned;
    FetchKeeps(r, s, release);
    var r1 := if action.Consume? then Fetch(r, s, release) else WriteFlag(r, Some(DISABLED));
    if action.Consume? {
      KeepsIgnoresFetch(r.w, r1.w, s0);
    } else {
      OtherKeeps(r, s0, r.w.(flag := Some(DISABLED)));
    }
    var s1 := s.(phase := Switching);
    SaveKeeps(r1, s0, s1);
    var saved := Save(r1, s1);
    OtherKeeps(saved, s0, saved.w.(service := false));
    var r2 := Service(saved, false);
    EffectIsOneOfTwo(saved, saved.w.(service := false));
    EffectIsOneOfTwo(r1, r1.w.(saved := Some(s1)));
    if r2.how.Going? {
      var (ref, target) := TargetOf(s, action, release);
      TargetIsGood(r.w, s0, s, action, release);
      CheckoutKeeps(r2, s0, ref, target);
      VerifyReadsOnly(Checkout(r2, ref, target), target);
    }
  }

  lemma KeepsIgnoresFetch(w: World, w': World, s: Record)
    requires Keeps(w, s) && w'.(fetchHead := w.fetchHead) == w
    ensures Keeps(w', s)
  {
    hide ValidSha, IsHead, RollbackRef;
    assert w'.refs == w'.(fetchHead := w.fetchHead).refs && w'.saved == w'.(fetchHead := w.fetchHead).saved;
  }

  lemma TargetIsGood(w: World, s0: Record, s: Record, action: Action, release: Option<Sha>)
    requires Keeps(w, s0) && s.Originals() == s0.Originals()
    requires action.Consume? ==> release.Some? && ValidSha(release.value)
    ensures IsHead(TargetOf(s, action, release).0) && ValidSha(TargetOf(s, action, release).1)
  {
    hide ValidSha, RefsValid;
    assert s.Originals().originalRef == s0.Originals().originalRef;
    assert s.Originals().originalCommit == s0.Originals().originalCommit;
  }

  lemma FinishKeeps(t: Try, s0: Record, action: Action, release: Option<Sha>)
    requires Keeps(t.r.w, s0) && t.s.Originals() == s0.Originals()
    ensures var f := Finish(t, action, release); Keeps(f.r.w, s0) && f.s.Originals() == s0.Originals()
  {
    hide Effect, Keeps;
    OtherKeeps(t.r, s0, t.r.w.(flag := t.s.disableUpdates));
    var r1 := if action.Rollback? then WriteFlag(t.r, t.s.disableUpdates) else t.r;
    OtherKeeps(r1, s0, r1.w);
    var s1 := if action.Consume? && r1.how.Going? then t.s.(releaseSha := release) else t.s;
    var r2 := Read(r1);
    var s2 := s1.(bootId := Some(r2.w.bootId), phase := if action.Consume? then Rebooting else RolledBack);
    SaveKeeps(r2, s0, s2);
    var r3 := Save(r2, s2);
    OtherKeeps(r3, s0, r3.w.(rebooting := true));
  }

  lemma RecoverKeeps(t: Try, s0: Record)
    requires Keeps(t.r.w, s0) && t.s.Originals() == s0.Originals()
    ensures Keeps(Recover(t).w, s0)
  {
    hide Effect, Keeps, VerifyTree;
    var r0 := t.r.(how := Going);
    OriginalsAreGood(r0.w, s0, t.s);
    CheckoutKeeps(r0, s0, t.s.originalRef, t.s.originalCommit);
    var r1 := if t.changed then Checkout(r0, t.s.originalRef, t.s.originalCommit) else r0;
    VerifyReadsOnly(r1, t.s.originalCommit);
    var v := VerifyTree(r1, t.s.originalCommit);
    OtherKeeps(v, s0, v.w.(flag := t.s.disableUpdates));
    var r2 := WriteFlag(v, t.s.disableUpdates);
    var s3 := t.s.(phase := if r2.how.Going? then Recovered else Failed);
    SaveKeeps(r2.(how := Going), s0, s3);
    var r3 := Save(r2.(how := Going), s3);
    OtherKeeps(r3.(how := Going), s0, r3.w.(service := true));
  }

  lemma OriginalsAreGood(w: World, s0: Record, s: Record)
    requires Keeps(w, s0) && s.Originals() == s0.Originals()
    ensures s.originalRef == s0.originalRef && s.originalCommit == s0.originalCommit
    ensures s.disableUpdates == s0.disableUpdates && s.rollbackRef == s0.rollbackRef
    ensures IsHead(s.originalRef) && ValidSha(s.originalCommit)
  {
    hide ValidSha, IsHead, RefsValid;
    assert s.Originals().originalRef == s0.Originals().originalRef;
    assert s.Originals().originalCommit == s0.Originals().originalCommit;
    assert s.Originals().disableUpdates == s0.Originals().disableUpdates;
    assert s.Originals().rollbackRef == s0.Originals().rollbackRef;
  }

  /** Whatever fails or dies during a switch, at whatever point, the recorded originals survive and stay pinned. */
  lemma OriginalsSurviveSwitch(w: World, script: seq<Outcome>, action: Action, source: Option<Sha>,
                               release: Option<Sha>)
    requires Sound(w) && w.saved.Some?
    ensures Keeps(Switch(w, script, action, source, release).w, w.saved.value)
  {
    hide Admit, Move, Finish, Recover, Pinned, RefsValid, Record.Originals;
    var s := w.saved.value;
    var r := Admit(Run(w, script, Going), s, action, source);
    AdmitReadsOnly(Run(w, script, Going), s, action, source);
    if r.how.Going? {
      MoveKeeps(r, s, s, action, release);
      var t := Move(r, s, action, release);
      FinishKeeps(t, s, action, release);
      RecoverKeeps(Attempt(r, s, action, release), s);
    }
  }

  // ---- uninterrupted runs ----

  predicate Quiet(script: seq<Outcome>) {
    forall i :: 0 <= i < |script| ==> script[i].Done?
  }

  lemma QuietEffect(r: Run, after: World)
    requires r.how.Going? && Quiet(r.script)
    ensures Effect(r, after).w == after && Effect(r, after).how.Going? && Quiet(Effect(r, after).script)
  {}

  lemma QuietVerify(r: Run, commit: Sha)
    requires r.how.Going? && Quiet(r.script)
    ensures var v := VerifyTree(r, commit);
      && v.w == r.w
      && (if r.w.HeadCommit() == Some(commit) && r.w.clean then v.how.Going? && Quiet(v.script) else v.how.Raised?)
  {
    hide Effect, Quiet, World.HeadCommit;
    QuietEffect(r, r.w);
    var r1 := Require(Read(r), r.w.HeadCommit() == Some(commit));
    if r1.how.Going? {
      QuietEffect(r1, r1.w);
    } else {
      StoppedEffect(r1, r1.w);
    }
  }

  lemma StoppedEffect(r: Run, after: World)
    ensures !r.how.Going? ==> Effect(r, after) == r
  {}

  /** On this branch and commit, with a clean tree. */
  predicate At(w: World, ref: Ref, commit: Sha) {
    w.head == ref && w.HeadCommit() == Some(commit) && w.clean
  }

  lemma QuietCheckout(r: Run, ref: Ref, target: Sha)
    requires r.how.Going? && Quiet(r.script)
    ensures var v := VerifyTree(Checkout(r, ref, target), target);
      && v.how.Going? && Quiet(v.script) && At(v.w, ref, target) && v.w == Checkout(r, ref, target).w
      && v.w == r.w.(head := ref, refs := r.w.refs[ref := target], clean := true)
  {
    hide Effect, VerifyTree, Quiet;
    QuietEffect(r, r.w.(head := ref, refs := r.w.refs[ref := target], clean := true));
    QuietVerify(Checkout(r, ref, target), target);
  }

  /** What a protected part that came through has done by the time of the reboot. */
  lemma MoveGoing(r: Run, s: Record, action: Action, release: Option<Sha>)
    requires Move(r, s, action, release).r.how.Going?
    ensures var t := Move(r, s, action, release);
      && t.changed && t.s == s.(phase := Switching) && t.r.w.flag == Some(DISABLED)
      && At(t.r.w, TargetOf(s, action, release).0, TargetOf(s, action, release).1)
      && (action.Consume? ==> release.Some? && s.sourceBranch.Some?
                              && t.r.w.CameFrom(release.value, s.sourceBranch.value, s.sourceSha))
  {
    hide Effect, Fetch, World.CameFrom, World.HeadCommit, VerifyTree;
    FetchKeeps(r, s, release);
    EffectIsOneOfTwo(r, r.w.(flag := Some(DISABLED)));
    var r1 := if action.Consume? then Fetch(r, s, release) else WriteFlag(r, Some(DISABLED));
    var s1 := s.(phase := Switching);
    EffectIsOneOfTwo(r1, r1.w.(saved := Some(s1)));
    var r2 := Save(r1, s1);
    EffectIsOneOfTwo(r2, r2.w.(service := false));
    var r3 := Service(r2, false);
    var (ref, target) := TargetOf(s, action, release);
    EffectIsOneOfTwo(r3, r3.w.(head := ref, refs := r3.w.refs[ref := target], clean := true));
    VerifyReadsOnly(Checkout(r3, ref, target), target);
    SameMessages(r1.w, Checkout(r3, ref, target).w, s, release);
  }

  lemma SameMessages(w: World, w': World, s: Record, release: Option<Sha>)
    ensures w.sources == w'.sources && release.Some? && s.sourceBranch.Some? ==>
              w.CameFrom(release.value, s.sourceBranch.value, s.sourceSha)
              == w'.CameFrom(release.value, s.sourceBranch.value, s.sourceSha)
  {}

  /** Where a finished switch leaves the world. */
  ghost predicate Finished(w: World, s: Record, action: Action, release: Option<Sha>) {
    && At(w, TargetOf(s, action, release).0, TargetOf(s, action, release).1) && w.rebooting
    && w.flag == (if action.Consume? then Some(DISABLED) else s.disableUpdates)
    && w.saved == Some(s.(phase := if action.Consume? then Rebooting else RolledBack, bootId := Some(w.bootId),
                          releaseSha := if action.Consume? then release else s.releaseSha))
  }

  lemma FinishGoing(t: Try, action: Action, release: Option<Sha>)
    requires Finish(t, action, release).r.how.Going? && t.r.w.flag == Some(DISABLED)
    requires At(t.r.w, TargetOf(t.s, action, release).0, TargetOf(t.s, action, release).1)
    ensures Finished(Finish(t, action, release).r.w, t.s, action, release)
  {
    hide Effect;
    EffectIsOneOfTwo(t.r, t.r.w.(flag := t.s.disableUpdates));
    var r1 := if action.Rollback? then WriteFlag(t.r, t.s.disableUpdates) else t.r;
    EffectIsOneOfTwo(r1, r1.w);
    var s1 := if action.Consume? && r1.how.Going? then t.s.(releaseSha := release) else t.s;
    var r2 := Read(r1);
    var s2 := s1.(bootId := Some(r2.w.bootId), phase := if action.Consume? then Rebooting else RolledBack);
    EffectIsOneOfTwo(r2, r2.w.(saved := Some(s2)));
    var r3 := Save(r2, s2);
    EffectIsOneOfTwo(r3, r3.w.(rebooting := true));
  }

  /** A switch that returns, whatever its script, has done all of it: a consume is on the fetched release of the
      prepared source with updates still disabled, a rollback is on the recorded branch and commit with the recorded
      flag. */
  lemma SwitchThatReturnsFinished(w: World, script: seq<Outcome>, action: Action, source: Option<Sha>,
                                  release: Option<Sha>)
    requires Switch(w, script, action, source, release).how.Going?
    ensures w.saved.Some? && Finished(Switch(w, script, action, source, release).w, w.saved.value, action, release)
  {
    hide Admit, Move, Finish, Finished, At;
    var s := w.saved.value;
    var r := Admit(Run(w, script, Going), s, action, source);
    var t := Attempt(r, s, action, release);
    RecoverNeverReturns(t);
    MoveGoing(r, s, action, release);
    FinishGoing(Move(r, s, action, release), action, release);
    SwitchingIsOverwritten(t.r.w, s, action, release);
  }

  lemma SwitchingIsOverwritten(w: World, s: Record, action: Action, release: Option<Sha>)
    ensures Finished(w, s.(phase := Switching), action, release) == Finished(w, s, action, release)
  {}

  lemma RecoverNeverReturns(t: Try)
    ensures !Recover(t).how.Going?
  {
    hide Effect, VerifyTree;
  }

  // ---- rollback succeeds ----

  lemma QuietAdmitRollback(r: Run, s: Record, source: Option<Sha>)
    requires r.how.Going? && Quiet(r.script) && Pinned(r.w, s) && (source.None? || source == Some(s.sourceSha))
    ensures var a := Admit(r, s, Rollback, source); a.w == r.w && a.how.Going? && Quiet(a.script)
  {
    hide Effect, Quiet, ValidSha, IsHead, World.Resolve;
    QuietEffect(r, r.w);
    QuietEffect(Read(r), r.w);
  }

  lemma QuietMoveRollback(r: Run, s: Record, release: Option<Sha>)
    requires r.how.Going? && Quiet(r.script)
    ensures var t := Move(r, s, Rollback, release); t.r.how.Going? && Quiet(t.r.script)
  {
    hide Effect, Quiet, Checkout, VerifyTree, At;
    QuietEffect(r, r.w.(flag := Some(DISABLED)));
    var r1 := WriteFlag(r, Some(DISABLED));
    var s1 := s.(phase := Switching);
    QuietEffect(r1, r1.w.(saved := Some(s1)));
    var r2 := Save(r1, s1);
    QuietEffect(r2, r2.w.(service := false));
    QuietCheckout(Service(r2, false), s.originalRef, s.originalCommit);
  }

  lemma QuietFinish(t: Try, action: Action, release: Option<Sha>)
    requires t.r.how.Going? && Quiet(t.r.script)
    ensures Finish(t, action, release).r.how.Going?
  {
    hide Effect, Quiet;
    QuietEffect(t.r, t.r.w.(flag := t.s.disableUpdates));
    var r1 := if action.Rollback? then WriteFlag(t.r, t.s.disableUpdates) else t.r;
    QuietEffect(r1, r1.w);
    var s1 := if action.Consume? && r1.how.Going? then t.s.(releaseSha := release) else t.s;
    var r2 := Read(r1);
    var s2 := s1.(bootId := Some(r2.w.bootId), phase := if action.Consume? then Rebooting else RolledBack);
    QuietEffect(r2, r2.w.(saved := Some(s2)));
    var r3 := Save(r2, s2);
    QuietEffect(r3, r3.w.(rebooting := true));
  }

  /** From any sound world an uninterrupted rollback returns, on the recorded branch and commit and with the recorded
      flag: whatever HEAD, the flag, the phase and the service were when it started. */
  lemma RollbackRestores(w: World, script: seq<Outcome>, source: Option<Sha>, release: Option<Sha>)
    requires Sound(w) && w.saved.Some? && Quiet(script) && (source.None? || source == Some(w.saved.value.sourceSha))
    ensures var r := Switch(w, script, Rollback, source, release);
      var s := w.saved.value;
      && r.how.Going? && At(r.w, s.originalRef, s.originalCommit) && r.w.flag == s.disableUpdates
      && r.w.saved.Some? && r.w.saved.value.phase.RolledBack?
  {
    hide Admit, Move, Finish, At, Recover, Quiet, Pinned;
    var s := w.saved.value;
    var r0 := Run(w, script, Going);
    QuietAdmitRollback(r0, s, source);
    QuietMoveRollback(Admit(r0, s, Rollback, source), s, release);
    QuietFinish(Move(Admit(r0, s, Rollback, source), s, Rollback, release), Rollback, release);
    SwitchThatReturnsFinished(w, script, Rollback, source, release);
  }

  // ---- recovery ----

  lemma QuietRecover(t: Try)
    requires Quiet(t.r.script)
    ensures var r := Recover(t);
      var good := t.changed || (t.r.w.HeadCommit() == Some(t.s.originalCommit) && t.r.w.clean);
      && r.how.Raised? && r.w.service
      && r.w.saved == Some(t.s.(phase := if good then Recovered else Failed))
      && r.w.head == (if t.changed then t.s.originalRef else t.r.w.head)
      && (good ==> r.w.HeadCommit() == Some(t.s.originalCommit) && r.w.clean && r.w.flag == t.s.disableUpdates)
  {
    hide Effect, Quiet, Checkout, VerifyTree, World.Resolve;
    var r0 := t.r.(how := Going);
    var good := t.changed || (t.r.w.HeadCommit() == Some(t.s.originalCommit) && t.r.w.clean);
    QuietCheckout(r0, t.s.originalRef, t.s.originalCommit);
    QuietVerify(r0, t.s.originalCommit);
    var v := VerifyTree(if t.changed then Checkout(r0, t.s.originalRef, t.s.originalCommit) else r0,
                        t.s.originalCommit);
    if good {
      QuietEffect(v, v.w.(flag := t.s.disableUpdates));
    } else {
      StoppedEffect(v, v.w.(flag := t.s.disableUpdates));
      VerifyKeepsQuiet(r0, t.s.originalCommit);
    }
    var r2 := WriteFlag(v, t.s.disableUpdates);
    var g := r2.(how := Going);
    var s3 := t.s.(phase := if r2.how.Going? then Recovered else Failed);
    QuietEffect(g, g.w.(saved := Some(s3)));
    var r3 := Save(g, s3);
    QuietEffect(r3, r3.w.(service := true));
    SameHead(v.w, Service(r3, true).w);
  }

  lemma SameHead(w: World, w': World)
    requires w.head == w'.head && w.refs == w'.refs
    ensures w.HeadCommit() == w'.HeadCommit()
  {}

  lemma VerifyKeepsQuiet(r: Run, commit: Sha)
    requires Quiet(r.script)
    ensures Quiet(VerifyTree(r, commit).script)
  {}

  /** Until the service has been stopped, HEAD, its commit and the tree are untouched. */
  lemma UnchangedIsUntouched(r: Run, s: Record, action: Action, release: Option<Sha>)
    ensures var t := Attempt(r, s, action, release);
      !t.changed ==> t.r.w.head == r.w.head && t.r.w.refs == r.w.refs && t.r.w.clean == r.w.clean
  {
    hide Effect, Fetch, Checkout, VerifyTree;
    FetchKeeps(r, s, release);
    EffectIsOneOfTwo(r, r.w.(flag := Some(DISABLED)));
    var r1 := if action.Consume? then Fetch(r, s, release) else WriteFlag(r, Some(DISABLED));
    FetchedHead(r.w, r1.w);
    var s1 := s.(phase := Switching);
    EffectIsOneOfTwo(r1, r1.w.(saved := Some(s1)));
    EffectIsOneOfTwo(Save(r1, s1), Save(r1, s1).w.(service := false));
  }

  lemma FetchedHead(w: World, w': World)
    ensures w'.(fetchHead := w.fetchHead) == w ==> w'.head == w.head && w'.refs == w.refs && w'.clean == w.clean
  {
    if w'.(fetchHead := w.fetchHead) == w {
      assert w'.(fetchHead := w.fetchHead).head == w'.head;
      assert w'.(fetchHead := w.fetchHead).refs == w'.refs;
      assert w'.(fetchHead := w.fetchHead).clean == w'.clean;
    }
  }

  /** Memory keeps the originals as well. */
  lemma AttemptKeepsOriginals(r: Run, s: Record, action: Action, release: Option<Sha>)
    ensures var t := Attempt(r, s, action, release);
      && t.s.originalRef == s.originalRef && t.s.originalCommit == s.originalCommit
      && t.s.disableUpdates == s.disableUpdates
  {
    hide Effect, Fetch, Checkout, VerifyTree;
  }

  /** A raise before the protected part changes nothing at all; inside it, when the recovery commands work, the switch
      ends recovered exactly if the service had been stopped or the live tree still was the recorded one. */
  lemma RaiseIsRecoveredWhen(w: World, script: seq<Outcome>, action: Action, source: Option<Sha>, release: Option<Sha>)
    requires Sound(w) && w.saved.Some?
    ensures var s := w.saved.value;
      var r := Admit(Run(w, script, Going), s, action, source);
      var t := Attempt(r, s, action, release);
      var end := Switch(w, script, action, source, release);
      if !r.how.Going? then end == r && end.w == w
      else t.r.how.Raised? && Quiet(t.r.script) ==>
        && end.how.Raised? && end.w.service && end.w.saved.Some?
        && (end.w.saved.value.phase.Recovered? <==> t.changed || (w.HeadCommit() == Some(s.originalCommit) && w.clean))
        && (end.w.saved.value.phase.Recovered? ==>
              end.w.HeadCommit() == Some(s.originalCommit) && end.w.clean && end.w.flag == s.disableUpdates)
  {
    hide Admit, Attempt, Recover, Quiet, World.Resolve, Pinned, RefsValid;
    var s := w.saved.value;
    var r := Admit(Run(w, script, Going), s, action, source);
    AdmitReadsOnly(Run(w, script, Going), s, action, source);
    var t := Attempt(r, s, action, release);
    if r.how.Going? && t.r.how.Raised? && Quiet(t.r.script) {
      AttemptKeepsOriginals(r, s, action, release);
      UnchangedIsUntouched(r, s, action, release);
      if !t.changed {
        SameHead(t.r.w, w);
      }
      QuietRecover(t);
    }
  }

  /** This rollback passes its checks and then raises, and every effect of its recovery works. */
  ghost predicate RaisesQuietly(w: World, script: seq<Outcome>, source: Option<Sha>)
    requires w.saved.Some?
  {
    var r := Admit(Run(w, script, Going), w.saved.value, Rollback, source);
    var t := Attempt(r, w.saved.value, Rollback, None);
    r.how.Going? && t.r.how.Raised? && Quiet(t.r.script)
  }

  ghost predicate EndsRecovered(w: World, script: seq<Outcome>, source: Option<Sha>) {
    var end := Switch(w, script, Rollback, source, None).w;
    end.saved.Some? && end.saved.value.phase.Recovered?
  }

  /** The live tree is the recorded one. */
  predicate AtOriginal(w: World)
    requires w.saved.Some?
  {
    w.HeadCommit() == Some(w.saved.value.originalCommit) && w.clean
  }

  lemma RaisedEndsRecovered(w: World, script: seq<Outcome>, source: Option<Sha>)
    requires Sound(w) && w.saved.Some? && RaisesQuietly(w, script, source) && AtOriginal(w)
    ensures EndsRecovered(w, script, source)
  {
    hide Admit, Attempt, Switch, Quiet, World.Resolve, Pinned, RefsValid;
    RaiseIsRecoveredWhen(w, script, Rollback, source, None);
  }

  /** The two checks pass and the write of the update flag raises. */
  const FLAG_WRITE_RAISES: seq<Outcome> := [Done, Done, RaisedBefore]

  /** With HEAD elsewhere, or a tree that is not clean, a rollback that cannot write the flag ends failed. */
  lemma RollbackEndsFailed(w: World, source: Option<Sha>)
    requires Sound(w) && w.saved.Some? && (source.None? || source == Some(w.saved.value.sourceSha)) && !AtOriginal(w)
    ensures RaisesQuietly(w, FLAG_WRITE_RAISES, source)
    ensures var end := Switch(w, FLAG_WRITE_RAISES, Rollback, source, None);
      end.how.Raised? && end.w.saved.Some? && end.w.saved.value.phase.Failed? && end.w.flag == w.flag
  {
    hide ValidSha, RefsValid, IsHead, World.Resolve;
    var s := w.saved.value;
    var r0 := Run(w, FLAG_WRITE_RAISES, Going);
    assert Effect(r0, w) == Run(w, [Done, RaisedBefore], Going);
    assert Effect(Read(r0), w) == Run(w, [RaisedBefore], Going);
    var r := Admit(r0, s, Rollback, source);
    assert r == Run(w, [RaisedBefore], Going);
    var t := Attempt(r, s, Rollback, None);
    assert t == Try(Run(w, [], Raised), s, false);
    QuietRecover(t);
  }

  /** Every raise of an admitted rollback whose recovery commands work ends recovered exactly when HEAD is at the
      recorded commit with a clean tree as the rollback starts. */
  lemma RollbackRecoversIffAtOriginal(w: World, source: Option<Sha>)
    requires Sound(w) && w.saved.Some? && (source.None? || source == Some(w.saved.value.sourceSha))
    ensures AtOriginal(w) <==> forall script :: RaisesQuietly(w, script, source) ==> EndsRecovered(w, script, source)
  {
    hide RaisesQuietly, AtOriginal, Sound;
    if AtOriginal(w) {
      forall script | RaisesQuietly(w, script, source)
        ensures EndsRecovered(w, script, source)
      {
        RaisedEndsRecovered(w, script, source);
      }
    } else {
      RollbackEndsFailed(w, source);
      assert !EndsRecovered(w, FLAG_WRITE_RAISES, source);
    }
  }

  /** A device that went on to a release after its preparation. */
  function ReleasedWorld(original: Sha, release: Sha): World {
    var s := Record(release, Some("nav"), original, "refs/heads/main", RollbackRef(original), None, Some("boot"),
                    Rebooting, Some(release));
    World(RELEASE_REF, map[RELEASE_REF := release, "refs/heads/main" := original, RollbackRef(original) := original],
          true, Some(release), Some(release), map[], Some(DISABLED), Some(s), true, "next", false)
  }

  /** On such a device a rollback that cannot write the update flag ends failed, though nothing changed. */
  lemma ReleasedDeviceMayFail()
    ensures var w := ReleasedWorld(seq(40, _ => 'a'), seq(40, _ => 'b'));
      Sound(w) && RaisesQuietly(w, FLAG_WRITE_RAISES, None) && !EndsRecovered(w, FLAG_WRITE_RAISES, None)
  {
    var original: Sha, release: Sha := seq(40, _ => 'a'), seq(40, _ => 'b');
    var w := ReleasedWorld(original, release);
    HeadIsNoRollback(RELEASE_REF, original);
    HeadIsNoRollback("refs/heads/main", original);
    assert original[0] != release[0];
    assert Sound(w);
    RollbackEndsFailed(w, None);
  }

  /** A consume that raises inside the protected part, with working recovery commands, always ends recovered: back on
      the recorded branch and commit, the flag restored and the service started. */
  lemma ConsumeRecovers(w: World, script: seq<Outcome>, source: Option<Sha>, release: Option<Sha>)
    requires Sound(w) && w.saved.Some?
    requires var r := Admit(Run(w, script, Going), w.saved.value, Consume, source);
      var t := Attempt(r, w.saved.value, Consume, release);
      r.how.Going? && t.r.how.Raised? && Quiet(t.r.script)
    ensures var s := w.saved.value;
      var end := Switch(w, script, Consume, source, release);
      && end.how.Raised? && end.w.service && end.w.saved.Some? && end.w.saved.value.phase.Recovered?
      && At(end.w, s.originalRef, s.originalCommit) && end.w.flag == s.disableUpdates
  {
    hide Admit, Attempt, Recover, Quiet, World.Resolve, Pinned, RefsValid;
    var s := w.saved.value;
    var r := Admit(Run(w, script, Going), s, Consume, source);
    AdmitReadsOnly(Run(w, script, Going), s, Consume, source);
    var t := Attempt(r, s, Consume, release);
    AttemptKeepsOriginals(r, s, Consume, release);
    UnchangedIsUntouched(r, s, Consume, release);
    if !t.changed {
      SameHead(t.r.w, w);
    }
    QuietRecover(t);
  }

  // ---- preparing ----

  lemma IdentifyReadsOnly(r: Run, source: Sha, sourceRef: Ref)
    ensures var i := Identify(r, source, sourceRef);
      && i.w == r.w
      && (i.how.Going? ==>
            IsHead(sourceRef) && ValidSha(source) && r.w.HeadCommit().Some? && IsHead(r.w.head) && r.w.clean)
  {
    assert ValidSourceRef(sourceRef) ==> IsHead(sourceRef);
    hide Read, VerifyTree, ValidSha, ValidSourceRef, IsHead, World.Resolve;
    var r0 := Require(Require(r, ValidSha(source)), ValidSourceRef(sourceRef));
    ReadKeepsWorld(r0);
    var r1 := Read(r0);
    ReadKeepsWorld(r1);
    var r2 := Require(Read(r1), r.w.HeadCommit().Some?);
    ReadKeepsWorld(r2);
    var r3 := Require(Read(r2), IsHead(r.w.head));
    if r.w.HeadCommit().Some? {
      VerifyReadsOnly(r3, r.w.HeadCommit().value);
      ReadKeepsWorld(VerifyTree(r3, r.w.HeadCommit().value));
    } else {
      ReadKeepsWorld(r3);
    }
  }

  lemma CheckDeployedReadsOnly(r: Run, s: Record, commit: Sha, bootedSince: bool)
    ensures CheckDeployed(r, s, commit, bootedSince).w == r.w
    ensures CheckDeployed(r, s, commit, bootedSince).how.Going? ==>
              r.how.Going? && r.w.head == RELEASE_REF && r.w.service
  {
    hide Read, CheckRebooted, CheckLive;
    RebootedReadsOnly(r, s, bootedSince);
    var r1 := Require(CheckRebooted(r, s, bootedSince), r.w.head == RELEASE_REF && s.releaseSha == Some(commit));
    LiveReadsOnly(r1, s, commit);
    var r2 := CheckLive(r1, s, commit);
    ReadKeepsWorld(r2);
    ReadKeepsWorld(Require(Read(r2), r.w.service));
  }

  lemma RebootedReadsOnly(r: Run, s: Record, bootedSince: bool)
    ensures CheckRebooted(r, s, bootedSince).w == r.w && (CheckRebooted(r, s, bootedSince).how.Going? ==> r.how.Going?)
  {}

  lemma LiveReadsOnly(r: Run, s: Record, commit: Sha)
    ensures CheckLive(r, s, commit).w == r.w && (CheckLive(r, s, commit).how.Going? ==> r.how.Going?)
  {
    hide World.CameFrom;
  }

  lemma CheckRolledBackReadsOnly(r: Run, s: Record, commit: Sha)
    ensures CheckRolledBack(r, s, commit).w == r.w
    ensures CheckRolledBack(r, s, commit).how.Going? ==> r.how.Going?
  {}

  lemma ResumeKeepsRecord(r: Run, s: Record, source: Sha, branch: string, commit: Sha)
    ensures var after := Resume(r, s, source, branch, commit);
      && (after.w == r.w || (s.phase.Prepared? && after.w == r.w.(flag := Some(DISABLED))))
      && (after.how.Going? ==> s.phase.Prepared? && after.w.flag == Some(DISABLED)
                               && s.originalCommit == commit && s.originalRef == r.w.head)
  {
    hide Effect, World.Resolve, SamePreparation;
    SamePreparationReadsOnly(r, s, source, branch, commit);
    var r1 := SamePreparation(r, s, source, branch, commit);
    EffectIsOneOfTwo(r1, r1.w);
    var r2 := Require(Read(r1), r.w.Resolve(s.rollbackRef) == Some(commit));
    EffectIsOneOfTwo(r2, r2.w.(flag := Some(DISABLED)));
    StoppedEffect(r2, r2.w.(flag := Some(DISABLED)));
  }

  lemma SamePreparationReadsOnly(r: Run, s: Record, source: Sha, branch: string, commit: Sha)
    ensures var after := SamePreparation(r, s, source, branch, commit);
      && after.w == r.w
      && (after.how.Going? ==> s.phase.Prepared? && s.originalCommit == commit && s.originalRef == r.w.head)
  {}

  /** Beginning pins the commit, records it, and disables updates, in this order. */
  ghost predicate Begun(w: World, after: World, source: Sha, branch: string, commit: Sha) {
    var pinned := w.(refs := w.refs[RollbackRef(commit) := commit]);
    var recorded := pinned.(saved := Some(NewRecord(w, source, branch, commit)));
    after in {w, pinned, recorded, recorded.(flag := Some(DISABLED))}
  }

  lemma BeginSteps(r: Run, source: Sha, branch: string, commit: Sha)
    ensures var after := Begin(r, source, branch, commit);
      && Begun(r.w, after.w, source, branch, commit)
      && (after.how.Going? ==> r.how.Going? && after.w.flag == Some(DISABLED)
                               && after.w.saved == Some(NewRecord(r.w, source, branch, commit))
                               && after.w.head == r.w.head)
  {
    hide Effect, RollbackRef, NewRecord;
    EffectIsOneOfTwo(r, r.w);
    var r1 := Read(r);
    EffectIsOneOfTwo(r1, r1.w.(refs := r1.w.refs[RollbackRef(commit) := commit]));
    var r2 := Effect(r1, r1.w.(refs := r1.w.refs[RollbackRef(commit) := commit]));
    var record := NewRecord(r.w, source, branch, commit);
    EffectIsOneOfTwo(r2, r2.w.(saved := Some(record)));
    StoppedEffect(r2, r2.w.(saved := Some(record)));
    var r3 := Save(r2, record);
    StoppedEffect(r3, r3.w.(flag := Some(DISABLED)));
    EffectIsOneOfTwo(r3, r3.w.(flag := Some(DISABLED)));
  }

  /** What a preparation can do: nothing, disable updates for the same preparation, or begin a new one, and the last
      only when there is no record or the recorded deployment is over. */
  lemma PrepareSteps(w: World, script: seq<Outcome>, source: Sha, sourceRef: Ref, bootedSince: bool)
    ensures var after := Prepare(w, script, source, sourceRef, bootedSince);
      || after.w == w
      || (w.saved.Some? && w.saved.value.phase.Prepared? && after.w == w.(flag := Some(DISABLED)))
      || (&& (w.saved.Some? ==> w.saved.value.phase.Rebooting? || w.saved.value.phase.RolledBack?)
          && w.HeadCommit().Some? && IsHead(w.head) && IsHead(sourceRef)
          && Begun(w, after.w, source, BranchOf(sourceRef), w.HeadCommit().value))
    ensures var after := Prepare(w, script, source, sourceRef, bootedSince);
      after.how.Going? ==>
        && after.w.saved.Some? && after.w.saved.value.phase.Prepared? && after.w.flag == Some(DISABLED)
        && after.w.saved.value.originalRef == w.head == after.w.head
        && w.HeadCommit() == Some(after.w.saved.value.originalCommit)
        && (w.saved.None? || !w.saved.value.phase.Prepared? ==> after.w.saved.value.disableUpdates == w.flag)
  {
    hide Identify, Begin, Begun, Resume, CheckDeployed, CheckRolledBack, World.Resolve, IsHead, ValidSha;
    hide ValidSourceRef, BranchOf;
    var r0 := Run(w, script, Going);
    IdentifyReadsOnly(r0, source, sourceRef);
    var r := Identify(r0, source, sourceRef);
    if r.how.Going? && w.HeadCommit().Some? && IsHead(sourceRef) {
      var commit, branch := w.HeadCommit().value, BranchOf(sourceRef);
      if w.saved.None? {
        BeginSteps(r, source, branch, commit);
      } else {
        var s := w.saved.value;
        match s.phase
        case Rebooting =>
          CheckDeployedReadsOnly(r, s, commit, bootedSince);
          BeginSteps(CheckDeployed(r, s, commit, bootedSince), source, branch, commit);
        case RolledBack =>
          CheckRolledBackReadsOnly(r, s, commit);
          BeginSteps(CheckRolledBack(r, s, commit), source, branch, commit);
        case _ =>
          ResumeKeepsRecord(r, s, source, branch, commit);
      }
    }
  }

  // ---- whole histories ----

  /** One invocation of the tool, with the outcomes of its effects, or a boot of the device. */
  datatype Op = Prepares(script: seq<Outcome>, source: Sha, sourceRef: Ref, bootedSince: bool)
              | Switches(script: seq<Outcome>, action: Action, wanted: Option<Sha>, release: Option<Sha>)
              | Boots(id: string)

  function Booted(w: World, id: string): World {
    w.(service := true, bootId := id, rebooting := false)
  }

  function Apply(w: World, op: Op): World {
    match op
    case Prepares(script, source, sourceRef, bootedSince) => Prepare(w, script, source, sourceRef, bootedSince).w
    case Switches(script, action, wanted, release) => Switch(w, script, action, wanted, release).w
    case Boots(id) => Booted(w, id)
  }

  function ApplyAll(w: World, ops: seq<Op>): World {
    if ops == [] then w else Apply(ApplyAll(w, ops[..|ops| - 1]), ops[|ops| - 1])
  }

  lemma BegunIsSound(w: World, after: World, source: Sha, branch: string, commit: Sha)
    requires Sound(w) && Begun(w, after, source, branch, commit) && w.HeadCommit() == Some(commit) && IsHead(w.head)
    ensures Sound(after)
  {
    hide ValidSha, IsHead;
    assert ValidSha(w.refs[w.head]);
    var pinned := w.(refs := w.refs[RollbackRef(commit) := commit]);
    assert RefsValid(pinned);
    if w.saved.Some? && w.saved.value.rollbackRef == RollbackRef(commit) {
      assert w.saved.value.rollbackRef[|ROLLBACKS|..] == w.saved.value.originalCommit;
      assert RollbackRef(commit)[|ROLLBACKS|..] == commit;
    }
    assert Sound(pinned);
  }

  lemma PrepareKeepsSound(w: World, script: seq<Outcome>, source: Sha, sourceRef: Ref, bootedSince: bool)
    requires Sound(w)
    ensures Sound(Prepare(w, script, source, sourceRef, bootedSince).w)
  {
    hide Prepare, Begun, World.Resolve, ValidSha, IsHead, RollbackRef, BranchOf;
    PrepareSteps(w, script, source, sourceRef, bootedSince);
    var after := Prepare(w, script, source, sourceRef, bootedSince).w;
    if after != w && after != w.(flag := Some(DISABLED)) {
      BegunIsSound(w, after, source, BranchOf(sourceRef), w.HeadCommit().value);
    } else {
      FlagKeepsSound(w, Some(DISABLED));
    }
  }

  lemma FlagKeepsSound(w: World, flag: Option<string>)
    requires Sound(w)
    ensures Sound(w.(flag := flag))
  {
    hide ValidSha, IsHead, RollbackRef;
  }

  lemma SwitchKeepsSound(w: World, op: Op)
    requires Sound(w) && op.Switches?
    ensures Sound(Apply(w, op))
    ensures w.saved.Some? ==> Keeps(Apply(w, op), w.saved.value)
  {
    hide Admit, Attempt, Recover, ValidSha, IsHead, RollbackRef, RefsValid, World.Resolve;
    if w.saved.Some? {
      OriginalsSurviveSwitch(w, op.script, op.action, op.wanted, op.release);
      KeepsIsSound(Apply(w, op), w.saved.value);
    }
  }

  lemma KeepsIsSound(w: World, s: Record)
    requires Keeps(w, s)
    ensures Sound(w) && w.saved.Some?
  {
    hide ValidSha, IsHead, RefsValid;
    assert w.saved.value.Originals().originalRef == s.Originals().originalRef;
    assert w.saved.value.Originals().originalCommit == s.Originals().originalCommit;
    assert w.saved.value.Originals().rollbackRef == s.Originals().rollbackRef;
  }

  lemma BootKeeps(w: World, id: string)
    ensures Sound(w) ==> Sound(Booted(w, id))
    ensures forall s :: Keeps(w, s) ==> Keeps(Booted(w, id), s)
  {
    hide ValidSha, IsHead, RollbackRef, Record.Originals;
  }

  /** Soundness is kept by every history of the tool, with any failures and deaths, and any boots. */
  lemma {:induction false} HistoriesStaySound(w: World, ops: seq<Op>)
    requires Sound(w)
    ensures Sound(ApplyAll(w, ops))
  {
    hide Sound, Prepare, Switch, Booted;
    if ops != [] {
      var before, op := ApplyAll(w, ops[..|ops| - 1]), ops[|ops| - 1];
      HistoriesStaySound(w, ops[..|ops| - 1]);
      match op
      case Prepares(script, source, sourceRef, bootedSince) =>
        PrepareKeepsSound(before, script, source, sourceRef, bootedSince);
      case Switches(_, _, _, _) =>
        SwitchKeepsSound(before, op);
      case Boots(id) =>
        BootKeeps(before, id);
    }
  }

  /** No preparation among these put a new record in place of the one it found. */
  ghost predicate NoneReplaces(w: World, ops: seq<Op>) {
    forall i :: 0 <= i < |ops| && ops[i].Prepares? ==>
      Apply(ApplyAll(w, ops[..i]), ops[i]).saved == ApplyAll(w, ops[..i]).saved
  }

  lemma FewerReplace(w: World, ops: seq<Op>, n: nat)
    requires NoneReplaces(w, ops) && n <= |ops|
    ensures NoneReplaces(w, ops[..n])
  {
    hide Apply, ApplyAll;
    forall i | 0 <= i < n
      ensures ops[..n][..i] == ops[..i]
    {
    }
  }

  lemma {:induction false} HistoriesKeepOriginals(w: World, ops: seq<Op>, s: Record)
    requires Keeps(w, s) && NoneReplaces(w, ops)
    ensures Keeps(ApplyAll(w, ops), s)
  {
    hide Keeps, Sound, Prepare, Switch, Booted, Record.Originals;
    if ops != [] {
      var n := |ops| - 1;
      var before, op := ApplyAll(w, ops[..n]), ops[n];
      FewerReplace(w, ops, n);
      HistoriesKeepOriginals(w, ops[..n], s);
      KeepsIsSound(before, s);
      match op
      case Prepares(script, source, sourceRef, bootedSince) =>
        PrepareKeepsSound(before, script, source, sourceRef, bootedSince);
        SameRecordKeeps(before, Apply(before, op), s);
      case Switches(_, _, _, _) =>
        SwitchKeepsSound(before, op);
        KeepsTransitive(before, Apply(before, op), s);
      case Boots(id) =>
        BootKeeps(before, id);
    }
  }

  lemma SameRecordKeeps(w: World, w': World, s: Record)
    requires Keeps(w, s) && Sound(w') && w'.saved == w.saved
    ensures Keeps(w', s)
  {
    hide ValidSha, IsHead, RefsValid;
    var t := w.saved.value;
    assert t.Originals().originalRef == s.Originals().originalRef;
    assert t.Originals().originalCommit == s.Originals().originalCommit;
    assert t.Originals().rollbackRef == s.Originals().rollbackRef;
  }

  lemma KeepsTransitive(w: World, w': World, s: Record)
    requires Keeps(w, s) && Keeps(w', w.saved.value)
    ensures Keeps(w', s)
  {
    hide ValidSha, IsHead, RefsValid;
    var t := w.saved.value;
    assert t.Originals().originalRef == s.Originals().originalRef;
    assert t.Originals().originalCommit == s.Originals().originalCommit;
    assert t.Originals().rollbackRef == s.Originals().rollbackRef;
  }

  /** After a preparation, whatever consumes and rollbacks follow, wherever they fail or die, however often the device
      boots, and whatever further preparations leave the record in place: one uninterrupted rollback brings back the
      branch and the commit the preparation found, and, when it was a new one, the flag it found. */
  lemma AnythingCanBeRolledBack(w: World, script: seq<Outcome>, source: Sha, sourceRef: Ref, bootedSince: bool,
                                ops: seq<Op>, quiet: seq<Outcome>)
    requires Sound(w) && Prepare(w, script, source, sourceRef, bootedSince).how.Going?
    requires NoneReplaces(Prepare(w, script, source, sourceRef, bootedSince).w, ops)
    requires Quiet(quiet)
    ensures var prepared := Prepare(w, script, source, sourceRef, bootedSince).w;
      var end := Switch(ApplyAll(prepared, ops), quiet, Rollback, None, None);
      && end.how.Going? && end.w.head == w.head && end.w.HeadCommit() == w.HeadCommit() && end.w.clean
      && (w.saved.None? || !w.saved.value.phase.Prepared? ==> end.w.flag == w.flag)
  {
    hide Prepare, Switch, ApplyAll, Pinned, RefsValid, World.Resolve, Quiet, NoneReplaces;
    var prepared := Prepare(w, script, source, sourceRef, bootedSince).w;
    PrepareSteps(w, script, source, sourceRef, bootedSince);
    PrepareKeepsSound(w, script, source, sourceRef, bootedSince);
    var s := prepared.saved.value;
    HistoriesKeepOriginals(prepared, ops, s);
    var before := ApplyAll(prepared, ops);
    KeepsIsSound(before, s);
    OriginalsAreGood(before, s, before.saved.value);
    RollbackRestores(before, quiet, None, None);
  }

  /** As long as the deployment is neither live nor rolled back, preparations of any kind leave the record in place. */
  lemma UnfinishedIsNotReplaced(w: World, ops: seq<Op>)
    requires forall i :: 0 <= i < |ops| && ops[i].Prepares? ==>
               var saved := ApplyAll(w, ops[..i]).saved;
               saved.Some? && !saved.value.phase.Rebooting? && !saved.value.phase.RolledBack?
    ensures NoneReplaces(w, ops)
  {
    hide ApplyAll, Prepare, Switch;
    forall i | 0 <= i < |ops| && ops[i].Prepares?
      ensures Apply(ApplyAll(w, ops[..i]), ops[i]).saved == ApplyAll(w, ops[..i]).saved
    {
      UnfinishedIsKept(ApplyAll(w, ops[..i]), ops[i].script, ops[i].source, ops[i].sourceRef, ops[i].bootedSince);
    }
  }

  /** A preparation never touches the record of a deployment that is neither live nor rolled back; if a switch was cut
      short it changes nothing at all and does not return. */
  lemma UnfinishedIsKept(w: World, script: seq<Outcome>, source: Sha, sourceRef: Ref, bootedSince: bool)
    requires w.saved.Some? && !w.saved.value.phase.Rebooting? && !w.saved.value.phase.RolledBack?
    ensures var after := Prepare(w, script, source, sourceRef, bootedSince);
      && after.w.saved == w.saved && after.w.head == w.head && after.w.refs == w.refs
      && (!w.saved.value.phase.Prepared? ==> after.w == w && !after.how.Going?)
  {
    hide Begun, World.Resolve, ValidSha, IsHead, Identify, SamePreparation;
    PrepareSteps(w, script, source, sourceRef, bootedSince);
    if !w.saved.value.phase.Prepared? && w.HeadCommit().Some? && IsHead(sourceRef) {
      var r := Identify(Run(w, script, Going), source, sourceRef);
      ResumeKeepsRecord(r, w.saved.value, source, BranchOf(sourceRef), w.HeadCommit().value);
    }
  }

  /** A new preparation that dies or fails anywhere has either left the flag alone or recorded what it was. */
  lemma FlagIsNotLost(w: World, script: seq<Outcome>, source: Sha, sourceRef: Ref, bootedSince: bool)
    requires w.saved.None? || !w.saved.value.phase.Prepared?
    ensures var after := Prepare(w, script, source, sourceRef, bootedSince).w;
      after.flag == w.flag || (after.saved.Some? && after.saved.value.disableUpdates == w.flag)
  {
    hide Prepare, World.Resolve, ValidSha, IsHead, RollbackRef, BranchOf;
    PrepareSteps(w, script, source, sourceRef, bootedSince);
  }
}
