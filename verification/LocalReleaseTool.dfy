/** The tool as a program over a device, refining the state machine of module LocalRelease. */
module LocalReleaseTool {
  import opened LocalRelease
  import opened Options

  lemma RequireReadsOnly(r: Run, condition: bool)
    ensures Require(r, condition).w == r.w
  {}

  /** An uninterrupted rollback that the record admits. */
  ghost predicate MustRollBack(w: World, script: seq<Outcome>, action: Action, source: Option<Sha>) {
    && Sound(w) && w.saved.Some? && action.Rollback? && Quiet(script)
    && (source.None? || source == Some(w.saved.value.sourceSha))
  }

  /** The record's originals are all still there, and a switch that returned is finished. */
  lemma SwitchPromises(w: World, script: seq<Outcome>, action: Action, source: Option<Sha>, release: Option<Sha>)
    ensures var r := Switch(w, script, action, source, release);
      && (Sound(w) ==> Sound(r.w) && (w.saved.Some? ==> Keeps(r.w, w.saved.value)))
      && (r.how.Going? ==> w.saved.Some? && Finished(r.w, w.saved.value, action, release))
      && (MustRollBack(w, script, action, source) ==> r.how.Going?)
  {
    hide Sound, Keeps, Finished, Quiet;
    if MustRollBack(w, script, action, source) {
      RollbackRestores(w, script, source, release);
    }
    if Sound(w) {
      SwitchKeepsSound(w, Switches(script, action, source, release));
    }
    if Switch(w, script, action, source, release).how.Going? {
      SwitchThatReturnsFinished(w, script, action, source, release);
    }
  }

  lemma PreparePromises(w: World, script: seq<Outcome>, source: Sha, sourceRef: Ref, bootedSince: bool)
    ensures var after := Prepare(w, script, source, sourceRef, bootedSince).w;
      && (Sound(w) ==> Sound(after))
      && (w.saved.None? || !w.saved.value.phase.Prepared? ==>
            after.flag == w.flag || (after.saved.Some? && after.saved.value.disableUpdates == w.flag))
  {
    hide Prepare, Sound;
    if Sound(w) {
      PrepareKeepsSound(w, script, source, sourceRef, bootedSince);
    }
    if w.saved.None? || !w.saved.value.phase.Prepared? {
      FlagIsNotLost(w, script, source, sourceRef, bootedSince);
    }
  }

  class Device {
    var w: World
    var script: seq<Outcome>
    var how: How

    ghost function Progress(): Run
      reads this
    {
      Run(w, script, how)
    }

    constructor (w: World, script: seq<Outcome>)
      ensures Progress() == Run(w, script, Going)
    {
      this.w, this.script, how := w, script, Going;
    }

    /** One effect; after an exception or a death nothing happens any more. */
    method Perform(after: World)
      modifies this
      ensures Progress() == Effect(old(Progress()), after)
    {
      if !how.Going? {
        return;
      }
      var outcome := Done;
      if script != [] {
        outcome := script[0];
        script := script[1..];
      }
      if !outcome.RaisedBefore? && !outcome.DiedBefore? {
        w := after;
      }
      how := if outcome.Done? then Going else if outcome.RaisedBefore? || outcome.RaisedAfter? then Raised else Dead;
    }

    method Command()
      modifies this
      ensures Progress() == Read(old(Progress()))
    {
      Perform(w);
    }

    method Demand(condition: bool)
      modifies this
      ensures Progress() == Require(old(Progress()), condition)
    {
      if how.Going? && !condition {
        how := Raised;
      }
    }

    method SaveState(record: Record)
      modifies this
      ensures Progress() == Save(old(Progress()), record)
    {
      Perform(w.(saved := Some(record)));
    }

    method WriteUpdates(value: Option<string>)
      modifies this
      ensures Progress() == WriteFlag(old(Progress()), value)
    {
      Perform(w.(flag := value));
    }

    method ForceCheckout(ref: Ref, target: Sha)
      modifies this
      ensures Progress() == Checkout(old(Progress()), ref, target)
    {
      Perform(w.(head := ref, refs := w.refs[ref := target], clean := true));
    }

    method Systemctl(up: bool)
      modifies this
      ensures Progress() == Service(old(Progress()), up)
    {
      Perform(w.(service := up));
    }

    method Verify(commit: Sha)
      modifies this
      ensures Progress() == VerifyTree(old(Progress()), commit)
    {
      hide Effect, World.Resolve;
      var here, clean := w.HeadCommit() == Some(commit), w.clean;
      Command();
      Demand(here);
      Command();
      Demand(clean);
    }

    method CheckRecord(s: Record)
      modifies this
      ensures Progress() == AdmitRecord(old(Progress()), s)
    {
      hide Effect, Read, Require, World.Resolve, ValidSha, IsHead;
      Demand(ValidSha(s.originalCommit));
      Demand(IsHead(s.originalRef));
      var pinned := w.Resolve(s.rollbackRef) == Some(s.originalCommit);
      Command();
      Command();
      Demand(pinned);
      RequireReadsOnly(old(Progress()), ValidSha(s.originalCommit));
      RequireReadsOnly(Require(old(Progress()), ValidSha(s.originalCommit)), IsHead(s.originalRef));
    }

    method CheckLiveTree(s: Record)
      modifies this
      ensures Progress() == AdmitLive(old(Progress()), s)
    {
      hide Effect, Read, Require, VerifyTree, World.Resolve;
      var here, ref := w.HeadCommit() == Some(s.originalCommit), w.head == s.originalRef;
      Command();
      Demand(here);
      Command();
      Demand(ref);
      Verify(s.originalCommit);
    }

    method AdmitSwitch(s: Record, action: Action, source: Option<Sha>)
      modifies this
      ensures Progress() == Admit(old(Progress()), s, action, source)
    {
      hide AdmitRecord, AdmitLive, Require;
      CheckRecord(s);
      if action.Rollback? {
        Demand(source.None? || source == Some(s.sourceSha));
      } else {
        Demand(s.phase.Prepared? && source == Some(s.sourceSha));
        CheckLiveTree(s);
      }
    }

    method FetchRelease(s: Record, release: Option<Sha>)
      modifies this
      ensures Progress() == Fetch(old(Progress()), s, release)
    {
      hide Effect, Read, Require, ValidSha, World.CameFrom;
      ghost var start := Progress();
      var disabled := w.flag == Some(DISABLED);
      Demand(disabled);
      Demand(release.Some? && ValidSha(release.value));
      assert Progress() == AllowRelease(start, release);
      var staged := w.staged.Some?;
      Perform(w.(fetchHead := w.staged));
      Demand(staged);
      var announced := w.fetchHead == release;
      var came := release.Some? && s.sourceBranch.Some? && w.CameFrom(release.value, s.sourceBranch.value, s.sourceSha);
      Command();
      Demand(announced);
      Command();
      Demand(came);
    }

    /** The protected part: each step only if the ones before went through. */
    method TrySwitch(s: Record, action: Action, release: Option<Sha>) returns (t: Record, changed: bool)
      modifies this
      requires how.Going?
      ensures Try(Progress(), t, changed) == Attempt(old(Progress()), s, action, release)
    {
      hide Effect, Read, VerifyTree, Fetch;
      t, changed := s, false;
      if action.Consume? {
        FetchRelease(t, release);
      } else {
        WriteUpdates(Some(DISABLED));
      }
      if !how.Going? {
        return;
      }
      t := t.(phase := Switching);
      SaveState(t);
      Systemctl(false);
      if !how.Going? {
        return;
      }
      changed := true;
      var (ref, target) := TargetOf(t, action, release);
      ForceCheckout(ref, target);
      Verify(target);
      if !how.Going? {
        return;
      }
      if action.Rollback? {
        WriteUpdates(t.disableUpdates);
      } else {
        t := t.(releaseSha := release);
      }
      Command();
      if !how.Going? {
        return;
      }
      t := t.(bootId := Some(w.bootId), phase := if action.Consume? then Rebooting else RolledBack);
      SaveState(t);
      Perform(w.(rebooting := true));
    }

    /** The handler: put things back, record how that went, start the service, and raise again. */
    method Handle(t: Record, changed: bool)
      modifies this
      requires how.Raised?
      ensures Progress() == Recover(Try(old(Progress()), t, changed))
    {
      hide Effect, VerifyTree;
      how := Going;
      if changed {
        ForceCheckout(t.originalRef, t.originalCommit);
      }
      Verify(t.originalCommit);
      WriteUpdates(t.disableUpdates);
      if how.Dead? {
        return;
      }
      var phase := if how.Going? then Recovered else Failed;
      how := Going;
      SaveState(t.(phase := phase));
      if how.Dead? {
        return;
      }
      how := Going;
      Systemctl(true);
      if !how.Dead? {
        how := Raised;
      }
    }

    /** Whatever fails on the way, the recorded originals survive; if it returns, everything was done; and an
        uninterrupted rollback returns. */
    method RunSwitch(action: Action, source: Option<Sha>, release: Option<Sha>)
      modifies this
      requires how.Going?
      ensures Progress() == Switch(old(w), old(script), action, source, release)
      ensures Sound(old(w)) ==> Sound(w) && (old(w.saved).Some? ==> Keeps(w, old(w.saved).value))
      ensures how.Going? ==> old(w.saved).Some? && Finished(w, old(w.saved).value, action, release)
      ensures MustRollBack(old(w), old(script), action, source) ==> how.Going?
    {
      hide Admit, Attempt, Recover, Sound, Keeps, Finished, MustRollBack;
      SwitchPromises(w, script, action, source, release);
      if w.saved.None? {
        how := Raised;
        return;
      }
      var s := w.saved.value;
      AdmitSwitch(s, action, source);
      if !how.Going? {
        return;
      }
      AdmitReadsOnly(Run(old(w), old(script), Going), s, action, source);
      var t, changed := TrySwitch(s, action, release);
      if how.Raised? {
        Handle(t, changed);
      }
    }

    method IdentifyLive(source: Sha, sourceRef: Ref)
      modifies this
      ensures Progress() == Identify(old(Progress()), source, sourceRef)
    {
      hide Effect, Read, Require, VerifyTree, World.Resolve, ValidSha, IsHead, ValidSourceRef;
      var commit, onBranch := w.HeadCommit(), IsHead(w.head);
      Demand(ValidSha(source));
      Demand(ValidSourceRef(sourceRef));
      Command();
      Command();
      Demand(commit.Some?);
      Command();
      Demand(onBranch);
      if commit.Some? {
        Verify(commit.value);
      }
      Command();
    }

    method DemandReboot(s: Record, bootedSince: bool)
      modifies this
      ensures Progress() == CheckRebooted(old(Progress()), s, bootedSince)
    {
      hide Effect, Read, Require;
      if s.bootId.Some? && s.bootId != Some("") {
        Demand(s.bootId != Some(w.bootId));
      } else {
        Command();
        Demand(bootedSince);
      }
    }

    method DemandLive(s: Record, commit: Sha)
      modifies this
      ensures Progress() == CheckLive(old(Progress()), s, commit)
    {
      hide Effect, Read, Require, World.CameFrom;
      var branch := if s.sourceBranch.Some? then s.sourceBranch.value else LEGACY_BRANCH;
      var came, disabled := w.CameFrom(commit, branch, s.sourceSha), w.flag == Some(DISABLED);
      Command();
      Demand(came);
      Demand(disabled);
    }

    method CheckLastDeployed(s: Record, commit: Sha, bootedSince: bool)
      modifies this
      ensures Progress() == CheckDeployed(old(Progress()), s, commit, bootedSince)
    {
      hide Effect, Read, Require, CheckRebooted, CheckLive;
      var onRelease, active := w.head == RELEASE_REF && s.releaseSha == Some(commit), w.service;
      DemandReboot(s, bootedSince);
      Demand(onRelease);
      DemandLive(s, commit);
      Command();
      Demand(active);
      Command();
    }

    method BeginNew(source: Sha, branch: string, commit: Sha)
      modifies this
      ensures Progress() == Begin(old(Progress()), source, branch, commit)
    {
      hide Effect;
      var record := NewRecord(w, source, branch, commit);
      Command();
      Perform(w.(refs := w.refs[RollbackRef(commit) := commit]));
      SaveState(record);
      WriteUpdates(Some(DISABLED));
    }

    /** Wherever it stops, a recorded commit stays pinned, and the update flag of before is in place or recorded. */
    method RunPrepare(source: Sha, sourceRef: Ref, bootedSince: bool)
      modifies this
      requires how.Going?
      ensures Progress() == Prepare(old(w), old(script), source, sourceRef, bootedSince)
      ensures Sound(old(w)) ==> Sound(w)
      ensures old(w.saved).None? || !old(w.saved).value.phase.Prepared? ==>
                w.flag == old(w.flag) || (w.saved.Some? && w.saved.value.disableUpdates == old(w.flag))
    {
      hide Sound;
      PreparePromises(w, script, source, sourceRef, bootedSince);
      hide Identify, CheckDeployed, CheckRolledBack, Begin, Resume, ValidSha, World.Resolve;
      IdentifyReadsOnly(Run(w, script, Going), source, sourceRef);
      IdentifyLive(source, sourceRef);
      if !how.Going? {
        return;
      }
      var commit, branch := w.HeadCommit().value, BranchOf(sourceRef);
      if w.saved.None? {
        BeginNew(source, branch, commit);
        return;
      }
      var s := w.saved.value;
      if s.phase.Rebooting? {
        CheckLastDeployed(s, commit, bootedSince);
        BeginNew(source, branch, commit);
      } else if s.phase.RolledBack? {
        CheckLastRolledBack(s, commit);
        BeginNew(source, branch, commit);
      } else {
        ResumePrepared(s, source, branch, commit);
      }
    }

    method CheckLastRolledBack(s: Record, commit: Sha)
      modifies this
      ensures Progress() == CheckRolledBack(old(Progress()), s, commit)
    {
      Demand(s.originalCommit == commit && s.originalRef == w.head);
      Demand(w.flag == s.disableUpdates);
      Demand(s.bootId.Some? && s.bootId != Some(w.bootId));
    }

    method ResumePrepared(s: Record, source: Sha, branch: string, commit: Sha)
      modifies this
      ensures Progress() == Resume(old(Progress()), s, source, branch, commit)
    {
      hide Effect, World.Resolve;
      var pinned := w.Resolve(s.rollbackRef) == Some(commit);
      Demand(s.phase.Prepared? && s.sourceSha == source && s.sourceBranch == Some(branch));
      Demand(s.originalCommit == commit && s.originalRef == w.head && s.bootId == Some(w.bootId));
      Command();
      Demand(pinned);
      WriteUpdates(Some(DISABLED));
    }
  }
}
