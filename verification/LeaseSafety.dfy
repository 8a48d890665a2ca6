/**
  Who may hold the mutation lease: on one host a live owner keeps its row, expired or not, so at most one
  live process is between acquiring and releasing (packages/state-store/src/state-store.ts).
 */
module LeaseSafety {
  import opened Wrappers
  import opened StateStore
  import opened MutationProtocol

  ghost predicate PidsUnique(w: World) {
    && w.live !! w.dead
    && forall i, j | i in w.live && j in w.live && SamePid(i, j) :: i == j
  }

  /** Whatever the clock says, no transaction of another process on the owner's host takes the row from a live owner. */
  lemma LiveOwnerIsNeverStale(w: World, here: Host, seen: Observation)
    requires PidsUnique(w) && Truthful(w, here, seen)
    requires w.row.Some? && w.row.value.owner in w.live && w.row.value.owner.host == here
    ensures RemoveStale(w.row, here, seen) == Ok(w.row) || RemoveStale(w.row, here, seen) == Err(ProjectLocked)
    ensures !IsFree(w.row, here, seen)
  {
    assert SamePid(w.row.value.owner, w.row.value.owner);
  }

  predicate StepOf(step: Step, token: Token) {
    !step.Spawn? && !step.Crash? && step.token == token
  }

  /** Only its owner changes the row of a live owner: every step of everybody else on that host leaves it as it is. */
  lemma OthersKeepLiveRow(w: World, step: Step)
    requires PidsUnique(w) && Enabled(w, step)
    requires w.row.Some? && w.row.value.owner in w.live && !StepOf(step, w.row.value.token)
    requires !step.Spawn? && !step.Crash? && !step.Start? ==> w.executors[step.token].instance.host == w.row.value.owner.host
    ensures Next(w, step).row == w.row
  {
    match step
    case TryAcquire(_, seen) => LiveOwnerIsNeverStale(w, w.row.value.owner.host, seen);
    case RenewByTimer(_, seen) => LiveOwnerIsNeverStale(w, w.row.value.owner.host, seen);
    case Write(_, seen, _) => LiveOwnerIsNeverStale(w, w.row.value.owner.host, seen);
    case Confirm(_, seen) => LiveOwnerIsNeverStale(w, w.row.value.owner.host, seen);
    case _ =>
  }

  // One host

  ghost predicate OneHost(w: World, here: Host) {
    && (forall i | i in w.live + w.dead :: i.host == here)
    && (forall token | token in w.executors :: w.executors[token].instance in w.live + w.dead)
  }

  ghost predicate RowFits(w: World) {
    w.row.Some? ==>
      && w.row.value.token in w.executors
      && w.row.value.owner == w.executors[w.row.value.token].instance
      && Holds(w.executors[w.row.value.token].stage)
  }

  ghost predicate Exclusive(w: World) {
    forall token | Runs(w, token) && Holds(w.executors[token].stage) :: w.row.Some? && w.row.value.token == token
  }

  ghost predicate LeaseInv(w: World, here: Host) {
    PidsUnique(w) && OneHost(w, here) && RowFits(w) && Exclusive(w)
  }

  lemma MachineStepKeepsLease(w: World, step: Step, here: Host)
    requires LeaseInv(w, here) && Enabled(w, step) && (step.Spawn? || step.Crash? || step.Start?)
    requires step.Spawn? ==> step.instance.host == here
    ensures LeaseInv(Next(w, step), here)
  {
    var v := Next(w, step);
    forall token | Runs(v, token) && Holds(v.executors[token].stage) ensures v.row.Some? && v.row.value.token == token {
      assert Runs(w, token) && Holds(w.executors[token].stage);
    }
  }

  lemma AcquireKeepsLease(w: World, token: Token, seen: Observation, here: Host)
    requires LeaseInv(w, here) && Enabled(w, TryAcquire(token, seen))
    ensures LeaseInv(Next(w, TryAcquire(token, seen)), here)
  {
    var v := Next(w, TryAcquire(token, seen));
    if w.row.Some? && w.row.value.owner in w.live {
      LiveOwnerIsNeverStale(w, here, seen);
    }
    if IsFree(w.row, here, seen) {
      assert forall other | Runs(w, other) :: !Holds(w.executors[other].stage);
    }
  }

  // A step of the holder that keeps holding leaves the row to its token and moves only itself.
  ghost predicate KeepsHold(w: World, v: World, token: Token) {
    && Runs(w, token) && Holds(w.executors[token].stage)
    && v.live == w.live && v.dead == w.dead
    && v.executors.Keys == w.executors.Keys
    && (forall other | other in w.executors && other != token :: v.executors[other] == w.executors[other])
    && v.executors[token].instance == w.executors[token].instance && Holds(v.executors[token].stage)
    && (w.row.Some? ==> v.row.Some? && v.row.value.token == w.row.value.token && v.row.value.owner == w.row.value.owner)
  }

  lemma HolderStepKeepsHold(w: World, step: Step)
    requires Enabled(w, step)
    requires !step.Spawn? && !step.Crash? && !step.Start? && !step.TryAcquire? && !step.Release?
    ensures KeepsHold(w, Next(w, step), step.token)
  {
  }

  lemma HolderStepKeepsLease(w: World, step: Step, here: Host)
    requires LeaseInv(w, here) && Enabled(w, step)
    requires !step.Spawn? && !step.Crash? && !step.Start? && !step.TryAcquire? && !step.Release?
    ensures LeaseInv(Next(w, step), here)
  {
    HolderStepKeepsHold(w, step);
    HoldKeepsLease(w, Next(w, step), step.token, here);
  }

  lemma HoldKeepsLease(w: World, v: World, token: Token, here: Host)
    requires LeaseInv(w, here) && KeepsHold(w, v, token)
    ensures LeaseInv(v, here)
  {
    forall other | Runs(v, other) && Holds(v.executors[other].stage) ensures v.row.Some? && v.row.value.token == other {
      assert Runs(w, other) && Holds(w.executors[other].stage);
    }
  }

  lemma ReleaseKeepsLease(w: World, token: Token, here: Host)
    requires LeaseInv(w, here) && Enabled(w, Release(token))
    ensures LeaseInv(Next(w, Release(token)), here)
  {
    assert Runs(w, token) && Holds(w.executors[token].stage);
    assert forall other | Runs(w, other) && Holds(w.executors[other].stage) :: other == token;
  }

  lemma StepKeepsLease(w: World, step: Step, here: Host)
    requires LeaseInv(w, here) && Enabled(w, step)
    requires step.Spawn? ==> step.instance.host == here
    ensures LeaseInv(Next(w, step), here)
  {
    match step
    case Spawn(_) => MachineStepKeepsLease(w, step, here);
    case Crash(_) => MachineStepKeepsLease(w, step, here);
    case Start(_, _, _, _, _) => MachineStepKeepsLease(w, step, here);
    case TryAcquire(token, seen) => AcquireKeepsLease(w, token, seen, here);
    case Release(token) => ReleaseKeepsLease(w, token, here);
    case _ => HolderStepKeepsLease(w, step, here);
  }

  lemma {:induction false} TracesKeepLease(worlds: seq<World>, steps: seq<Step>, here: Host, n: nat)
    requires Trace(worlds, steps) && n < |worlds|
    requires forall i | 0 <= i < |steps| :: steps[i].Spawn? ==> steps[i].instance.host == here
    ensures LeaseInv(worlds[n], here)
  {
    if n > 0 {
      TracesKeepLease(worlds, steps, here, n - 1);
      assert Enabled(worlds[n - 1], steps[n - 1]) && worlds[n - 1 + 1] == Next(worlds[n - 1], steps[n - 1]);
      StepKeepsLease(worlds[n - 1], steps[n - 1], here);
    }
  }

  /**
    On one host, at any point of any run, at most one live executor is between acquiring the lease and
    releasing it, and the row names it.
   */
  lemma AtMostOneHolder(worlds: seq<World>, steps: seq<Step>, here: Host, n: nat, a: Token, b: Token)
    requires Trace(worlds, steps) && n < |worlds|
    requires forall i | 0 <= i < |steps| :: steps[i].Spawn? ==> steps[i].instance.host == here
    requires Runs(worlds[n], a) && Holds(worlds[n].executors[a].stage)
    requires Runs(worlds[n], b) && Holds(worlds[n].executors[b].stage)
    ensures a == b && worlds[n].row.Some? && worlds[n].row.value.token == a
            && worlds[n].row.value.owner == worlds[n].executors[a].instance
  {
    TracesKeepLease(worlds, steps, here, n);
  }

  /** Across hosts as well, a state is only ever committed while the row carries the committer's token. */
  lemma CommitsUnderOwnToken(worlds: seq<World>, steps: seq<Step>, n: nat)
    requires Trace(worlds, steps) && n < |steps|
    requires worlds[n + 1].states != worlds[n].states
    ensures steps[n].Write?
    ensures worlds[n].row.Some? && worlds[n].row.value.token == steps[n].token
    ensures worlds[n + 1].row.Some? && worlds[n + 1].row.value.token == steps[n].token
    ensures worlds[n + 1].commits == worlds[n].commits + [Commit(steps[n].token, |worlds[n].states| - 1)]
  {
    TracesKeepCommits(worlds, steps, n);
    if steps[n].Write? {
      WriteNeedsCurrentRead(worlds[n], steps[n].token, steps[n].seen, steps[n].answerLost);
    }
  }

  // Who gets the lease

  // Some live process has the recorded owner's pid: the owner itself, or one that came after it.
  ghost predicate PidIsTaken(w: World)
    requires w.row.Some?
  {
    exists i :: i in w.live && SamePid(i, w.row.value.owner)
  }

  // What must have become of the lease that is on record
  ghost predicate MayBeTaken(w: World, here: Host, seen: Observation) {
    w.row.Some? ==>
      if w.row.value.owner.host != here then w.row.value.expires <= seen.now
      else !PidIsTaken(w) || (w.row.value.owner !in w.live && w.row.value.expires <= seen.now && seen.startToken.Some?)
  }

  /**
    A waiting executor that sees its machine as it is acquires the lease exactly when there is none, or a foreign one
    has expired, or the owner on its own host is dead and its pid free, or dead, expired and its pid given again.
   */
  lemma WaiterAcquiresExactly(w: World, token: Token, seen: Observation)
    requires PidsUnique(w) && Enabled(w, TryAcquire(token, seen))
    ensures var here, v := w.executors[token].instance.host, Next(w, TryAcquire(token, seen));
            && (v.executors[token].stage == Holding <==> MayBeTaken(w, here, seen))
            && (MayBeTaken(w, here, seen) ==> v.row == Some(LeaseRow(token, w.executors[token].instance, seen.now + MUTATION_LEASE_TTL_MS)))
            && (!MayBeTaken(w, here, seen) ==> v == w)
  {
    var here := w.executors[token].instance.host;
    if w.row.Some? && w.row.value.owner.host == here {
      var owner := w.row.value.owner;
      assert SamePid(owner, owner);
      if PidIsTaken(w) {
        var i :| i in w.live && SamePid(i, owner);
        assert owner in w.live ==> i == owner;
        assert i == owner <==> i.start == owner.start;
      }
    }
  }

  /** The lease of a process that is gone goes to whoever asks next on its host, expired or not. */
  lemma DeadOwnerIsReplaced(w: World, token: Token, seen: Observation)
    requires PidsUnique(w) && Enabled(w, TryAcquire(token, seen)) && w.row.Some?
    requires w.row.value.owner.host == w.executors[token].instance.host
    requires forall i | i in w.live :: !SamePid(i, w.row.value.owner)
    ensures var v := Next(w, TryAcquire(token, seen));
            v.executors[token].stage == Holding && v.row.Some? && v.row.value.token == token
  {
    WaiterAcquiresExactly(w, token, seen);
  }

  /** And on another host to whoever asks after it has expired. */
  lemma ExpiredForeignLeaseIsReplaced(w: World, token: Token, seen: Observation)
    requires PidsUnique(w) && Enabled(w, TryAcquire(token, seen)) && w.row.Some?
    requires w.row.value.owner.host != w.executors[token].instance.host
    ensures (Next(w, TryAcquire(token, seen)).executors[token].stage == Holding) <==> w.row.value.expires <= seen.now
  {
    WaiterAcquiresExactly(w, token, seen);
  }

  /**
    The project is never locked for good: at any point of any run on one host at which no live executor is between
    acquiring and releasing, a waiting one that looks after the lease has expired and is told the start of the
    process acquires it.
   */
  lemma LockIsNeverLost(worlds: seq<World>, steps: seq<Step>, here: Host, n: nat, token: Token, seen: Observation)
    requires Trace(worlds, steps) && n < |worlds|
    requires forall i | 0 <= i < |steps| :: steps[i].Spawn? ==> steps[i].instance.host == here
    requires Enabled(worlds[n], TryAcquire(token, seen))
    requires forall other | Runs(worlds[n], other) :: !Holds(worlds[n].executors[other].stage)
    requires worlds[n].row.Some? ==> worlds[n].row.value.expires <= seen.now && seen.startToken.Some?
    ensures Next(worlds[n], TryAcquire(token, seen)).executors[token].stage == Holding
  {
    var w := worlds[n];
    TracesKeepLease(worlds, steps, here, n);
    WaiterAcquiresExactly(w, token, seen);
    if w.row.Some? {
      assert !Runs(w, w.row.value.token);
    }
  }

  /** A row passes to another token only by an acquisition, and is given up only by its own: on any host. */
  lemma RowChangesHands(w: World, step: Step)
    requires Enabled(w, step) && w.row.Some? && !StepOf(step, w.row.value.token)
    ensures Next(w, step).row == w.row || (step.TryAcquire? && Next(w, step).row.Some? && Next(w, step).row.value.token == step.token)
  {
  }
}
