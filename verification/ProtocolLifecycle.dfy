/** The lifecycle invariant over every interleaving of executors (apps/daemon/src/runtime/project-mutation-executor.ts). */
module ProtocolLifecycle {
  import opened MutationExecutor
  import opened RunTransitions
  import opened LifecycleInvariant
  import opened ProjectLifecycle
  import opened DaemonTasks
  import opened LifecycleResults
  import opened MutationProtocol

  // The commits are those of the tasks of the daemon, each made on the state its executor read.
  ghost predicate CommitsAreSupervised(w: World, transitions: seq<Transition>, tasks: seq<Tasks>) {
    && |transitions| == |w.commits| && |tasks| == |w.states| == |w.commits| + 1
    && w.states[0] == EMPTY_PROJECT && tasks[0] == NO_TASKS
    && (forall i | 0 <= i < |w.commits| :: w.commits[i].token in w.executors)
    && forall i | 0 <= i < |w.commits| :: CommitIsSupervised(w, transitions, tasks, i)
  }

  ghost predicate CommitIsSupervised(w: World, transitions: seq<Transition>, tasks: seq<Tasks>, i: nat)
    requires i < |w.commits| && i < |transitions| && i + 1 < |tasks| && i + 1 < |w.states|
  {
    && w.commits[i].token in w.executors && w.commits[i].readAt < |w.states|
    && var e, read := w.executors[w.commits[i].token], w.states[w.commits[i].readAt];
       && e.build == BuildOf(transitions[i]) && Carries(e.request, transitions[i])
       && FreshRun(read, transitions[i]) && Supervised(tasks[i], read, e.request, transitions[i])
       && TasksMayBecome(w.states[i + 1], TasksAfter(tasks[i], e.request, transitions[i], w.states[i + 1]), tasks[i + 1])
  }

  lemma CommitIsLifecycleStep(w: World, transitions: seq<Transition>, tasks: seq<Tasks>, i: nat)
    requires CommitInv(w) && CommitsAreSupervised(w, transitions, tasks) && i < |w.commits|
    ensures LifecycleStep(w.states[i], w.executors[w.commits[i].token].request, transitions[i], w.states[i + 1])
    ensures Supervised(tasks[i], w.states[i], w.executors[w.commits[i].token].request, transitions[i])
  {
    assert CommitFits(w, i);
    assert CommitIsSupervised(w, transitions, tasks, i);
  }

  lemma CommitsAreLifecycle(w: World, transitions: seq<Transition>, tasks: seq<Tasks>) returns (requests: seq<Request>)
    requires CommitInv(w) && CommitsAreSupervised(w, transitions, tasks)
    ensures LifecycleHistory(w.states, requests, transitions, tasks)
  {
    requests := seq(|w.commits|, i requires 0 <= i < |w.commits| => w.executors[w.commits[i].token].request);
    forall i | 0 <= i < |requests|
      ensures LifecycleStep(w.states[i], requests[i], transitions[i], w.states[i + 1])
      ensures Supervised(tasks[i], w.states[i], requests[i], transitions[i])
      ensures TasksMayBecome(w.states[i + 1], TasksAfter(tasks[i], requests[i], transitions[i], w.states[i + 1]), tasks[i + 1])
    {
      CommitIsLifecycleStep(w, transitions, tasks, i);
      assert CommitIsSupervised(w, transitions, tasks, i);
    }
  }

  /**
    In every run of the protocol, however the executors interleave, crash and preempt each other: when the commits
    are those of the daemon's tasks, every state ever committed satisfies the invariant.
   */
  lemma EveryCommittedStateIsInv(
    worlds: seq<World>, steps: seq<Step>, n: nat, transitions: seq<Transition>, tasks: seq<Tasks>, i: nat)
    requires Trace(worlds, steps) && n < |worlds| && CommitsAreSupervised(worlds[n], transitions, tasks)
    requires i < |worlds[n].states|
    ensures ProjectInv(worlds[n].states[i])
  {
    TracesKeepCommits(worlds, steps, n);
    var requests := CommitsAreLifecycle(worlds[n], transitions, tasks);
    HistoriesKeepInvariant(worlds[n].states, requests, transitions, tasks, i);
  }
}
