/**
  The project database: the mutation lease row and the versioned state row, each changed in one
  transaction at a time (packages/state-store/src/state-store.ts).

  A transaction is atomic. The clock, the process table and `ps` are what the transaction observes.
 */
module StateStore {
  import opened Wrappers
  import opened ProjectModel

  const MUTATION_LEASE_TTL_MS: nat := 30000

  type Host = string
  type Token = string

  /** One process: its start token tells it from an earlier process with the same pid. */
  datatype Instance = Instance(host: Host, pid: nat, start: string)
  datatype LeaseRow = LeaseRow(token: Token, owner: Instance, expires: int)

  // What a transaction sees of its surroundings: the time, and of the recorded owner's pid on this
  // host whether it exists and which start token `ps` gives for it
  datatype Observation = Observation(now: int, pidExists: bool, startToken: Option<string>)

  datatype StoreError = ProjectLocked | LeasePreempted | VersionMismatch | SchemaInvalid | StateNotFound | LeaseReleased

  // A foreign lease is stale once it has expired. One of this host is stale when its process is gone, expired or
  // not, or when it has expired and the pid is known to be another process's now.
  predicate Stale(row: LeaseRow, here: Host, seen: Observation) {
    || (row.owner.host != here && row.expires <= seen.now)
    || (row.owner.host == here && !seen.pidExists)
    || (row.owner.host == here && row.expires <= seen.now && seen.startToken.Some? && seen.startToken.value != row.owner.start)
  }

  // An expired lease of this host whose pid exists, but `ps` does not say since when
  predicate Unverifiable(row: LeaseRow, here: Host, seen: Observation) {
    row.owner.host == here && seen.pidExists && row.expires <= seen.now && seen.startToken.None?
  }

  predicate IsFree(row: Option<LeaseRow>, here: Host, seen: Observation) {
    row.None? || Stale(row.value, here, seen)
  }

  predicate IsUnverifiable(row: Option<LeaseRow>, here: Host, seen: Observation) {
    row.Some? && Unverifiable(row.value, here, seen)
  }

  /** The row a transaction finds after removing a stale lease; it gives up when the owner cannot be told. */
  function RemoveStale(row: Option<LeaseRow>, here: Host, seen: Observation): (r: Result<Option<LeaseRow>, StoreError>)
    ensures r == Ok(None) <==> IsFree(row, here, seen)
    ensures r == Err(ProjectLocked) <==> IsUnverifiable(row, here, seen)
    ensures r.Ok? ==> r.value == row || r.value.None?
    ensures r.Err? ==> r.error == ProjectLocked
  {
    if row.None? then Ok(None)
    else if row.value.owner.host != here then Ok(if row.value.expires > seen.now then row else None)
    else if !seen.pidExists then Ok(None)
    else if row.value.expires > seen.now then Ok(row)
    else if seen.startToken == Some(row.value.owner.start) then Ok(row)
    else if seen.startToken.None? then Err(ProjectLocked)
    else Ok(None)
  }

  // The row carries the token and a transaction leaves it there.
  predicate OwnsRow(row: Option<LeaseRow>, token: Token, here: Host, seen: Observation) {
    row.Some? && row.value.token == token && !IsFree(row, here, seen) && !IsUnverifiable(row, here, seen)
  }

  function Renewed(row: LeaseRow, now: int): LeaseRow {
    row.(expires := now + MUTATION_LEASE_TTL_MS)
  }

  // The rows other processes have left behind when they came in between
  datatype LeftBehind = LeftBehind(row: Option<LeaseRow>, state: ProjectState)

  // One poll for the lease: what others committed since the poll before, and what its transaction sees
  datatype Poll = Poll(before: Option<LeftBehind>, seen: Observation)

  /** The lease row after the first n polls, as long as none of them acquires it. */
  function RowAfter(row: Option<LeaseRow>, polls: seq<Poll>, n: nat): Option<LeaseRow>
    requires n <= |polls|
  {
    if n == 0 then row
    else if polls[n - 1].before.Some? then polls[n - 1].before.value.row
    else RowAfter(row, polls, n - 1)
  }

  function StateAfter(state: Option<ProjectState>, polls: seq<Poll>, n: nat): (r: Option<ProjectState>)
    requires n <= |polls|
    ensures state.Some? ==> r.Some?
  {
    if n == 0 then state
    else if polls[n - 1].before.Some? then Some(polls[n - 1].before.value.state)
    else StateAfter(state, polls, n - 1)
  }

  // The i-th poll finds the lease free or stale.
  predicate FindsFree(row: Option<LeaseRow>, here: Host, polls: seq<Poll>, i: nat)
    requires i < |polls|
  {
    IsFree(RowAfter(row, polls, i + 1), here, polls[i].seen)
  }

  class StateStore {
    var row: Option<LeaseRow>
    var state: Option<ProjectState>

    constructor ()
      ensures row.None? && state.None?
    {
      row, state := None, None;
    }

    /** Keeps the state that is already there; only a fresh database takes the initial one. */
    method Initialize(initial: ProjectState) returns (r: Result<ProjectState, StoreError>)
      modifies this`state
      ensures old(state).Some? ==> state == old(state) && r == Ok(state.value)
      ensures old(state).None? && ValidProject(initial) ==> state == Some(initial) && r == Ok(initial)
      ensures old(state).None? && !ValidProject(initial) ==> state == old(state) && r == Err(SchemaInvalid)
    {
      if state.Some? {
        return Ok(state.value);
      }
      if !ValidProject(initial) {
        return Err(SchemaInvalid);
      }
      state := Some(initial);
      return Ok(initial);
    }

    /** One acquisition transaction; a lease that is still held is not an error. */
    method TryAcquire(owner: Instance, token: Token, seen: Observation) returns (r: Result<bool, StoreError>)
      modifies this`row
      ensures r == Ok(true) <==> IsFree(old(row), owner.host, seen)
      ensures r == Ok(true) ==> row == Some(LeaseRow(token, owner, seen.now + MUTATION_LEASE_TTL_MS))
      ensures r != Ok(true) ==> row == old(row)
      ensures r == Err(ProjectLocked) <==> IsUnverifiable(old(row), owner.host, seen)
    {
      var found := RemoveStale(row, owner.host, seen);
      if found.Err? {
        return Err(found.error);
      }
      if found.value.Some? {
        return Ok(false);
      }
      row := Some(LeaseRow(token, owner, seen.now + MUTATION_LEASE_TTL_MS));
      return Ok(true);
    }

    /** Polls until a transaction acquires the lease or the wait is over; `polls` are the transactions in time. */
    method AcquireMutationLease(owner: Instance, token: Token, polls: seq<Poll>) returns (r: Result<nat, StoreError>)
      modifies this
      ensures r.Ok? ==>
                && r.value < |polls| && FindsFree(old(row), owner.host, polls, r.value)
                && row == Some(LeaseRow(token, owner, polls[r.value].seen.now + MUTATION_LEASE_TTL_MS))
                && state == StateAfter(old(state), polls, r.value + 1)
                && forall i | 0 <= i < r.value :: !FindsFree(old(row), owner.host, polls, i)
      ensures r.Err? ==>
                && r.error == ProjectLocked
                && row == RowAfter(old(row), polls, |polls|) && state == StateAfter(old(state), polls, |polls|)
                && forall i | 0 <= i < |polls| :: !FindsFree(old(row), owner.host, polls, i)
    {
      for i := 0 to |polls|
        invariant row == RowAfter(old(row), polls, i) && state == StateAfter(old(state), polls, i)
        invariant forall j | 0 <= j < i :: !FindsFree(old(row), owner.host, polls, j)
      {
        if polls[i].before.Some? {
          row, state := polls[i].before.value.row, Some(polls[i].before.value.state);
        }
        var acquired := TryAcquire(owner, token, polls[i].seen);
        if acquired == Ok(true) {
          return Ok(i);
        }
      }
      return Err(ProjectLocked);
    }

    method Renew(token: Token, here: Host, seen: Observation) returns (r: Result<(), StoreError>)
      modifies this`row
      ensures r.Ok? <==> OwnsRow(old(row), token, here, seen)
      ensures r.Ok? ==> row == Some(Renewed(old(row).value, seen.now))
      ensures r.Err? ==> row == old(row) && r.error in {ProjectLocked, LeasePreempted}
      ensures r == Err(ProjectLocked) <==> IsUnverifiable(old(row), here, seen)
    {
      var found := RemoveStale(row, here, seen);
      if found.Err? {
        return Err(found.error);
      }
      if found.value.None? || found.value.value.token != token {
        return Err(LeasePreempted);
      }
      row := Some(Renewed(found.value.value, seen.now));
      return Ok(());
    }

    method Release(token: Token)
      modifies this`row
      ensures row == if old(row).Some? && old(row).value.token == token then None else old(row)
    {
      if row.Some? && row.value.token == token {
        row := None;
      }
    }

    /** Lease check, renewal and the version check of the state row, in one transaction. */
    method WriteStateWithLease(next: ProjectState, token: Token, here: Host, seen: Observation)
      returns (r: Result<ProjectState, StoreError>)
      modifies this
      ensures r.Ok? <==>
                && ValidProject(next) && OwnsRow(old(row), token, here, seen)
                && (old(state).Some? ==> next.stateVersion == old(state).value.stateVersion + 1)
      ensures r.Ok? ==> r.value == next && state == Some(next) && row == Some(Renewed(old(row).value, seen.now))
      ensures r.Err? ==> row == old(row) && state == old(state)
      ensures r == Err(SchemaInvalid) <==> !ValidProject(next)
      ensures r == Err(ProjectLocked) <==> ValidProject(next) && IsUnverifiable(old(row), here, seen)
      ensures r == Err(VersionMismatch) <==>
                && ValidProject(next) && OwnsRow(old(row), token, here, seen)
                && old(state).Some? && next.stateVersion != old(state).value.stateVersion + 1
      ensures r.Err? ==> r.error in {SchemaInvalid, ProjectLocked, LeasePreempted, VersionMismatch}
    {
      if !ValidProject(next) {
        return Err(SchemaInvalid);
      }
      var found := RemoveStale(row, here, seen);
      if found.Err? {
        return Err(found.error);
      }
      if found.value.None? || found.value.value.token != token {
        return Err(LeasePreempted);
      }
      if state.Some? && next.stateVersion != state.value.stateVersion + 1 {
        return Err(VersionMismatch);
      }
      row := Some(Renewed(found.value.value, seen.now));
      state := Some(next);
      return Ok(next);
    }
  }

  /** A lease as its holder sees it; it is unusable once released or once a renewal has failed. */
  class MutationLease {
    const store: StateStore
    const token: Token
    const here: Host
    var released: bool
    var renewalFailure: Option<StoreError>

    constructor (store: StateStore, token: Token, here: Host)
      ensures this.store == store && this.token == token && this.here == here
      ensures !released && renewalFailure.None?
    {
      this.store, this.token, this.here := store, token, here;
      released, renewalFailure := false, None;
    }

    predicate Usable()
      reads this
    {
      !released && renewalFailure.None?
    }

    method Renew(seen: Observation) returns (r: Result<(), StoreError>)
      modifies this`renewalFailure, store`row
      ensures r.Ok? <==> OwnsRow(old(store.row), token, here, seen)
      ensures r.Ok? ==> store.row == Some(Renewed(old(store.row).value, seen.now)) && renewalFailure == old(renewalFailure)
      ensures r.Err? ==> store.row == old(store.row) && renewalFailure == Some(r.error) && r.error in {ProjectLocked, LeasePreempted}
    {
      r := store.Renew(token, here, seen);
      if r.Err? {
        renewalFailure := Some(r.error);
      }
    }

    /** Succeeds only when the lease was usable and the row still carries its token. */
    method AssertOwned(seen: Observation) returns (r: Result<(), StoreError>)
      modifies this`renewalFailure, store`row
      ensures r.Ok? <==> old(Usable()) && OwnsRow(old(store.row), token, here, seen)
      ensures r.Ok? ==> Usable() && store.row == Some(Renewed(old(store.row).value, seen.now))
      ensures r.Err? ==> store.row == old(store.row)
    {
      if released {
        return Err(LeaseReleased);
      }
      if renewalFailure.Some? {
        return Err(renewalFailure.value);
      }
      r := Renew(seen);
    }

    /** `timer` is a renewal that fires while the write is under way; when it fails the answer is lost, not the write. */
    method WriteState(next: ProjectState, seen: Observation, timer: Option<Observation>)
      returns (r: Result<ProjectState, StoreError>)
      modifies this`renewalFailure, store
      ensures !old(Usable()) ==> r.Err? && store.state == old(store.state) && store.row == old(store.row)
      ensures r.Ok? ==> r.value == next && store.state == Some(next) && Usable()
      ensures store.state != old(store.state) ==>
                && ValidProject(next) && store.state == Some(next)
                && (old(store.state).Some? ==> next.stateVersion == old(store.state).value.stateVersion + 1)
      ensures r.Ok? && old(store.state).Some? ==> next.stateVersion == old(store.state).value.stateVersion + 1
      ensures timer.None? && old(Usable()) ==>
                (r.Ok? <==>
                  && ValidProject(next) && OwnsRow(old(store.row), token, here, seen)
                  && (old(store.state).Some? ==> next.stateVersion == old(store.state).value.stateVersion + 1))
      ensures timer.None? && r.Err? ==> store.state == old(store.state) && store.row == old(store.row)
      ensures timer.None? && r.Ok? ==> store.row == Some(Renewed(old(store.row).value, seen.now))
      ensures old(Usable()) ==>
                (r == Err(VersionMismatch) <==>
                  && ValidProject(next) && OwnsRow(old(store.row), token, here, seen)
                  && old(store.state).Some? && next.stateVersion != old(store.state).value.stateVersion + 1)
      ensures r == Err(VersionMismatch) || !OwnsRow(old(store.row), token, here, seen) ==>
                r.Err? && store.state == old(store.state) && store.row == old(store.row)
      ensures released == old(released)
    {
      if released {
        return Err(LeaseReleased);
      }
      if renewalFailure.Some? {
        return Err(renewalFailure.value);
      }
      var written := store.WriteStateWithLease(next, token, here, seen);
      if written.Err? {
        return written;
      }
      if timer.Some? {
        var renewed := Renew(timer.value);
        if renewed.Err? {
          return Err(renewed.error);
        }
      }
      return written;
    }

    method Release()
      modifies this`released, store`row
      ensures released
      ensures old(released) ==> store.row == old(store.row)
      ensures !old(released) ==>
                store.row == if old(store.row).Some? && old(store.row).value.token == token then None else old(store.row)
    {
      if !released {
        released := true;
        store.Release(token);
      }
    }
  }
}
