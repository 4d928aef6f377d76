/** The gateway node and the database row as objects. Every method below is the source's
    sequential code with the other nodes let in at each await; its contract says what the whole
    call did, and that the call together with that interference was a path of the protocol. */
module ConfigNode {
  import opened Wrappers
  import opened ConfigData
  import opened ConfigProtocol
  import opened ConfigSafety

  datatype Error = Conflict | Overflow | Invalid | Storage | Unannounced

  // A dropped call is a future that its caller abandoned at an await.
  datatype Outcome<T> = Returned(result: Result<T, Error>) | Dropped

  // Anything but a restart of node i may happen between s and s'.
  ghost predicate Ran(s: System, s': System, i: nat) {
    exists states, events ::
      && IsPath(states, events) && states[0] == s && Last(states) == s'
      && forall e: Event | e in events :: e.node == i ==> !e.action.Crash?
  }

  // While node i holds its lock and waits, its own part is small: its subscriber loop writes the
  // synchronization diagnostics, and swaps that it abandoned earlier may still take effect.
  predicate Passive(a: Action) {
    a.NoteSync? || a.Land?
  }

  // What can happen while node i waits.
  ghost predicate OthersRan(s: System, s': System, i: nat) {
    exists states, events ::
      && IsPath(states, events) && states[0] == s && Last(states) == s'
      && forall e: Event | e in events :: e.node == i ==> Passive(e.action)
  }

  lemma RanSelf(s: System, i: nat)
    ensures Ran(s, s, i) && OthersRan(s, s, i)
  {
    assert IsPath([s], []) && Last([s]) == s;
  }

  lemma RanComposes(s: System, s': System, s'': System, i: nat)
    requires Ran(s, s', i) && Ran(s', s'', i)
    ensures Ran(s, s'', i)
  {
    var st1, e1 :| IsPath(st1, e1) && st1[0] == s && Last(st1) == s'
                   && forall e: Event | e in e1 :: e.node == i ==> !e.action.Crash?;
    var st2, e2 :| IsPath(st2, e2) && st2[0] == s' && Last(st2) == s''
                   && forall e: Event | e in e2 :: e.node == i ==> !e.action.Crash?;
    PathsCompose(st1, e1, st2, e2);
    assert forall e: Event | e in e1 + e2 :: e.node == i ==> !e.action.Crash?;
  }

  lemma RanStep(s: System, i: nat, a: Action)
    requires Step(s, i, a).Some? && !a.Crash?
    ensures Ran(s, Step(s, i, a).value, i)
  {
    var states, events := [s, Step(s, i, a).value], [Event(i, a)];
    assert Fires(states, events, 0);
    assert IsPath(states, events) && Last(states) == Step(s, i, a).value;
  }

  // The commit of revision r + 1 is one of these requests taking effect.
  ghost predicate Landed(c: Commit, r: nat, flying: seq<Request>) {
    exists q | q in flying :: q.expected == r && CommitOf(q) == c
  }

  // Between s and s' node i committed nothing new and left nothing new in flight: each revision
  // of its own that appeared is a swap it had abandoned before.
  ghost predicate Elapsed(s: System, s': System, i: nat) {
    && s.history <= s'.history
    && (forall r | |s.history| <= r < |s'.history| && s'.history[r].author == i :: Landed(s'.history[r], r, s.flying))
    && SameFlight(s, s', i)
  }

  lemma ElapsedComposes(s: System, t: System, s': System, i: nat)
    requires Elapsed(s, t, i) && Elapsed(t, s', i)
    ensures Elapsed(s, s', i)
  {
    forall r | |s.history| <= r < |s'.history| && s'.history[r].author == i ensures Landed(s'.history[r], r, s.flying) {
      if r < |t.history| {
        assert s'.history[r] == t.history[r];
      } else {
        var q :| q in t.flying && q.expected == r && CommitOf(q) == s'.history[r];
        assert q in s.flying;
      }
    }
  }

  predicate SameFlight(s: System, s': System, i: nat) {
    forall q | q in s'.flying && q.author == i :: q in s.flying
  }

  // Between s and s' node i tried to commit `ours` as the successor of revision `expected`. If
  // that is open, it may have taken effect, or be in flight; otherwise it never will.
  ghost predicate AtMostOurs(s: System, s': System, i: nat, expected: nat, ours: Commit, open: bool) {
    && s.history <= s'.history
    && (forall r | |s.history| <= r < |s'.history| && s'.history[r].author == i ::
          Landed(s'.history[r], r, s.flying) || (open && r == expected && s'.history[r] == ours))
    && (forall q | q in s'.flying && q.author == i :: q in s.flying || (open && q.expected == expected && CommitOf(q) == ours))
  }

  lemma ElapsedIsAtMostOurs(s: System, s': System, i: nat, expected: nat, ours: Commit, open: bool)
    requires Elapsed(s, s', i)
    ensures AtMostOurs(s, s', i, expected, ours, open)
  {
  }

  lemma AtMostOursComposes(s: System, t: System, s': System, i: nat, expected: nat, ours: Commit, open: bool, open': bool)
    requires AtMostOurs(s, t, i, expected, ours, open) && AtMostOurs(t, s', i, expected, ours, open')
    ensures AtMostOurs(s, s', i, expected, ours, open || open')
  {
    forall r | |s.history| <= r < |s'.history| && s'.history[r].author == i
      ensures Landed(s'.history[r], r, s.flying) || ((open || open') && r == expected && s'.history[r] == ours)
    {
      if r < |t.history| {
        assert s'.history[r] == t.history[r];
      } else if Landed(s'.history[r], r, t.flying) {
        var q :| q in t.flying && q.expected == r && CommitOf(q) == s'.history[r];
        assert q.author == i;
      }
    }
  }

  // Whatever the others do, the waiting node keeps all but its sync diagnostics, and every
  // revision that appears meanwhile is somebody else's or was abandoned before.
  lemma {:induction false} OthersPathEffect(states: seq<System>, events: seq<Event>, i: nat)
    requires IsPath(states, events) && Inv(states[0]) && i < |states[0].nodes|
    requires forall e: Event | e in events :: e.node == i ==> Passive(e.action)
    ensures var s, s' := states[0], Last(states);
            && Inv(s') && Elapsed(s, s', i)
            && |s'.nodes| == |s.nodes|
            && s'.nodes[i] == s.nodes[i].(status := s.nodes[i].status.(syncError := s'.nodes[i].status.syncError))
    decreases |events|
  {
    var m := |events|;
    if m > 0 {
      PathWithoutLast(states, events);
      OthersPathEffect(states[..m], events[..m - 1], i);
      assert Last(events) in events;
      OthersStepEffect(states[m - 1], Last(events), i);
      ElapsedComposes(states[0], states[m - 1], states[m], i);
    }
  }

  lemma OthersStepEffect(s: System, e: Event, i: nat)
    requires Inv(s) && Fire(s, e).Some? && i < |s.nodes| && (e.node == i ==> Passive(e.action))
    ensures var s' := Fire(s, e).value;
            && Inv(s') && Elapsed(s, s', i)
            && |s'.nodes| == |s.nodes|
            && s'.nodes[i] == s.nodes[i].(status := s.nodes[i].status.(syncError := s'.nodes[i].status.syncError))
  {
    StepKeepsInv(s, e.node, e.action);
    OnlyCurrentRevisionsCommit(s, e);
    StepElapses(s, e, i);
  }

  lemma StepElapses(s: System, e: Event, i: nat)
    requires Inv(s) && Fire(s, e).Some? && i < |s.nodes| && (e.node == i ==> Passive(e.action))
    ensures Elapsed(s, Fire(s, e).value, i)
  {
    OnlyCurrentRevisionsCommit(s, e);
    if e.action.Land? {
      assert s.flying[e.action.request] in s.flying;
    }
  }

  lemma OthersEffect(s: System, s': System, i: nat)
    requires Inv(s) && OthersRan(s, s', i) && i < |s.nodes|
    ensures Inv(s') && Elapsed(s, s', i)
    ensures |s'.nodes| == |s.nodes|
    ensures s'.nodes[i] == s.nodes[i].(status := s.nodes[i].status.(syncError := s'.nodes[i].status.syncError))
    ensures Ran(s, s', i)
  {
    var states, events :| IsPath(states, events) && states[0] == s && Last(states) == s'
                          && forall e: Event | e in events :: e.node == i ==> Passive(e.action);
    OthersPathEffect(states, events, i);
    assert forall e: Event | e in events :: e.node == i ==> !e.action.Crash?;
  }

  lemma {:induction false} RanEffect(s: System, s': System, i: nat)
    requires Inv(s) && Ran(s, s', i)
    ensures Inv(s') && s.history <= s'.history && |s'.nodes| == |s.nodes|
    ensures i < |s.nodes| ==> s.nodes[i].runtime.generation <= s'.nodes[i].runtime.generation
  {
    var states, events :| IsPath(states, events) && states[0] == s && Last(states) == s'
                          && forall e: Event | e in events :: e.node == i ==> !e.action.Crash?;
    PathKeepsInv(states, events, 0, |events|);
    if i < |s.nodes| {
      assert forall k | 0 <= k < |events| :: events[k] in events;
      Monotone(states, events, i, 0, |events|);
    }
  }

  // What a reconcile can rely on once its row read returns.
  lemma FetchedRowIsCurrent(start: System, s: System, i: nat, n: Node)
    requires Inv(start) && Ran(start, s, i) && i < |s.nodes| && s.nodes[i] == n && n.op.Fetched?
    ensures n.runtime.generation <= n.status.observed <= n.op.row.revision <= |s.history|
    ensures n.cell == n.runtime.config
  {
    RanEffect(start, s, i);
    assert NodeInv(n, i, s.history);
  }

  // What the candidate computed from that row carries.
  lemma CandidateIsCommitted(start: System, s: System, i: nat, n: Node)
    requires Inv(start) && Ran(start, s, i) && i < |s.nodes| && s.nodes[i] == n && n.op.Fetched?
    requires 1 <= n.op.row.revision <= |s.history| && n.op.row.payload.Some?
    ensures var c := Candidate(n.key, n.cell, n.op.row.revision, n.op.row.payload.value);
            c.Ok? ==> SharedOf(c.value) == s.history[n.op.row.revision - 1].shared && c.value.local == n.cell.local
  {
    RanEffect(start, s, i);
    assert NodeInv(n, i, s.history);
    RowOpens(n, n.op.row, s.history);
  }

  lemma SwapThenReply(s: System, t: System, u: System, s': System, i: nat, expected: nat, ours: Commit, taken: bool, open: bool)
    requires Elapsed(s, t, i) && AtMostOurs(u, s', i, expected, ours, open) && u.flying == t.flying
    requires if taken then |t.history| == expected && u.history == t.history + [ours] else u.history == t.history
    ensures AtMostOurs(s, s', i, expected, ours, taken || open)
    ensures Elapsed(u, s', i) ==> SameFlight(s, s', i)
  {
    ElapsedIsAtMostOurs(s, t, i, expected, ours, false);
    AtMostOursComposes(s, t, u, i, expected, ours, false, taken);
    AtMostOursComposes(s, u, s', i, expected, ours, taken, open);
  }

  /** The single-row table, with the protocol state it is part of as a ghost. */
  class Database {
    var row: Row
    ghost var sys: System

    ghost predicate Valid()
      reads this
    {
      Inv(sys) && sys.row == row
    }

    // A freshly migrated table, before any node has committed.
    constructor (ghost nodes: seq<Node>)
      requires Init(System(Row(0, None), nodes, [], []))
      ensures Valid() && row == Row(0, None) && sys.nodes == nodes
    {
      row := Row(0, None);
      sys := System(Row(0, None), nodes, [], []);
      new;
      InitEstablishesInv(sys);
    }

    method RuntimeConfig() returns (r: Option<Row>)
      ensures r.Some? ==> r.value == row
    {
      var reachable: bool := *;
      r := if reachable then Some(row) else None;
    }

    // A storage error says nothing about the row: the update may have taken effect.
    method CommitRuntimeConfig(expected: nat, ciphertext: Ciphertext) returns (r: Result<nat, Error>)
      modifies this`row
      ensures r.Ok? ==> r.value == expected + 1 && CompareAndSwap(old(row), expected, ciphertext) == Some(row)
      ensures r == Err(Overflow) <==> expected >= I64_MAX
      ensures r == Err(Conflict) ==> row == old(row) && old(row).revision != expected
      ensures row == old(row) || CompareAndSwap(old(row), expected, ciphertext) == Some(row)
      ensures r.Err? && row != old(row) ==> r.error == Storage
      ensures r.Err? ==> !r.error.Invalid? && !r.error.Unannounced?
    {
      if expected >= I64_MAX {
        return Err(Overflow);
      }
      var sent: bool, replied: bool := *, *;
      if !sent {
        return Err(Storage);
      }
      var affected := row.revision == expected;
      if affected {
        row := Row(expected + 1, Some(ciphertext));
      }
      if !replied {
        return Err(Storage);
      }
      return if affected then Ok(expected + 1) else Err(Conflict);
    }
  }

  method BuildRuntimeRevision(config: Config, generation: nat) returns (r: Option<Revision>)
    ensures r.Some? ==> r.value == Revision(generation, config)
  {
    var valid: bool := *;
    r := if valid then Some(Revision(generation, config)) else None;
  }

  /** One gateway node. */
  class AppState {
    const id: nat
    const key: string
    const database: Database
    var runtime: Revision
    var config: Config
    var status: Status

    // A start or restart of node `id` on its own configuration file.
    constructor (database: Database, id: nat, key: string, config: Config)
      requires database.Valid() && id < |database.sys.nodes|
      modifies database`sys
      ensures this.database == database && this.id == id && this.key == key
      ensures Ready() && runtime == Revision(0, config) && this.config == config && status == Status(0, None, None)
      ensures Some(database.sys) == Step(old(database.sys), id, Crash(config, key))
    {
      this.database := database;
      this.id := id;
      this.key := key;
      this.runtime := Revision(0, config);
      this.config := config;
      this.status := Status(0, None, None);
      new;
      StepKeepsInv(database.sys, id, Crash(config, key));
      database.sys := Step(database.sys, id, Crash(config, key)).value;
    }

    function View(op: Op): Node
      reads this
    {
      Node(key, runtime, config, status, op)
    }

    // The protocol state agrees with the row and shows this node as n.
    ghost predicate Serves(n: Node)
      reads this, database
    {
      database.sys.row == database.row && id < |database.sys.nodes| && database.sys.nodes[id] == n
    }

    // Valid with the apply lock in the state `op`, reached from `start` by a path of the protocol.
    ghost predicate Valid(start: System, op: Op)
      reads this, database
    {
      Serves(View(op)) && Inv(start) && Ran(start, database.sys, id)
    }

    ghost predicate Ready()
      reads this, database
    {
      database.Valid() && Serves(View(Idle))
    }

    // The ghost counterpart of a step that has brought this node from n to n'.
    ghost method Act(start: System, n: Node, a: Action, n': Node)
      requires Serves(n) && Inv(start) && Ran(start, database.sys, id)
      requires LocalStep(database.row, n, a) == Some(n') && !a.Crash?
      modifies database`sys
      ensures Serves(n') && Ran(start, database.sys, id)
      ensures database.sys.history == old(database.sys.history)
      ensures database.sys.flying == Flying(old(database.sys), id, a)
    {
      var sys := database.sys;
      RanStep(sys, id, a);
      RanComposes(start, sys, Step(sys, id, a).value, id);
      database.sys := Step(sys, id, a).value;
    }

    // The rest of the system runs; the empty body is one of the possibilities.
    method Interleave()
      requires id < |database.sys.nodes| && status == database.sys.nodes[id].status
      requires database.row == database.sys.row
      modifies database, `status
      ensures OthersRan(old(database.sys), database.sys, id)
      ensures database.row == database.sys.row
      ensures id < |database.sys.nodes| ==> status == database.sys.nodes[id].status
    {
      RanSelf(database.sys, id);
    }

    // An await, as the waiting call sees it.
    method Await(ghost start: System, ghost n: Node)
      requires Serves(n) && n.status == status && Inv(start) && Ran(start, database.sys, id)
      modifies database, `status
      ensures status == old(status).(syncError := status.syncError)
      ensures Serves(n.(status := status)) && Ran(start, database.sys, id)
      ensures Elapsed(old(database.sys), database.sys, id)
    {
      ghost var before := database.sys;
      RanEffect(start, before, id);
      Interleave();
      OthersEffect(before, database.sys, id);
      RanComposes(start, before, database.sys, id);
    }

    /** The two stores of a publication; the node still serves the old config cell in between. */
    method PublishRuntime(built: Revision, ghost start: System, ghost local: bool)
      requires Valid(start, Publishing(built, local))
      modifies `runtime, `config, `status, database
      ensures runtime == built && config == built.config
      ensures status == old(status).(syncError := status.syncError)
      ensures Serves(View(HalfPublished).(cell := old(config))) && Ran(start, database.sys, id)
      ensures Elapsed(old(database.sys), database.sys, id)
    {
      ghost var before := View(Publishing(built, local));
      var next := built.config;
      runtime := built;
      Act(start, before, StoreRuntime, View(HalfPublished));
      Await(start, View(HalfPublished));
      config := next;
    }

    // Publication and the clearing of the apply error: the common end of apply and reconcile.
    method Finish(built: Revision, ghost start: System, ghost local: bool)
      requires Valid(start, Publishing(built, local))
      modifies `runtime, `config, `status, database
      ensures Valid(start, Idle) && runtime == built && config == built.config
      ensures status == old(status).(syncError := status.syncError, applyError := None)
      ensures Elapsed(old(database.sys), database.sys, id)
    {
      ghost var cell := config;
      PublishRuntime(built, start, local);
      ghost var before := View(HalfPublished).(cell := cell);
      status := status.(applyError := None);
      Act(start, before, StoreConfig, View(Idle));
    }

    /** Apply a candidate that was computed against generation `expected`, from the moment the
        lock is granted. Acknowledged means: revision expected + 1 did not exist before, is this
        node's, carries the candidate, and is what the node now serves. Refused or abandoned
        means the node serves what it served. Of what this node has abandoned earlier anything
        may still take effect meanwhile; beyond that, at most this one revision was committed or
        can ever be, and none if the database has answered with a conflict. */
    method ApplyRuntimeAt(candidate: Config, expected: nat) returns (r: Outcome<nat>)
      requires Ready() && expected <= U64_MAX
      modifies `runtime, `config, `status, database
      ensures Ready() && Ran(old(database.sys), database.sys, id)
      ensures old(database.sys.history) <= database.sys.history
      ensures old(runtime.generation) != expected ==>
                r == Returned(Err(Conflict)) && status == old(status) && database.sys == old(database.sys)
      ensures old(runtime.generation) == expected == U64_MAX ==>
                r == Returned(Err(Overflow)) && status == old(status) && database.sys == old(database.sys)
      ensures r.Returned? && r.result.Ok? ==>
                && r.result.value == expected + 1 && |old(database.sys.history)| == old(runtime.generation) == expected
                && Acknowledged(expected, candidate) && SameFlight(old(database.sys), database.sys, id)
      ensures r.Dropped? || r.result.Err? ==>
                runtime == old(runtime) && config == old(config) && status.observed == old(status.observed)
      ensures AtMostOurs(old(database.sys), database.sys, id, expected, Commit(id, key, SharedOf(candidate)), IsOpen(r))
      ensures r.Returned? && r.result.Err? ==> !r.result.error.Unannounced?
    {
      ghost var start := database.sys;
      RanSelf(start, id);
      ElapsedIsAtMostOurs(start, start, id, expected, Commit(id, key, SharedOf(candidate)), false);
      if runtime.generation != expected {
        return Returned(Err(Conflict));
      }
      if expected == U64_MAX {
        return Returned(Err(Overflow));
      }
      var generation := expected + 1;
      Act(start, View(Idle), BeginApply(candidate, expected), View(Building(expected, candidate)));
      r := BuildAndCommit(candidate, expected, start);
      RanEffect(start, database.sys, id);
    }

    // This node's acknowledged revision expected + 1.
    ghost predicate Acknowledged(expected: nat, candidate: Config)
      reads this, database
    {
      && runtime == Revision(expected + 1, candidate) && config == candidate
      && status.observed == expected + 1 && status.applyError == None
      && |database.sys.history| >= expected + 1
      && database.sys.history[expected] == Commit(id, key, SharedOf(candidate))
    }

    // The outcome leaves open whether the swap takes effect.
    predicate IsOpen(r: Outcome<nat>) {
      r.Dropped? || r.result.Ok? || r.result.error == Storage
    }

    // The build, under the lock.
    method BuildAndCommit(candidate: Config, expected: nat, ghost start: System) returns (r: Outcome<nat>)
      requires Valid(start, Building(expected, candidate)) && expected < U64_MAX
      modifies `runtime, `config, `status, database
      ensures Valid(start, Idle) && old(database.sys.history) <= database.sys.history
      ensures r.Returned? && r.result.Ok? ==>
                && r.result.value == expected + 1 && |old(database.sys.history)| <= expected
                && Acknowledged(expected, candidate) && SameFlight(old(database.sys), database.sys, id)
      ensures r.Dropped? || r.result.Err? ==>
                runtime == old(runtime) && config == old(config) && status.observed == old(status.observed)
      ensures AtMostOurs(old(database.sys), database.sys, id, expected, Commit(id, key, SharedOf(candidate)), IsOpen(r))
      ensures r.Returned? && r.result.Err? ==> !r.result.error.Unannounced?
    {
      ghost var s0, ours := database.sys, Commit(id, key, SharedOf(candidate));
      Await(start, View(Building(expected, candidate)));
      ghost var s1 := database.sys;
      ElapsedIsAtMostOurs(s0, s1, id, expected, ours, false);
      var abandoned: bool := *;
      if abandoned {
        Act(start, View(Building(expected, candidate)), Drop, View(Idle));
        return Dropped;
      }
      var built := BuildRuntimeRevision(candidate, expected + 1);
      if built.None? {
        ghost var before := View(Building(expected, candidate));
        status := status.(applyError := Some(BUILD_FAILED));
        Act(start, before, BuildFails, View(Idle));
        return Returned(Err(Invalid));
      }
      Act(start, View(Building(expected, candidate)), BuildSucceeds, View(Built(expected, built.value)));
      r := CommitAndPublish(built.value, expected, start);
      AtMostOursComposes(s0, s1, database.sys, id, expected, ours, false, IsOpen(r));
    }

    // From the built revision to the acknowledgement.
    method CommitAndPublish(built: Revision, expected: nat, ghost start: System) returns (r: Outcome<nat>)
      requires Valid(start, Built(expected, built)) && built.generation == expected + 1
      modifies `runtime, `config, `status, database
      ensures Valid(start, Idle) && old(database.sys.history) <= database.sys.history
      ensures r.Returned? && r.result.Ok? ==>
                && r.result.value == expected + 1 && |old(database.sys.history)| <= expected
                && Acknowledged(expected, built.config) && SameFlight(old(database.sys), database.sys, id)
      ensures r.Dropped? || r.result.Err? ==>
                runtime == old(runtime) && config == old(config) && status.observed == old(status.observed)
      ensures AtMostOurs(old(database.sys), database.sys, id, expected, Commit(id, key, SharedOf(built.config)), IsOpen(r))
      ensures r.Returned? && r.result.Err? ==> !r.result.error.Unannounced?
    {
      ghost var s0, ours := database.sys, Commit(id, key, SharedOf(built.config));
      var serializable: bool := *;
      if !serializable {
        Act(start, View(Built(expected, built)), SealFails, View(Idle));
        return Returned(Err(Invalid));
      }
      var ciphertext := Encrypt(key, built.config, built.generation);
      Await(start, View(Built(expected, built)));
      ghost var s1 := database.sys;
      ElapsedIsAtMostOurs(s0, s1, id, expected, ours, false);
      var abandoned: bool := *;
      if abandoned {
        Act(start, View(Built(expected, built)), Drop, View(Idle));
        return Dropped;
      }
      var reply, op := Swap(built, expected, ciphertext, start);
      ghost var s2 := database.sys;
      r := AwaitReply(built, expected, reply, op, start);
      SwapThenReply(s0, s1, s2, database.sys, id, expected, ours, op.Committed?, op.Built? && IsOpen(r));
    }

    // The reply to the commit, which may never be seen.
    method AwaitReply(built: Revision, expected: nat, reply: Result<nat, Error>, ghost op: Op, ghost start: System)
      returns (r: Outcome<nat>)
      requires Valid(start, op) && built.generation == expected + 1
      requires (op == Built(expected, built) && reply.Err?) || op == Committed(built)
      requires op.Committed? ==> database.sys.history != [] && Last(database.sys.history) == Commit(id, key, SharedOf(built.config))
      requires op.Committed? ==> |database.sys.history| == expected + 1 && (reply.Err? ==> reply.error == Storage)
      modifies `runtime, `config, `status, database
      ensures Valid(start, Idle) && (op.Committed? ==> Elapsed(old(database.sys), database.sys, id))
      ensures AtMostOurs(old(database.sys), database.sys, id, expected, Commit(id, key, SharedOf(built.config)),
                         op.Built? && IsOpen(r))
      ensures r.Returned? && r.result.Ok? ==>
                op.Committed? && r.result.value == expected + 1 && Acknowledged(expected, built.config)
      ensures r.Dropped? || r.result.Err? ==>
                && runtime == old(runtime) && config == old(config) && status.observed == old(status.observed)
                && (r.Returned? ==> reply == Err(r.result.error))
    {
      ghost var s0 := database.sys;
      Await(start, View(op));
      ghost var s1, ours := database.sys, Commit(id, key, SharedOf(built.config));
      ElapsedIsAtMostOurs(s0, s1, id, expected, ours, false);
      var abandoned: bool := *;
      if abandoned {
        Act(start, View(op), Drop, View(Idle));
        return Dropped;
      }
      var result := TakeReply(built, expected, reply, op, start);
      r := Returned(result);
      AtMostOursComposes(s0, s1, database.sys, id, expected, ours, false, op.Built? && result == Err(Storage));
      if op.Committed? {
        ElapsedComposes(s0, s1, database.sys, id);
      }
    }

    // What the reply means for the node.
    method TakeReply(built: Revision, expected: nat, reply: Result<nat, Error>, ghost op: Op, ghost start: System)
      returns (r: Result<nat, Error>)
      requires Valid(start, op) && built.generation == expected + 1
      requires (op == Built(expected, built) && reply.Err?) || op == Committed(built)
      requires op.Committed? ==> |database.sys.history| > expected && (reply.Err? ==> reply.error == Storage)
      requires op.Committed? ==> database.sys.history[expected] == Commit(id, key, SharedOf(built.config))
      modifies `runtime, `config, `status, database
      ensures Valid(start, Idle) && (op.Committed? ==> Elapsed(old(database.sys), database.sys, id))
      ensures AtMostOurs(old(database.sys), database.sys, id, expected, Commit(id, key, SharedOf(built.config)),
                         op.Built? && r == Err(Storage))
      ensures r.Ok? ==> op.Committed? && r.value == expected + 1 && Acknowledged(expected, built.config)
      ensures r.Err? ==>
                && runtime == old(runtime) && config == old(config) && status.observed == old(status.observed)
                && reply == Err(r.error)
    {
      ghost var before, s0, ours := View(op), database.sys, Commit(id, key, SharedOf(built.config));
      if reply.Err? {
        status := status.(syncError := Some(COMMIT_FAILED));
        Act(start, before, CommitFails(reply.error == Storage), View(Idle));
        return Err(reply.error);
      }
      status := status.(observed := built.generation);
      Act(start, before, CommitAcked, View(Publishing(built, true)));
      Finish(built, start, true);
      ElapsedIsAtMostOurs(s0, database.sys, id, expected, ours, false);
      return Ok(built.generation);
    }

    // The commit call, with the protocol step it amounts to if it took effect.
    method Swap(built: Revision, expected: nat, ciphertext: Ciphertext, ghost start: System)
      returns (r: Result<nat, Error>, ghost op: Op)
      requires Valid(start, Built(expected, built)) && built.generation == expected + 1
      requires ciphertext == Encrypt(key, built.config, built.generation)
      modifies database
      ensures Valid(start, op)
      ensures op == Built(expected, built) || op == Committed(built)
      ensures r.Err? ==> !r.error.Unannounced?
      ensures op.Built? ==> database.sys.history == old(database.sys.history) && r.Err?
      ensures database.sys.flying == old(database.sys.flying)
      ensures op.Committed? ==>
                && |old(database.sys.history)| == expected
                && database.sys.history == old(database.sys.history) + [Commit(id, key, SharedOf(built.config))]
                && (r.Err? ==> r.error == Storage)
    {
      ghost var sys := database.sys;
      RanEffect(start, sys, id);
      r := database.CommitRuntimeConfig(expected, ciphertext);
      if database.row == sys.row {
        op := Built(expected, built);
      } else {
        op := Committed(built);
        RanStep(sys, id, CasSucceeds);
        RanComposes(start, sys, Step(sys, id, CasSucceeds).value, id);
        database.sys := Step(sys, id, CasSucceeds).value;
      }
    }

    /** Bring the node up to the authoritative row, from the moment the lock is granted. Success
        means the node serves at least every revision committed before the call, exactly the
        revision it observed, with its own local settings; anything else leaves it as it was. */
    method ReconcileRuntimeConfig() returns (r: Outcome<()>)
      requires Ready()
      modifies `runtime, `config, `status, database
      ensures Ready() && Ran(old(database.sys), database.sys, id)
      ensures Elapsed(old(database.sys), database.sys, id)
      ensures r.Returned? && r.result.Ok? ==>
                && |old(database.sys.history)| <= runtime.generation == status.observed
                && config.local == old(config.local)
                && Replaced(old(runtime), old(config))
      ensures r.Dropped? || r.result.Err? ==> runtime == old(runtime) && config == old(config)
      ensures old(status.observed) <= status.observed
    {
      ghost var start := database.sys;
      RanSelf(start, id);
      Await(start, View(Idle));
      ghost var read := database.sys;
      var reply := database.RuntimeConfig();
      if reply.None? {
        ghost var before := View(Idle);
        status := status.(syncError := Some(READ_FAILED));
        Act(start, before, FetchFails, View(Idle));
        RanEffect(start, database.sys, id);
        return Returned(Err(Storage));
      }
      RanEffect(start, database.sys, id);
      var row := reply.value;
      Act(start, View(Idle), FetchRow, View(Fetched(row)));
      r := AwaitRow(row, start);
      RanEffect(start, database.sys, id);
      ElapsedComposes(start, read, database.sys, id);
    }

    // What the node serves is what it served, or the row's payload in place of its shared part.
    ghost predicate Replaced(runtime': Revision, config': Config)
      reads this, database
    {
      && runtime'.generation <= runtime.generation <= |database.sys.history|
      && (runtime.generation == runtime'.generation ==> runtime == runtime' && config == config')
      && (runtime.generation > runtime'.generation ==>
            status.applyError == None && SharedOf(config) == database.sys.history[runtime.generation - 1].shared)
    }

    // The reply to the row read may arrive after the row has moved on.
    method AwaitRow(row: Row, ghost start: System) returns (r: Outcome<()>)
      requires Valid(start, Fetched(row)) && row == database.row
      modifies `runtime, `config, `status, database
      ensures Valid(start, Idle) && Elapsed(old(database.sys), database.sys, id)
      ensures old(status.observed) <= status.observed
      ensures r.Returned? && r.result.Ok? ==>
                && row.revision <= runtime.generation == status.observed
                && config.local == old(config.local)
                && Replaced(old(runtime), old(config))
      ensures r.Dropped? || r.result.Err? ==> runtime == old(runtime) && config == old(config)
    {
      ghost var s0 := database.sys;
      Await(start, View(Fetched(row)));
      ghost var s1 := database.sys;
      var abandoned: bool := *;
      if abandoned {
        Act(start, View(Fetched(row)), Drop, View(Idle));
        return Dropped;
      }
      r := ApplyRow(row, start);
      ElapsedComposes(s0, s1, database.sys, id);
    }

    // Everything after the reply to the row read.
    method ApplyRow(row: Row, ghost start: System) returns (r: Outcome<()>)
      requires Valid(start, Fetched(row))
      modifies `runtime, `config, `status, database
      ensures Valid(start, Idle) && Elapsed(old(database.sys), database.sys, id)
      ensures old(status.observed) <= status.observed == row.revision
      ensures r.Returned? && r.result.Ok? ==>
                && row.revision <= runtime.generation == status.observed
                && config.local == old(config.local)
                && Replaced(old(runtime), old(config))
      ensures r.Dropped? || r.result.Err? ==> runtime == old(runtime) && config == old(config)
    {
      ghost var fetched := View(Fetched(row));
      FetchedRowIsCurrent(start, database.sys, id, fetched);
      status := status.(observed := row.revision);
      if row.revision <= runtime.generation {
        Act(start, fetched, ObserveRow, View(Idle));
        return Returned(Ok(()));
      }
      if row.payload.None? {
        RejectRow(row, PAYLOAD_MISSING, fetched, start);
        return Returned(Err(Storage));
      }
      var candidate := Candidate(key, config, row.revision, row.payload.value);
      if candidate.Err? {
        RejectRow(row, CandidateMessage(candidate.error), fetched, start);
        return Returned(Err(Invalid));
      }
      CandidateIsCommitted(start, database.sys, id, fetched);
      Act(start, fetched, ObserveRow, View(Rebuilding(row.revision, candidate.value)));
      r := Rebuild(row.revision, candidate.value, start);
    }

    // A row that cannot be used is only reported.
    method RejectRow(row: Row, message: string, ghost fetched: Node, ghost start: System)
      requires Serves(fetched) && Inv(start) && Ran(start, database.sys, id) && fetched.op == Fetched(row)
      requires fetched == View(Fetched(row)).(status := fetched.status) && status == fetched.status.(observed := row.revision)
      requires Observe(fetched, row) == Fail(fetched.(status := status), message)
      modifies `status, database`sys
      ensures Valid(start, Idle) && status == old(status).(applyError := Some(message))
      ensures database.sys.history == old(database.sys.history) && database.sys.flying == old(database.sys.flying)
    {
      status := status.(applyError := Some(message));
      Act(start, fetched, ObserveRow, View(Idle));
    }

    method Rebuild(revision: nat, candidate: Config, ghost start: System) returns (r: Outcome<()>)
      requires Valid(start, Rebuilding(revision, candidate))
      modifies `runtime, `config, `status, database
      ensures Valid(start, Idle) && Elapsed(old(database.sys), database.sys, id)
      ensures status.observed == old(status.observed)
      ensures r.Returned? && r.result.Ok? ==>
                runtime == Revision(revision, candidate) && config == candidate && status.applyError == None
      ensures r.Dropped? || r.result.Err? ==> runtime == old(runtime) && config == old(config)
    {
      ghost var s0 := database.sys;
      Await(start, View(Rebuilding(revision, candidate)));
      ghost var s1 := database.sys;
      var abandoned: bool := *;
      if abandoned {
        Act(start, View(Rebuilding(revision, candidate)), Drop, View(Idle));
        return Dropped;
      }
      var built := BuildRuntimeRevision(candidate, revision);
      if built.None? {
        ghost var before := View(Rebuilding(revision, candidate));
        status := status.(applyError := Some(REBUILD_FAILED));
        Act(start, before, RebuildFails, View(Idle));
        return Returned(Err(Invalid));
      }
      Act(start, View(Rebuilding(revision, candidate)), RebuildSucceeds, View(Publishing(built.value, false)));
      Finish(built.value, start, false);
      ElapsedComposes(s0, s1, database.sys, id);
      return Returned(Ok(()));
    }

    // Any other task of this node may hold the lock for a while; the empty body is one possibility.
    method WaitForLock()
      requires Ready()
      modifies `runtime, `config, `status, database
      ensures Ready() && Ran(old(database.sys), database.sys, id)
    {
      RanSelf(database.sys, id);
    }

    // Announce a revision on the channel, outside the lock.
    method NotifyRuntimeRevision(generation: nat) returns (r: Result<(), Error>)
      requires Ready()
      modifies `runtime, `config, `status, database
      ensures Ready() && Ran(old(database.sys), database.sys, id)
      ensures r.Ok? <==> status.syncError == None
      ensures r.Err? ==> r.error == Unannounced
    {
      WaitForLock();
      ghost var start, before := database.sys, View(Idle);
      RanSelf(start, id);
      var published: bool := *;
      status := status.(syncError := if published then None else Some(NOTIFY_FAILED));
      Act(start, before, NoteSync(status.syncError), View(Idle));
      RanEffect(start, database.sys, id);
      RanComposes(old(database.sys), start, database.sys, id);
      r := if published then Ok(()) else Err(Unannounced);
    }

    /** Apply against the generation pinned on entry. With or without the announcement, an
        applied revision is the one after the pinned generation, is this node's commit of the
        candidate, and the node serves it or a later one. */
    method ApplyRuntime(candidate: Config) returns (r: Outcome<nat>)
      requires Ready() && runtime.generation <= U64_MAX
      modifies `runtime, `config, `status, database
      ensures Ready() && Ran(old(database.sys), database.sys, id)
      ensures r.Returned? && (r.result.Ok? || r.result.error == Unannounced) ==>
                var g := old(runtime.generation) + 1;
                && (r.result.Ok? ==> r.result.value == g)
                && g <= runtime.generation <= |database.sys.history|
                && database.sys.history[g - 1] == Commit(id, key, SharedOf(candidate))
    {
      var expected := runtime.generation;
      ghost var start := database.sys;
      WaitForLock();
      ghost var granted := database.sys;
      var abandoned: bool := *;
      if abandoned {
        return Dropped;
      }
      r := ApplyRuntimeAt(candidate, expected);
      ghost var applied := database.sys;
      RanComposes(start, granted, applied, id);
      if r.Returned? && r.result.Ok? {
        var notified := NotifyRuntimeRevision(r.result.value);
        RanEffect(applied, database.sys, id);
        RanComposes(start, applied, database.sys, id);
        assert NodeInv(View(Idle), id, database.sys.history);
        if notified.Err? {
          r := Returned(Err(notified.error));
        }
      }
    }

    /** A revision message: stale or repeated ones leave the whole system untouched. A newer one
        waits for the lock, and behind a success the node serves every revision committed before
        the call; while it waits other tasks may publish, but never an older revision. */
    method ObserveRevision(message: Option<nat>) returns (r: Outcome<()>)
      requires Ready()
      modifies `runtime, `config, `status, database
      ensures Ready() && Ran(old(database.sys), database.sys, id)
      ensures message.None? ==> r == Returned(Err(Storage))
      ensures message.None? || message.value <= old(runtime.generation) ==>
                runtime == old(runtime) && config == old(config) && status == old(status) && database.sys == old(database.sys)
      ensures r == Returned(Ok(())) && message.value > old(runtime.generation) ==>
                |old(database.sys.history)| <= runtime.generation
      ensures old(runtime.generation) <= runtime.generation
    {
      ghost var start := database.sys;
      RanSelf(start, id);
      if message.None? {
        return Returned(Err(Storage));
      }
      if message.value <= runtime.generation {
        return Returned(Ok(()));
      }
      WaitForLock();
      ghost var granted := database.sys;
      RanEffect(start, granted, id);
      var abandoned: bool := *;
      if abandoned {
        return Dropped;
      }
      r := ReconcileRuntimeConfig();
      RanComposes(start, granted, database.sys, id);
      RanEffect(granted, database.sys, id);
    }
  }
}
