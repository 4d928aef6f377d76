/** Convergence of the configuration-revision protocol while the row stands still. Revision
    messages appear only as the action Hear(r), for any r at any time: losing, repeating,
    reordering or inventing messages are all runs of the machine. */
module ConfigConvergence {
  import opened Wrappers
  import opened ConfigData
  import opened ConfigProtocol
  import opened ConfigSafety

  // How many revisions the nodes are behind, in total.
  function LagOf(nodes: seq<Node>, revision: nat): int {
    if nodes == [] then 0
    else revision - nodes[0].runtime.generation + LagOf(nodes[1..], revision)
  }

  function Lag(s: System): int {
    LagOf(s.nodes, s.row.revision)
  }

  lemma {:induction false} LagOfUpdate(nodes: seq<Node>, i: nat, n: Node, revision: nat)
    requires i < |nodes|
    ensures LagOf(nodes[i := n], revision)
            == LagOf(nodes, revision) + nodes[i].runtime.generation - n.runtime.generation
  {
    if i == 0 {
      assert nodes[i := n][1..] == nodes[1..];
    } else {
      LagOfUpdate(nodes[1..], i - 1, n, revision);
      assert nodes[i := n][1..] == nodes[1..][i - 1 := n];
    }
  }

  lemma {:induction false} LagOfSign(nodes: seq<Node>, revision: nat)
    requires forall i | 0 <= i < |nodes| :: nodes[i].runtime.generation <= revision
    ensures LagOf(nodes, revision) >= 0
    ensures LagOf(nodes, revision) == 0 <==> forall i | 0 <= i < |nodes| :: nodes[i].runtime.generation == revision
  {
    if nodes != [] {
      LagOfSign(nodes[1..], revision);
      assert forall i | 0 < i < |nodes| :: nodes[i] == nodes[1..][i - 1];
    }
  }

  /** Zero lag is convergence: every node serves the row's revision, with one shared payload. */
  lemma ZeroLagIsAgreement(s: System)
    requires Inv(s)
    ensures Lag(s) >= 0
    ensures Lag(s) == 0 <==> forall i | 0 <= i < |s.nodes| :: s.nodes[i].runtime.generation == s.row.revision
    ensures Lag(s) == 0 && s.row.revision >= 1 ==>
              forall i | 0 <= i < |s.nodes| :: SharedOf(s.nodes[i].runtime.config) == Last(s.history).shared
  {
    forall i | 0 <= i < |s.nodes| ensures s.nodes[i].runtime.generation <= s.row.revision {
      assert NodeInv(s.nodes[i], i, s.history);
    }
    LagOfSign(s.nodes, s.row.revision);
    if Lag(s) == 0 && s.row.revision >= 1 {
      forall i | 0 <= i < |s.nodes| ensures SharedOf(s.nodes[i].runtime.config) == Last(s.history).shared {
        assert NodeInv(s.nodes[i], i, s.history);
      }
    }
  }

  predicate Disturbs(a: Action) {
    Commits(a) || a.Crash?
  }

  /** While nobody commits or crashes, the lag never grows, and it shrinks exactly when a
      runtime is published; every other step leaves it alone. */
  lemma PublicationsReduceLag(s: System, i: nat, a: Action)
    requires Inv(s) && Step(s, i, a).Some? && !Disturbs(a)
    ensures var s' := Step(s, i, a).value;
            && s'.row == s.row
            && (a.StoreRuntime? ==> Lag(s') < Lag(s))
            && (!a.StoreRuntime? ==> Lag(s') == Lag(s))
  {
    assert NodeInv(s.nodes[i], i, s.history);
    LagOfUpdate(s.nodes, i, LocalStep(s.row, s.nodes[i], a).value, s.row.revision);
  }

  function Publications(events: seq<Event>): nat {
    if events == [] then 0
    else Publications(events[..|events| - 1]) + if Last(events).action.StoreRuntime? then 1 else 0
  }

  /** Over any stretch without commits and crashes, however the nodes interleave and whatever
      messages arrive, at most Lag publications happen, and the row stays put. */
  lemma {:induction false} BoundedCatchUp(states: seq<System>, events: seq<Event>)
    requires IsPath(states, events) && Inv(states[0])
    requires forall e: Event | e in events :: !Disturbs(e.action)
    ensures Last(states).row == states[0].row
    ensures 0 <= Lag(Last(states)) && Publications(events) + Lag(Last(states)) <= Lag(states[0])
    decreases |events|
  {
    var m := |events|;
    PathKeepsInv(states, events, 0, m);
    ZeroLagIsAgreement(states[m]);
    if m > 0 {
      PathWithoutLast(states, events);
      BoundedCatchUp(states[..m], events[..m - 1]);
      PathKeepsInv(states, events, 0, m - 1);
      assert Last(events) in events;
      PublicationsReduceLag(states[m - 1], Last(events).node, Last(events).action);
    }
  }

  // ---- reachability by allowed steps ----

  ghost predicate ReachesBy(s: System, s': System, allowed: Action -> bool) {
    exists states, events ::
      IsPath(states, events) && states[0] == s && Last(states) == s'
      && forall e: Event | e in events :: allowed(e.action)
  }

  lemma ReachesSelf(s: System, allowed: Action -> bool)
    ensures ReachesBy(s, s, allowed)
  {
    assert IsPath([s], []);
    assert Last([s]) == s;
  }

  lemma ReachesComposes(s: System, s': System, s'': System, allowed: Action -> bool)
    requires ReachesBy(s, s', allowed) && ReachesBy(s', s'', allowed)
    ensures ReachesBy(s, s'', allowed)
  {
    var st1, e1 :| IsPath(st1, e1) && st1[0] == s && Last(st1) == s' && forall e: Event | e in e1 :: allowed(e.action);
    var st2, e2 :| IsPath(st2, e2) && st2[0] == s' && Last(st2) == s'' && forall e: Event | e in e2 :: allowed(e.action);
    PathsCompose(st1, e1, st2, e2);
    assert forall e: Event | e in e1 + e2 :: allowed(e.action);
  }

  lemma ReachesStep(s: System, i: nat, a: Action, allowed: Action -> bool)
    requires Step(s, i, a).Some? && allowed(a)
    ensures ReachesBy(s, Step(s, i, a).value, allowed)
  {
    var states, events := [s, Step(s, i, a).value], [Event(i, a)];
    assert Fires(states, events, 0);
    assert IsPath(states, events) && Last(states) == Step(s, i, a).value;
  }

  lemma ReachesKeepsInv(s: System, s': System, allowed: Action -> bool)
    requires Inv(s) && ReachesBy(s, s', allowed)
    ensures Inv(s')
  {
    var states, events :| IsPath(states, events) && states[0] == s && Last(states) == s';
    PathKeepsInv(states, events, 0, |events|);
  }

  // ---- messages ----

  // A stale or repeated message changes nothing; a newer one starts a reconcile when the lock
  // is free, whatever number it carries, and otherwise waits for the lock.
  lemma MessagesOnlyWake(s: System, i: nat, revision: nat)
    requires i < |s.nodes|
    ensures revision <= s.nodes[i].runtime.generation ==> Step(s, i, Hear(revision)) == Some(s)
    ensures revision > s.nodes[i].runtime.generation ==> Step(s, i, Hear(revision)) == Step(s, i, FetchRow)
  {
    assert s.nodes[i := s.nodes[i]] == s.nodes;
  }

  const SILENT := (a: Action) => !a.Hear?

  /** Messages carry no information. Whatever a run reaches with messages -- in any number, order
      and repetition, with true or false revisions -- is reached without a single one. */
  lemma {:induction false} MessagesCarryNoInformation(states: seq<System>, events: seq<Event>)
    requires IsPath(states, events)
    ensures ReachesBy(states[0], Last(states), SILENT)
    decreases |events|
  {
    if events == [] {
      ReachesSelf(states[0], SILENT);
    } else {
      var m := |events|;
      PathWithoutLast(states, events);
      MessagesCarryNoInformation(states[..m], events[..m - 1]);
      SilentStep(states[m - 1], Last(events));
      ReachesComposes(states[0], states[m - 1], Last(states), SILENT);
    }
  }

  lemma SilentStep(s: System, e: Event)
    requires Fire(s, e).Some?
    ensures ReachesBy(s, Fire(s, e).value, SILENT)
  {
    if e.action.Hear? {
      MessagesOnlyWake(s, e.node, e.action.revision);
      ReachesSelf(s, SILENT);
      if Fire(s, e) != Some(s) {
        ReachesStep(s, e.node, FetchRow, SILENT);
      }
    } else {
      ReachesStep(s, e.node, e.action, SILENT);
    }
  }

  // ---- catching up ----

  const QUIET := (a: Action) => !Disturbs(a)

  // By steps that neither commit nor crash.
  ghost predicate CanReach(s: System, s': System) {
    ReachesBy(s, s', QUIET)
  }

  function CaughtUp(n: Node, row: Row): Node
    requires row.revision > n.runtime.generation ==>
               row.payload.Some? && Candidate(n.key, n.cell, row.revision, row.payload.value).Ok?
  {
    if row.revision <= n.runtime.generation then n
    else
      var config := Candidate(n.key, n.cell, row.revision, row.payload.value).value;
      Node(n.key, Revision(row.revision, config), config,
           n.status.(observed := row.revision, applyError := None), Idle)
  }

  // The lagging node after k steps of its reconcile.
  function Progress(n: Node, row: Row, k: nat): Node
    requires row.revision > n.runtime.generation && row.payload.Some?
    requires Candidate(n.key, n.cell, row.revision, row.payload.value).Ok?
  {
    var done, seen := CaughtUp(n, row), n.status.(observed := row.revision);
    match k
    case 0 => n
    case 1 => n.(op := Fetched(row))
    case 2 => n.(op := Rebuilding(row.revision, done.cell), status := seen)
    case 3 => n.(op := Publishing(done.runtime, false), status := seen)
    case 4 => n.(op := HalfPublished, runtime := done.runtime, status := seen)
    case _ => done
  }

  const RECONCILE := [FetchRow, ObserveRow, RebuildSucceeds, StoreRuntime, StoreConfig]

  lemma ReconcileProgresses(n: Node, row: Row, k: nat)
    requires row.revision > n.runtime.generation && row.payload.Some? && n.op == Idle && k < 5
    requires Candidate(n.key, n.cell, row.revision, row.payload.value).Ok?
    ensures LocalStep(row, Progress(n, row, k), RECONCILE[k]) == Some(Progress(n, row, k + 1))
  {
  }

  /** One reconcile suffices. A lagging node with a free lock and the committing key can, by its
      own steps alone, end up serving the row's revision, everything else in the system as before. */
  lemma OneReconcileCatchesUp(s: System, i: nat)
    requires Inv(s) && i < |s.nodes| && s.nodes[i].op == Idle
    requires s.row.revision > s.nodes[i].runtime.generation
    requires s.nodes[i].key == Last(s.history).key
    ensures s.row.payload.Some? && Candidate(s.nodes[i].key, s.nodes[i].cell, s.row.revision, s.row.payload.value).Ok?
    ensures CanReach(s, s.(nodes := s.nodes[i := CaughtUp(s.nodes[i], s.row)]))
  {
    var n := s.nodes[i];
    RowOpens(n, s.row, s.history);
    ReachesSelf(s, QUIET);
    assert s.nodes[i := n] == s.nodes;
    for k := 0 to 5
      invariant CanReach(s, s.(nodes := s.nodes[i := Progress(n, s.row, k)]))
    {
      var t := s.(nodes := s.nodes[i := Progress(n, s.row, k)]);
      var t' := s.(nodes := s.nodes[i := Progress(n, s.row, k + 1)]);
      ReconcileProgresses(n, s.row, k);
      assert t.nodes[i := Progress(n, s.row, k + 1)] == t'.nodes;
      ReachesStep(t, i, RECONCILE[k], QUIET);
      ReachesComposes(s, t, t', QUIET);
    }
  }

  // The node can still come to serve the row: it does, it is about to, or it holds the key of the
  // last commit.
  ghost predicate CanCatchUp(n: Node, s: System)
    requires s.history != [] || n.runtime.generation == s.row.revision
  {
    || n.runtime.generation == s.row.revision
    || n.key == Last(s.history).key
    || (n.op.Rebuilding? && n.op.revision == s.row.revision)
    || ((n.op.Committed? || n.op.Publishing?) && n.op.built.generation == s.row.revision)
  }

  // Every node of a consistent system without commits serves the empty row.
  lemma NothingToCatchUp(s: System, i: nat)
    requires Inv(s) && i < |s.nodes|
    ensures s.history != [] || s.nodes[i].runtime.generation == s.row.revision
  {
    assert NodeInv(s.nodes[i], i, s.history);
  }

  ghost predicate AllCanCatchUp(s: System)
    requires Inv(s)
  {
    forall i | 0 <= i < |s.nodes| :: MayCatchUp(s, i)
  }

  ghost predicate MayCatchUp(s: System, i: nat)
    requires Inv(s) && i < |s.nodes|
  {
    NothingToCatchUp(s, i);
    CanCatchUp(s.nodes[i], s)
  }

  // The rest of the system is as before, short of swaps left in flight.
  predicate OnlyMoved(s: System, s': System, i: nat) {
    && i < |s.nodes| == |s'.nodes| && s'.row == s.row && s'.history == s.history
    && s'.nodes == s.nodes[i := s'.nodes[i]] && s'.nodes[i].key == s.nodes[i].key
  }

  lemma QuietStep(s: System, i: nat, a: Action) returns (s': System)
    requires Inv(s) && i < |s.nodes| && LocalStep(s.row, s.nodes[i], a).Some? && !Disturbs(a)
    ensures Step(s, i, a) == Some(s') && Inv(s') && CanReach(s, s') && OnlyMoved(s, s', i)
    ensures s'.nodes[i] == LocalStep(s.row, s.nodes[i], a).value
  {
    s' := Step(s, i, a).value;
    StepKeepsInv(s, i, a);
    ReachesStep(s, i, a, QUIET);
  }

  lemma Moves(s: System, s': System, s'': System, i: nat)
    requires OnlyMoved(s, s', i) && OnlyMoved(s', s'', i) && CanReach(s, s') && CanReach(s', s'')
    ensures OnlyMoved(s, s'', i) && CanReach(s, s'')
  {
    ReachesComposes(s, s', s'', QUIET);
  }

  // A publication under way is completed.
  lemma Publish(s: System, i: nat) returns (s': System)
    requires Inv(s) && i < |s.nodes| && s.nodes[i].op.Publishing?
    ensures Inv(s') && CanReach(s, s') && OnlyMoved(s, s', i)
    ensures s'.nodes[i].op == Idle && s'.nodes[i].runtime == s.nodes[i].op.built
  {
    var t := QuietStep(s, i, StoreRuntime);
    s' := QuietStep(t, i, StoreConfig);
    Moves(s, t, s', i);
  }

  // A revision that has been committed or opened is published.
  lemma PublishLast(s: System, i: nat) returns (s': System)
    requires Inv(s) && i < |s.nodes| && (s.nodes[i].op.Committed? || s.nodes[i].op.Rebuilding?)
    ensures Inv(s') && CanReach(s, s') && OnlyMoved(s, s', i) && s'.nodes[i].op == Idle
    ensures s'.nodes[i].runtime.generation
            == if s.nodes[i].op.Committed? then s.nodes[i].op.built.generation else s.nodes[i].op.revision
  {
    var t := QuietStep(s, i, if s.nodes[i].op.Committed? then CommitAcked else RebuildSucceeds);
    s' := Publish(t, i);
    Moves(s, t, s', i);
  }

  /** Any pending operation can be finished or abandoned without losing the chance to catch up. */
  lemma ReleaseLock(s: System, i: nat) returns (s': System)
    requires Inv(s) && i < |s.nodes| && MayCatchUp(s, i)
    ensures Inv(s') && CanReach(s, s') && OnlyMoved(s, s', i)
    ensures s'.nodes[i].op == Idle && MayCatchUp(s', i)
  {
    var op := s.nodes[i].op;
    assert NodeInv(s.nodes[i], i, s.history);
    if op == Idle {
      ReachesSelf(s, QUIET);
      assert s.nodes[i := s.nodes[i]] == s.nodes;
      s' := s;
    } else if op.HalfPublished? {
      s' := QuietStep(s, i, StoreConfig);
    } else if op.Publishing? {
      s' := Publish(s, i);
    } else if (op.Committed? && op.built.generation == s.row.revision) || (op.Rebuilding? && op.revision == s.row.revision) {
      s' := PublishLast(s, i);
    } else {
      s' := QuietStep(s, i, Drop);
    }
  }

  lemma CatchUp(s: System, i: nat) returns (s': System)
    requires Inv(s) && i < |s.nodes| && MayCatchUp(s, i)
    ensures Inv(s') && CanReach(s, s') && OnlyMoved(s, s', i)
    ensures s'.nodes[i].runtime.generation == s.row.revision
  {
    s' := ReleaseLock(s, i);
    var t := s';
    assert NodeInv(t.nodes[i], i, t.history);
    if t.nodes[i].runtime.generation < t.row.revision {
      OneReconcileCatchesUp(t, i);
      s' := t.(nodes := t.nodes[i := CaughtUp(t.nodes[i], t.row)]);
      ReachesKeepsInv(t, s', QUIET);
      Moves(s, t, s', i);
    }
  }

  lemma {:induction false} CatchUpFrom(s: System, k: nat) returns (s': System)
    requires Inv(s) && k <= |s.nodes| && AllCanCatchUp(s)
    requires forall i | 0 <= i < k :: s.nodes[i].runtime.generation == s.row.revision
    ensures Inv(s') && CanReach(s, s') && s'.row == s.row && Lag(s') == 0
    decreases |s.nodes| - k
  {
    if k == |s.nodes| {
      ReachesSelf(s, QUIET);
      ZeroLagIsAgreement(s);
      s' := s;
    } else {
      assert MayCatchUp(s, k);
      var t := CatchUp(s, k);
      forall i | 0 <= i < |t.nodes| ensures MayCatchUp(t, i) {
        assert i != k ==> t.nodes[i] == s.nodes[i] && MayCatchUp(s, i);
      }
      s' := CatchUpFrom(t, k + 1);
      ReachesComposes(s, t, s', QUIET);
    }
  }

  // ---- who cannot catch up ----

  lemma StuckNodeStays(row: Row, n: Node, i: nat, a: Action, s: System)
    requires Inv(s) && row == s.row && s.history != [] && NodeInv(n, i, s.history) && !CanCatchUp(n, s)
    requires LocalStep(row, n, a).Some? && !Disturbs(a)
    ensures !CanCatchUp(LocalStep(row, n, a).value, s)
  {
    if a.ObserveRow? && n.op.row.revision >= 1 {
      RowOpens(n, n.op.row, s.history);
    }
  }

  lemma StuckStays(s: System, e: Event, j: nat)
    requires Inv(s) && Fire(s, e).Some? && !Disturbs(e.action) && j < |s.nodes| && !MayCatchUp(s, j)
    ensures var s' := Fire(s, e).value;
            Inv(s') && j < |s'.nodes| && s'.row == s.row && !MayCatchUp(s', j)
  {
    StepKeepsInv(s, e.node, e.action);
    NothingToCatchUp(s, j);
    assert NodeInv(s.nodes[e.node], e.node, s.history);
    if e.node == j {
      StuckNodeStays(s.row, s.nodes[j], j, e.action, s);
    }
  }

  lemma {:induction false} StuckAlongPath(states: seq<System>, events: seq<Event>, j: nat)
    requires IsPath(states, events) && forall e: Event | e in events :: QUIET(e.action)
    requires Inv(states[0]) && j < |states[0].nodes| && !MayCatchUp(states[0], j)
    ensures var s' := Last(states);
            Inv(s') && j < |s'.nodes| && !MayCatchUp(s', j)
    decreases |events|
  {
    if events != [] {
      var m := |events|;
      PathWithoutLast(states, events);
      assert forall e | e in events[..m - 1] :: e in events;
      StuckAlongPath(states[..m], events[..m - 1], j);
      assert Last(events) in events;
      StuckStays(states[m - 1], Last(events), j);
    }
  }

  /** From any state of any run, whatever operations are pending: without further commits and
      crashes, all nodes can come to serve the row if and only if each one that lags holds the
      key of the last commit, or has already opened or committed that revision. No message is
      needed. */
  lemma ConvergenceIsReachableIff(s: System)
    requires Inv(s)
    ensures (exists s' :: CanReach(s, s') && Lag(s') == 0) <==> AllCanCatchUp(s)
  {
    if AllCanCatchUp(s) {
      var s' := CatchUpFrom(s, 0);
    }
    forall s', j | CanReach(s, s') && Lag(s') == 0 && 0 <= j < |s.nodes| ensures MayCatchUp(s, j) {
      StuckNeverConverges(s, s', j);
    }
  }

  lemma StuckNeverConverges(s: System, s': System, j: nat)
    requires Inv(s) && CanReach(s, s') && j < |s.nodes|
    ensures !MayCatchUp(s, j) ==> Lag(s') != 0
  {
    if !MayCatchUp(s, j) {
      var states, events :| IsPath(states, events) && states[0] == s && Last(states) == s'
                            && forall e: Event | e in events :: QUIET(e.action);
      StuckAlongPath(states, events, j);
      ZeroLagIsAgreement(s');
      NothingToCatchUp(s', j);
    }
  }
}
