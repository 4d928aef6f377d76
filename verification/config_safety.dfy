/** What every interleaving of the configuration-revision protocol keeps. */
module ConfigSafety {
  import opened Wrappers
  import opened ConfigData
  import opened ConfigProtocol

  // The ciphertext that revision r of the history put into the row.
  function PayloadOf(h: seq<Commit>, r: nat): Ciphertext
    requires 1 <= r <= |h|
  {
    var c := h[r - 1];
    Sealed(c.key, Snapshot(StoredRuntime(r, c.shared.providers, c.shared.router, c.shared.modelAliases,
                                         c.shared.guardrails, c.shared.cache)))
  }

  ghost predicate RowMatches(row: Row, h: seq<Commit>) {
    && row.revision <= |h|
    && row.payload == if row.revision == 0 then None else Some(PayloadOf(h, row.revision))
  }

  // A runtime of generation r >= 1 carries the payload committed as revision r.
  ghost predicate Carries(runtime: Revision, h: seq<Commit>) {
    && runtime.generation <= |h|
    && (runtime.generation >= 1 ==> SharedOf(runtime.config) == h[runtime.generation - 1].shared)
  }

  ghost predicate OpInv(n: Node, i: nat, h: seq<Commit>) {
    var gen := n.runtime.generation;
    match n.op
    case Idle => true
    case Building(expected, _) => expected == gen < U64_MAX
    case Built(expected, built) => expected == gen && built.generation == gen + 1
    case Committed(built) =>
      built.generation == gen + 1 && n.status.observed <= gen + 1 && Carries(built, h) && h[gen].author == i
    case Fetched(row) => RowMatches(row, h) && n.status.observed <= row.revision
    case Rebuilding(revision, candidate) =>
      && gen < revision == n.status.observed && Carries(Revision(revision, candidate), h)
      && candidate.local == n.runtime.config.local
    case Publishing(built, local) =>
      && gen < built.generation == n.status.observed && Carries(built, h)
      && (local ==> built.generation == gen + 1 && h[gen].author == i)
      && (!local ==> built.config.local == n.runtime.config.local)
    case HalfPublished => n.status.observed == gen
  }

  ghost predicate NodeInv(n: Node, i: nat, h: seq<Commit>) {
    && n.runtime.generation <= n.status.observed <= |h|
    && Carries(n.runtime, h)
    && (n.op != HalfPublished ==> n.cell == n.runtime.config)
    && OpInv(n, i, h)
  }

  ghost predicate RequestInv(q: Request, h: seq<Commit>) {
    q.built.generation == q.expected + 1 && q.expected <= |h|
  }

  ghost predicate Inv(s: System) {
    && s.row.revision == |s.history| <= I64_MAX
    && (forall k | 0 <= k < |s.flying| :: RequestInv(s.flying[k], s.history))
    && RowMatches(s.row, s.history)
    && forall i | 0 <= i < |s.nodes| :: NodeInv(s.nodes[i], i, s.history)
  }

  lemma InitEstablishesInv(s: System)
    requires Init(s)
    ensures Inv(s)
  {
    forall i | 0 <= i < |s.nodes| ensures NodeInv(s.nodes[i], i, s.history) {
      assert s.nodes[i] == Fresh(s.nodes[i].cell, s.nodes[i].key);
    }
  }

  // A node's invariant survives commits by anybody.
  lemma NodeInvStable(n: Node, i: nat, h: seq<Commit>, h': seq<Commit>)
    requires NodeInv(n, i, h) && h <= h'
    ensures NodeInv(n, i, h')
  {
    if n.op.Fetched? && n.op.row.revision > 0 {
      assert h[n.op.row.revision - 1] == h'[n.op.row.revision - 1];
    }
  }

  // In a consistent state the stored payload opens for exactly the holders of its key.
  lemma RowOpens(n: Node, row: Row, h: seq<Commit>)
    requires RowMatches(row, h) && row.revision >= 1
    ensures row.payload.Some?
    ensures var r := Candidate(n.key, n.cell, row.revision, row.payload.value);
            && (r.Ok? <==> n.key == h[row.revision - 1].key)
            && (r.Ok? ==> Carries(Revision(row.revision, r.value), h) && r.value.local == n.cell.local)
            && (r.Err? ==> r.error == DecryptionFailed)
  {
  }

  predicate IsReconcileStep(a: Action) {
    a.FetchRow? || a.FetchFails? || a.Hear? || a.ObserveRow? || a.RebuildFails? || a.RebuildSucceeds?
  }

  lemma ReconcileStepKeepsInv(row: Row, n: Node, i: nat, a: Action, h: seq<Commit>)
    requires NodeInv(n, i, h) && RowMatches(row, h) && row.revision == |h|
    requires LocalStep(row, n, a).Some? && IsReconcileStep(a)
    ensures NodeInv(LocalStep(row, n, a).value, i, h)
  {
    if a.ObserveRow? && n.op.row.revision >= 1 {
      RowOpens(n, n.op.row, h);
    }
  }

  lemma LocalStepKeepsInv(row: Row, n: Node, i: nat, a: Action, h: seq<Commit>)
    requires NodeInv(n, i, h) && RowMatches(row, h) && row.revision == |h|
    requires LocalStep(row, n, a).Some?
    ensures NodeInv(LocalStep(row, n, a).value, i, h)
  {
    if IsReconcileStep(a) {
      ReconcileStepKeepsInv(row, n, i, a, h);
    }
  }

  lemma RequestsStayValid(s: System, i: nat, a: Action)
    requires Inv(s) && Step(s, i, a).Some?
    ensures var s' := Step(s, i, a).value;
            s.history <= s'.history && forall k | 0 <= k < |s'.flying| :: RequestInv(s'.flying[k], s'.history)
  {
    assert NodeInv(s.nodes[i], i, s.history);
  }

  /** Every step of every node keeps the invariant, and only ever appends to the history. */
  lemma StepKeepsInv(s: System, i: nat, a: Action)
    requires Inv(s) && Step(s, i, a).Some?
    ensures var s' := Step(s, i, a).value;
            Inv(s') && s.history <= s'.history && |s'.nodes| == |s.nodes|
  {
    var s' := Step(s, i, a).value;
    assert NodeInv(s.nodes[i], i, s.history);
    if !Commits(a) {
      LocalStepKeepsInv(s.row, s.nodes[i], i, a, s.history);
    }
    RequestsStayValid(s, i, a);
    forall j | 0 <= j < |s'.nodes| && (Commits(a) || j != i) ensures NodeInv(s'.nodes[j], j, s'.history) {
      NodeInvStable(s.nodes[j], j, s.history, s'.history);
    }
  }

  lemma {:induction false} PathKeepsInv(states: seq<System>, events: seq<Event>, j: nat, k: nat)
    requires IsPath(states, events) && Inv(states[0]) && j <= k < |states|
    ensures Inv(states[j]) && Inv(states[k])
    ensures states[j].history <= states[k].history && |states[j].nodes| == |states[k].nodes|
    decreases k
  {
    if j < k {
      PathKeepsInv(states, events, j, k - 1);
      assert Fires(states, events, k - 1);
      StepKeepsInv(states[k - 1], events[k - 1].node, events[k - 1].action);
    } else if k > 0 {
      PathKeepsInv(states, events, k - 1, k - 1);
      assert Fires(states, events, k - 1);
      StepKeepsInv(states[k - 1], events[k - 1].node, events[k - 1].action);
    }
  }

  /** Agreement over every run, whatever is lost, dropped or restarted: two nodes that serve
      the same generation r >= 1 -- at the same time or at different times of the run -- serve
      the same shared configuration, namely the one payload ever committed as revision r. */
  lemma Agreement(states: seq<System>, events: seq<Event>, t: nat, t': nat, i: nat, i': nat)
    requires IsRun(states, events) && t < |states| && t' < |states|
    requires i < |states[t].nodes| && i' < |states[t'].nodes|
    requires states[t].nodes[i].runtime.generation == states[t'].nodes[i'].runtime.generation >= 1
    ensures var r := states[t].nodes[i].runtime.generation;
            && r <= |Last(states).history|
            && SharedOf(states[t].nodes[i].runtime.config) == Last(states).history[r - 1].shared
            && SharedOf(states[t'].nodes[i'].runtime.config) == Last(states).history[r - 1].shared
  {
    InitEstablishesInv(states[0]);
    PathKeepsInv(states, events, t, |states| - 1);
    PathKeepsInv(states, events, t', |states| - 1);
  }

  /** In every reachable state a node is never ahead of what it observed, nor that ahead of the
      row; the row holds the last committed payload; and a node shows one configuration in both of
      its cells, except between the two stores of a publication. */
  lemma ReachableStates(states: seq<System>, events: seq<Event>, t: nat)
    requires IsRun(states, events) && t < |states|
    ensures var s := states[t];
            && s.row.revision == |s.history|
            && (s.row.revision >= 1 ==> s.row.payload == Some(PayloadOf(s.history, s.row.revision)))
            && forall i | 0 <= i < |s.nodes| ::
                && s.nodes[i].runtime.generation <= s.nodes[i].status.observed <= s.row.revision
                && (s.nodes[i].op != HalfPublished ==> s.nodes[i].cell == s.nodes[i].runtime.config)
  {
    InitEstablishesInv(states[0]);
    PathKeepsInv(states, events, t, t);
  }

  // Between the two stores the cells differ exactly if the publication changes the configuration.
  lemma CellsBetweenTheStores(s: System, i: nat)
    requires Inv(s) && Step(s, i, StoreRuntime).Some?
    ensures var n, n' := s.nodes[i], Step(s, i, StoreRuntime).value.nodes[i];
            && n.cell == n.runtime.config
            && (n'.cell != n'.runtime.config <==> n.op.built.config != n.runtime.config)
  {
    assert NodeInv(s.nodes[i], i, s.history);
  }

  /** Such a state is reached whenever a fresh node applies another configuration. */
  lemma PublicationIsNotAtomic(file: Config, candidate: Config, key: string) returns (states: seq<System>, events: seq<Event>)
    requires file != candidate
    ensures IsRun(states, events)
    ensures var s := Last(states);
            |s.nodes| == 1 && s.nodes[0].runtime == Revision(1, candidate) && s.nodes[0].cell == file
  {
    var s0 := System(Row(0, None), [Fresh(file, key)], [], []);
    var a0 := BeginApply(candidate, 0);
    var s1 := Step(s0, 0, a0).value;
    assert s1.nodes[0].op == Building(0, candidate);
    var s2 := Step(s1, 0, BuildSucceeds).value;
    assert s2.nodes[0].op == Built(0, Revision(1, candidate));
    var s3 := Step(s2, 0, CasSucceeds).value;
    var s4 := Step(s3, 0, CommitAcked).value;
    var s5 := Step(s4, 0, StoreRuntime).value;
    states := [s0, s1, s2, s3, s4, s5];
    events := [Event(0, a0), Event(0, BuildSucceeds), Event(0, CasSucceeds), Event(0, CommitAcked), Event(0, StoreRuntime)];
    forall k | 0 <= k < |events| ensures Fires(states, events, k) {
    }
  }

  // The revision that a committing step was checked against.
  function ExpectedOf(s: System, e: Event): nat
    requires Commits(e.action) && Fire(s, e).Some?
  {
    if e.action.CasSucceeds? then s.nodes[e.node].op.expected else s.flying[e.action.request].expected
  }

  // What it commits.
  function CommittedBy(s: System, e: Event): Commit
    requires Commits(e.action) && Fire(s, e).Some?
  {
    if e.action.CasSucceeds? then Commit(e.node, s.nodes[e.node].key, SharedOf(s.nodes[e.node].op.built.config))
    else CommitOf(s.flying[e.action.request])
  }

  /** The history grows exactly at a successful compare-and-swap, by one revision, which is the
      successor of the revision that the swap expected. A node that awaits its swap is still
      serving that revision. */
  lemma OnlyCurrentRevisionsCommit(s: System, e: Event)
    requires Inv(s) && Fire(s, e).Some?
    ensures var s' := Fire(s, e).value;
            && (s'.history == s.history <==> !Commits(e.action))
            && (Commits(e.action) ==>
                  && ExpectedOf(s, e) == s.row.revision && s'.row.revision == s.row.revision + 1
                  && s'.history == s.history + [CommittedBy(s, e)] && CommittedBy(s, e).author == e.node)
            && (e.action.CasSucceeds? ==> ExpectedOf(s, e) == s.nodes[e.node].runtime.generation)
  {
    assert e.node < |s.nodes| && NodeInv(s.nodes[e.node], e.node, s.history);
  }

  // In this state the node was serving the revision that the commit expects, had built the
  // payload for its successor, and was about to commit it.
  ghost predicate WasBuilt(s: System, c: Commit, expected: nat) {
    && c.author < |s.nodes|
    && var n := s.nodes[c.author];
    && n.op.Built? && n.op.expected == expected == n.runtime.generation && n.op.built.generation == expected + 1
    && n.key == c.key && SharedOf(n.op.built.config) == c.shared
  }

  // An abandoned swap was built earlier in the run.
  lemma {:induction false} FlyingWasBuilt(states: seq<System>, events: seq<Event>, t: nat, k: nat) returns (b: nat)
    requires IsRun(states, events) && t < |states| && k < |states[t].flying|
    ensures b < t && WasBuilt(states[b], CommitOf(states[t].flying[k]), states[t].flying[k].expected)
    decreases t
  {
    if t > 0 {
      assert Fires(states, events, t - 1);
      if k < |states[t - 1].flying| {
        b := FlyingWasBuilt(states, events, t - 1, k);
      } else {
        b := t - 1;
        InitEstablishesInv(states[0]);
        PathKeepsInv(states, events, b, b);
        var i := events[b].node;
        assert NodeInv(states[b].nodes[i], i, states[b].history);
      }
    }
  }

  /** Every revision of every run was committed on behalf of a node that was serving the preceding
      revision when it checked and built -- also if the swap took effect long after that node had
      abandoned the call or crashed. */
  lemma CommittersServedThePrecedingRevision(states: seq<System>, events: seq<Event>, t: nat) returns (b: nat)
    requires IsRun(states, events) && t < |events| && Commits(events[t].action)
    ensures Fire(states[t], events[t]).Some?
    ensures b <= t && WasBuilt(states[b], CommittedBy(states[t], events[t]), states[t].row.revision)
  {
    assert Fires(states, events, t);
    InitEstablishesInv(states[0]);
    PathKeepsInv(states, events, t, t);
    OnlyCurrentRevisionsCommit(states[t], events[t]);
    if events[t].action.CasSucceeds? {
      b := t;
      assert NodeInv(states[t].nodes[events[t].node], events[t].node, states[t].history);
    } else {
      b := FlyingWasBuilt(states, events, t, events[t].action.request);
    }
  }

  /** No lost update. Of all the swaps in a run that expect the same revision, awaited or
      abandoned, at most one commits: two commits with equal expected revision are the same step. */
  lemma NoLostUpdate(states: seq<System>, events: seq<Event>, t: nat, t': nat)
    requires IsRun(states, events) && t < |events| && t' < |events|
    requires Commits(events[t].action) && Commits(events[t'].action)
    ensures Fire(states[t], events[t]).Some? && Fire(states[t'], events[t']).Some?
    ensures t < t' ==> ExpectedOf(states[t], events[t]) < ExpectedOf(states[t'], events[t'])
    ensures ExpectedOf(states[t], events[t]) == ExpectedOf(states[t'], events[t']) ==> t == t'
  {
    assert Fires(states, events, t) && Fires(states, events, t');
    if t < t' {
      CommitsAreOrdered(states, events, t, t');
    } else if t' < t {
      CommitsAreOrdered(states, events, t', t);
    }
  }

  lemma CommitsAreOrdered(states: seq<System>, events: seq<Event>, t: nat, t': nat)
    requires IsRun(states, events) && t < t' < |events|
    requires Commits(events[t].action) && Commits(events[t'].action)
    ensures Fire(states[t], events[t]).Some? && Fire(states[t'], events[t']).Some?
    ensures ExpectedOf(states[t], events[t]) < ExpectedOf(states[t'], events[t'])
  {
    assert Fires(states, events, t) && Fires(states, events, t');
    InitEstablishesInv(states[0]);
    PathKeepsInv(states, events, t, t);
    PathKeepsInv(states, events, t + 1, t');
    OnlyCurrentRevisionsCommit(states[t], events[t]);
    OnlyCurrentRevisionsCommit(states[t'], events[t']);
  }

  /** An apply that published its own candidate as generation r did commit it: the revision's
      author is that node and the payload is the candidate's, for the rest of the run. */
  lemma PublishedApplyIsCommitted(states: seq<System>, events: seq<Event>, t: nat, t': nat)
    requires IsRun(states, events) && t < |events| && t < t' < |states|
    requires events[t].action.StoreRuntime? && events[t].node < |states[t].nodes|
    requires states[t].nodes[events[t].node].op.Publishing? && states[t].nodes[events[t].node].op.local
    ensures var n := states[t].nodes[events[t].node];
            && n.op.built.generation == n.runtime.generation + 1 <= |states[t'].history|
            && states[t'].history[n.runtime.generation].author == events[t].node
            && states[t'].history[n.runtime.generation].shared == SharedOf(n.op.built.config)
  {
    InitEstablishesInv(states[0]);
    PathKeepsInv(states, events, t, t');
    var i := events[t].node;
    assert NodeInv(states[t].nodes[i], i, states[t].history);
  }

  // No crash of node i among events[j..k].
  ghost predicate SameIncarnation(events: seq<Event>, i: nat, j: nat, k: nat) {
    forall e | 0 <= j <= e < k <= |events| :: events[e].node == i ==> !events[e].action.Crash?
  }

  lemma LocalStepIsMonotone(row: Row, n: Node, i: nat, a: Action, h: seq<Commit>)
    requires NodeInv(n, i, h) && row.revision == |h| && LocalStep(row, n, a).Some? && !a.Crash?
    ensures n.runtime.generation <= LocalStep(row, n, a).value.runtime.generation
    ensures n.status.observed <= LocalStep(row, n, a).value.status.observed
  {
  }

  lemma StepIsMonotone(s: System, i: nat, a: Action, j: nat)
    requires Inv(s) && Step(s, i, a).Some? && j < |s.nodes| && (i == j ==> !a.Crash?)
    ensures var n, n' := s.nodes[j], Step(s, i, a).value.nodes[j];
            && s.row.revision <= Step(s, i, a).value.row.revision
            && n.runtime.generation <= n'.runtime.generation && n.status.observed <= n'.status.observed
  {
    assert NodeInv(s.nodes[j], j, s.history);
    if i == j && !Commits(a) {
      LocalStepIsMonotone(s.row, s.nodes[i], i, a, s.history);
    }
  }

  /** The row's revision never decreases, and within one incarnation neither does what a node
      serves nor what it observed. */
  lemma {:induction false} Monotone(states: seq<System>, events: seq<Event>, i: nat, j: nat, k: nat)
    requires IsPath(states, events) && Inv(states[0]) && j <= k < |states| && i < |states[j].nodes|
    requires SameIncarnation(events, i, j, k)
    ensures |states[k].nodes| == |states[j].nodes|
    ensures states[j].row.revision <= states[k].row.revision
    ensures states[j].nodes[i].runtime.generation <= states[k].nodes[i].runtime.generation
    ensures states[j].nodes[i].status.observed <= states[k].nodes[i].status.observed
    decreases k - j
  {
    if j < k {
      PathKeepsInv(states, events, j, k - 1);
      Monotone(states, events, i, j, k - 1);
      assert Fires(states, events, k - 1);
      StepIsMonotone(states[k - 1], events[k - 1].node, events[k - 1].action, i);
    }
  }

  /** Failure atomicity: only the two stores of a publication (and a restart) touch what a node
      serves, and only a successful compare-and-swap touches the row. */
  lemma FailuresChangeNothing(s: System, i: nat, a: Action)
    requires Step(s, i, a).Some?
    ensures var s' := Step(s, i, a).value;
            && (!a.StoreRuntime? && !a.Crash? ==> s'.nodes[i].runtime == s.nodes[i].runtime)
            && (!a.StoreConfig? && !a.Crash? ==> s'.nodes[i].cell == s.nodes[i].cell)
            && (!Commits(a) ==> s'.row == s.row && s'.history == s.history)
            && forall j | 0 <= j < |s.nodes| && j != i :: s'.nodes[j] == s.nodes[j]
  {
  }

  /** A reconcile replaces the shared sections only: the published runtime keeps the node-local
      settings that were active before, and skips no revision that the node had observed. */
  lemma ReconcileKeepsLocalSettings(s: System, i: nat)
    requires Inv(s) && Step(s, i, StoreRuntime).Some? && !s.nodes[i].op.local
    ensures var n, n' := s.nodes[i], Step(s, i, StoreRuntime).value.nodes[i];
            && n'.runtime.config.local == n.runtime.config.local == n.cell.local
            && n'.runtime.generation == n.status.observed > n.runtime.generation
            && SharedOf(n'.runtime.config) == s.history[n'.runtime.generation - 1].shared
  {
    assert NodeInv(s.nodes[i], i, s.history);
  }

  /** In a reachable state the row read by a reconcile is never missing its payload, never fails
      to decode and never names another revision: the only snapshot error left is a foreign key. */
  lemma OnlyKeysCanDiffer(states: seq<System>, events: seq<Event>, t: nat, i: nat)
    requires IsRun(states, events) && t < |states| && i < |states[t].nodes|
    requires states[t].nodes[i].op.Fetched?
    ensures var n := states[t].nodes[i];
            var n' := Observe(n, n.op.row);
            var r := n.op.row.revision;
            && r <= |states[t].history|
            && (r <= n.runtime.generation ==> n'.op == Idle && n'.status.applyError == n.status.applyError)
            && (r > n.runtime.generation && n.key == states[t].history[r - 1].key ==> n'.op.Rebuilding?)
            && (r > n.runtime.generation && n.key != states[t].history[r - 1].key ==>
                  n' == Fail(n.(status := n.status.(observed := r)), CandidateMessage(DecryptionFailed)))
  {
    InitEstablishesInv(states[0]);
    PathKeepsInv(states, events, t, t);
    var n := states[t].nodes[i];
    assert NodeInv(n, i, states[t].history);
    if n.op.row.revision >= 1 {
      RowOpens(n, n.op.row, states[t].history);
    }
  }
}
