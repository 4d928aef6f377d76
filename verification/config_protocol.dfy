/** The configuration-revision protocol as a state machine: any number of gateway nodes,
    one authoritative row, and one small step of one node at a time. A step boundary stands
    wherever the source awaits, and between the two stores of a publication. */
module ConfigProtocol {
  import opened Wrappers
  import opened ConfigData

  // The active runtime. Router, guardrail engine and cache are functions of `config`.
  datatype Revision = Revision(generation: nat, config: Config)

  datatype Status = Status(observed: nat, applyError: Option<string>, syncError: Option<string>)

  datatype Row = Row(revision: nat, payload: Option<Ciphertext>)

  // What the holder of the node's apply lock is doing; Idle means the lock is free.
  datatype Op =
    | Idle
    | Building(expected: nat, candidate: Config)    // apply: awaiting the build
    | Built(expected: nat, built: Revision)         // apply: awaiting the compare-and-swap
    | Committed(built: Revision)                    // apply: swap took effect, reply outstanding
    | Fetched(row: Row)                             // reconcile: row read, reply outstanding
    | Rebuilding(revision: nat, candidate: Config)  // reconcile: awaiting the build
    | Publishing(built: Revision, local: bool)      // about to store the runtime cell
    | HalfPublished                                 // runtime cell stored, config cell not yet

  datatype Node = Node(key: string, runtime: Revision, cell: Config, status: Status, op: Op)

  // A committed revision: who committed it, the sealing key, and the payload.
  datatype Commit = Commit(author: nat, key: string, shared: Shared)

  // A compare-and-swap whose caller is gone: its future was dropped, its node crashed, or the
  // connection was lost. The database may still execute it, or never.
  datatype Request = Request(author: nat, expected: nat, key: string, built: Revision)

  // history[r - 1] is the commit of revision r; no transition reads it.
  datatype System = System(row: Row, nodes: seq<Node>, history: seq<Commit>, flying: seq<Request>)

  datatype Action =
    | BeginApply(candidate: Config, expected: nat)
    | BuildFails
    | BuildSucceeds
    | SealFails
    | CasSucceeds
    | Land(request: nat)      // an abandoned swap takes effect after all
    | CommitFails(lost: bool) // lost: no reply, so nobody knows
    | CommitAcked
    | FetchRow
    | FetchFails
    | Hear(revision: nat)
    | ObserveRow
    | RebuildFails
    | RebuildSucceeds
    | StoreRuntime
    | StoreConfig
    | Drop
    | NoteSync(error: Option<string>)
    | Crash(config: Config, key: string)

  const BUILD_FAILED := "Runtime candidate validation/build failed"
  const COMMIT_FAILED := "Authoritative configuration commit failed"
  const NOTIFY_FAILED := "Revision committed but notification failed"
  const READ_FAILED := "Authoritative configuration read failed"
  const PAYLOAD_MISSING := "Authoritative configuration payload is missing"
  const REBUILD_FAILED := "Authoritative runtime validation/build failed"

  function CandidateMessage(e: CandidateError): string {
    match e
    case DecryptionFailed => "Runtime snapshot decryption failed; check the shared encryption key"
    case DecodingFailed => "Runtime snapshot decoding failed"
    case RevisionMismatch => "Runtime snapshot revision does not match its authenticated payload"
  }

  function Fresh(config: Config, key: string): Node {
    Node(key, Revision(0, config), config, Status(0, None, None), Idle)
  }

  predicate Init(s: System) {
    && s.row == Row(0, None)
    && s.history == [] && s.flying == []
    && forall i | 0 <= i < |s.nodes| :: s.nodes[i] == Fresh(s.nodes[i].cell, s.nodes[i].key)
  }

  // The conditional update of the row: it takes effect only on the expected revision, and
  // only while the next revision still fits the signed column.
  function CompareAndSwap(row: Row, expected: nat, payload: Ciphertext): Option<Row> {
    if row.revision == expected && expected < I64_MAX then Some(Row(expected + 1, Some(payload))) else None
  }

  function Fail(n: Node, message: string): Node {
    n.(op := Idle, status := n.status.(applyError := Some(message)))
  }

  // Everything between the reply to the row read and the next await.
  function Observe(n: Node, row: Row): Node {
    var n := n.(status := n.status.(observed := row.revision));
    if row.revision <= n.runtime.generation then n.(op := Idle)
    else if row.payload == None then Fail(n, PAYLOAD_MISSING)
    else match Candidate(n.key, n.cell, row.revision, row.payload.value)
      case Err(e) => Fail(n, CandidateMessage(e))
      case Ok(candidate) => n.(op := Rebuilding(row.revision, candidate))
  }

  // The acting node's next local state, for every action but the compare-and-swap.
  function LocalStep(row: Row, n: Node, a: Action): Option<Node> {
    match a
    case BeginApply(candidate, expected) =>
      if n.op != Idle || expected > U64_MAX then None
      else if n.runtime.generation != expected || expected == U64_MAX then Some(n)
      else Some(n.(op := Building(expected, candidate)))
    case BuildFails =>
      if n.op.Building? then Some(Fail(n, BUILD_FAILED)) else None
    case BuildSucceeds =>
      if n.op.Building?
      then Some(n.(op := Built(n.op.expected, Revision(n.op.expected + 1, n.op.candidate)))) else None
    case SealFails =>
      if n.op.Built? then Some(n.(op := Idle)) else None
    case CasSucceeds => None
    case Land(_) => None
    case CommitFails(_) =>
      if n.op.Built? || n.op.Committed?
      then Some(n.(op := Idle, status := n.status.(syncError := Some(COMMIT_FAILED)))) else None
    case CommitAcked =>
      if n.op.Committed?
      then Some(n.(op := Publishing(n.op.built, true),
                   status := n.status.(observed := n.op.built.generation))) else None
    case FetchRow =>
      if n.op == Idle then Some(n.(op := Fetched(row))) else None
    case FetchFails =>
      if n.op == Idle then Some(n.(status := n.status.(syncError := Some(READ_FAILED)))) else None
    case Hear(revision) =>
      if revision <= n.runtime.generation then Some(n)
      else if n.op == Idle then Some(n.(op := Fetched(row))) else None
    case ObserveRow =>
      if n.op.Fetched? then Some(Observe(n, n.op.row)) else None
    case RebuildFails =>
      if n.op.Rebuilding? then Some(Fail(n, REBUILD_FAILED)) else None
    case RebuildSucceeds =>
      if n.op.Rebuilding?
      then Some(n.(op := Publishing(Revision(n.op.revision, n.op.candidate), false))) else None
    case StoreRuntime =>
      if n.op.Publishing? then Some(n.(runtime := n.op.built, op := HalfPublished)) else None
    case StoreConfig =>
      if n.op.HalfPublished?
      then Some(n.(cell := n.runtime.config, op := Idle, status := n.status.(applyError := None))) else None
    case Drop =>
      if n.op.Building? || n.op.Built? || n.op.Committed? || n.op.Fetched? || n.op.Rebuilding?
      then Some(n.(op := Idle)) else None
    case NoteSync(error) =>
      Some(n.(status := n.status.(syncError := error)))
    case Crash(config, key) =>
      Some(Fresh(config, key))
  }

  // The compare-and-swap of node i, taking effect in the database.
  function CasStep(s: System, i: nat): Option<System>
    requires i < |s.nodes|
  {
    var n := s.nodes[i];
    if !n.op.Built? then None
    else match CompareAndSwap(s.row, n.op.expected, Encrypt(n.key, n.op.built.config, n.op.built.generation))
      case None => None
      case Some(row) =>
        Some(System(row, s.nodes[i := n.(op := Committed(n.op.built))],
                    s.history + [Commit(i, n.key, SharedOf(n.op.built.config))], s.flying))
  }

  function CommitOf(q: Request): Commit {
    Commit(q.author, q.key, SharedOf(q.built.config))
  }

  // The same for an abandoned swap. No node learns of it.
  function LandStep(s: System, i: nat, k: nat): Option<System> {
    if k >= |s.flying| || s.flying[k].author != i then None
    else
      var q := s.flying[k];
      match CompareAndSwap(s.row, q.expected, Encrypt(q.key, q.built.config, q.built.generation))
      case None => None
      case Some(row) => Some(s.(row := row, history := s.history + [CommitOf(q)]))
  }

  // The node may have sent its swap, and will not see the reply.
  predicate Abandons(n: Node, a: Action) {
    n.op.Built? && (a.Drop? || a.Crash? || (a.CommitFails? && a.lost))
  }

  function Flying(s: System, i: nat, a: Action): seq<Request>
    requires i < |s.nodes|
  {
    var n := s.nodes[i];
    if Abandons(n, a) then s.flying + [Request(i, n.op.expected, n.key, n.op.built)] else s.flying
  }

  /** One step of node i, or None when the action is not enabled. */
  function Step(s: System, i: nat, a: Action): Option<System> {
    if i >= |s.nodes| then None
    else if a.CasSucceeds? then CasStep(s, i)
    else if a.Land? then LandStep(s, i, a.request)
    else match LocalStep(s.row, s.nodes[i], a)
      case None => None
      case Some(n) => Some(s.(nodes := s.nodes[i := n], flying := Flying(s, i, a)))
  }

  // The two ways in which a revision is committed.
  predicate Commits(a: Action) {
    a.CasSucceeds? || a.Land?
  }

  datatype Event = Event(node: nat, action: Action)

  function Fire(s: System, e: Event): Option<System> {
    Step(s, e.node, e.action)
  }

  // Event k leads from state k to state k + 1.
  ghost predicate Fires(states: seq<System>, events: seq<Event>, k: nat)
    requires k < |events| < |states|
  {
    Fire(states[k], events[k]) == Some(states[k + 1])
  }

  ghost predicate IsPath(states: seq<System>, events: seq<Event>) {
    && |states| == |events| + 1
    && forall k | 0 <= k < |events| :: Fires(states, events, k)
  }

  ghost predicate IsRun(states: seq<System>, events: seq<Event>) {
    IsPath(states, events) && Init(states[0])
  }

  function Last<T>(s: seq<T>): T
    requires |s| > 0
  {
    s[|s| - 1]
  }

  lemma PathWithoutLast(states: seq<System>, events: seq<Event>)
    requires IsPath(states, events) && events != []
    ensures IsPath(states[..|events|], events[..|events| - 1])
    ensures Fire(states[|events| - 1], Last(events)) == Some(Last(states))
  {
    var states', events' := states[..|events|], events[..|events| - 1];
    forall k | 0 <= k < |events'| ensures Fires(states', events', k) {
      assert Fires(states, events, k);
    }
    assert Fires(states, events, |events| - 1);
  }

  lemma PathsCompose(s1: seq<System>, e1: seq<Event>, s2: seq<System>, e2: seq<Event>)
    requires IsPath(s1, e1) && IsPath(s2, e2) && Last(s1) == s2[0]
    ensures IsPath(s1 + s2[1..], e1 + e2)
    ensures (s1 + s2[1..])[0] == s1[0] && Last(s1 + s2[1..]) == Last(s2)
  {
    var s, e := s1 + s2[1..], e1 + e2;
    forall k | 0 <= k < |e| ensures Fires(s, e, k) {
      if k < |e1| {
        assert Fires(s1, e1, k);
      } else {
        assert Fires(s2, e2, k - |e1|);
        assert s[k] == s2[k - |e1|];
      }
    }
  }
}
