/** The configuration, its encrypted snapshot, and the two translations between them. */
module ConfigData {
  import opened Wrappers

  const U64_MAX: nat := 0xFFFF_FFFF_FFFF_FFFF
  const I64_MAX: nat := 0x7FFF_FFFF_FFFF_FFFF

  // One configuration section, as its serialized text.
  type Section = string

  // `local` stands for every node-local section: listener, auth, storage, telemetry.
  datatype Config = Config(
    providers: Section, router: Section, modelAliases: Section,
    guardrails: Section, cache: Section, local: Section)

  // The five sections that every node shares.
  datatype Shared = Shared(
    providers: Section, router: Section, modelAliases: Section,
    guardrails: Section, cache: Section)

  datatype StoredRuntime = StoredRuntime(
    revision: nat,
    providers: Section, router: Section, modelAliases: Section,
    guardrails: Section, cache: Section)

  // What decryption yields: a snapshot, or text that does not decode as one.
  datatype Plaintext = Snapshot(stored: StoredRuntime) | Undecodable(text: string)

  // Authenticated encryption: only the sealing key opens the plaintext.
  datatype Ciphertext = Sealed(key: string, plaintext: Plaintext)

  function SharedOf(c: Config): Shared {
    Shared(c.providers, c.router, c.modelAliases, c.guardrails, c.cache)
  }

  function StoredShared(p: StoredRuntime): Shared {
    Shared(p.providers, p.router, p.modelAliases, p.guardrails, p.cache)
  }

  function Encrypt(key: string, config: Config, revision: nat): Ciphertext {
    Sealed(key, Snapshot(StoredRuntime(revision, config.providers, config.router,
                                       config.modelAliases, config.guardrails, config.cache)))
  }

  datatype CandidateError = DecryptionFailed | DecodingFailed | RevisionMismatch

  function Candidate(key: string, base: Config, revision: nat, ciphertext: Ciphertext)
    : Result<Config, CandidateError>
  {
    if ciphertext.key != key then Err(DecryptionFailed)
    else match ciphertext.plaintext
      case Undecodable(_) => Err(DecodingFailed)
      case Snapshot(payload) =>
        if payload.revision != revision then Err(RevisionMismatch)
        else Ok(base.(providers := payload.providers, router := payload.router,
                      modelAliases := payload.modelAliases,
                      guardrails := payload.guardrails, cache := payload.cache))
  }

  /** Exactly the authenticated snapshots of the requested revision are accepted; what is
      accepted carries the snapshot's five sections and the reader's own local settings. */
  lemma CandidateCharacterized(key: string, base: Config, revision: nat, c: Ciphertext)
    ensures var r := Candidate(key, base, revision, c);
            && (r.Ok? <==> c.key == key && c.plaintext.Snapshot? && c.plaintext.stored.revision == revision)
            && (r.Ok? ==> SharedOf(r.value) == StoredShared(c.plaintext.stored) && r.value.local == base.local)
            && (r == Err(DecryptionFailed) <==> c.key != key)
  {
  }

  /** Sealing on one node and opening on another transfers the shared sections and nothing else. */
  lemma SnapshotRoundTrip(key: string, key': string, sender: Config, receiver: Config, revision: nat, revision': nat)
    ensures Candidate(key', receiver, revision', Encrypt(key, sender, revision)) ==
            if key' != key then Err(DecryptionFailed)
            else if revision' != revision then Err(RevisionMismatch)
            else Ok(sender.(local := receiver.local))
  {
  }
}
