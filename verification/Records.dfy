/** What a run writes down and reads back: artifacts, entries, manifests, and listed objects. */
module Records {
  import opened Base
  import opened Order

  /** Nanoseconds, UTC. */
  type Time = int

  const SECOND := 1_000_000_000
  const HOUR := 3600 * SECOND
  const DAY := 24 * HOUR

  /** The UTC date of an instant, as a day number. */
  function DayOf(t: Time): int {
    t / DAY
  }

  /** The UTC second an instant falls in: what a manifest is named for. */
  function SecondOf(t: Time): int {
    t / SECOND
  }

  datatype Status = Success | Failed | Skipped

  datatype Reason = NoReason | AlreadyBackedUp | NoCommits | UnchangedSince(day: int)

  datatype Kind = Bundle | Meta | Sidecar | Lfs

  /** An object key: everything before its last slash, and the segment after it. */
  datatype Key = Key(dir: string, base: Segment)

  /** A key's last segment: a manifest's, named for a second, or any other. */
  datatype Segment = Stamped(second: int) | Signature(second: int) | Plain(text: string)

  datatype Artifact = Artifact(kind: Kind, key: Key, size: int, sha: string, retainUntil: Option<Time>)

  datatype RepoEntry = RepoEntry(slug: string, status: Status, reason: Reason, artifacts: seq<Artifact>,
                                 refs: seq<Ref>, copiedAt: Option<Time>)

  /** A decoded document. Only one whose schema is a run-manifest's counts as one. */
  datatype Manifest = Manifest(isRunManifest: bool, finishedAt: Time, repos: seq<RepoEntry>)

  /** What reading the object at a key gives: nothing usable, or a document whose signature holds. */
  datatype Doc = Unusable | Signed(manifest: Manifest)

  /** An object as a listing shows it, with what a read of it would give. */
  datatype Object = Object(key: Key, size: int, modified: Option<Time>, doc: Doc)

  function FailedEntry(slug: string): RepoEntry {
    RepoEntry(slug, Failed, NoReason, [], [], None)
  }

  /** The key is among those e lists; a failed entry's count too. */
  predicate NamesArtifact(e: RepoEntry, key: Key) {
    exists a <- e.artifacts :: a.key == key
  }

  /** e stands for a copy of slug that its own run made, and the object at key belongs to it. */
  predicate RecordsCopy(e: RepoEntry, slug: string, key: Key) {
    && e.slug == slug
    && (e.status == Success || (e.status == Skipped && e.reason == NoCommits))
    && NamesArtifact(e, key)
  }

  /** The entry's own date for its copy, or its manifest's finish when it gives none. */
  function CopiedAtOf(e: RepoEntry, finished: Time): Option<Time> {
    if e.copiedAt.Some? then e.copiedAt
    else if e.refs == [] then None
    else Some(finished)
  }

  /** A copiedAt some run could have recorded: not after its manifest's finish, and not after now. */
  predicate Plausible(copiedAt: Time, finished: Time, now: Time) {
    copiedAt <= finished && copiedAt <= now
  }

  const MAX_MANIFEST_BYTES := 128 * 0x10_0000

  /** The one loader: size cap, signature, schema, and the name being the document's own finish. */
  function Load(o: Object): Option<Manifest> {
    if o.size > MAX_MANIFEST_BYTES then None
    else if !o.doc.Signed? || !o.doc.manifest.isRunManifest then None
    else if o.key.base != Stamped(SecondOf(o.doc.manifest.finishedAt)) then None
    else Some(o.doc.manifest)
  }

  /**
   What the loader lets through: a signed run manifest of at most 128 MiB whose name is the second it says
   it finished in.
   */
  lemma LoadMeans(o: Object, m: Manifest)
    ensures Load(o) == Some(m) <==>
            && o.doc == Signed(m) && m.isRunManifest && o.size <= 134_217_728
            && o.key.base.Stamped? && 0 <= m.finishedAt - 1_000_000_000 * o.key.base.second < 1_000_000_000
  {
    assert m.finishedAt == SECOND * SecondOf(m.finishedAt) + m.finishedAt % SECOND;
  }

  /** A day is 86400 seconds of a thousand million nanoseconds, and an instant is in the day it is in. */
  lemma DayMeans(t: Time)
    ensures 0 <= t - 86_400_000_000_000 * DayOf(t) < 86_400_000_000_000
  {
    assert t == DAY * DayOf(t) + t % DAY;
  }
}
