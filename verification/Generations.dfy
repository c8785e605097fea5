/** One pack's backup generations, keyed by number: what a generation is, which one is the
    head, and what each write of a commit attempt does to them (internal/store/store.go). */
module Generations {
  import opened Wrappers
  import Archive

  /** SHA-256 as an injective constructor over the whole stored object. */
  datatype Digest = Sha256(of: Object)

  datatype Manifest = Manifest(id: string, generation: nat, sha: Digest, size: nat)

  /** A stored object: a complete archive stream of some length, a decodable manifest, or
      anything else (a torn upload, foreign content). */
  datatype Object = ArchiveObject(entries: seq<Archive.Entry>, bytes: nat)
                  | ManifestObject(m: Manifest)
                  | Junk(content: seq<byte>)

  function Size(o: Object): nat {
    match o
    case ArchiveObject(_, bytes) => bytes
    case ManifestObject(_) => 0
    case Junk(content) => |content|
  }

  /** The archives and the manifests stored for one pack. */
  datatype Vault = Vault(archives: map<nat, Object>, manifests: map<nat, Object>)

  const EMPTY := Vault(map[], map[])

  /** How one Put ends. A Put that reports an error, or during which the machine stops, may
      have stored everything, a torn object, or nothing. */
  datatype Effect = Whole | Torn(content: seq<byte>) | Untouched
  datatype PutOutcome = Stored | Failed(effect: Effect)

  function After(objects: map<nat, Object>, n: nat, o: Object, outcome: PutOutcome): map<nat, Object> {
    match outcome
    case Stored => objects[n := o]
    case Failed(Whole) => objects[n := o]
    case Failed(Torn(content)) => objects[n := Junk(content)]
    case Failed(Untouched) => objects
  }

  function PutArchive(v: Vault, n: nat, o: Object, outcome: PutOutcome): Vault {
    v.(archives := After(v.archives, n, o, outcome))
  }

  function PutManifest(v: Vault, m: Manifest, outcome: PutOutcome): Vault {
    v.(manifests := After(v.manifests, m.generation, ManifestObject(m), outcome))
  }

  /** The test Head applies to a manifest it could decode. */
  predicate Complete(v: Vault, id: string, n: nat) {
    && n > 0 && n in v.manifests && v.manifests[n].ManifestObject?
    && v.manifests[n].m.id == id && v.manifests[n].m.generation == n
    && n in v.archives
    && Sha256(v.archives[n]) == v.manifests[n].m.sha && Size(v.archives[n]) == v.manifests[n].m.size
  }

  /** `g` is the greatest complete generation, or 0 when there is none. */
  ghost predicate IsHead(v: Vault, id: string, g: nat) {
    && (g > 0 ==> Complete(v, id, g))
    && forall n: nat :: Complete(v, id, n) ==> n <= g
  }

  lemma {:induction false} GreatestExists(v: Vault, id: string, s: set<nat>) returns (g: nat)
    ensures g > 0 ==> g in s && Complete(v, id, g)
    ensures forall n :: n in s && Complete(v, id, n) ==> n <= g
    decreases |s|
  {
    if s == {} {
      return 0;
    }
    var x :| x in s;
    g := GreatestExists(v, id, s - {x});
    if Complete(v, id, x) && x > g {
      g := x;
    }
  }

  lemma HeadExists(v: Vault, id: string)
    ensures exists g: nat :: IsHead(v, id, g)
  {
    var g := GreatestExists(v, id, v.manifests.Keys);
    assert IsHead(v, id, g);
  }

  /** The number Head reports, 0 for none. */
  ghost function HeadGen(v: Vault, id: string): nat {
    HeadExists(v, id);
    var g: nat :| IsHead(v, id, g);
    g
  }

  lemma HeadIsGreatest(v: Vault, id: string)
    ensures HeadGen(v, id) == 0 ==> forall n: nat :: !Complete(v, id, n)
    ensures HeadGen(v, id) > 0 ==> Complete(v, id, HeadGen(v, id))
    ensures forall n: nat :: Complete(v, id, n) ==> n <= HeadGen(v, id)
  {
    assert IsHead(v, id, HeadGen(v, id));
  }

  lemma HeadUnique(v: Vault, id: string, g: nat)
    requires g > 0 ==> Complete(v, id, g)
    requires forall n: nat :: Complete(v, id, n) ==> n <= g
    ensures HeadGen(v, id) == g
  {
    HeadIsGreatest(v, id);
  }

  /** What holds of a vault that only Commit ever writes: the complete generations are exactly
      1 up to the head, and no other decodable manifest exists. */
  ghost predicate Sound(v: Vault, id: string) {
    forall n: nat :: n in v.manifests && v.manifests[n].ManifestObject? ==> Complete(v, id, n)
  }

  ghost predicate GapFree(v: Vault, id: string) {
    forall n: nat :: Complete(v, id, n) <==> 1 <= n <= HeadGen(v, id)
  }

  /** Every complete generation of `v` is complete in `w` with the same two objects. */
  ghost predicate Preserves(v: Vault, w: Vault, id: string) {
    forall n: nat :: Complete(v, id, n) ==>
                  Complete(w, id, n) && w.archives[n] == v.archives[n] && w.manifests[n] == v.manifests[n]
  }

  lemma EmptySound(id: string)
    ensures Sound(EMPTY, id) && GapFree(EMPTY, id) && HeadGen(EMPTY, id) == 0
  {
    HeadIsGreatest(EMPTY, id);
  }

  /** Whatever happens to the archive upload of the next generation, nothing that was complete
      changes and nothing new becomes complete. */
  lemma ArchivePutHarmless(v: Vault, id: string, o: Object, outcome: PutOutcome)
    requires Sound(v, id) && GapFree(v, id)
    ensures var w := PutArchive(v, HeadGen(v, id) + 1, o, outcome);
            Sound(w, id) && GapFree(w, id) && HeadGen(w, id) == HeadGen(v, id) && Preserves(v, w, id)
  {
    var h := HeadGen(v, id);
    var w := PutArchive(v, h + 1, o, outcome);
    HeadIsGreatest(v, id);
    forall n: nat ensures Complete(w, id, n) <==> Complete(v, id, n) {
      assert n == h + 1 && n in v.manifests ==> !v.manifests[n].ManifestObject?;
    }
    HeadUnique(w, id, h);
  }

  predicate Lands(outcome: PutOutcome) {
    outcome == Stored || outcome == Failed(Whole)
  }

  /** The manifest upload of a hashed archive either completes exactly the next generation or
      changes nothing that counts. */
  lemma ManifestPutDecides(v: Vault, id: string, m: Manifest, outcome: PutOutcome)
    requires Sound(v, id) && GapFree(v, id)
    requires m.id == id && m.generation == HeadGen(v, id) + 1
    requires m.generation in v.archives && m.sha == Sha256(v.archives[m.generation])
    requires m.size == Size(v.archives[m.generation])
    ensures var w := PutManifest(v, m, outcome);
            && Sound(w, id) && GapFree(w, id) && Preserves(v, w, id)
            && HeadGen(w, id) == (if Lands(outcome) then m.generation else HeadGen(v, id))
            && w.archives == v.archives
  {
    var h := HeadGen(v, id);
    var w := PutManifest(v, m, outcome);
    HeadIsGreatest(v, id);
    forall n: nat ensures Complete(w, id, n) <==> Complete(v, id, n) || (n == h + 1 && Lands(outcome)) {
      if n == h + 1 {
        assert !Complete(v, id, n);
      }
    }
    HeadUnique(w, id, if Lands(outcome) then h + 1 else h);
  }

  // ------------------------------------------------------------ commit attempts

  datatype CommitError =
    HeadUnreadable | GenerationConflict | ArchiveFailed | UploadFailed | ManifestFailed | Unverified

  /** One call of Commit: the generation its caller expects, the tree it finds (or none), and
      how its two uploads end. A machine that stops part-way behaves like a failing upload
      with the same effect. */
  datatype Attempt = Attempt(expected: nat, source: Option<Archive.Forest>, bytes: nat,
                             archivePut: PutOutcome, manifestPut: PutOutcome)

  function ManifestOf(id: string, generation: nat, o: Object): Manifest {
    Manifest(id, generation, Sha256(o), Size(o))
  }

  /** The read-back check after the manifest upload, when Head reports generation `seen`. */
  predicate VerifiedAs(v: Vault, m: Manifest, seen: nat) {
    && seen == m.generation && m.generation in v.manifests
    && v.manifests[m.generation].ManifestObject?
    && v.manifests[m.generation].m.sha == m.sha && v.manifests[m.generation].m.size == m.size
  }

  ghost predicate Verified(v: Vault, id: string, m: Manifest) {
    VerifiedAs(v, m, HeadGen(v, id))
  }

  /** An archive upload whose source cannot be read never completes: its stream ends in an error. */
  function BrokenStream(outcome: PutOutcome): PutOutcome {
    match outcome
    case Stored => Failed(Untouched)
    case Failed(Whole) => Failed(Untouched)
    case Failed(_) => outcome
  }

  /** Such an upload reports an error, and stores at most a torn object. */
  lemma BrokenNeverLands(outcome: PutOutcome)
    ensures BrokenStream(outcome).Failed? && !Lands(BrokenStream(outcome))
    ensures outcome.Failed? && outcome.effect.Torn? ==> BrokenStream(outcome) == outcome
  {
  }

  ghost function Commit(v: Vault, id: string, a: Attempt): (Vault, Result<Manifest, CommitError>) {
    if HeadGen(v, id) != a.expected then (v, Failure(GenerationConflict)) else AfterCheck(v, id, a)
  }

  /** The part of Commit after its head check: upload, publish, verify. */
  ghost function AfterCheck(v: Vault, id: string, a: Attempt): (Vault, Result<Manifest, CommitError>) {
    var gen := a.expected + 1;
    match a.source
    case None => (PutArchive(v, gen, Junk([]), BrokenStream(a.archivePut)), Failure(ArchiveFailed))
    case Some(f) =>
      var o := ArchiveObject(Archive.WriteArchive(f), a.bytes);
      var v1 := PutArchive(v, gen, o, a.archivePut);
      if a.archivePut.Failed? then (v1, Failure(UploadFailed))
      else
        var m := ManifestOf(id, gen, o);
        var v2 := PutManifest(v1, m, a.manifestPut);
        if a.manifestPut.Failed? then (v2, Failure(ManifestFailed))
        else if Verified(v2, id, m) then (v2, Success(v2.manifests[gen].m))
        else (v2, Failure(Unverified))
  }

  /** An attempt whose archive was stored, spelled out. */
  lemma AfterStoredUpload(v: Vault, id: string, a: Attempt, f: Archive.Forest)
    requires a.source == Some(f) && a.archivePut == Stored
    ensures var o := ArchiveObject(Archive.WriteArchive(f), a.bytes);
            var m := ManifestOf(id, a.expected + 1, o);
            var w := PutManifest(PutArchive(v, a.expected + 1, o, Stored), m, a.manifestPut);
            AfterCheck(v, id, a) ==
              (w, if a.manifestPut.Failed? then Failure(ManifestFailed)
                  else if Verified(w, id, m) then Success(w.manifests[m.generation].m) else Failure(Unverified))
  {
  }

  /** What an attempt puts under its archive key, and how that upload ends. */
  function Uploaded(a: Attempt): (Object, PutOutcome) {
    if a.source.None? then (Junk([]), BrokenStream(a.archivePut))
    else (ArchiveObject(Archive.WriteArchive(a.source.value), a.bytes), a.archivePut)
  }

  /** An attempt whose archive upload failed, spelled out. */
  lemma AfterFailedUpload(v: Vault, id: string, a: Attempt)
    requires a.source.Some? ==> a.archivePut.Failed?
    ensures AfterCheck(v, id, a) == (PutArchive(v, a.expected + 1, Uploaded(a).0, Uploaded(a).1),
                                     Failure(if a.source.None? then ArchiveFailed else UploadFailed))
  {
  }

  ghost predicate CommitsTree(v: Vault, id: string, f: Archive.Forest, g: nat) {
    && Complete(v, id, g)
    && v.archives[g].ArchiveObject? && v.archives[g].entries == Archive.WriteArchive(f)
  }

  /** One attempt, however it ends. */
  lemma CommitStep(v: Vault, id: string, a: Attempt)
    requires Sound(v, id) && GapFree(v, id)
    ensures var (w, r) := Commit(v, id, a);
            var h := HeadGen(v, id);
            && Sound(w, id) && GapFree(w, id) && Preserves(v, w, id)
            && h <= HeadGen(w, id) <= h + 1
            && (r == Failure(GenerationConflict) <==> a.expected != h)
            && (r.Success? <==> a.expected == h && a.source.Some? && a.archivePut == Stored && a.manifestPut == Stored)
            && (r.Success? ==> r.value.generation == h + 1)
            && (HeadGen(w, id) == h + 1 ==> a.source.Some? && CommitsTree(w, id, a.source.value, h + 1))
            && (r.Success? ==> HeadGen(w, id) == h + 1)
  {
    var h := HeadGen(v, id);
    if a.expected == h {
      match a.source
      case None =>
        ArchivePutHarmless(v, id, Junk([]), BrokenStream(a.archivePut));
      case Some(f) =>
        var o := ArchiveObject(Archive.WriteArchive(f), a.bytes);
        ArchivePutHarmless(v, id, o, a.archivePut);
        if a.archivePut == Stored {
          Published(v, id, a, f);
        }
    }
  }

  /** The part of an attempt after its archive was stored. */
  lemma Published(v: Vault, id: string, a: Attempt, f: Archive.Forest)
    requires Sound(v, id) && GapFree(v, id)
    requires a.expected == HeadGen(v, id) && a.source == Some(f) && a.archivePut == Stored
    ensures var o := ArchiveObject(Archive.WriteArchive(f), a.bytes);
            var m := ManifestOf(id, a.expected + 1, o);
            var w := PutManifest(PutArchive(v, a.expected + 1, o, Stored), m, a.manifestPut);
            && Commit(v, id, a) == (w, if a.manifestPut == Stored then Success(m) else Failure(ManifestFailed))
            && Sound(w, id) && GapFree(w, id) && Preserves(v, w, id)
            && HeadGen(w, id) == (if Lands(a.manifestPut) then a.expected + 1 else a.expected)
            && (Lands(a.manifestPut) ==> CommitsTree(w, id, f, a.expected + 1))
  {
    var o := ArchiveObject(Archive.WriteArchive(f), a.bytes);
    var v1 := PutArchive(v, a.expected + 1, o, Stored);
    var m := ManifestOf(id, a.expected + 1, o);
    ArchivePutHarmless(v, id, o, Stored);
    ManifestPutDecides(v1, id, m, a.manifestPut);
    HeadIsGreatest(PutManifest(v1, m, a.manifestPut), id);
  }

  /** Any history of commit attempts on one pack. */
  ghost predicate History(vs: seq<Vault>, id: string, attempts: seq<Attempt>) {
    && |vs| == |attempts| + 1
    && vs[0] == EMPTY
    && forall i :: 0 <= i < |attempts| ==> vs[i + 1] == Commit(vs[i], id, attempts[i]).0
  }

  lemma {:induction false} HistoryStep(vs: seq<Vault>, id: string, attempts: seq<Attempt>, i: nat)
    requires History(vs, id, attempts) && i < |vs|
    ensures Sound(vs[i], id) && GapFree(vs[i], id)
  {
    if i == 0 {
      EmptySound(id);
    } else {
      HistoryStep(vs, id, attempts, i - 1);
      CommitStep(vs[i - 1], id, attempts[i - 1]);
      assert vs[i - 1 + 1] == Commit(vs[i - 1], id, attempts[i - 1]).0;
    }
  }

  /** Commit is crash-safe. Over any history of attempts with any expectations, torn or falsely
      failed uploads and stops in between: the complete generations are always 1, 2, ..., head,
      every decodable manifest has its matching archive, and a complete generation is never
      altered or lost, so the head never goes backwards. */
  lemma {:induction false} CommitHistorySafe(vs: seq<Vault>, id: string, attempts: seq<Attempt>, i: nat, j: nat)
    requires History(vs, id, attempts) && i <= j < |vs|
    ensures Sound(vs[j], id) && GapFree(vs[j], id)
    ensures Preserves(vs[i], vs[j], id)
    ensures HeadGen(vs[i], id) <= HeadGen(vs[j], id)
    decreases j - i
  {
    HistoryStep(vs, id, attempts, j);
    if i == j {
    } else {
      CommitHistorySafe(vs, id, attempts, i, j - 1);
      HistoryStep(vs, id, attempts, j - 1);
      CommitStep(vs[j - 1], id, attempts[j - 1]);
      assert vs[j - 1 + 1] == Commit(vs[j - 1], id, attempts[j - 1]).0;
    }
  }

  /** The single-committer hypothesis is needed. Two committers check the head of an empty store;
      the first then commits successfully; the second, past its check, tears its upload, and the
      only complete generation is gone. */
  lemma TwoCommittersLoseAGeneration(id: string, a: Attempt, b: Attempt, torn: seq<byte>)
    requires a.expected == 0 && a.source.Some? && a.archivePut == Stored && a.manifestPut == Stored
    requires b.expected == 0 && b.source.Some? && b.archivePut == Failed(Torn(torn))
    ensures HeadGen(EMPTY, id) == a.expected == b.expected
    ensures Commit(EMPTY, id, a) == AfterCheck(EMPTY, id, a) && Commit(EMPTY, id, a).1.Success?
    ensures HeadGen(Commit(EMPTY, id, a).0, id) == 1
    ensures HeadGen(AfterCheck(Commit(EMPTY, id, a).0, id, b).0, id) == 0
  {
    EmptySound(id);
    CommitStep(EMPTY, id, a);
    OnlyGenerationOne(id, a);
    var v := Commit(EMPTY, id, a).0;
    var w := AfterCheck(v, id, b).0;
    assert w == PutArchive(v, 1, ArchiveObject(Archive.WriteArchive(b.source.value), b.bytes), b.archivePut);
    assert forall n: nat :: !Complete(w, id, n);
    HeadUnique(w, id, 0);
  }

  lemma OnlyGenerationOne(id: string, a: Attempt)
    requires a.expected == 0 && a.source.Some? && a.archivePut == Stored && a.manifestPut == Stored
    ensures HeadGen(EMPTY, id) == 0
    ensures var o := ArchiveObject(Archive.WriteArchive(a.source.value), a.bytes);
            Commit(EMPTY, id, a).0 == Vault(map[1 := o], map[1 := ManifestObject(ManifestOf(id, 1, o))])
  {
    EmptySound(id);
    Published(EMPTY, id, a, a.source.value);
  }
}
