/** ArchiveStore over a backend of string keys (internal/store/store.go). Its methods work on
    keys as the program does; their contracts say what that means in generation numbers. */
module Store {
  import opened Wrappers
  import opened Paths
  import opened Strings
  import opened Keys
  import opened Archive
  import opened Generations
  import RoundTrip

  type Objects = map<string, Object>

  /** What Head can decode at a key: JSON numbers beyond 64 bits do not decode. */
  predicate Decodes(o: Object) {
    o.ManifestObject? && o.m.generation < GENERATIONS
  }

  // In what follows `k` names the objects of pack `id`.

  /** The manifest under `key` describes `id` and its archive is present and matches. */
  predicate Candidate(objects: Objects, id: string, k: Naming, key: string) {
    && key in objects && HasPrefix(key, k.prefix) && HasSuffix(key, ".json")
    && Decodes(objects[key]) && Matches(objects, id, k, objects[key].m)
  }

  predicate Matches(objects: Objects, id: string, k: Naming, m: Manifest) {
    && m.id == id && m.generation > 0
    && k.archive(m.generation) in objects
    && Size(objects[k.archive(m.generation)]) == m.size
    && Sha256(objects[k.archive(m.generation)]) == m.sha
  }

  ghost predicate GreatestCandidate(objects: Objects, id: string, k: Naming, key: string) {
    && Candidate(objects, id, k, key)
    && forall other :: Candidate(objects, id, k, other) ==> other == key || LexLess(other, key)
  }

  /** What Head reports, whatever the store contains: the manifest under the greatest key that
      passes its test. */
  ghost function HeadOf(objects: Objects, id: string, k: Naming): Option<Manifest> {
    if key :| GreatestCandidate(objects, id, k, key) then Some(objects[key].m) else None
  }

  lemma GreatestUnique(objects: Objects, id: string, k: Naming, key: string)
    requires GreatestCandidate(objects, id, k, key)
    ensures HeadOf(objects, id, k) == Some(objects[key].m)
  {
    forall other | GreatestCandidate(objects, id, k, other) ensures other == key {
      LexTotal(key, other);
    }
  }

  /** The objects found under generation-numbered keys. */
  ghost function Gather(objects: Objects, name: nat -> string): map<nat, Object> {
    map n: nat | n < GENERATIONS && name(n) in objects :: objects[name(n)]
  }

  /** The vault that the keys of one pack stand for. */
  ghost function VaultOf(objects: Objects, k: Naming): Vault {
    Vault(Gather(objects, k.archive), Gather(objects, k.manifest))
  }

  /** Every manifest of the pack lies under the key of its own generation: what Commit writes. */
  ghost predicate Canonical(objects: Objects, id: string, k: Naming) {
    forall key :: key in objects && HasPrefix(key, k.prefix) && HasSuffix(key, ".json") && Decodes(objects[key]) ==>
                    objects[key].m.id == id ==> key == k.manifest(objects[key].m.generation)
  }

  lemma HeadMatches(objects: Objects, id: string, k: Naming)
    ensures HeadOf(objects, id, k).Some? ==> Matches(objects, id, k, HeadOf(objects, id, k).value)
  {
  }

  /** The entries of the archive that Head's manifest names, if that object is an archive. */
  ghost function Restorable(objects: Objects, id: string, k: Naming): Option<seq<Entry>> {
    HeadMatches(objects, id, k);
    var head := HeadOf(objects, id, k);
    if head.None? || !objects[k.archive(head.value.generation)].ArchiveObject? then None
    else Some(objects[k.archive(head.value.generation)].entries)
  }

  lemma CandidateIsComplete(objects: Objects, id: string, k: Naming, key: string)
    requires Canonical(objects, id, k) && Candidate(objects, id, k, key)
    ensures var n := objects[key].m.generation;
            && key == k.manifest(n) && Complete(VaultOf(objects, k), id, n)
            && VaultOf(objects, k).manifests[n] == objects[key]
  {
  }

  lemma CompleteIsCandidate(objects: Objects, id: string, k: Naming, n: nat)
    requires Lawful(k) && Complete(VaultOf(objects, k), id, n)
    ensures n < GENERATIONS && Candidate(objects, id, k, k.manifest(n))
  {
  }

  /** Head returns the numerically greatest complete generation, or none exactly when there is
      none, because keys order as generations. */
  lemma HeadRefines(objects: Objects, id: string, k: Naming)
    requires Lawful(k) && Canonical(objects, id, k)
    ensures var v := VaultOf(objects, k);
            var g := HeadGen(v, id);
            && (g == 0 ==> HeadOf(objects, id, k) == None)
            && (g > 0 ==> g in v.manifests && v.manifests[g].ManifestObject?
                          && v.manifests[g].m.generation == g && HeadOf(objects, id, k) == Some(v.manifests[g].m))
  {
    var v := VaultOf(objects, k);
    var g := HeadGen(v, id);
    HeadIsGreatest(v, id);
    forall key | Candidate(objects, id, k, key) ensures 0 < objects[key].m.generation <= g {
      CandidateIsComplete(objects, id, k, key);
    }
    if g > 0 {
      CompleteIsCandidate(objects, id, k, g);
      HeadKeyGreatest(objects, id, k, g);
      GreatestUnique(objects, id, k, k.manifest(g));
    }
  }

  lemma HeadKeyGreatest(objects: Objects, id: string, k: Naming, g: nat)
    requires Lawful(k) && Canonical(objects, id, k) && g < GENERATIONS
    requires Candidate(objects, id, k, k.manifest(g))
    requires forall key :: Candidate(objects, id, k, key) ==> objects[key].m.generation <= g
    ensures GreatestCandidate(objects, id, k, k.manifest(g))
  {
    forall other | Candidate(objects, id, k, other) ensures other == k.manifest(g) || LexLess(other, k.manifest(g)) {
      assert other == k.manifest(objects[other].m.generation);
    }
  }

  lemma GatherWrite(objects: Objects, name: nat -> string, n: nat, o: Object)
    requires n < GENERATIONS
    requires forall m: nat :: m < GENERATIONS ==> (name(m) == name(n) <==> m == n)
    ensures Gather(objects[name(n) := o], name) == Gather(objects, name)[n := o]
  {
  }

  lemma GatherOther(objects: Objects, name: nat -> string, key: string, o: Object)
    requires forall m: nat :: m < GENERATIONS ==> name(m) != key
    ensures Gather(objects[key := o], name) == Gather(objects, name)
  {
  }

  /** Writing under an archive key. */
  lemma ArchiveWrite(objects: Objects, id: string, k: Naming, n: nat, o: Object)
    requires n < GENERATIONS && Lawful(k) && Canonical(objects, id, k)
    ensures Canonical(objects[k.archive(n) := o], id, k)
    ensures VaultOf(objects[k.archive(n) := o], k)
            == VaultOf(objects, k).(archives := VaultOf(objects, k).archives[n := o])
  {
    var w := objects[k.archive(n) := o];
    assert Gather(w, k.archive) == Gather(objects, k.archive)[n := o] by {
      GatherWrite(objects, k.archive, n, o);
    }
    assert Gather(w, k.manifest) == Gather(objects, k.manifest) by {
      GatherOther(objects, k.manifest, k.archive(n), o);
    }
    StillCanonical(objects, id, k, k.archive(n), o);
  }

  /** A write outside a pack's manifest keys. */
  lemma StillCanonical(objects: Objects, id: string, k: Naming, key: string, o: Object)
    requires Canonical(objects, id, k) && (HasPrefix(key, k.prefix) ==> !HasSuffix(key, ".json"))
    ensures Canonical(objects[key := o], id, k)
  {
  }

  /** Writing a manifest of generation `n`, or something undecodable, under its own key. */
  lemma ManifestWrite(objects: Objects, id: string, k: Naming, n: nat, o: Object)
    requires n < GENERATIONS && Lawful(k) && Canonical(objects, id, k)
    requires o.ManifestObject? ==> o.m.id == id && o.m.generation == n
    ensures Canonical(objects[k.manifest(n) := o], id, k)
    ensures VaultOf(objects[k.manifest(n) := o], k)
            == VaultOf(objects, k).(manifests := VaultOf(objects, k).manifests[n := o])
  {
    var w := objects[k.manifest(n) := o];
    assert Gather(w, k.manifest) == Gather(objects, k.manifest)[n := o] by {
      GatherWrite(objects, k.manifest, n, o);
    }
    assert Gather(w, k.archive) == Gather(objects, k.archive) by {
      GatherOther(objects, k.archive, k.manifest(n), o);
    }
    forall key | key in w && HasPrefix(key, k.prefix) && HasSuffix(key, ".json") && Decodes(w[key]) && w[key].m.id == id
      ensures key == k.manifest(w[key].m.generation)
    {
      assert key != k.manifest(n) ==> key in objects && objects[key] == w[key];
    }
  }

  /** Writing under a key of one pack leaves every other pack's vault alone. */
  lemma OtherPackUntouched(objects: Objects, k: Naming, l: Naming, other: string, key: string, o: Object)
    requires Lawful(l) && Apart(k, l) && HasPrefix(key, k.prefix)
    ensures VaultOf(objects[key := o], l) == VaultOf(objects, l)
    ensures Canonical(objects, other, l) ==> Canonical(objects[key := o], other, l)
  {
    assert Gather(objects[key := o], l.archive) == Gather(objects, l.archive) by {
      GatherOther(objects, l.archive, key, o);
    }
    assert Gather(objects[key := o], l.manifest) == Gather(objects, l.manifest) by {
      GatherOther(objects, l.manifest, key, o);
    }
    if Canonical(objects, other, l) {
      StillCanonical(objects, other, l, key, o);
    }
  }

  function Stores(objects: Objects, key: string, o: Object, outcome: PutOutcome): Objects {
    match outcome
    case Stored => objects[key := o]
    case Failed(Whole) => objects[key := o]
    case Failed(Torn(content)) => objects[key := Junk(content)]
    case Failed(Untouched) => objects
  }

  lemma AfterArchivePut(objects: Objects, id: string, k: Naming, gen: nat, o: Object, outcome: PutOutcome)
    requires gen < GENERATIONS && Lawful(k) && Canonical(objects, id, k)
    ensures var w := Stores(objects, k.archive(gen), o, outcome);
            Canonical(w, id, k) && VaultOf(w, k) == PutArchive(VaultOf(objects, k), gen, o, outcome)
  {
    match outcome
    case Failed(Untouched) =>
    case Failed(Torn(content)) => ArchiveWrite(objects, id, k, gen, Junk(content));
    case _ => ArchiveWrite(objects, id, k, gen, o);
  }

  lemma AfterManifestPut(objects: Objects, id: string, k: Naming, m: Manifest, outcome: PutOutcome)
    requires m.generation < GENERATIONS && m.id == id && Lawful(k) && Canonical(objects, id, k)
    ensures var w := Stores(objects, k.manifest(m.generation), ManifestObject(m), outcome);
            Canonical(w, id, k) && VaultOf(w, k) == PutManifest(VaultOf(objects, k), m, outcome)
  {
    match outcome
    case Failed(Untouched) =>
    case Failed(Torn(content)) => ManifestWrite(objects, id, k, m.generation, Junk(content));
    case _ => ManifestWrite(objects, id, k, m.generation, ManifestObject(m));
  }

  lemma OthersAfterPut(objects: Objects, k: Naming, l: Naming, other: string, key: string, o: Object,
                       outcome: PutOutcome)
    requires Lawful(l) && Apart(k, l) && HasPrefix(key, k.prefix)
    ensures VaultOf(Stores(objects, key, o, outcome), l) == VaultOf(objects, l)
    ensures Canonical(objects, other, l) ==> Canonical(Stores(objects, key, o, outcome), other, l)
  {
    match outcome
    case Failed(Untouched) =>
    case Failed(Torn(content)) => OtherPackUntouched(objects, k, l, other, key, Junk(content));
    case _ => OtherPackUntouched(objects, k, l, other, key, o);
  }

  /** What can go wrong while Head reads: the listing fails, or single objects cannot be opened or
      read to their end; Head passes over those without a word. */
  datatype ReadFaults = ReadFaults(listFails: bool, unreadable: set<string>)

  /** The reads of Commit's head check and of its final verification. */
  datatype CommitFaults = CommitFaults(check: ReadFaults, verify: ReadFaults)

  const CLEAN := ReadFaults(false, {})
  const CLEAN_READS := CommitFaults(CLEAN, CLEAN)

  /** What Head returns; none when the listing fails. */
  ghost function HeadRead(objects: Objects, id: string, k: Naming, faults: ReadFaults): Option<Option<Manifest>> {
    if faults.listFails then None else Some(HeadOf(objects - faults.unreadable, id, k))
  }

  lemma CleanHead(objects: Objects, id: string, k: Naming)
    ensures HeadRead(objects, id, k, CLEAN) == Some(HeadOf(objects, id, k))
  {
    assert objects - {} == objects;
  }

  /** Head with unreadable objects never reports more than is there: its answer is a complete
      generation of the store, at most the true head. */
  lemma UnreadableHeadIsOlder(objects: Objects, id: string, k: Naming, faults: ReadFaults)
    requires Lawful(k) && Canonical(objects, id, k) && !faults.listFails
    ensures var head := HeadRead(objects, id, k, faults).value;
            head.Some? ==>
              && Complete(VaultOf(objects, k), id, head.value.generation)
              && head.value.generation <= HeadGen(VaultOf(objects, k), id)
  {
    var visible := objects - faults.unreadable;
    if key :| GreatestCandidate(visible, id, k, key) {
      GreatestUnique(visible, id, k, key);
      assert Candidate(objects, id, k, key);
      CandidateIsComplete(objects, id, k, key);
      HeadIsGreatest(VaultOf(objects, k), id);
    }
  }

  predicate Presents(head: Option<Manifest>, expected: nat) {
    if head.Some? then head.value.generation == expected else expected == 0
  }

  /** Commit on keys: what it leaves in the store and what it returns. */
  ghost function CommitOn(objects: Objects, id: string, k: Naming, a: Attempt, faults: CommitFaults)
    : (Objects, Result<Manifest, CommitError>)
  {
    var head := HeadRead(objects, id, k, faults.check);
    if head.None? then (objects, Failure(HeadUnreadable))
    else if !Presents(head.value, a.expected) then (objects, Failure(GenerationConflict))
    else
      var gen := a.expected + 1;
      match a.source
      case None => (Stores(objects, k.archive(gen), Junk([]), BrokenStream(a.archivePut)), Failure(ArchiveFailed))
      case Some(f) =>
        var o := ArchiveObject(WriteArchive(f), a.bytes);
        var uploaded := Stores(objects, k.archive(gen), o, a.archivePut);
        if a.archivePut.Failed? then (uploaded, Failure(UploadFailed))
        else PublishOn(uploaded, id, k, ManifestOf(id, gen, o), a.manifestPut, faults.verify)
  }

  predicate SameBackup(head: Option<Manifest>, m: Manifest) {
    head.Some? && head.value.generation == m.generation && head.value.sha == m.sha && head.value.size == m.size
  }

  ghost function PublishOn(objects: Objects, id: string, k: Naming, m: Manifest, outcome: PutOutcome,
                           faults: ReadFaults)
    : (Objects, Result<Manifest, CommitError>)
  {
    var stored := Stores(objects, k.manifest(m.generation), ManifestObject(m), outcome);
    var head := HeadRead(stored, id, k, faults);
    if outcome.Failed? then (stored, Failure(ManifestFailed))
    else if head.None? || !SameBackup(head.value, m) then (stored, Failure(Unverified))
    else (stored, Success(head.value.value))
  }

  lemma PublishRefines(objects: Objects, id: string, k: Naming, m: Manifest, outcome: PutOutcome)
    requires m.generation < GENERATIONS && m.generation > 0 && m.id == id && Lawful(k) && Canonical(objects, id, k)
    ensures var (w, r) := PublishOn(objects, id, k, m, outcome, CLEAN);
            var v := PutManifest(VaultOf(objects, k), m, outcome);
            && Canonical(w, id, k) && VaultOf(w, k) == v
            && r == if outcome.Failed? then Failure(ManifestFailed)
                    else if Verified(v, id, m) then Success(v.manifests[m.generation].m) else Failure(Unverified)
  {
    var w := Stores(objects, k.manifest(m.generation), ManifestObject(m), outcome);
    AfterManifestPut(objects, id, k, m, outcome);
    if outcome.Stored? {
      VerdictRefines(w, id, k, m);
      PublishStored(objects, id, k, m, w);
    }
  }

  /** A stored manifest, spelled out. */
  lemma PublishStored(objects: Objects, id: string, k: Naming, m: Manifest, w: Objects)
    requires w == Stores(objects, k.manifest(m.generation), ManifestObject(m), Stored)
    requires HeadRead(w, id, k, CLEAN).Some?
    ensures var head := HeadRead(w, id, k, CLEAN).value;
            PublishOn(objects, id, k, m, Stored, CLEAN) ==
              (w, if SameBackup(head, m) then Success(head.value) else Failure(Unverified))
  {
  }

  /** The verification of Commit on keys is its verification on generation numbers. */
  lemma VerdictRefines(w: Objects, id: string, k: Naming, m: Manifest)
    requires Lawful(k) && Canonical(w, id, k) && m.generation > 0
    ensures var head := HeadRead(w, id, k, CLEAN);
            && head.Some?
            && (SameBackup(head.value, m) <==> Verified(VaultOf(w, k), id, m))
            && (SameBackup(head.value, m) ==> head.value.value == VaultOf(w, k).manifests[m.generation].m)
  {
    CleanHead(w, id, k);
    HeadRefines(w, id, k);
  }

  /** The attempt after the archive upload reported success. */
  lemma UploadedRefines(objects: Objects, id: string, k: Naming, a: Attempt, f: Forest)
    requires Lawful(k) && Canonical(objects, id, k) && a.expected + 1 < GENERATIONS
    requires a.source == Some(f) && a.archivePut == Stored
    ensures var gen := a.expected + 1;
            var o := ArchiveObject(WriteArchive(f), a.bytes);
            var m := ManifestOf(id, gen, o);
            var (w, r) := PublishOn(Stores(objects, k.archive(gen), o, Stored), id, k, m, a.manifestPut, CLEAN);
            Canonical(w, id, k) && (VaultOf(w, k), r) == AfterCheck(VaultOf(objects, k), id, a)
  {
    var gen := a.expected + 1;
    var o := ArchiveObject(WriteArchive(f), a.bytes);
    AfterArchivePut(objects, id, k, gen, o, Stored);
    PublishRefines(Stores(objects, k.archive(gen), o, Stored), id, k, ManifestOf(id, gen, o), a.manifestPut);
    AfterStoredUpload(VaultOf(objects, k), id, a, f);
  }

  /** The attempt when its archive upload fails, for want of a source or otherwise. */
  lemma FailedRefines(objects: Objects, id: string, k: Naming, a: Attempt)
    requires Lawful(k) && Canonical(objects, id, k) && a.expected + 1 < GENERATIONS
    requires a.source.Some? ==> a.archivePut.Failed?
    ensures var w := Stores(objects, k.archive(a.expected + 1), Uploaded(a).0, Uploaded(a).1);
            && Canonical(w, id, k) && VaultOf(w, k) == AfterCheck(VaultOf(objects, k), id, a).0
            && AfterCheck(VaultOf(objects, k), id, a).1
               == Failure(if a.source.None? then ArchiveFailed else UploadFailed)
  {
    AfterArchivePut(objects, id, k, a.expected + 1, Uploaded(a).0, Uploaded(a).1);
    AfterFailedUpload(VaultOf(objects, k), id, a);
  }

  /** The head check on keys is the head check on generation numbers. */
  lemma CheckRefines(objects: Objects, id: string, k: Naming, expected: nat)
    requires Lawful(k) && Canonical(objects, id, k)
    ensures HeadRead(objects, id, k, CLEAN).Some?
    ensures Presents(HeadRead(objects, id, k, CLEAN).value, expected) <==> HeadGen(VaultOf(objects, k), id) == expected
  {
    CleanHead(objects, id, k);
    HeadRefines(objects, id, k);
  }

  /** Commit on keys, with reads that work, refines the attempt on generation numbers. */
  lemma CommitRefines(objects: Objects, id: string, k: Naming, a: Attempt)
    requires Lawful(k) && Canonical(objects, id, k) && a.expected + 1 < GENERATIONS
    ensures var (w, r) := CommitOn(objects, id, k, a, CLEAN_READS);
            Canonical(w, id, k) && (VaultOf(w, k), r) == Generations.Commit(VaultOf(objects, k), id, a)
  {
    CheckRefines(objects, id, k, a.expected);
    if HeadGen(VaultOf(objects, k), id) == a.expected {
      if a.source.Some? && a.archivePut.Stored? {
        UploadedRefines(objects, id, k, a, a.source.value);
      } else {
        FailedRefines(objects, id, k, a);
      }
    }
  }

  /** The head check saw the true head, or failed. */
  ghost predicate Honest(objects: Objects, id: string, k: Naming, check: ReadFaults) {
    var head := HeadRead(objects, id, k, check);
    head.None? || head.value == HeadOf(objects, id, k)
  }

  /** Read faults after an honest head check only make Commit report less: the store is left as it
      was, or exactly as a commit with working reads leaves it, and a success is a true one. */
  lemma FaultyReadsOnlyJudge(objects: Objects, id: string, k: Naming, a: Attempt, faults: CommitFaults)
    requires Honest(objects, id, k, faults.check)
    ensures var (w, r) := CommitOn(objects, id, k, a, faults);
            var (w', r') := CommitOn(objects, id, k, a, CLEAN_READS);
            && (w == objects || w == w')
            && (r.Success? ==> w == w')
            && (r'.Failure? && r'.error != Unverified && r.Failure? && r.error != HeadUnreadable ==> r == r')
  {
    CleanHead(objects, id, k);
  }

  /** The manifest of the first generation cannot be opened during the head check. */
  ghost function SkippingFirst(k: Naming): CommitFaults {
    CommitFaults(ReadFaults(false, {k.manifest(1)}), CLEAN)
  }

  /** A head check that passes over the true head is the one read fault that destroys a backup: a
      second attempt that expects the empty store is let through and tears the only generation. */
  lemma SkippedHeadLosesGeneration(id: string, a: Attempt, b: Attempt, torn: seq<byte>)
    requires NoSlash(id)
    requires a.expected == 0 && a.source.Some? && a.archivePut == Stored && a.manifestPut == Stored
    requires b.expected == 0 && b.source.Some? && b.archivePut == Failed(Torn(torn))
    ensures var k := KeysOf(id);
            var objects := CommitOn(map[], id, k, a, CLEAN_READS).0;
            && HeadGen(VaultOf(objects, k), id) == 1
            && HeadGen(VaultOf(CommitOn(objects, id, k, b, SkippingFirst(k)).0, k), id) == 0
  {
    var k := KeysOf(id);
    KeysLawful(id);
    SkippedHead(id, k, a, b, torn);
  }

  lemma SkippedHead(id: string, k: Naming, a: Attempt, b: Attempt, torn: seq<byte>)
    requires Lawful(k)
    requires a.expected == 0 && a.source.Some? && a.archivePut == Stored && a.manifestPut == Stored
    requires b.expected == 0 && b.source.Some? && b.archivePut == Failed(Torn(torn))
    ensures var objects := CommitOn(map[], id, k, a, CLEAN_READS).0;
            && HeadGen(VaultOf(objects, k), id) == 1
            && HeadGen(VaultOf(CommitOn(objects, id, k, b, SkippingFirst(k)).0, k), id) == 0
  {
    var objects := CommitOn(map[], id, k, a, CLEAN_READS).0;
    FirstCommit(id, k, a);
    TwoCommittersLoseAGeneration(id, a, b, torn);
    NothingVisible(objects, id, k);
    LetThrough(objects, id, k, b, SkippingFirst(k));
    FailedRefines(objects, id, k, b);
  }

  lemma FirstCommit(id: string, k: Naming, a: Attempt)
    requires Lawful(k)
    requires a.expected == 0 && a.source.Some? && a.archivePut == Stored && a.manifestPut == Stored
    ensures var objects := CommitOn(map[], id, k, a, CLEAN_READS).0;
            && Canonical(objects, id, k) && VaultOf(objects, k) == Generations.Commit(EMPTY, id, a).0
            && VaultOf(objects, k).manifests.Keys == {1}
  {
    EmptyStore(id, k);
    CommitRefines(map[], id, k, a);
    OnlyGenerationOne(id, a);
  }

  lemma LetThrough(objects: Objects, id: string, k: Naming, b: Attempt, faults: CommitFaults)
    requires HeadRead(objects, id, k, faults.check) == Some(None)
    requires b.expected == 0 && b.source.Some? && b.archivePut.Failed?
    ensures CommitOn(objects, id, k, b, faults).0
            == Stores(objects, k.archive(b.expected + 1), Uploaded(b).0, Uploaded(b).1)
  {
  }

  lemma NothingVisible(objects: Objects, id: string, k: Naming)
    requires Lawful(k) && Canonical(objects, id, k)
    requires VaultOf(objects, k).manifests.Keys == {1}
    ensures HeadOf(objects - {k.manifest(1)}, id, k) == None
  {
    var visible := objects - {k.manifest(1)};
    forall key ensures !Candidate(visible, id, k, key) {
      if Candidate(visible, id, k, key) {
        assert Candidate(objects, id, k, key);
        CandidateIsComplete(objects, id, k, key);
      }
    }
  }

  /** `w` looks the same as `objects` through the keys of another pack. */
  ghost predicate SameFor(objects: Objects, w: Objects, other: string, l: Naming) {
    VaultOf(w, l) == VaultOf(objects, l) && (Canonical(objects, other, l) ==> Canonical(w, other, l))
  }

  lemma PutTouchesOnePack(objects: Objects, k: Naming, l: Naming, other: string, key: string, o: Object,
                          outcome: PutOutcome)
    requires Lawful(l) && Apart(k, l) && HasPrefix(key, k.prefix)
    ensures SameFor(objects, Stores(objects, key, o, outcome), other, l)
  {
    OthersAfterPut(objects, k, l, other, key, o, outcome);
  }

  /** Commit writes at most one archive key and then one manifest key of its own pack. */
  lemma CommitWrites(objects: Objects, id: string, k: Naming, a: Attempt, faults: CommitFaults)
    returns (o: Object, archivePut: PutOutcome, m: Manifest, manifestPut: PutOutcome)
    ensures CommitOn(objects, id, k, a, faults).0 ==
            Stores(Stores(objects, k.archive(a.expected + 1), o, archivePut),
                   k.manifest(m.generation), ManifestObject(m), manifestPut)
  {
    o := if a.source.Some? then ArchiveObject(WriteArchive(a.source.value), a.bytes) else Junk([]);
    m := ManifestOf(id, a.expected + 1, o);
    var w := CommitOn(objects, id, k, a, faults).0;
    manifestPut := Failed(Untouched);
    if w == objects {
      archivePut := Failed(Untouched);
    } else {
      archivePut := if a.source.Some? then a.archivePut else BrokenStream(a.archivePut);
      if a.source.Some? && a.archivePut.Stored? {
        manifestPut := a.manifestPut;
      }
    }
  }

  /** Commit for one pack leaves every other pack's backups alone. */
  lemma CommitTouchesOnePack(objects: Objects, id: string, k: Naming, a: Attempt, faults: CommitFaults, other: string,
                             l: Naming)
    requires Lawful(k) && Lawful(l) && Apart(k, l)
    ensures SameFor(objects, CommitOn(objects, id, k, a, faults).0, other, l)
  {
    var o, archivePut, m, manifestPut := CommitWrites(objects, id, k, a, faults);
    var key := k.archive(a.expected + 1);
    PutTouchesOnePack(objects, k, l, other, key, o, archivePut);
    var uploaded := Stores(objects, key, o, archivePut);
    PutTouchesOnePack(uploaded, k, l, other, k.manifest(m.generation), ManifestObject(m), manifestPut);
  }

  // --------------------------------------------------------------------- sorting

  ghost predicate Descending(s: seq<string>) {
    forall i, j :: 0 <= i < j < |s| ==> s[i] == s[j] || LexLess(s[j], s[i])
  }

  /** The reversed string sort of Head, specified by what a sort promises. */
  method SortDescending(keys: seq<string>) returns (s: seq<string>)
    ensures Descending(s) && multiset(s) == multiset(keys)
  {
    s := [];
    for i := 0 to |keys|
      invariant Descending(s) && multiset(s) == multiset(keys[..i])
    {
      s := Insert(s, keys[i]);
      assert keys[..i + 1] == keys[..i] + [keys[i]];
    }
    assert keys[..|keys|] == keys;
  }

  method Insert(s: seq<string>, key: string) returns (r: seq<string>)
    requires Descending(s)
    ensures Descending(r) && multiset(r) == multiset(s) + multiset{key}
  {
    var i := 0;
    while i < |s| && LexLess(key, s[i])
      invariant 0 <= i <= |s|
      invariant forall j :: 0 <= j < i ==> LexLess(key, s[j])
    {
      i := i + 1;
    }
    r := s[..i] + [key] + s[i..];
    InsertedDescending(s, key, i);
    assert s == s[..i] + s[i..];
  }

  lemma InsertedDescending(s: seq<string>, key: string, i: nat)
    requires Descending(s) && i <= |s|
    requires forall j :: 0 <= j < i ==> LexLess(key, s[j])
    requires i < |s| ==> !LexLess(key, s[i])
    ensures Descending(s[..i] + [key] + s[i..])
  {
    var r := s[..i] + [key] + s[i..];
    forall a, b | 0 <= a < b < |r| ensures r[a] == r[b] || LexLess(r[b], r[a]) {
      if a == i {
        LexTotal(key, s[i]);
        if b - 1 > i {
          assert s[i] == s[b - 1] || LexLess(s[b - 1], s[i]);
          if LexLess(s[b - 1], s[i]) && LexLess(s[i], key) {
            LexTransitive(s[b - 1], s[i], key);
          }
        }
      }
    }
  }

  // ------------------------------------------------------------------- the store

  /** A destination directory on the volume. */
  class Directory {
    var content: Option<Fs>
  }

  /** Where the volume fails a restore, if it does: no staging directory, no writing of one of the
      archive's entries, no look at the destination, or no renaming onto it. */
  datatype VolumeFault = NoTrouble | NoStaging | NoWrite(entry: nat) | NoStat | NoRename

  /** The volume ends a restore before the archive of `n` entries is extracted. */
  predicate Interrupts(volume: VolumeFault, n: nat) {
    volume.NoStaging? || (volume.NoWrite? && volume.entry < n)
  }

  datatype RestoreFailure =
    | HeadFailed
    | NoBackup
    | Backend
    | BadArchive
    | Volume
    | Refused(error: RestoreError)
    | ChecksumMismatch
    | AlreadyExists

  class ArchiveStore {
    var objects: Objects

    constructor ()
      ensures objects == map[]
    {
      objects := map[];
    }

    /** Backend.List: the keys below a prefix, in no particular order. */
    method List(prefix: string) returns (keys: seq<string>)
      ensures forall key :: key in keys <==> key in objects && HasPrefix(key, prefix)
    {
      keys := [];
      var rest := objects.Keys;
      while rest != {}
        invariant rest <= objects.Keys
        invariant forall key :: key in keys <==> key in objects.Keys - rest && HasPrefix(key, prefix)
        decreases |rest|
      {
        var key :| key in rest;
        rest := rest - {key};
        if HasPrefix(key, prefix) {
          keys := keys + [key];
        }
      }
    }

    /** Backend.Put, with the way it ends as an input. */
    method Put(key: string, o: Object, outcome: PutOutcome) returns (ok: bool)
      modifies this
      ensures ok <==> outcome == Stored
      ensures objects == Stores(old(objects), key, o, outcome)
    {
      match outcome {
        case Stored =>
          objects := objects[key := o];
          ok := true;
        case Failed(effect) =>
          ok := false;
          match effect {
            case Whole => objects := objects[key := o];
            case Torn(content) => objects := objects[key := Junk(content)];
            case Untouched =>
          }
      }
    }

    /** Head; none when the listing fails. */
    method Head(id: string, faults: ReadFaults) returns (r: Option<Option<Manifest>>)
      ensures r == HeadRead(objects, id, KeysOf(id), faults)
    {
      if faults.listFails {
        return None;
      }
      var head := Scan(id, KeysOf(id), faults.unreadable);
      r := Some(head);
    }

    /** The scan of Head, for any naming of the pack's objects, passing over what it cannot read. */
    method Scan(id: string, k: Naming, unreadable: set<string>) returns (r: Option<Manifest>)
      ensures r == HeadOf(objects - unreadable, id, k)
    {
      ghost var visible := objects - unreadable;
      var keys := List(k.prefix);
      var manifests := [];
      for i := 0 to |keys|
        invariant forall key :: key in manifests <==> key in keys[..i] && HasSuffix(key, ".json")
      {
        if HasSuffix(keys[i], ".json") {
          manifests := manifests + [keys[i]];
        }
        assert keys[..i + 1] == keys[..i] + [keys[i]];
      }
      assert keys[..|keys|] == keys;
      var sorted := SortDescending(manifests);
      SameMembers(sorted, manifests);
      for i := 0 to |sorted|
        invariant forall j :: 0 <= j < i ==> !Candidate(visible, id, k, sorted[j])
      {
        assert sorted[i] in manifests;
        if sorted[i] in unreadable {
          continue;
        }
        var o := objects[sorted[i]];
        if Decodes(o) && o.m.id == id && o.m.generation > 0 {
          var archive := k.archive(o.m.generation);
          if archive !in objects || archive in unreadable {
            continue;
          }
          if Size(objects[archive]) == o.m.size && Sha256(objects[archive]) == o.m.sha {
            FirstIsGreatest(visible, id, k, sorted, i);
            GreatestUnique(visible, id, k, sorted[i]);
            return Some(o.m);
          }
        }
      }
      r := None;
      forall key ensures !Candidate(visible, id, k, key) {
        assert Candidate(visible, id, k, key) ==> key in sorted;
      }
    }

    method Commit(id: string, a: Attempt, faults: CommitFaults) returns (r: Result<Manifest, CommitError>)
      requires a.expected + 1 < GENERATIONS
      modifies this
      ensures (objects, r) == CommitOn(old(objects), id, KeysOf(id), a, faults)
    {
      var k := KeysOf(id);
      var head := Head(id, faults.check);
      if head.None? {
        return Failure(HeadUnreadable);
      }
      if (head.value.Some? && head.value.value.generation != a.expected) || (head.value.None? && a.expected != 0) {
        return Failure(GenerationConflict);
      }
      var gen := a.expected + 1;
      var o := if a.source.Some? then ArchiveObject(WriteArchive(a.source.value), a.bytes) else Junk([]);
      var outcome := if a.source.Some? then a.archivePut else BrokenStream(a.archivePut);
      var ok := Put(k.archive(gen), o, outcome);
      if a.source.None? {
        return Failure(ArchiveFailed);
      }
      if !ok {
        return Failure(UploadFailed);
      }
      r := Publish(id, k, ManifestOf(id, gen, o), a.manifestPut, faults.verify);
    }

    /** The second half of Commit: the manifest upload and the verification. */
    method Publish(id: string, k: Naming, m: Manifest, outcome: PutOutcome, faults: ReadFaults)
      returns (r: Result<Manifest, CommitError>)
      requires k == KeysOf(id)
      modifies this
      ensures (objects, r) == PublishOn(old(objects), id, k, m, outcome, faults)
    {
      var ok := Put(k.manifest(m.generation), ManifestObject(m), outcome);
      if !ok {
        return Failure(ManifestFailed);
      }
      var verified := Head(id, faults);
      if verified.None? || verified.value.None? || verified.value.value.generation != m.generation
         || verified.value.value.sha != m.sha || verified.value.value.size != m.size {
        return Failure(Unverified);
      }
      r := Success(verified.value.value);
    }

    /** Restore succeeds exactly when Head finds a generation, the object that the second open of its
        archive yields replays and has the manifest's checksum, the volume cooperates, and the
        destination does not exist; otherwise the destination is unchanged. `again` is what the
        second open yields, none when it fails. */
    method Restore(id: string, dest: Directory, tmp: string, faults: ReadFaults, again: Option<Object>,
                   volume: VolumeFault)
      returns (r: Result<Manifest, RestoreFailure>)
      modifies dest
      ensures r.Failure? ==> dest.content == old(dest.content)
      ensures r == Failure(HeadFailed) <==> faults.listFails
      ensures r == Failure(NoBackup) <==>
                !faults.listFails && HeadOf(objects - faults.unreadable, id, KeysOf(id)).None?
      ensures r == Failure(ChecksumMismatch) <==>
                && Restages(objects, id, tmp, faults, again) && !Interrupts(volume, |again.value.entries|)
                && Sha256(again.value) != HeadOf(objects - faults.unreadable, id, KeysOf(id)).value.sha
      ensures r == Failure(AlreadyExists) <==>
                && Restages(objects, id, tmp, faults, again) && !Interrupts(volume, |again.value.entries|)
                && Sha256(again.value) == HeadOf(objects - faults.unreadable, id, KeysOf(id)).value.sha
                && !volume.NoStat? && old(dest.content).Some?
      ensures r.Success? <==>
                && Restages(objects, id, tmp, faults, again) && !Interrupts(volume, |again.value.entries|)
                && Sha256(again.value) == HeadOf(objects - faults.unreadable, id, KeysOf(id)).value.sha
                && !volume.NoStat? && !volume.NoRename? && old(dest.content).None?
      ensures r.Success? ==>
                && Some(r.value) == HeadOf(objects - faults.unreadable, id, KeysOf(id))
                && dest.content == Some(Replay(tmp, map[], again.value.entries).value)
                && Restorable(objects - faults.unreadable, id, KeysOf(id)) == Some(again.value.entries)
    {
      var head := Head(id, faults);
      if head.None? {
        return Failure(HeadFailed);
      }
      if head.value.None? {
        return Failure(NoBackup);
      }
      if again.None? {
        return Failure(Backend);
      }
      if volume.NoStaging? {
        return Failure(Volume);
      }
      if !again.value.ArchiveObject? {
        return Failure(BadArchive);
      }
      var entries := again.value.entries;
      var cut := volume.NoWrite? && volume.entry < |entries|;
      var staged := ExtractAll(tmp, if cut then entries[..volume.entry + 1] else entries);
      if staged.Failure? {
        return Failure(Refused(staged.error));
      }
      if cut {
        return Failure(Volume);
      }
      if Sha256(again.value) != head.value.value.sha {
        return Failure(ChecksumMismatch);
      }
      if volume.NoStat? {
        return Failure(Volume);
      }
      if dest.content.Some? {
        return Failure(AlreadyExists);
      }
      if volume.NoRename? {
        return Failure(Volume);
      }
      dest.content := Some(staged.value);
      r := Success(head.value.value);
      HeadMatches(objects - faults.unreadable, id, KeysOf(id));
    }
  }

  /** A restore gets as far as its checksum, if the volume lets it: Head reports a generation, and
      what the second open of its archive yields is an archive that replays. */
  ghost predicate Restages(objects: Objects, id: string, tmp: string, faults: ReadFaults, again: Option<Object>)
    ensures Restages(objects, id, tmp, faults, again) ==>
              again.Some? && again.value.ArchiveObject? && HeadOf(objects - faults.unreadable, id, KeysOf(id)).Some?
  {
    && !faults.listFails && HeadOf(objects - faults.unreadable, id, KeysOf(id)).Some?
    && again.Some? && again.value.ArchiveObject? && Replay(tmp, map[], again.value.entries).Success?
  }

  lemma SameMembers(s: seq<string>, keys: seq<string>)
    requires multiset(s) == multiset(keys)
    ensures forall k :: k in s <==> k in keys
  {
    forall k
      ensures k in s <==> k in keys
    {
      assert k in s <==> k in multiset(s);
      assert k in keys <==> k in multiset(keys);
    }
  }

  lemma FirstIsGreatest(objects: Objects, id: string, k: Naming, sorted: seq<string>, i: nat)
    requires i < |sorted| && Descending(sorted)
    requires forall key :: Candidate(objects, id, k, key) ==> key in sorted
    requires forall j :: 0 <= j < i ==> !Candidate(objects, id, k, sorted[j])
    requires Candidate(objects, id, k, sorted[i])
    ensures GreatestCandidate(objects, id, k, sorted[i])
  {
    forall other | Candidate(objects, id, k, other) ensures other == sorted[i] || LexLess(other, sorted[i]) {
      var j :| 0 <= j < |sorted| && sorted[j] == other;
      assert j >= i;
    }
  }

  /** A fresh store is canonical for every pack, and empty. */
  lemma EmptyStore(id: string, k: Naming)
    ensures Canonical(map[], id, k) && VaultOf(map[], k) == EMPTY
  {
  }

  // ---------------------------------------------------------- whole-store theorems

  /** One attempt for one of the packs that share a store. */
  datatype StoreAttempt = StoreAttempt(id: string, a: Attempt, faults: CommitFaults)

  ghost function AttemptOn(objects: Objects, at: StoreAttempt): Objects {
    CommitOn(objects, at.id, KeysOf(at.id), at.a, at.faults).0
  }

  /** Any history of attempts whose head checks see the true head or fail. */
  ghost predicate StoreHistory(os: seq<Objects>, attempts: seq<StoreAttempt>) {
    && |os| == |attempts| + 1 && os[0] == map[]
    && (forall i :: 0 <= i < |attempts| ==> NoSlash(attempts[i].id) && attempts[i].a.expected + 1 < GENERATIONS)
    && (forall i :: 0 <= i < |attempts| ==>
                      Honest(os[i], attempts[i].id, KeysOf(attempts[i].id), attempts[i].faults.check))
    && (forall i :: 0 <= i < |attempts| ==> os[i + 1] == AttemptOn(os[i], attempts[i]))
  }

  ghost predicate Healthy(objects: Objects, id: string) {
    && Canonical(objects, id, KeysOf(id))
    && Sound(VaultOf(objects, KeysOf(id)), id) && GapFree(VaultOf(objects, KeysOf(id)), id)
  }

  lemma AttemptKeepsHealth(objects: Objects, at: StoreAttempt, id: string)
    requires NoSlash(id) && NoSlash(at.id) && at.a.expected + 1 < GENERATIONS
    requires Healthy(objects, id) && Honest(objects, at.id, KeysOf(at.id), at.faults.check)
    ensures Healthy(AttemptOn(objects, at), id)
    ensures Preserves(VaultOf(objects, KeysOf(id)), VaultOf(AttemptOn(objects, at), KeysOf(id)), id)
  {
    KeysLawful(id);
    if at.id == id {
      FaultyReadsOnlyJudge(objects, id, KeysOf(id), at.a, at.faults);
      CommitRefines(objects, id, KeysOf(id), at.a);
      CommitStep(VaultOf(objects, KeysOf(id)), id, at.a);
    } else {
      KeysLawful(at.id);
      PacksApart(at.id, id);
      CommitTouchesOnePack(objects, at.id, KeysOf(at.id), at.a, at.faults, id, KeysOf(id));
    }
  }

  /** Commits of any packs, in any order, ending in any way, on one store of string keys: every
      pack's generations stay gap-free and sound, and none that was complete is ever altered. */
  lemma {:induction false} StoreHistorySafe(os: seq<Objects>, attempts: seq<StoreAttempt>, i: nat, j: nat, id: string)
    requires StoreHistory(os, attempts) && i <= j < |os| && NoSlash(id)
    ensures Healthy(os[j], id)
    ensures Preserves(VaultOf(os[i], KeysOf(id)), VaultOf(os[j], KeysOf(id)), id)
    decreases j, j - i
  {
    if j == 0 {
      EmptyStore(id, KeysOf(id));
      EmptySound(id);
    } else {
      StoreHistorySafe(os, attempts, if i < j then i else j - 1, j - 1, id);
      AttemptKeepsHealth(os[j - 1], attempts[j - 1], id);
      assert os[j - 1 + 1] == AttemptOn(os[j - 1], attempts[j - 1]);
    }
  }

  /** No complete generation of the pack is altered by an attempt with these reads. */
  ghost predicate Harmless(objects: Objects, id: string, k: Naming, a: Attempt, faults: CommitFaults) {
    Preserves(VaultOf(objects, k), VaultOf(CommitOn(objects, id, k, a, faults).0, k), id)
  }

  /** Which read faults matter. On a store that Commit has written, no attempt can alter a complete
      generation, however its uploads and its verification go, if and only if its head check fails
      or sees the true head. */
  lemma HonestExactlyHarmless(objects: Objects, id: string, check: ReadFaults)
    requires NoSlash(id) && Healthy(objects, id)
    ensures Honest(objects, id, KeysOf(id), check) <==>
            forall a: Attempt, verify: ReadFaults :: a.expected + 1 < GENERATIONS ==>
              Harmless(objects, id, KeysOf(id), a, CommitFaults(check, verify))
  {
    KeysLawful(id);
    if Honest(objects, id, KeysOf(id), check) {
      forall a: Attempt, verify: ReadFaults | a.expected + 1 < GENERATIONS
        ensures Harmless(objects, id, KeysOf(id), a, CommitFaults(check, verify))
      {
        AttemptKeepsHealth(objects, StoreAttempt(id, a, CommitFaults(check, verify)), id);
      }
    } else {
      var a := Overtaken(objects, id, KeysOf(id), check);
      assert !Harmless(objects, id, KeysOf(id), a, CommitFaults(check, CLEAN));
    }
  }

  /** After a head check that passes over the true head, an attempt that expects what the check
      reported tears the archive of the generation after it, which was complete. */
  lemma Overtaken(objects: Objects, id: string, k: Naming, check: ReadFaults) returns (a: Attempt)
    requires Lawful(k) && Canonical(objects, id, k) && GapFree(VaultOf(objects, k), id)
    requires !Honest(objects, id, k, check)
    ensures a.expected + 1 < GENERATIONS && !Harmless(objects, id, k, a, CommitFaults(check, CLEAN))
  {
    var v := VaultOf(objects, k);
    var seen := Reported(objects, id, k, check);
    var gen := seen + 1;
    assert Complete(v, id, gen);
    CompleteIsCandidate(objects, id, k, gen);
    var torn := Failed(Torn(if v.archives[gen] == Junk([]) then [0] else []));
    a := Attempt(seen, Some(Nil), 0, torn, Stored);
    AfterArchivePut(objects, id, k, gen, ArchiveObject(WriteArchive(Nil), 0), torn);
    TornIs(objects, id, k, a, check);
  }

  lemma TornIs(objects: Objects, id: string, k: Naming, a: Attempt, check: ReadFaults)
    requires a.source.Some? && a.archivePut.Failed?
    requires var head := HeadRead(objects, id, k, check);
             head.Some? && Presents(head.value, a.expected)
    ensures CommitOn(objects, id, k, a, CommitFaults(check, CLEAN)).0 ==
            Stores(objects, k.archive(a.expected + 1), ArchiveObject(WriteArchive(a.source.value), a.bytes),
                   a.archivePut)
  {
  }

  /** What a head check that is not honest reports: a generation below the true head. */
  lemma Reported(objects: Objects, id: string, k: Naming, check: ReadFaults) returns (seen: nat)
    requires Lawful(k) && Canonical(objects, id, k) && !Honest(objects, id, k, check)
    ensures !check.listFails && Presents(HeadRead(objects, id, k, check).value, seen)
    ensures seen < HeadGen(VaultOf(objects, k), id)
  {
    var head := HeadRead(objects, id, k, check).value;
    seen := if head.Some? then head.value.generation else 0;
    UnreadableHeadIsOlder(objects, id, k, check);
    HeadRefines(objects, id, k);
    if head.Some? {
      SeenIsStored(objects, id, k, check);
    }
  }

  /** Whatever Head reports is the stored manifest of its generation. */
  lemma SeenIsStored(objects: Objects, id: string, k: Naming, check: ReadFaults)
    requires Lawful(k) && Canonical(objects, id, k) && !check.listFails
    requires HeadRead(objects, id, k, check).value.Some?
    ensures var m := HeadRead(objects, id, k, check).value.value;
            var v := VaultOf(objects, k);
            m.generation in v.manifests && v.manifests[m.generation] == ManifestObject(m)
  {
    var visible := objects - check.unreadable;
    var key :| GreatestCandidate(visible, id, k, key);
    GreatestUnique(visible, id, k, key);
    assert Candidate(objects, id, k, key);
    CandidateIsComplete(objects, id, k, key);
  }

  /** A commit succeeds only after a final check that could list the store and saw the new generation
      as its head, and that is the manifest it returns; what that check cannot list or see fails. */
  lemma SuccessIsVerified(objects: Objects, id: string, k: Naming, a: Attempt, faults: CommitFaults)
    ensures var (w, r) := CommitOn(objects, id, k, a, faults);
            (r.Success? ==>
                  && !faults.check.listFails && !faults.verify.listFails
                  && a.source.Some? && a.archivePut == Stored && a.manifestPut == Stored
                  && HeadOf(w - faults.verify.unreadable, id, k) == Some(r.value)
                  && r.value.generation == a.expected + 1
                  && r.value.sha == Sha256(ArchiveObject(WriteArchive(a.source.value), a.bytes))
                  && r.value.size == a.bytes)
    ensures faults.check.listFails ==> CommitOn(objects, id, k, a, faults) == (objects, Failure(HeadUnreadable))
    ensures var r := CommitOn(objects, id, k, a, faults).1;
            var uploaded := a.source.Some? && a.archivePut == Stored && a.manifestPut == Stored;
            uploaded && !faults.check.listFails && faults.verify.listFails && r != Failure(GenerationConflict) ==>
              r == Failure(Unverified)
  {
  }

  /** Commit and Restore are inverse up to the exclusions: after a successful commit of a tree, the
      store's head restores to exactly what a backup keeps of it, or is refused if and only if that
      holds a symbolic link. */
  lemma CommitThenRestore(objects: Objects, id: string, a: Attempt, f: Forest,
                          tmp: string, rooted: bool, st: Path, ups: nat)
    requires Healthy(objects, id) && a.expected + 1 < GENERATIONS && a.source == Some(f) && WellFormed(f)
    requires Staging(tmp, rooted, st, ups)
    ensures var (w, r) := CommitOn(objects, id, KeysOf(id), a, CLEAN_READS);
            var entries := Restorable(w, id, KeysOf(id));
            r.Success? ==>
            && entries.Some?
            && (Replay(tmp, map[], entries.value).Success? <==> !HasLink(Kept(Flat([], f))))
            && (Replay(tmp, map[], entries.value).Success? ==>
                  Replay(tmp, map[], entries.value).value == Kept(Flat([], f)))
  {
    KeysLawful(id);
    if CommitOn(objects, id, KeysOf(id), a, CLEAN_READS).1.Success? {
      CommittedTree(objects, id, KeysOf(id), a, f);
    }
    RoundTrip.ArchiveRoundTrip(tmp, rooted, st, ups, f);
  }

  lemma CommittedTree(objects: Objects, id: string, k: Naming, a: Attempt, f: Forest)
    requires Lawful(k) && Canonical(objects, id, k)
    requires Sound(VaultOf(objects, k), id) && GapFree(VaultOf(objects, k), id)
    requires a.expected + 1 < GENERATIONS && a.source == Some(f) && CommitOn(objects, id, k, a, CLEAN_READS).1.Success?
    ensures Restorable(CommitOn(objects, id, k, a, CLEAN_READS).0, id, k) == Some(WriteArchive(f))
  {
    CommitRefines(objects, id, k, a);
    CommitStep(VaultOf(objects, k), id, a);
    HeadArchive(CommitOn(objects, id, k, a, CLEAN_READS).0, id, k, f);
  }

  lemma HeadArchive(objects: Objects, id: string, k: Naming, f: Forest)
    requires Lawful(k) && Canonical(objects, id, k)
    requires CommitsTree(VaultOf(objects, k), id, f, HeadGen(VaultOf(objects, k), id))
    ensures Restorable(objects, id, k) == Some(WriteArchive(f))
  {
    HeadRefines(objects, id, k);
  }
}
