/** The lock file that pins every pack's identity, and the identity recorded beside each
    instance (internal/config/lock.go, internal/runtime/manager.go). A digest is injective. */
module Identity {
  import opened Wrappers
  import opened Config

  /** The five fields that may never change under one pack ID. */
  datatype PackIdentity = PackIdentity(provider: string, projectId: string, versionId: string, fileId: int, java: int)

  datatype Digest = Sum(of: PackIdentity) | Text(text: string)

  /** The digest of a whole catalog, over its packs in the order of their IDs. */
  datatype CatalogDigest = CatalogSum(of: map<PackId, PackIdentity>) | CatalogText(text: string)

  predicate Length64(d: CatalogDigest) {
    d.CatalogText? ==> |d.text| == 64
  }

  datatype LockedPack = LockedPack(
    provider: string, projectId: string, versionId: string, fileId: int, java: int,
    slug: string, minecraft: string, loader: string, artifactHash: string, identity: Digest)

  datatype LockFile = LockFile(schema: int, catalog: CatalogDigest, packs: map<PackId, LockedPack>)

  function IdentityOf(p: Pack): PackIdentity {
    PackIdentity(p.provider, p.projectId, p.versionId, p.fileId, p.java)
  }

  function Locked(p: LockedPack): PackIdentity {
    PackIdentity(p.provider, p.projectId, p.versionId, p.fileId, p.java)
  }

  ghost function Identities(packs: map<PackId, Pack>): map<PackId, PackIdentity> {
    map id | id in packs :: IdentityOf(packs[id])
  }

  ghost function LockedIdentities(l: LockFile): map<PackId, PackIdentity> {
    map id | id in l.packs :: Locked(l.packs[id])
  }

  datatype LockError =
    | BadSchema | BadCatalogDigest | InvalidPack(id: PackId) | BadDigest(id: PackId)
    | Removed(id: PackId) | IdentityChanged(id: PackId)
    | CatalogMismatch | CountDiffers | Missing(id: PackId) | FieldsDiffer(id: PackId)

  // ---------------------------------------------------------------- Validate

  predicate Complete(p: LockedPack) {
    && p.identity != Text("") && p.projectId != ""
    && (p.provider == "modrinth" || p.provider == "curseforge")
  }

  ghost predicate Lawful(l: LockFile) {
    && l.schema == 1 && Length64(l.catalog)
    && forall id :: id in l.packs ==> Complete(l.packs[id]) && l.packs[id].identity == Sum(Locked(l.packs[id]))
  }

  /** Why a lock file is refused; packs are visited in no fixed order. */
  method Validate(l: LockFile) returns (r: Option<LockError>)
    ensures r.None? <==> Lawful(l)
    ensures r == Some(BadSchema) <==> l.schema != 1
    ensures r == Some(BadCatalogDigest) <==> l.schema == 1 && !Length64(l.catalog)
    ensures r.Some? && r.value.InvalidPack? ==> r.value.id in l.packs && !Complete(l.packs[r.value.id])
    ensures r.Some? && r.value.BadDigest? ==>
              r.value.id in l.packs && l.packs[r.value.id].identity != Sum(Locked(l.packs[r.value.id]))
  {
    if l.schema != 1 {
      return Some(BadSchema);
    }
    if !Length64(l.catalog) {
      return Some(BadCatalogDigest);
    }
    var rest := l.packs.Keys;
    while rest != {}
      invariant rest <= l.packs.Keys
      invariant forall id :: id in l.packs && id !in rest ==>
                  Complete(l.packs[id]) && l.packs[id].identity == Sum(Locked(l.packs[id]))
      decreases |rest|
    {
      var id :| id in rest;
      var p := l.packs[id];
      if !Complete(p) {
        return Some(InvalidPack(id));
      }
      var expected := Sum(PackIdentity(p.provider, p.projectId, p.versionId, p.fileId, p.java));
      if p.identity != expected {
        return Some(BadDigest(id));
      }
      rest := rest - {id};
    }
    r := None;
  }

  // ---------------------------------------------------------- CheckImmutable

  ghost predicate Extends(next: LockFile, previous: LockFile) {
    forall id :: id in previous.packs ==> id in next.packs && next.packs[id].identity == previous.packs[id].identity
  }

  method CheckImmutable(previous: LockFile, next: LockFile) returns (r: Option<LockError>)
    ensures r.None? <==> Extends(next, previous)
    ensures r.Some? && r.value.Removed? ==> r.value.id in previous.packs && r.value.id !in next.packs
    ensures r.Some? && r.value.IdentityChanged? ==>
              && r.value.id in previous.packs && r.value.id in next.packs
              && previous.packs[r.value.id].identity != next.packs[r.value.id].identity
  {
    var rest := previous.packs.Keys;
    while rest != {}
      invariant rest <= previous.packs.Keys
      invariant forall id :: id in previous.packs && id !in rest ==>
                  id in next.packs && next.packs[id].identity == previous.packs[id].identity
      decreases |rest|
    {
      var id :| id in rest;
      if id !in next.packs {
        return Some(Removed(id));
      }
      if previous.packs[id].identity != next.packs[id].identity {
        return Some(IdentityChanged(id));
      }
      rest := rest - {id};
    }
    r := None;
  }

  /** Locks as they follow each other on disk: each is valid and accepted after the one before. */
  ghost predicate Chain(locks: seq<LockFile>) {
    && (forall i :: 0 <= i < |locks| ==> Lawful(locks[i]))
    && (forall i :: 0 < i < |locks| ==> Extends(locks[i], locks[i - 1]))
  }

  ghost predicate Includes(big: map<PackId, PackIdentity>, small: map<PackId, PackIdentity>) {
    forall id :: id in small ==> id in big && big[id] == small[id]
  }

  lemma ExtendsIdentities(previous: LockFile, next: LockFile)
    requires Lawful(previous) && Lawful(next)
    ensures Extends(next, previous) <==> Includes(LockedIdentities(next), LockedIdentities(previous))
  {
    forall id | id in previous.packs && id in next.packs
      ensures next.packs[id].identity == previous.packs[id].identity
              <==> LockedIdentities(next)[id] == LockedIdentities(previous)[id]
    {
      assert previous.packs[id].identity == Sum(Locked(previous.packs[id]));
      assert next.packs[id].identity == Sum(Locked(next.packs[id]));
    }
    if Includes(LockedIdentities(next), LockedIdentities(previous)) {
      forall id | id in previous.packs
        ensures id in next.packs
      {
        assert id in LockedIdentities(previous);
      }
    }
  }

  /** Identity never drifts: along any chain of accepted updates the set of packs only grows, and
      each pack's provider, project, version, file and Java stay what they were. */
  lemma {:induction false} ChainKeepsIdentity(locks: seq<LockFile>, i: nat, j: nat)
    requires Chain(locks) && i <= j < |locks|
    ensures Includes(LockedIdentities(locks[j]), LockedIdentities(locks[i]))
    decreases j - i
  {
    if i == j {
    } else {
      ChainKeepsIdentity(locks, i, j - 1);
      ExtendsIdentities(locks[j - 1], locks[j]);
    }
  }

  // ----------------------------------------------------------------- Matches

  /** The lock that config validation and serving demand: the same packs, the same five fields. */
  method Matches(l: LockFile, packs: map<PackId, Pack>) returns (r: Option<LockError>)
    ensures r.None? <==> l.catalog == CatalogSum(Identities(packs)) && LockedIdentities(l) == Identities(packs)
    ensures r.Some? && r.value.Missing? ==> r.value.id in packs && r.value.id !in l.packs
    ensures r.Some? && r.value.FieldsDiffer? ==>
              && r.value.id in packs && r.value.id in l.packs
              && Locked(l.packs[r.value.id]) != IdentityOf(packs[r.value.id])
  {
    var digest := CatalogSum(map id | id in packs :: IdentityOf(packs[id]));
    if l.catalog != digest {
      return Some(CatalogMismatch);
    }
    if |l.packs| != |packs| {
      SameIdentitiesSameKeys(l, packs);
      return Some(CountDiffers);
    }
    var rest := packs.Keys;
    while rest != {}
      invariant rest <= packs.Keys
      invariant forall id :: id in packs && id !in rest ==>
                               id in l.packs && Locked(l.packs[id]) == IdentityOf(packs[id])
      decreases |rest|
    {
      var id :| id in rest;
      if id !in l.packs {
        assert id in Identities(packs) && id !in LockedIdentities(l);
        return Some(Missing(id));
      }
      var lp, p := l.packs[id], packs[id];
      if lp.provider != p.provider || lp.projectId != p.projectId || lp.versionId != p.versionId
         || lp.fileId != p.fileId || lp.java != p.java {
        assert Identities(packs)[id] != LockedIdentities(l)[id];
        return Some(FieldsDiffer(id));
      }
      rest := rest - {id};
    }
    CountedKeys(packs, l.packs);
    assert LockedIdentities(l) == Identities(packs);
    r := None;
  }

  lemma SameIdentitiesSameKeys(l: LockFile, packs: map<PackId, Pack>)
    ensures LockedIdentities(l) == Identities(packs) ==> l.packs.Keys == packs.Keys && |l.packs| == |packs|
  {
    assert LockedIdentities(l).Keys == l.packs.Keys && Identities(packs).Keys == packs.Keys;
    assert |l.packs| == |l.packs.Keys| && |packs| == |packs.Keys|;
  }

  /** Equal counts leave no room for a locked pack that is not configured. */
  lemma CountedKeys(packs: map<PackId, Pack>, locked: map<PackId, LockedPack>)
    requires |packs| == |locked| && packs.Keys <= locked.Keys
    ensures packs.Keys == locked.Keys
  {
    assert |packs| == |packs.Keys| && |locked| == |locked.Keys|;
    if packs.Keys != locked.Keys {
      var extra :| extra in locked.Keys && extra !in packs.Keys;
      SubsetSize(packs.Keys, locked.Keys - {extra});
    }
  }

  lemma {:induction false} SubsetSize(a: set<PackId>, b: set<PackId>)
    requires a <= b
    ensures |a| <= |b|
    decreases |a|
  {
    if a == {} {
    } else {
      var x :| x in a;
      SubsetSize(a - {x}, b - {x});
    }
  }

  /** A Matches that passes and a lock that is valid fix the digest of every configured pack. */
  lemma MatchedDigest(l: LockFile, packs: map<PackId, Pack>, id: PackId)
    requires Lawful(l) && LockedIdentities(l) == Identities(packs) && id in packs
    ensures id in l.packs && l.packs[id].identity == Sum(IdentityOf(packs[id]))
  {
    assert id in LockedIdentities(l) && LockedIdentities(l)[id] == Identities(packs)[id];
  }

  // ---------------------------------------------------------------- Generate

  /** What a provider resolves for a pack: the fields it confirms, or nothing. The two resolvers
      answer with the pack's own provider, project, and version or file. */
  datatype Resolved = Resolved(slug: string, minecraft: string, loader: string, artifactHash: string)

  /** A pack that validation accepts names a version for Modrinth and a file for CurseForge. */
  predicate Sourced(p: Pack) {
    && p.projectId != ""
    && (|| (p.provider == "modrinth" && p.versionId != "" && p.fileId == 0)
        || (p.provider == "curseforge" && p.fileId > 0 && p.versionId == ""))
  }

  function ResolvedLock(p: Pack, r: Resolved): LockedPack {
    if p.provider == "modrinth" then
      LockedPack("modrinth", p.projectId, p.versionId, 0, p.java,
                 "", r.minecraft, r.loader, r.artifactHash, Sum(IdentityOf(p)))
    else
      LockedPack("curseforge", p.projectId, "", p.fileId, p.java,
                 r.slug, r.minecraft, r.loader, r.artifactHash, Sum(IdentityOf(p)))
  }

  /** Build the lock of a catalog, given what each provider answers; any refusal refuses it all. */
  method Generate(packs: map<PackId, Pack>, answers: map<PackId, Resolved>) returns (r: Option<LockFile>)
    requires forall id :: id in packs ==> Sourced(packs[id])
    ensures r.Some? <==> packs.Keys <= answers.Keys
    ensures r.Some? ==> Lawful(r.value)
                        && r.value.catalog == CatalogSum(Identities(packs))
                        && LockedIdentities(r.value) == Identities(packs)
  {
    var locked: map<PackId, LockedPack> := map[];
    var rest := packs.Keys;
    while rest != {}
      invariant rest <= packs.Keys && locked.Keys == packs.Keys - rest
      invariant packs.Keys - rest <= answers.Keys
      invariant forall id :: id in locked ==>
                  Locked(locked[id]) == IdentityOf(packs[id]) && Complete(locked[id])
                  && locked[id].identity == Sum(IdentityOf(packs[id]))
      decreases |rest|
    {
      var id :| id in rest;
      if id !in answers {
        return None;
      }
      locked := locked[id := ResolvedLock(packs[id], answers[id])];
      rest := rest - {id};
    }
    r := Some(LockFile(1, CatalogSum(map id | id in packs :: IdentityOf(packs[id])), locked));
    assert LockedIdentities(r.value) == Identities(packs);
  }

  // ------------------------------------------------------- instance identity

  /** The record beside an instance: the digest it was prepared with, or something unreadable. */
  datatype Note = Recorded(digest: Digest) | Garbage

  datatype DiskFault = ReadFails | WriteFails

  /** The volume's records. */
  class Instances {
    var notes: map<PackId, Note>

    constructor ()
      ensures notes == map[]
    {
      notes := map[];
    }

    /** Called before every launch: compare with the record, or write it the first time. Reading
        may fail, and so may the write, which leaves no record. */
    method EnsureIdentity(id: PackId, digest: Digest, fault: Option<DiskFault>) returns (ok: bool)
      modifies this
      ensures (notes, ok) == Prepared(old(notes), id, digest, fault)
    {
      if fault.Some? && fault.value.ReadFails? {
        return false;
      }
      if id in notes {
        ok := notes[id] == Recorded(digest);
        return;
      }
      if fault.Some? {
        return false;
      }
      notes := notes[id := Recorded(digest)];
      ok := true;
    }
  }

  function Prepared(notes: map<PackId, Note>, id: PackId, digest: Digest, fault: Option<DiskFault>)
    : (map<PackId, Note>, bool)
  {
    if fault == Some(ReadFails) then (notes, false)
    else if id in notes then (notes, notes[id] == Recorded(digest))
    else if fault.Some? then (notes, false)
    else (notes[id := Recorded(digest)], true)
  }

  /** Everything that can happen to the records of one volume: the program starts with any lock
      and catalog that pass their checks, prepares instances of configured packs, and a record on
      the disk may become unreadable. */
  datatype Event =
    | Serve(packs: map<PackId, Pack>, locked: LockFile)
    | Prepare(id: PackId, fault: Option<DiskFault>)
    | Corrupt(id: PackId)

  datatype Volume = Volume(notes: map<PackId, Note>, packs: map<PackId, Pack>, locked: LockFile)

  const NO_LOCK := LockFile(0, CatalogText(""), map[])
  const NEW_VOLUME := Volume(map[], map[], NO_LOCK)

  ghost predicate Possible(v: Volume, e: Event) {
    match e
    case Serve(packs, locked) => Lawful(locked) && LockedIdentities(locked) == Identities(packs)
    case Prepare(id, _) => id in v.packs && id in v.locked.packs
    case Corrupt(id) => id in v.notes
  }

  ghost function Next(v: Volume, e: Event): Volume
    requires Possible(v, e)
  {
    match e
    case Serve(packs, locked) => v.(packs := packs, locked := locked)
    case Prepare(id, fault) => v.(notes := Prepared(v.notes, id, v.locked.packs[id].identity, fault).0)
    case Corrupt(id) => v.(notes := v.notes[id := Garbage])
  }

  ghost predicate Run(vs: seq<Volume>, es: seq<Event>) {
    && |vs| == |es| + 1 && vs[0] == NEW_VOLUME
    && forall i :: 0 <= i < |es| ==> Possible(vs[i], es[i]) && vs[i + 1] == Next(vs[i], es[i])
  }

  /** Event `i` lets pack `id` launch, with the identity in the catalog then served. */
  ghost predicate Launches(vs: seq<Volume>, es: seq<Event>, i: nat, id: PackId, identity: PackIdentity)
    requires Run(vs, es)
  {
    && i < |es| && es[i].Prepare? && es[i].id == id
    && id in vs[i].packs && IdentityOf(vs[i].packs[id]) == identity
    && id in vs[i].locked.packs
    && Prepared(vs[i].notes, id, vs[i].locked.packs[id].identity, es[i].fault).1
  }

  ghost predicate Served(v: Volume) {
    v == NEW_VOLUME.(notes := v.notes) || (Lawful(v.locked) && LockedIdentities(v.locked) == Identities(v.packs))
  }

  lemma {:induction false} AlwaysServed(vs: seq<Volume>, es: seq<Event>, i: nat)
    requires Run(vs, es) && i < |vs|
    ensures Served(vs[i])
  {
    if i == 0 {
    } else {
      AlwaysServed(vs, es, i - 1);
      assert Possible(vs[i - 1], es[i - 1]) && vs[i] == Next(vs[i - 1], es[i - 1]);
    }
  }

  /** A record, once written, stays, or becomes unreadable for ever. */
  lemma {:induction false} NotesStay(vs: seq<Volume>, es: seq<Event>, i: nat, j: nat, id: PackId)
    requires Run(vs, es) && i <= j < |vs| && id in vs[i].notes
    ensures id in vs[j].notes && vs[j].notes[id] in {vs[i].notes[id], Garbage}
    decreases j - i
  {
    if i == j {
    } else {
      NotesStay(vs, es, i, j - 1, id);
      assert Possible(vs[j - 1], es[j - 1]) && vs[j] == Next(vs[j - 1], es[j - 1]);
    }
  }

  lemma LaunchRecorded(vs: seq<Volume>, es: seq<Event>, i: nat, id: PackId, identity: PackIdentity)
    requires Run(vs, es) && Launches(vs, es, i, id, identity)
    ensures id in vs[i + 1].notes && vs[i + 1].notes[id] == Recorded(Sum(identity))
  {
    AlwaysServed(vs, es, i);
    MatchedDigest(vs[i].locked, vs[i].packs, id);
    assert Possible(vs[i], es[i]) && vs[i + 1] == Next(vs[i], es[i]);
  }

  /** Over all runs on one volume, whatever locks it is restarted with, every launch of an ID uses
      the identity recorded the first time its instance was prepared. */
  lemma LaunchIdentityFixed(vs: seq<Volume>, es: seq<Event>, i: nat, j: nat, id: PackId, first: PackIdentity,
                            later: PackIdentity)
    requires Run(vs, es) && i <= j
    requires Launches(vs, es, i, id, first) && Launches(vs, es, j, id, later)
    ensures first == later
  {
    LaunchRecorded(vs, es, i, id, first);
    LaunchRecorded(vs, es, j, id, later);
    NotesStay(vs, es, i + 1, j + 1, id);
  }

  /** Once a pack has launched, a later preparation launches it exactly when the record can still be
      read and the served catalog has that identity. */
  lemma LaunchIffRecorded(vs: seq<Volume>, es: seq<Event>, i: nat, j: nat, id: PackId, first: PackIdentity)
    requires Run(vs, es) && i < j < |es| && Launches(vs, es, i, id, first)
    requires es[j].Prepare? && es[j].id == id
    ensures id in vs[j].packs && id in vs[j].notes
    ensures (exists other :: Launches(vs, es, j, id, other)) <==>
            vs[j].notes[id] != Garbage && es[j].fault != Some(ReadFails) && IdentityOf(vs[j].packs[id]) == first
    ensures forall other :: Launches(vs, es, j, id, other) ==> other == first
  {
    LaunchRecorded(vs, es, i, id, first);
    NotesStay(vs, es, i + 1, j, id);
    assert Possible(vs[j], es[j]);
    AlwaysServed(vs, es, j);
    MatchedDigest(vs[j].locked, vs[j].packs, id);
    var served := IdentityOf(vs[j].packs[id]);
    if vs[j].notes[id] != Garbage && es[j].fault != Some(ReadFails) && served == first {
      assert Launches(vs, es, j, id, served);
    }
  }

  /** A lawful lock, in full. */
  lemma LawfulExactly(l: LockFile)
    ensures Lawful(l) <==>
            && l.schema == 1 && (l.catalog.CatalogSum? || |l.catalog.text| == 64)
            && forall id :: id in l.packs ==>
                 var p := l.packs[id];
                 && |p.projectId| > 0 && p.provider in {"modrinth", "curseforge"}
                 && p.identity == Sum(PackIdentity(p.provider, p.projectId, p.versionId, p.fileId, p.java))
  {
  }
}
