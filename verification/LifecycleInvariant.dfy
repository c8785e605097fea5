/** The invariant of the lifecycle, kept by every step under the timing assumptions: its control part
    whatever Head reports, all of it when Head is honest. */
module LifecycleInvariant {
  import opened Wrappers
  import opened Sections
  import opened Archive
  import opened Generations
  import opened Lifecycle

  ghost predicate AtMostOne(workers: map<nat, Worker>) {
    forall t, u :: t in workers && u in workers ==> t == u
  }

  /** The goroutine in flight, if any. */
  ghost function Sole(workers: map<nat, Worker>): Option<Worker> {
    if workers == map[] then None
    else
      var t :| t in workers;
      Some(workers[t])
  }

  ghost function Head(s: Sys, id: PackId): nat {
    HeadGen(VaultOf(s, id), id)
  }

  /** The head of a pack's backups is an archive of exactly the content its directory had last. */
  ghost predicate BackedUp(s: Sys, id: PackId) {
    && id in s.held
    && exists f :: WellFormed(f) && Flat([], f) == s.held[id] && CommitsTree(VaultOf(s, id), id, f, Head(s, id))
  }

  // ------------------------------------- control: who runs, what is recorded, where

  // In these predicates `w` is the goroutine in flight and `h` the head generation of the
  // active pack's backups, or none when Head may overlook it.

  ghost predicate CoreOk(s: Sys, w: Option<Worker>) {
    var st := s.core.state;
    && s.core.disk == st
    && (st.phase.Idle? <==> st.active == "")
    && (st.phase.Idle? ==> w.None? && s.core.process.None? && s.live == map[] && !st.pending)
    && (st.phase.Ready? ==> w.None?)
  }

  /** Each live child runs the active pack, and is registered or about to be. */
  ghost predicate LiveOk(s: Sys, w: Option<Worker>) {
    forall p :: p in s.live ==>
                  && s.live[p] == s.core.state.active
                  && (s.core.process == Some(p) || (w.Some? && w.value.StartW? && w.value.spc == Registering(p)))
  }

  /** No child: before a launch, and between the verified exit of a child and the end of a stop. */
  ghost predicate Quiet(s: Sys) {
    s.core.process.None? && s.live == map[]
  }

  /** What start has learnt of the head. */
  predicate FoundHead(exists_: bool, gen: nat, headError: bool, h: nat) {
    if exists_ then gen == h > 0 else headError || h == 0
  }

  ghost predicate StartOk(s: Sys, id: PackId, spc: StartPc, h: Option<nat>) {
    var st := s.core.state;
    && id == st.active && id != "" && !st.phase.Idle? && !st.phase.Ready?
    && match spc
       case Entered => Quiet(s)
       case Sizing => Quiet(s)
       case Probe => Quiet(s)
       case Fetching(gen) => Quiet(s) && id !in s.dirs && (h.Some? ==> gen == h.value > 0)
       case Prepare(exists_, gen, headError) =>
         && Quiet(s) && (headError ==> id in s.dirs)
         && (h.Some? ==> FoundHead(exists_, gen, headError, h.value) && (id !in s.dirs ==> h.value == 0))
       case Launch => Quiet(s) && (h.Some? && id !in s.dirs ==> h.value == 0)
       case Registering(pid) => s.core.process.None?
       case Polling(pid) => s.core.process in {None, Some(pid)}
  }

  /** A manifest about to be uploaded describes the archive that was just stored. */
  ghost predicate ReadyToPublish(s: Sys, id: PackId, m: Manifest, h: nat) {
    var v := VaultOf(s, id);
    && m.id == id && m.generation == h + 1 && m.generation in v.archives
    && m.sha == Sha256(v.archives[m.generation]) && m.size == Size(v.archives[m.generation])
    && id in s.dirs
    && exists f :: WellFormed(f) && Flat([], f) == s.dirs[id]
                   && v.archives[m.generation].ArchiveObject?
                   && v.archives[m.generation].entries == WriteArchive(f)
  }

  ghost predicate StopOk(cfg: Config, s: Sys, kind: StopKind, id: PackId, pc: StopPc, h: Option<nat>) {
    var st := s.core.state;
    && st.active != "" && !st.phase.Idle? && !st.phase.Ready?
    && (kind.Switch? ==> kind.target != "" && kind.target != st.active)
    && (kind.IdleStop? ==> kind.captured == st.active)
    && (!pc.Drained? ==> id == st.active)
    && match pc
       case ReadGeneration => Quiet(s)
       case CheckHead(expected) =>
         Quiet(s) && (h.Some? ==> expected <= h.value && (expected == h.value || st.pending))
       case Upload(gen) => Quiet(s) && (h.Some? ==> gen == h.value + 1)
       case Publish(m) => Quiet(s) && (h.Some? ==> ReadyToPublish(s, id, m, h.value))
       case Verify(m) => Quiet(s) && (h.Some? ==> m.generation == h.value && BackedUp(s, id))
       case Record(gen) => Quiet(s) && (h.Some? ==> gen == h.value && BackedUp(s, id))
       case Unrecorded => Quiet(s)
       case Evict => Quiet(s) && !st.pending && (h.Some? ==> st.generation == h.value && BackedUp(s, id))
       case Finish =>
         && Quiet(s) && !st.pending && (h.Some? ==> st.generation == h.value && BackedUp(s, id))
         && (cfg.evict ==> id !in s.dirs)
       case _ => true
  }

  ghost predicate WorkerOk(cfg: Config, s: Sys, w: Option<Worker>, h: Option<nat>) {
    w.Some? ==>
      match w.value
      case StartW(id, _, spc) => StartOk(s, id, spc, h)
      case StopW(kind, id, pc) => StopOk(cfg, s, kind, id, pc, h)
  }

  predicate BeforePublish(pc: StopPc) {
    pc.Drained? || pc.SaveAll? || pc.StopCommand? || pc.Await? || pc.ReadGeneration? || pc.CheckHead? ||
    pc.Upload? || pc.Publish?
  }

  /** Situations in which the recorded generation is the store's head, unless a backup is pending. */
  predicate KnowsHead(s: Sys, w: Option<Worker>) {
    || s.core.state.phase.Ready?
    || s.core.process.Some?
    || (w.Some? && w.value.StartW? && (w.value.spc.Launch? || w.value.spc.Registering? || w.value.spc.Polling?))
    || (w.Some? && w.value.StopW? && BeforePublish(w.value.pc))
  }

  /** Situations in which the active pack's directory is present. */
  predicate HasDirectory(s: Sys, w: Option<Worker>) {
    || s.core.state.phase.Ready?
    || s.core.process.Some?
    || s.core.state.pending
    || (w.Some? && w.value.StartW? && (w.value.spc.Registering? || w.value.spc.Polling?))
    || (w.Some? && w.value.StopW? && (BeforePublish(w.value.pc) || w.value.pc.Verify? || w.value.pc.Record? ||
                                      w.value.pc.Unrecorded? || w.value.pc.Evict?))
  }

  ghost predicate GenerationOk(s: Sys, w: Option<Worker>, h: Option<nat>) {
    h.Some? ==>
      && s.core.state.generation <= h.value
      && (KnowsHead(s, w) && !s.core.state.pending ==> s.core.state.generation == h.value)
  }

  /** Situations in which the active pack's directory is the world it held last: from its launch to
      its backup. */
  predicate Intact(s: Sys, w: Option<Worker>) {
    || s.core.state.phase.Ready?
    || s.core.process.Some?
    || (w.Some? && w.value.StartW? && (w.value.spc.Registering? || w.value.spc.Polling?))
    || (w.Some? && w.value.StopW? && BeforePublish(w.value.pc))
  }

  predicate HoldsWhole(s: Sys, id: PackId) {
    id in s.dirs && id in s.held && s.dirs[id] == s.held[id]
  }

  ghost predicate PlaceOk(cfg: Config, s: Sys, w: Option<Worker>) {
    && "" !in s.dirs
    && (HasDirectory(s, w) ==> s.core.state.active in s.dirs)
    && (Intact(s, w) ==> HoldsWhole(s, s.core.state.active))
    && (cfg.evict ==> forall id :: id in s.dirs ==> id == s.core.state.active)
  }

  ghost predicate Control(cfg: Config, s: Sys, w: Option<Worker>, h: Option<nat>) {
    CoreOk(s, w) && LiveOk(s, w) && WorkerOk(cfg, s, w, h) && GenerationOk(s, w, h) && PlaceOk(cfg, s, w)
  }

  // ---------------------------------------------------- data: backups and worlds

  ghost predicate VaultsOk(s: Sys) {
    forall id :: id in s.vaults ==> Sound(s.vaults[id], id) && GapFree(s.vaults[id], id)
  }

  /** A world is whole on the disk, or the head of its backups holds it and the disk at most what an
      unfinished eviction has left. */
  ghost predicate WorldsOk(s: Sys) {
    DirsOk(s) && HeldOk(s)
  }

  ghost predicate DirsOk(s: Sys) {
    forall id :: id in s.dirs ==> id in s.held && (s.dirs[id] == s.held[id] || Remains(s.held[id], s.dirs[id]))
  }

  ghost predicate HeldOk(s: Sys) {
    forall id :: id in s.held && !HoldsWhole(s, id) ==> BackedUp(s, id)
  }

  ghost predicate Data(s: Sys) {
    VaultsOk(s) && WorldsOk(s)
  }

  /** The head that the steps of the active pack may rely on. */
  ghost function ActiveHead(s: Sys, honest: bool): Option<nat> {
    if honest then Some(Head(s, s.core.state.active)) else None
  }

  ghost predicate Inv(cfg: Config, s: Sys, honest: bool) {
    && AtMostOne(s.workers)
    && Control(cfg, s, Sole(s.workers), ActiveHead(s, honest))
    && (honest ==> Data(s))
  }

  /** A step that can be taken, from a state that meets the invariant. */
  ghost predicate Takes(cfg: Config, hyp: Hypotheses, s: Sys, a: Action) {
    Timely(hyp) && Inv(cfg, s, hyp.honestHead) && Enabled(hyp, s, a)
  }

  // ----------------------------------------------------------------- small facts

  lemma SoleIs(workers: map<nat, Worker>, t: nat)
    requires AtMostOne(workers) && t in workers
    ensures Sole(workers) == Some(workers[t])
    ensures workers == map[t := workers[t]]
    ensures workers - {t} == map[]
  {
    assert workers != map[];
  }

  /** The invariant after a step that leaves one goroutine. */
  lemma LeavesOne(cfg: Config, s: Sys, t: nat, w: Worker, honest: bool)
    requires s.workers == map[t := w]
    requires Control(cfg, s, Some(w), ActiveHead(s, honest)) && (honest ==> Data(s))
    ensures Inv(cfg, s, honest)
  {
    assert t in s.workers;
    SoleIs(s.workers, t);
  }

  lemma VaultSound(s: Sys, id: PackId)
    requires VaultsOk(s)
    ensures Sound(VaultOf(s, id), id) && GapFree(VaultOf(s, id), id)
  {
    EmptySound(id);
  }

  lemma VaultsFrame(s: Sys, s': Sys)
    requires VaultsOk(s) && s'.vaults == s.vaults
    ensures VaultsOk(s') && forall id :: Head(s', id) == Head(s, id)
  {
  }

  /** Backups depend only on the stored objects and on what the directories held. */
  lemma DataFrame(s: Sys, s': Sys)
    requires Data(s) && s'.vaults == s.vaults && s'.dirs == s.dirs && s'.held == s.held
    ensures Data(s')
    ensures forall id :: Head(s', id) == Head(s, id)
    ensures forall id :: BackedUp(s', id) <==> BackedUp(s, id)
  {
  }
}
