/** The whole system as a step machine: the manager's goroutines, the Minecraft children, the
    pack directories, the backup store, and machine crashes. Every lock-protected section and
    every external call of internal/runtime/manager.go is one step; steps of different
    goroutines interleave freely. */
module Lifecycle {
  import opened Wrappers
  import opened Sections
  import opened Archive
  import opened Generations

  /** Settings that do not change during a run: eviction after backup, whether the machine is
      resized per pack, and where restores are staged. */
  datatype Config = Config(evict: bool, sizer: bool, tmp: string)

  /** Assumptions that the code does not enforce: three about timing, one about the store. */
  datatype Hypotheses = Hypotheses(
    quietRetry: bool,     // a FAILED pack is retried only when no start or stop is in flight
    quietShutdown: bool,  // Shutdown is entered only when no start or stop is in flight
    promptIdle: bool,     // an idle stop begins while the pack it was decided for is active
    honestHead: bool)     // Head fails, or reports the greatest complete generation

  const ASSUMED := Hypotheses(true, true, true, true)

  predicate Timely(h: Hypotheses) {
    h.quietRetry && h.quietShutdown && h.promptIdle
  }

  datatype StartPc =
    | Entered
    | Sizing
    | Probe
    | Fetching(gen: nat)
    | Prepare(exists_: bool, gen: nat, headError: bool)
    | Launch
    | Registering(pid: nat)
    | Polling(pid: nat)

  datatype StopKind = Switch(target: PackId) | IdleStop(captured: PackId) | Shutdown

  datatype StopPc =
    | Drained
    | SaveAll(proc: nat)
    | StopCommand(proc: nat)
    | Await(proc: nat)
    | ReadGeneration
    | CheckHead(expected: nat)
    | Upload(gen: nat)
    | Publish(m: Manifest)
    | Verify(m: Manifest)
    | Record(gen: nat)
    | Unrecorded
    | Evict
    | Finish
    | Failing

  /** A goroutine inside start or inside switchTo, the idle stop or Shutdown. */
  datatype Worker =
    | StartW(id: PackId, recovery: bool, spc: StartPc)
    | StopW(kind: StopKind, id: PackId, pc: StopPc)

  /** `live` maps each running child to its pack; `waiters` are the children that a waitProcess
      goroutine watches. `held` records, per pack, the world its directory had last; what an
      unfinished removal leaves is not one. */
  datatype Sys = Sys(
    core: Core,
    workers: map<nat, Worker>,
    live: map<nat, PackId>,
    waiters: set<nat>,
    dirs: map<PackId, Fs>,
    vaults: map<PackId, Vault>,
    held: map<PackId, Fs>,
    next: nat)

  const START := Sys(INITIAL, map[], map[], {}, map[], map[], map[], 0)

  function VaultOf(s: Sys, id: PackId): Vault {
    if id in s.vaults then s.vaults[id] else EMPTY
  }

  /** How the outside world answers a step. `Expired`: start was cancelled while polling, or Shutdown
      had returned at its deadline before its stop finished, so that nobody saves the idle state.
      `Unreadable`: Head fails. `Overlooked`: Head passes over objects that it cannot open or decode
      and reports the older generation `seen`, or none. `Partly`: so far a removal has left `fs`,
      and it may still fail or be cut short by a crash. */
  datatype Choice =
    | Go
    | Fault
    | Expired
    | Resized
    | Unreadable
    | Overlooked(seen: nat)
    | Put(outcome: PutOutcome, tree: Forest, bytes: nat)
    | Edited(fs: Fs)
    | FaultEdited(fs: Fs)
    | Partly(fs: Fs)

  datatype Action =
    | Login(id: PackId)
    | BeginSwitch(target: PackId)
    | BeginIdleStop(captured: PackId)
    | BeginShutdown
    | Advance(t: nat, choice: Choice)
    | WriteWorld(pid: nat, fs: Fs)
    | Exit(pid: nat)
    | Observe(pid: nat)
    | Crash

  // --------------------------------------------------------------- bookkeeping

  function Spawn(s: Sys, w: Worker): Sys {
    s.(workers := s.workers[s.next := w], next := s.next + 1)
  }

  function Goto(s: Sys, t: nat, w: Worker): Sys {
    s.(workers := s.workers[t := w])
  }

  function Done(s: Sys, t: nat): Sys {
    s.(workers := s.workers - {t})
  }

  function FailAndStop(s: Sys, t: nat, id: PackId): Sys {
    Done(s.(core := Fail(s.core, id)), t)
  }

  function Kill(s: Sys, pid: nat): Sys {
    s.(live := s.live - {pid})
  }

  function SetDir(s: Sys, id: PackId, fs: Fs): Sys {
    s.(dirs := s.dirs[id := fs], held := s.held[id := fs])
  }

  /** The generation that Head reports, 0 for none. */
  ghost function Seen(v: Vault, id: PackId, c: Choice): nat {
    if c.Overlooked? then c.seen else HeadGen(v, id)
  }

  // --------------------------------------------------------------------- start

  ghost function StartStep(cfg: Config, s: Sys, t: nat, w: Worker, c: Choice): Sys
    requires w.StartW?
  {
    var id := w.id;
    match w.spc
    case Entered =>
      if c.Fault? then FailAndStop(s, t, id)
      else if !cfg.sizer then Goto(s, t, w.(spc := Probe))
      else
        var (core, ok) := Enter(s.core, id, Resizing);
        if ok then Goto(s.(core := core), t, w.(spc := Sizing)) else Done(s, t)
    case Sizing =>
      if c.Fault? then FailAndStop(s, t, id)
      else if c.Resized? then Done(s, t)
      else
        var (core, ok) := Enter(s.core, id, if w.recovery then Recovering else Loading);
        if ok then Goto(s.(core := core), t, w.(spc := Probe)) else Done(s, t)
    case Probe =>
      var head := Seen(VaultOf(s, id), id, c);
      if c.Fault? then FailAndStop(s, t, id)
      else if id !in s.dirs && c.Unreadable? then FailAndStop(s, t, id)
      else if c.Unreadable? then Goto(s, t, w.(spc := Prepare(false, 0, true)))
      else if id !in s.dirs && head > 0 then Goto(s, t, w.(spc := Fetching(head)))
      else Goto(s, t, w.(spc := Prepare(head > 0, head, false)))
    case Fetching(gen) =>
      var v := VaultOf(s, id);
      var head := Seen(v, id, c);
      if c.Fault? || c.Unreadable? || head == 0 || id in s.dirs then FailAndStop(s, t, id)
      else if head !in v.archives || !v.archives[head].ArchiveObject? then FailAndStop(s, t, id)
      else
        (match Replay(cfg.tmp, map[], v.archives[head].entries)
         case Failure(_) => FailAndStop(s, t, id)
         case Success(fs) => Goto(SetDir(s, id, fs), t, w.(spc := Prepare(true, gen, false))))
    case Prepare(exists_, gen, headError) =>
      if c.Fault? then FailAndStop(s, t, id)
      else Goto(s.(core := RecordHead(s.core, exists_, gen, headError)), t, w.(spc := Launch))
    case Launch =>
      if c.Fault? then FailAndStop(s, t, id)
      else if c.FaultEdited? then FailAndStop(SetDir(s, id, c.fs), t, id)
      else if c.Edited? then
        var pid := s.next;
        var launched := SetDir(s, id, c.fs).(live := s.live[pid := id], next := pid + 1);
        Goto(launched, t, w.(spc := Registering(pid)))
      else s
    case Registering(pid) =>
      var (core, ok) := Register(s.core, id, pid);
      if ok then Goto(s.(core := core, waiters := s.waiters + {pid}), t, w.(spc := Polling(pid)))
      else Done(Kill(s, pid), t)
    case Polling(pid) =>
      if c.Fault? then FailAndStop(Kill(s, pid), t, id)
      else if c.Expired? then Done(s, t)
      else Done(s.(core := Enter(s.core, id, Ready).0), t)
  }

  // ---------------------------------------------------------------------- stop

  ghost function StopStep(cfg: Config, s: Sys, t: nat, w: Worker, c: Choice): Sys
    requires w.StopW?
  {
    var id := w.id;
    match w.pc
    case Drained =>
      var active := s.core.state.active;
      var pc := if s.core.process.None? then ReadGeneration else SaveAll(s.core.process.value);
      Goto(s.(core := EnterSaving(s.core)), t, StopW(w.kind, active, pc))
    case SaveAll(proc) =>
      if c.Fault? then Goto(s, t, w.(pc := Failing))
      else Goto(s.(core := ExpectStop(s.core, true)), t, w.(pc := StopCommand(proc)))
    case StopCommand(proc) =>
      if c.Fault? then Goto(s.(core := ExpectStop(s.core, false)), t, w.(pc := Failing))
      else Goto(s, t, w.(pc := Await(proc)))
    case Await(proc) =>
      if s.core.process.None? then Goto(s, t, w.(pc := ReadGeneration))
      else if c.Fault? then Goto(Kill(s, proc), t, w.(pc := Failing))
      else s
    case ReadGeneration =>
      Goto(s, t, w.(pc := CheckHead(s.core.state.generation)))
    case CheckHead(expected) =>
      if c.Unreadable? || Seen(VaultOf(s, id), id, c) != expected then Goto(s, t, w.(pc := Unrecorded))
      else Goto(s, t, w.(pc := Upload(expected + 1)))
    case Upload(gen) =>
      if !c.Put? then s
      else if id !in s.dirs then
        Goto(s.(vaults := s.vaults[id := PutArchive(VaultOf(s, id), gen, Junk([]), BrokenStream(c.outcome))]),
             t, w.(pc := Unrecorded))
      else
        var o := ArchiveObject(WriteArchive(c.tree), c.bytes);
        Goto(s.(vaults := s.vaults[id := PutArchive(VaultOf(s, id), gen, o, c.outcome)]),
             t, w.(pc := if c.outcome.Stored? then Publish(ManifestOf(id, gen, o)) else Unrecorded))
    case Publish(m) =>
      if !c.Put? then s
      else
        Goto(s.(vaults := s.vaults[id := PutManifest(VaultOf(s, id), m, c.outcome)]),
             t, w.(pc := if c.outcome.Stored? then Verify(m) else Unrecorded))
    case Verify(m) =>
      var v := VaultOf(s, id);
      if c.Unreadable? || !VerifiedAs(v, m, Seen(v, id, c)) then Goto(s, t, w.(pc := Unrecorded))
      else Goto(s, t, w.(pc := Record(m.generation)))
    case Record(gen) =>
      Goto(s.(core := CommitRecorded(s.core, gen)), t, w.(pc := if cfg.evict then Evict else Finish))
    case Unrecorded =>
      Goto(s.(core := CommitRefused(s.core)), t, w.(pc := Failing))
    case Evict =>
      if c.Fault? then Goto(s, t, w.(pc := Failing))
      else if c.Partly? then s.(dirs := s.dirs[id := c.fs])
      else Goto(s.(dirs := s.dirs - {id}), t, w.(pc := Finish))
    case Finish =>
      (match w.kind
       case Switch(target) =>
         Goto(s.(core := Save(s.core, Fresh(target))), t, StartW(target, false, Entered))
       case Shutdown => Done(if c.Expired? then s else s.(core := Save(s.core, IDLE)), t)
       case IdleStop(_) => Done(s.(core := Save(s.core, IDLE)), t))
    case Failing =>
      (match w.kind
       case Switch(_) => FailAndStop(s, t, s.core.state.active)
       case IdleStop(captured) => FailAndStop(s, t, captured)
       case Shutdown => Done(s, t))
  }

  // -------------------------------------------------------------- all the steps

  ghost function LoginStep(s: Sys, id: PackId): Sys {
    var (core, outcome) := Ensure(s.core, id);
    if outcome.Started? || outcome.Retried? then Spawn(s.(core := core), StartW(id, false, Entered))
    else s.(core := core)
  }

  function BeginStep(s: Sys, entry: (Core, bool), kind: StopKind): Sys {
    if entry.1 then Spawn(s.(core := entry.0), StopW(kind, "", Drained)) else s
  }

  /** Everything in memory is lost; the disk and the store stay, and the manager starts again. */
  function CrashStep(s: Sys): Sys {
    var core := Reload(s.core);
    var down := s.(core := core, workers := map[], live := map[], waiters := {});
    if core.state.phase.Recovering? && core.state.active != "" then
      Spawn(down, StartW(core.state.active, true, Entered))
    else down
  }

  ghost function Apply(cfg: Config, s: Sys, a: Action): Sys {
    match a
    case Login(id) => LoginStep(s, id)
    case BeginSwitch(target) => BeginStep(s, DrainForSwitch(s.core, target), Switch(target))
    case BeginIdleStop(captured) => BeginStep(s, DrainWhenIdle(s.core), IdleStop(captured))
    case BeginShutdown => BeginStep(s, DrainForShutdown(s.core), Shutdown)
    case Advance(t, c) =>
      if t !in s.workers then s
      else if s.workers[t].StartW? then StartStep(cfg, s, t, s.workers[t], c)
      else StopStep(cfg, s, t, s.workers[t], c)
    case WriteWorld(pid, fs) => if pid in s.live then SetDir(s, s.live[pid], fs) else s
    case Exit(pid) => Kill(s, pid)
    case Observe(pid) => s.(core := Exited(s.core, pid), waiters := s.waiters - {pid})
    case Crash => CrashStep(s)
  }

  /** A store read happens in this step. */
  predicate Reads(w: Worker) {
    match w
    case StartW(_, _, spc) => spc.Probe? || spc.Fetching?
    case StopW(_, _, pc) => pc.CheckHead? || pc.Verify?
  }

  predicate Uploads(w: Worker) {
    w.StopW? && w.pc.Upload?
  }

  /** The content of some real directory. */
  ghost predicate IsDirectory(fs: Fs) {
    exists f :: WellFormed(f) && Flat([], f) == fs
  }

  /** An answer that Head can give when it passes over newer generations. */
  ghost predicate Overlooks(v: Vault, id: PackId, seen: nat) {
    seen < HeadGen(v, id) && (seen == 0 || Complete(v, id, seen))
  }

  /** What an unfinished removal can leave of a directory. */
  ghost predicate Remains(whole: Fs, part: Fs) {
    IsDirectory(part) && forall p :: p in part ==> p in whole && whole[p] == part[p]
  }

  predicate Removes(w: Worker) {
    w.StopW? && w.pc.Evict?
  }

  /** Which steps can happen. Pack IDs are never empty; an upload walks the directory as it is;
      a child's exit is observed only once it is gone. */
  ghost predicate Enabled(h: Hypotheses, s: Sys, a: Action) {
    match a
    case Login(id) =>
      && id != ""
      && (h.quietRetry && Ensure(s.core, id).1.Retried? ==> s.workers == map[])
    case BeginSwitch(target) => target != ""
    case BeginIdleStop(captured) =>
      && captured != ""
      && (h.promptIdle && s.core.state.phase.Ready? ==> captured == s.core.state.active)
    case BeginShutdown => h.quietShutdown ==> s.workers == map[]
    case Advance(t, c) =>
      && t in s.workers
      && var w := s.workers[t];
      && (c.Unreadable? || c.Overlooked? ==> Reads(w))
      && (c.Overlooked? ==> !h.honestHead && Overlooks(VaultOf(s, w.id), w.id, c.seen))
      && (c.Put? && Uploads(w) && w.id in s.dirs ==> WellFormed(c.tree) && Flat([], c.tree) == s.dirs[w.id])
      && (c.Edited? || c.FaultEdited? ==> IsDirectory(c.fs))
      && (c.Partly? ==> Removes(w) && w.id in s.dirs && Remains(s.dirs[w.id], c.fs))
    case WriteWorld(pid, fs) => pid in s.live && IsDirectory(fs)
    case Exit(pid) => pid in s.live
    case Observe(pid) => pid in s.waiters && pid !in s.live
    case Crash => true
  }

  /** A run: any interleaving of enabled steps from an empty volume and an empty store. */
  ghost predicate Run(cfg: Config, h: Hypotheses, states: seq<Sys>, actions: seq<Action>) {
    && |states| == |actions| + 1
    && states[0] == START
    && forall i :: 0 <= i < |actions| ==>
                     Enabled(h, states[i], actions[i]) && states[i + 1] == Apply(cfg, states[i], actions[i])
  }
}
