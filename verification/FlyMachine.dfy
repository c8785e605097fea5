/** Resizing the machine that runs the server before a pack starts, and the reboot that follows
    (internal/flymachine/client.go, internal/runtime/manager.go). Numbers are exact. */
module FlyMachine {
  import opened Wrappers

  /** A decoded JSON value. */
  datatype Json =
    | Null
    | Bool(b: bool)
    | Num(x: real)
    | Str(s: string)
    | Arr(items: seq<Json>)
    | Obj(fields: map<string, Json>)

  type Fields = map<string, Json>

  const GUEST := "guest"
  const MEMORY := "memory_mb"
  const CPUS := "cpus"
  const CPU_KIND := "cpu_kind"
  const SHARED := "shared"

  function Field(m: Fields, k: string): Json {
    if k in m then m[k] else Null
  }

  function Integer(v: Json): Option<int> {
    if v.Num? && v.x == v.x.Floor as real then Some(v.x.Floor) else None
  }

  /** Exactly the whole numbers convert, each to itself. */
  lemma IntegerExact(v: Json, n: int)
    ensures Integer(v) == Some(n) <==> v == Num(n as real)
  {
    if v == Num(n as real) {
      assert (n as real).Floor == n;
    }
  }

  datatype ResizeError = Unreadable | NoGuest | Malformed | NotSubmitted

  /** What one reconciliation of a readable configuration asks for. */
  datatype Verdict = Broken(error: ResizeError) | Fit | Resize(config: Fields)

  function Guest(config: Fields): Option<Fields> {
    if Field(config, GUEST).Obj? then Some(Field(config, GUEST).fields) else None
  }

  predicate WellFormed(guest: Fields) {
    Integer(Field(guest, MEMORY)).Some? && Integer(Field(guest, CPUS)).Some? && Field(guest, CPU_KIND).Str?
  }

  /** The machine has the pack's resources. */
  predicate Fits(config: Fields, memory: int, cpus: int) {
    && Guest(config).Some?
    && Field(Guest(config).value, MEMORY) == Num(memory as real)
    && Field(Guest(config).value, CPUS) == Num(cpus as real)
    && Field(Guest(config).value, CPU_KIND) == Str(SHARED)
  }

  function Wanted(config: Fields, memory: int, cpus: int): Fields
    requires Guest(config).Some?
  {
    var guest := Guest(config).value;
    config[GUEST := Obj(guest[MEMORY := Num(memory as real)][CPUS := Num(cpus as real)][CPU_KIND := Str(SHARED)])]
  }

  function Reconcile(config: Fields, memory: int, cpus: int): Verdict {
    if Guest(config).None? then Broken(NoGuest)
    else if !WellFormed(Guest(config).value) then Broken(Malformed)
    else if Fits(config, memory, cpus) then Fit
    else Resize(Wanted(config, memory, cpus))
  }

  /** How the platform answers one call of Ensure. */
  datatype Answer =
    | ReadFails                                // the configuration cannot be read
    | Refused                                  // the update is refused or never arrives
    | Lost                                     // the update is applied, but its answer is an error or is lost
    | Accepted                                 // applied as sent
    | Overridden(config: Option<Fields>)       // accepted, but the machine ends up otherwise

  /** The machine's configuration as the platform keeps it. */
  class Machine {
    var config: Option<Fields>

    constructor (config: Option<Fields>)
      ensures this.config == config
    {
      this.config := config;
    }

    /** Read the guest resources and submit an update when they differ from the pack's; true after
        a submitted change, when Java must not be launched. */
    method Ensure(memory: int, cpus: int, answer: Answer) returns (r: Result<bool, ResizeError>)
      modifies this
      ensures (config, r) == Ensured(old(config), memory, cpus, answer)
    {
      if answer.ReadFails? || config.None? {
        return Failure(Unreadable);
      }
      var document := config.value;
      if !Field(document, GUEST).Obj? {
        return Failure(NoGuest);
      }
      var guest := Field(document, GUEST).fields;
      var haveMemory, haveCpus := Integer(Field(guest, MEMORY)), Integer(Field(guest, CPUS));
      var kind := Field(guest, CPU_KIND);
      if haveMemory.None? || haveCpus.None? || !kind.Str? {
        return Failure(Malformed);
      }
      IntegerExact(Field(guest, MEMORY), memory);
      IntegerExact(Field(guest, CPUS), cpus);
      if haveMemory.value == memory && haveCpus.value == cpus && kind.s == SHARED {
        return Success(false);
      }
      guest := guest[MEMORY := Num(memory as real)];
      guest := guest[CPUS := Num(cpus as real)];
      guest := guest[CPU_KIND := Str(SHARED)];
      document := document[GUEST := Obj(guest)];
      r := Submit(document, answer);
    }

    method Submit(document: Fields, answer: Answer) returns (r: Result<bool, ResizeError>)
      modifies this
      ensures (config, r) == Submitted(old(config), document, answer)
    {
      match answer {
        case ReadFails | Refused => r := Failure(NotSubmitted);
        case Lost =>
          config := Some(document);
          r := Failure(NotSubmitted);
        case Accepted =>
          config := Some(document);
          r := Success(true);
        case Overridden(other) =>
          config := other;
          r := Success(true);
      }
    }
  }

  function Submitted(config: Option<Fields>, document: Fields, answer: Answer)
    : (Option<Fields>, Result<bool, ResizeError>)
  {
    match answer
    case ReadFails | Refused => (config, Failure(NotSubmitted))
    case Lost => (Some(document), Failure(NotSubmitted))
    case Accepted => (Some(document), Success(true))
    case Overridden(other) => (other, Success(true))
  }

  function Ensured(config: Option<Fields>, memory: int, cpus: int, answer: Answer)
    : (Option<Fields>, Result<bool, ResizeError>)
  {
    if answer.ReadFails? || config.None? then (config, Failure(Unreadable))
    else
      match Reconcile(config.value, memory, cpus)
      case Broken(e) => (config, Failure(e))
      case Fit => (config, Success(false))
      case Resize(wanted) => Submitted(config, wanted, answer)
  }

  lemma KeysDiffer()
    ensures MEMORY != CPUS && MEMORY != CPU_KIND && CPUS != CPU_KIND
  {
    assert MEMORY[0] == 'm' && CPUS[0] == 'c' && CPU_KIND[0] == 'c' && |CPUS| != |CPU_KIND|;
  }

  /** What a submitted update changes: the three guest resources, and nothing else. */
  lemma WantedOnlyResources(config: Fields, memory: int, cpus: int)
    requires Guest(config).Some?
    ensures var wanted := Wanted(config, memory, cpus);
            && Fits(wanted, memory, cpus)
            && Reconcile(wanted, memory, cpus) == Fit
            && (forall k :: k != GUEST ==> Field(wanted, k) == Field(config, k))
            && wanted.Keys == config.Keys
            && (forall k :: k !in {MEMORY, CPUS, CPU_KIND} ==>
                  Field(Guest(wanted).value, k) == Field(Guest(config).value, k))
  {
    KeysDiffer();
    IntegerExact(Num(memory as real), memory);
    IntegerExact(Num(cpus as real), cpus);
  }

  /** The verdict is Fit exactly when the machine has the pack's resources. */
  lemma FitExact(config: Fields, memory: int, cpus: int)
    ensures Reconcile(config, memory, cpus) == Fit <==> Fits(config, memory, cpus)
  {
    if Fits(config, memory, cpus) {
      IntegerExact(Field(Guest(config).value, MEMORY), memory);
      IntegerExact(Field(Guest(config).value, CPUS), cpus);
    }
  }

  /** When a change is submitted: exactly when a readable, well-formed machine lacks the pack's
      resources and the platform accepts; and when its guest section is refused. */
  lemma SubmitsExactly(config: Option<Fields>, memory: int, cpus: int, answer: Answer)
    ensures Ensured(config, memory, cpus, answer).1 == Success(true) <==>
            && (answer.Accepted? || answer.Overridden?)
            && config.Some? && Guest(config.value).Some? && WellFormed(Guest(config.value).value)
            && !Fits(config.value, memory, cpus)
    ensures config.Some? && !answer.ReadFails? ==>
              && (Ensured(config, memory, cpus, answer).1 == Failure(NoGuest) <==> Guest(config.value).None?)
              && (Ensured(config, memory, cpus, answer).1 == Failure(Malformed) <==>
                    Guest(config.value).Some? && !WellFormed(Guest(config.value).value))
  {
    if config.Some? {
      FitExact(config.value, memory, cpus);
    }
  }

  // ------------------------------------------------------------- reboot and recover

  /** One attempt to start the requested pack: a boot that resumes it, or a retry after a failure. */
  datatype Attempt = Launched | Rebooting | Failed

  ghost function Machines(config: Option<Fields>, memory: int, cpus: int, answers: seq<Answer>): Option<Fields> {
    if answers == [] then config
    else Ensured(Machines(config, memory, cpus, answers[..|answers| - 1]), memory, cpus, answers[|answers| - 1]).0
  }

  /** The outcome of attempt `i`, as start draws it from Ensure. */
  ghost function Outcome(config: Option<Fields>, memory: int, cpus: int, answers: seq<Answer>, i: nat): Attempt
    requires i < |answers|
  {
    match Ensured(Machines(config, memory, cpus, answers[..i]), memory, cpus, answers[i]).1
    case Failure(_) => Failed
    case Success(changed) => if changed then Rebooting else Launched
  }

  ghost predicate AsSent(answers: seq<Answer>) {
    forall i :: 0 <= i < |answers| ==> !answers[i].Overridden?
  }

  lemma MachinesStep(config: Option<Fields>, memory: int, cpus: int, answers: seq<Answer>, i: nat)
    requires i < |answers|
    ensures Machines(config, memory, cpus, answers[..i + 1]) ==
            Ensured(Machines(config, memory, cpus, answers[..i]), memory, cpus, answers[i]).0
  {
    assert answers[..i + 1][..i] == answers[..i];
  }

  ghost predicate Ready(config: Option<Fields>, memory: int, cpus: int) {
    config.Some? && Fits(config.value, memory, cpus)
  }

  /** Java is launched only on a machine that has the pack's resources at that moment, however the
      platform behaves. */
  lemma LaunchFits(config: Option<Fields>, memory: int, cpus: int, answers: seq<Answer>, i: nat)
    requires i < |answers| && Outcome(config, memory, cpus, answers, i) == Launched
    ensures Ready(Machines(config, memory, cpus, answers[..i]), memory, cpus)
    ensures Machines(config, memory, cpus, answers[..i + 1]) == Machines(config, memory, cpus, answers[..i])
  {
    MachinesStep(config, memory, cpus, answers, i);
    var now := Machines(config, memory, cpus, answers[..i]);
    if now.Some? {
      FitExact(now.value, memory, cpus);
    }
  }

  /** The machine is as it was, or as the one update wanted it. */
  lemma {:induction false} OneChange(config: Option<Fields>, memory: int, cpus: int, answers: seq<Answer>)
    requires AsSent(answers)
    ensures var now := Machines(config, memory, cpus, answers);
            || now == config
            || (config.Some? && Guest(config.value).Some? && now == Some(Wanted(config.value, memory, cpus)))
  {
    if answers == [] {
    } else {
      OneChange(config, memory, cpus, answers[..|answers| - 1]);
      if config.Some? && Guest(config.value).Some? {
        WantedOnlyResources(config.value, memory, cpus);
      }
    }
  }

  lemma {:induction false} ReadyStays(config: Option<Fields>, memory: int, cpus: int, answers: seq<Answer>, i: nat,
                                      j: nat)
    requires i <= j <= |answers| && Ready(Machines(config, memory, cpus, answers[..i]), memory, cpus)
    ensures Machines(config, memory, cpus, answers[..j]) == Machines(config, memory, cpus, answers[..i])
    decreases j - i
  {
    if i == j {
    } else {
      ReadyStays(config, memory, cpus, answers, i, j - 1);
      MachinesStep(config, memory, cpus, answers, j - 1);
      FitExact(Machines(config, memory, cpus, answers[..i]).value, memory, cpus);
    }
  }

  /** Resizing converges: when updates are applied as sent and nothing else changes the machine, at
      most one attempt reboots, every later attempt that can read the machine launches on it, and
      everything but the three guest resources is as it was. */
  lemma ResizeConverges(config: Option<Fields>, memory: int, cpus: int, answers: seq<Answer>, i: nat, j: nat)
    requires AsSent(answers) && i < j < |answers|
    requires Outcome(config, memory, cpus, answers, i) == Rebooting
    ensures Outcome(config, memory, cpus, answers, j) == if answers[j].ReadFails? then Failed else Launched
    ensures Ready(Machines(config, memory, cpus, answers[..j]), memory, cpus)
  {
    var before := Machines(config, memory, cpus, answers[..i]);
    MachinesStep(config, memory, cpus, answers, i);
    WantedOnlyResources(before.value, memory, cpus);
    ReadyStays(config, memory, cpus, answers, i + 1, j);
    FitExact(Machines(config, memory, cpus, answers[..j]).value, memory, cpus);
  }

  /** Two undisturbed attempts are enough: the first resizes if it must, the second launches. */
  lemma TwoAttemptsLaunch(config: Fields, memory: int, cpus: int, answers: seq<Answer>)
    requires Guest(config).Some? && WellFormed(Guest(config).value)
    requires |answers| == 2 && answers[0] == Accepted && answers[1] == Accepted
    ensures Outcome(Some(config), memory, cpus, answers, 0)
            == if Fits(config, memory, cpus) then Launched else Rebooting
    ensures Outcome(Some(config), memory, cpus, answers, 1) == Launched
  {
    assert answers[..0] == [];
    SubmitsExactly(Some(config), memory, cpus, Accepted);
    if Fits(config, memory, cpus) {
      FitExact(config, memory, cpus);
      MachinesStep(Some(config), memory, cpus, answers, 0);
    } else {
      ResizeConverges(Some(config), memory, cpus, answers, 0, 1);
    }
  }

  /** Over all attempts the configuration outside the three resources never changes. */
  lemma OthersUntouched(config: Fields, memory: int, cpus: int, answers: seq<Answer>)
    requires AsSent(answers)
    ensures var now := Machines(Some(config), memory, cpus, answers);
            && now.Some? && now.value.Keys == config.Keys
            && (forall k :: k != GUEST ==> Field(now.value, k) == Field(config, k))
            && (Guest(config).Some? <==> Guest(now.value).Some?)
            && (Guest(config).Some? ==> forall k :: k !in {MEMORY, CPUS, CPU_KIND} ==>
                  Field(Guest(now.value).value, k) == Field(Guest(config).value, k))
  {
    OneChange(Some(config), memory, cpus, answers);
    if Guest(config).Some? {
      WantedOnlyResources(config, memory, cpus);
    }
  }

  /** Without that hypothesis the loop need not end: a platform that accepts every update and keeps
      the machine as it is makes every attempt reboot. */
  lemma {:induction false} IgnoredUpdatesRebootForEver(config: Fields, memory: int, cpus: int, answers: seq<Answer>,
                                                       i: nat)
    requires Guest(config).Some? && WellFormed(Guest(config).value) && !Fits(config, memory, cpus)
    requires forall k :: 0 <= k < |answers| ==> answers[k] == Overridden(Some(config))
    requires i < |answers|
    ensures Outcome(Some(config), memory, cpus, answers, i) == Rebooting
    ensures Machines(Some(config), memory, cpus, answers[..i + 1]) == Some(config)
  {
    MachinesStep(Some(config), memory, cpus, answers, i);
    if i == 0 {
      assert answers[..0] == [];
    } else {
      IgnoredUpdatesRebootForEver(config, memory, cpus, answers, i - 1);
    }
  }

  /** A guest section that holds whole numbers and any CPU kind is compared with the pack and, unless
      all three agree, resized, whatever the kind was. */
  lemma AnyKindIsResized(config: Fields, guest: Fields, kind: string, have: int, haveCpus: int, memory: int, cpus: int)
    requires "guest" in config && config["guest"] == Obj(guest)
    requires "memory_mb" in guest && guest["memory_mb"] == Num(have as real)
    requires "cpus" in guest && guest["cpus"] == Num(haveCpus as real)
    requires "cpu_kind" in guest && guest["cpu_kind"] == Str(kind)
    ensures Ensured(Some(config), memory, cpus, Accepted) ==
            if have == memory && haveCpus == cpus && kind == "shared" then (Some(config), Success(false))
            else
              var resized := guest["memory_mb" := Num(memory as real)]["cpus" := Num(cpus as real)];
              (Some(config["guest" := Obj(resized["cpu_kind" := Str("shared")])]), Success(true))
  {
    IntegerExact(guest["memory_mb"], have);
    IntegerExact(guest["cpus"], haveCpus);
    assert Num(have as real) == Num(memory as real) <==> have == memory by {
      assert (have as real).Floor == have && (memory as real).Floor == memory;
    }
    assert Num(haveCpus as real) == Num(cpus as real) <==> haveCpus == cpus by {
      assert (haveCpus as real).Floor == haveCpus && (cpus as real).Floor == cpus;
    }
  }
}
