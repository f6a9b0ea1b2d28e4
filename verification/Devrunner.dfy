/** The devrunner's reconcile and monitor state machine (containers/devrunner/devrunner.py:236-390). */
module Devrunner {
  import opened Text

  datatype ServiceSpec = ServiceSpec(
    name: string, command: string, port: int, cwd: string, env: map<string, string>,
    restartPolicy: string, maxRestarts: int)

  /** A service entry of the configuration file; the command and the port may be missing. */
  datatype ServiceConfig = ServiceConfig(
    command: Option<string>, port: Option<int>, cwd: Option<string>, env: Option<map<string, string>>,
    restartPolicy: Option<string>, maxRestarts: Option<int>)

  datatype Process = Process(name: string, command: string, port: int, returncode: Option<int>)

  datatype ServiceState = ServiceState(spec: ServiceSpec, process: Option<nat>, restartCount: nat)

  /** What happened to services: a start from an entry of the configuration, a monitor restart, a stop. */
  datatype Event =
    | Configured(name: string, entry: ServiceConfig)
    | Restarted(name: string)
    | Stopped(name: string)

  function GetOr<T>(o: Option<T>, fallback: T): T {
    match o case Some(v) => v case None => fallback
  }

  predicate Complete(c: ServiceConfig) {
    c.command.Some? && c.port.Some?
  }

  function SpecOf(name: string, c: ServiceConfig): ServiceSpec
    requires Complete(c)
  {
    ServiceSpec(name, c.command.value, c.port.value, GetOr(c.cwd, ""), GetOr(c.env, map[]),
      GetOr(c.restartPolicy, "on-failure"), GetOr(c.maxRestarts, 5))
  }

  /** A service is specified by an entry, field by field; absent fields have their defaults. */
  predicate FromEntry(name: string, spec: ServiceSpec, c: ServiceConfig) {
    && spec.name == name && c.command == Some(spec.command) && c.port == Some(spec.port)
    && (c.cwd == Some(spec.cwd) || (c.cwd == None && spec.cwd == ""))
    && (c.env == Some(spec.env) || (c.env == None && spec.env == map[]))
    && (c.restartPolicy == Some(spec.restartPolicy) || (c.restartPolicy == None && spec.restartPolicy == "on-failure"))
    && (c.maxRestarts == Some(spec.maxRestarts) || (c.maxRestarts == None && spec.maxRestarts == 5))
  }

  /** What reconciliation compares. */
  predicate Matches(spec: ServiceSpec, c: ServiceConfig) {
    c.command == Some(spec.command) && c.port == Some(spec.port)
  }

  /** Whether a managed service is to be restarted; `None` is the error of an entry that the comparison cannot read. */
  function Changed(spec: ServiceSpec, c: ServiceConfig): Option<bool> {
    match c.command
    case None => None
    case Some(command) =>
      if command != spec.command then Some(true)
      else match c.port
        case None => None
        case Some(port) => Some(port != spec.port)
  }

  /** The entry asks for no other command or port, be it that it does not say. */
  predicate Unaltered(spec: ServiceSpec, c: ServiceConfig) {
    c.command == None || (c.command == Some(spec.command) && (c.port == None || c.port == Some(spec.port)))
  }

  // ---- The restart budget over a history ----

  /** The entry of the last configured start of a service. */
  function LastConfigured(log: seq<Event>, name: string): Option<ServiceConfig> {
    if log == [] then None
    else
      var e := log[|log| - 1];
      if e.Configured? && e.name == name then Some(e.entry) else LastConfigured(log[..|log| - 1], name)
  }

  /** Monitor restarts of a service since its last configured start. */
  function RestartsSince(log: seq<Event>, name: string): nat {
    if log == [] then 0
    else
      var e := log[|log| - 1];
      if e.Configured? && e.name == name then 0
      else RestartsSince(log[..|log| - 1], name) + if e == Restarted(name) then 1 else 0
  }

  /** How often a service of this entry may be restarted; it need not say. */
  function RestartLimit(entry: ServiceConfig): nat {
    match entry.maxRestarts
    case None => 5
    case Some(k) => if k < 0 then 0 else k
  }

  predicate WithinBudget(log: seq<Event>, name: string) {
    match LastConfigured(log, name)
    case None => RestartsSince(log, name) == 0
    case Some(entry) =>
      && RestartsSince(log, name) <= RestartLimit(entry)
      && (entry.restartPolicy == Some("never") ==> RestartsSince(log, name) == 0)
  }

  /** At every moment of the history, every service is within its restart budget. */
  ghost predicate AlwaysWithinBudget(log: seq<Event>) {
    forall i: nat, name | i <= |log| :: WithinBudget(log[..i], name)
  }

  lemma BudgetSnoc(log: seq<Event>, e: Event)
    requires AlwaysWithinBudget(log) && forall name :: WithinBudget(log + [e], name)
    ensures AlwaysWithinBudget(log + [e])
  {
    hide WithinBudget;
    forall i: nat, name | i <= |log| + 1 ensures WithinBudget((log + [e])[..i], name) {
      if i <= |log| {
        assert (log + [e])[..i] == log[..i];
      } else {
        assert (log + [e])[..i] == log + [e];
      }
    }
  }

  lemma BudgetNow(log: seq<Event>, name: string)
    requires AlwaysWithinBudget(log)
    ensures WithinBudget(log, name)
  {
    assert log[..|log|] == log;
  }

  lemma LogSnoc(log: seq<Event>, e: Event, name: string)
    ensures LastConfigured(log + [e], name)
      == if e.Configured? && e.name == name then Some(e.entry) else LastConfigured(log, name)
    ensures RestartsSince(log + [e], name)
      == if e.Configured? && e.name == name then 0
         else RestartsSince(log, name) + if e == Restarted(name) then 1 else 0
  {
    assert (log + [e])[..|log|] == log;
  }

  // ---- What every reachable state satisfies ----

  /** A managed service runs, or ran, the process of its own name, command and port. */
  ghost predicate Managed(name: string, state: ServiceState, processes: seq<Process>) {
    && state.spec.name == name
    && state.process.Some? && state.process.value < |processes|
    && var p := processes[state.process.value];
      p.name == name && p.command == state.spec.command && p.port == state.spec.port
  }

  ghost predicate LiveIsManaged(services: map<string, ServiceState>, processes: seq<Process>) {
    forall pid | 0 <= pid < |processes| && processes[pid].returncode.None? ::
      && processes[pid].name in services
      && services[processes[pid].name].process == Some(pid)
  }

  ghost predicate Accounted(name: string, state: ServiceState, log: seq<Event>) {
    && LastConfigured(log, name).Some? && FromEntry(name, state.spec, LastConfigured(log, name).value)
    && RestartsSince(log, name) == state.restartCount
  }

  ghost predicate Invariant(services: map<string, ServiceState>, processes: seq<Process>, log: seq<Event>) {
    && (forall name | name in services :: Managed(name, services[name], processes))
    && LiveIsManaged(services, processes)
    && (forall name | name in services :: Accounted(name, services[name], log))
    && AlwaysWithinBudget(log)
  }

  /** Two live processes never carry one name. */
  lemma AtMostOneLive(services: map<string, ServiceState>, processes: seq<Process>, log: seq<Event>, p: nat, q: nat)
    requires Invariant(services, processes, log)
    requires p < |processes| && q < |processes| && processes[p].returncode.None? && processes[q].returncode.None?
    requires processes[p].name == processes[q].name
    ensures p == q
  {
    hide Managed, Accounted, AlwaysWithinBudget;
    assert services[processes[p].name].process == Some(p);
  }

  /**
   Since its last configured start no service was restarted more often than the entry allows that it was
   started from: never under the policy of that name, and at most five times if the entry does not say.
   */
  lemma RestartsAreBounded(services: map<string, ServiceState>, processes: seq<Process>, log: seq<Event>, i: nat,
    name: string)
    requires Invariant(services, processes, log) && i <= |log|
    ensures var entry, restarts := LastConfigured(log[..i], name), RestartsSince(log[..i], name);
      && (entry.None? ==> restarts == 0)
      && (entry.Some? && entry.value.restartPolicy == Some("never") ==> restarts == 0)
      && (entry.Some? && entry.value.maxRestarts.Some? && entry.value.maxRestarts.value >= 0 ==>
          restarts <= entry.value.maxRestarts.value)
      && (entry.Some? && entry.value.maxRestarts.None? ==> restarts <= 5)
  {
    hide Managed, Accounted, LastConfigured, RestartsSince;
    assert WithinBudget(log[..i], name);
  }

  /** Two entries that specify one service allow the same restarts. */
  lemma SameAllowance(name: string, spec: ServiceSpec, a: ServiceConfig, b: ServiceConfig)
    requires FromEntry(name, spec, a) && FromEntry(name, spec, b)
    ensures RestartLimit(a) == RestartLimit(b)
    ensures a.restartPolicy == Some("never") <==> b.restartPolicy == Some("never")
  {
  }

  lemma {:induction false} ConfiguredBefore(log: seq<Event>, more: seq<Event>, name: string)
    requires forall e | e in more :: !(e.Configured? && e.name == name)
    ensures LastConfigured(log + more, name) == LastConfigured(log, name)
  {
    if more == [] {
      assert log + more == log;
    } else {
      var init, last := more[..|more| - 1], more[|more| - 1];
      assert log + more == (log + init) + [last] && last in more;
      ConfiguredBefore(log, init, name);
      LogSnoc(log + init, last, name);
    }
  }

  /**
   From the moment at which a service runs as an entry of the configuration says, and up to its next
   configured start, it is restarted no more often than that entry allows, whatever else happens.
   */
  lemma EntryBoundsRestarts(
    services: map<string, ServiceState>, processes: seq<Process>, log: seq<Event>, name: string, c: ServiceConfig,
    later: map<string, ServiceState>, laterProcesses: seq<Process>, more: seq<Event>)
    requires Invariant(services, processes, log) && name in services && FromEntry(name, services[name].spec, c)
    requires Invariant(later, laterProcesses, log + more) && forall e | e in more :: !(e.Configured? && e.name == name)
    ensures var restarts := RestartsSince(log + more, name);
      && (c.restartPolicy == Some("never") ==> restarts == 0)
      && (c.maxRestarts.Some? && c.maxRestarts.value >= 0 ==> restarts <= c.maxRestarts.value)
      && (c.maxRestarts.None? ==> restarts <= 5)
  {
    hide AlwaysWithinBudget, LastConfigured, RestartsSince, FromEntry, Managed;
    ConfiguredBefore(log, more, name);
    BudgetNow(log + more, name);
    SameAllowance(name, services[name].spec, LastConfigured(log, name).value, c);
  }

  // ---- What starting and stopping keep ----

  lemma StartsWithinBudget()
    ensures AlwaysWithinBudget([])
  {
  }

  /** A start is due when the configuration asks for it, or when the monitor has budget left. */
  predicate StartDue(log: seq<Event>, spec: ServiceSpec, e: Event) {
    || (e.Configured? && e.name == spec.name && FromEntry(spec.name, spec, e.entry))
    || (&& e == Restarted(spec.name)
        && LastConfigured(log, spec.name).Some? && FromEntry(spec.name, spec, LastConfigured(log, spec.name).value)
        && spec.restartPolicy != "never"
        && RestartsSince(log, spec.name) < spec.maxRestarts)
  }

  lemma StartWithinBudget(log: seq<Event>, spec: ServiceSpec, e: Event)
    requires AlwaysWithinBudget(log) && StartDue(log, spec, e)
    ensures AlwaysWithinBudget(log + [e])
  {
    hide AlwaysWithinBudget, LastConfigured, RestartsSince;
    forall name ensures WithinBudget(log + [e], name) {
      BudgetNow(log, name);
      LogSnoc(log, e, name);
    }
    BudgetSnoc(log, e);
  }

  lemma StopWithinBudget(log: seq<Event>, name: string)
    requires AlwaysWithinBudget(log)
    ensures AlwaysWithinBudget(log + [Stopped(name)])
  {
    hide AlwaysWithinBudget, LastConfigured, RestartsSince;
    forall other ensures WithinBudget(log + [Stopped(name)], other) {
      BudgetNow(log, other);
      LogSnoc(log, Stopped(name), other);
    }
    BudgetSnoc(log, Stopped(name));
  }

  function Spawned(spec: ServiceSpec): Process {
    Process(spec.name, spec.command, spec.port, None)
  }

  lemma StartKeepsInvariant(
    services: map<string, ServiceState>, processes: seq<Process>, log: seq<Event>, spec: ServiceSpec, e: Event)
    requires Invariant(services, processes, log) && spec.name !in services && StartDue(log, spec, e)
    ensures Invariant(
      services[spec.name := ServiceState(spec, Some(|processes|), RestartsSince(log + [e], spec.name))],
      processes + [Spawned(spec)], log + [e])
  {
    hide AlwaysWithinBudget, LastConfigured, RestartsSince;
    StartWithinBudget(log, spec, e);
    forall name { LogSnoc(log, e, name); }
  }

  /** The processes after one was made to exit; stopping one that has exited changes nothing. */
  function Terminated(processes: seq<Process>, pid: nat, code: int): (r: seq<Process>)
    requires pid < |processes|
    ensures |r| == |processes| && r[pid].returncode.Some?
    ensures processes[pid].returncode.Some? ==> r[pid] == processes[pid]
    ensures processes[pid].returncode.None? ==> r[pid] == processes[pid].(returncode := Some(code))
    ensures forall i | 0 <= i < |r| && i != pid :: r[i] == processes[i]
  {
    if processes[pid].returncode.Some? then processes
    else processes[pid := processes[pid].(returncode := Some(code))]
  }

  lemma StopKeepsInvariant(
    services: map<string, ServiceState>, processes: seq<Process>, log: seq<Event>, name: string, code: int)
    requires Invariant(services, processes, log) && name in services
    ensures Managed(name, services[name], processes)
    ensures Invariant(
      services - {name}, Terminated(processes, services[name].process.value, code), log + [Stopped(name)])
  {
    hide AlwaysWithinBudget, LastConfigured, RestartsSince;
    StopWithinBudget(log, name);
    forall other { LogSnoc(log, Stopped(name), other); }
  }

  /** The processes of some names go on as they were. */
  predicate Spared(before: seq<Process>, after: seq<Process>, names: set<string>) {
    |before| <= |after| && forall pid | 0 <= pid < |before| && before[pid].name in names :: after[pid] == before[pid]
  }

  /** The managed services whose entries ask for no other command or port. */
  function UnalteredNames(services: map<string, ServiceState>, config: map<string, ServiceConfig>): set<string> {
    set name | name in services && name in config && Unaltered(services[name].spec, config[name])
  }

  /** Of the processes that were there, only those of one name have changed. */
  predicate OnlyOf(before: seq<Process>, after: seq<Process>, name: string) {
    |before| <= |after| && forall pid | 0 <= pid < |before| :: after[pid] == before[pid] || before[pid].name == name
  }

  /** A service as the configuration wants it: kept from before, or started anew with its whole entry. */
  predicate AsConfigured(
    name: string, state: ServiceState, c: ServiceConfig, before: map<string, ServiceState>, oldPids: nat)
  {
    && c.command == Some(state.spec.command) && c.port == Some(state.spec.port)
    && (|| (name in before && state == before[name])
        || (&& FromEntry(name, state.spec, c) && state.restartCount == 0
            && state.process.Some? && state.process.value >= oldPids))
  }

  /** Some services are as the configuration wants them. */
  predicate UpToDate(
    services: map<string, ServiceState>, config: map<string, ServiceConfig>, among: set<string>,
    before: map<string, ServiceState>, oldPids: nat)
  {
    forall name | name in among ::
      name in services && name in config && AsConfigured(name, services[name], config[name], before, oldPids)
  }

  /**
   What reconciliation leaves alone, whatever its outcome: the configured services whose entries ask for no
   other command or port, and their processes.
   */
  predicate LeftAlone(
    before: map<string, ServiceState>, running: seq<Process>, services: map<string, ServiceState>,
    processes: seq<Process>, config: map<string, ServiceConfig>)
  {
    && (forall name | name in UnalteredNames(before, config) :: name in services && services[name] == before[name])
    && Spared(running, processes, UnalteredNames(before, config))
  }

  /** A change of one service that is altered leaves the others alone. */
  lemma LeftAloneStep(
    before: map<string, ServiceState>, running: seq<Process>, config: map<string, ServiceConfig>,
    now: map<string, ServiceState>, pnow: seq<Process>, next: map<string, ServiceState>, pnext: seq<Process>,
    name: string)
    requires LeftAlone(before, running, now, pnow, config)
    requires name in now && name in before && name in config && now[name] == before[name]
    requires OnlyOf(pnow, pnext, name)
    requires forall other | other in now && other != name :: other in next && next[other] == now[other]
    requires Unaltered(now[name].spec, config[name]) ==> name in next && next[name] == now[name] && pnext == pnow
    ensures LeftAlone(before, running, next, pnext, config)
  {
    hide Unaltered;
  }

  /** One more service is up to date when it was brought there, and those that were before stay so. */
  lemma UpToDateStep(
    before: map<string, ServiceState>, config: map<string, ServiceConfig>, among: set<string>, oldPids: nat,
    now: map<string, ServiceState>, pids: nat, next: map<string, ServiceState>, name: string)
    requires UpToDate(now, config, among, before, oldPids) && name !in among && oldPids <= pids
    requires name in now && name in before && name in config && now[name] == before[name] && name in next
    requires forall other | other in now && other != name :: other in next && next[other] == now[other]
    requires AsConfigured(name, next[name], config[name], now, pids)
    ensures UpToDate(next, config, among + {name}, before, oldPids)
  {
    ConfiguredSince(name, next[name], config[name], now, pids, before, oldPids);
    hide AsConfigured;
  }

  /** The services that are still configured, with no others. */
  function Retained(services: map<string, ServiceState>, config: map<string, ServiceConfig>)
    : map<string, ServiceState>
  {
    map name | name in services && name in config :: services[name]
  }

  /** Stopping what is not configured, starting what is new and leaving services alone leaves them alone altogether. */
  lemma LeftAloneThrough(
    before: map<string, ServiceState>, running: seq<Process>, config: map<string, ServiceConfig>, stopped: seq<Process>,
    added: map<string, ServiceState>, started: seq<Process>, after: map<string, ServiceState>, processes: seq<Process>)
    requires Spared(running, stopped, config.Keys) && |stopped| == |running| && stopped <= started
    requires forall name | name in Retained(before, config) :: name in added && added[name] == before[name]
    requires LeftAlone(added, started, after, processes, config)
    ensures LeftAlone(before, running, after, processes, config)
  {
    hide Unaltered;
    assert forall name | name in UnalteredNames(before, config) :: name in UnalteredNames(added, config);
    forall pid | 0 <= pid < |running| && running[pid].name in UnalteredNames(before, config)
      ensures |running| <= |processes| && processes[pid] == running[pid]
    {
      assert started[pid] == stopped[pid] == running[pid];
    }
  }

  /** New services and those that stayed make up the whole configuration. */
  lemma UpToDateThrough(
    before: map<string, ServiceState>, config: map<string, ServiceConfig>, pids: nat, added: map<string, ServiceState>,
    more: nat, after: map<string, ServiceState>)
    requires pids <= more && config.Keys <= after.Keys
    requires forall name | name in Retained(before, config) :: name in added && added[name] == before[name]
    requires UpToDate(added, config, config.Keys - before.Keys, Retained(before, config), pids)
    requires forall name | name in config && name !in before :: name in added && after[name] == added[name]
    requires UpToDate(after, config, config.Keys * before.Keys, added, more)
    ensures UpToDate(after, config, config.Keys, before, pids)
  {
    hide AsConfigured;
    forall name | name in config ensures AsConfigured(name, after[name], config[name], before, pids) {
      if name in before {
        assert name in Retained(before, config);
        ConfiguredSince(name, after[name], config[name], added, more, before, pids);
      } else {
        ConfiguredAnew(name, after[name], config[name], Retained(before, config), before, pids);
      }
    }
  }

  lemma ConfiguredAnew(
    name: string, state: ServiceState, c: ServiceConfig, few: map<string, ServiceState>,
    before: map<string, ServiceState>, pids: nat)
    requires AsConfigured(name, state, c, few, pids) && name !in few
    ensures AsConfigured(name, state, c, before, pids)
  {
  }

  /** What is so since some moment is so since an earlier one, before which the service was the same. */
  lemma ConfiguredSince(
    name: string, state: ServiceState, c: ServiceConfig, before: map<string, ServiceState>, oldPids: nat,
    earlier: map<string, ServiceState>, pids: nat)
    requires AsConfigured(name, state, c, before, oldPids) && pids <= oldPids
    requires name in before && name in earlier && before[name] == earlier[name]
    ensures AsConfigured(name, state, c, earlier, pids)
  {
    hide FromEntry;
  }

  class Runner {
    var services: map<string, ServiceState>
    var processes: seq<Process>
    var shuttingDown: bool
    ghost var log: seq<Event>

    ghost predicate Valid()
      reads this
    {
      Invariant(services, processes, log)
    }

    constructor ()
      ensures Valid() && services == map[] && processes == [] && log == [] && !shuttingDown
    {
      services, processes, shuttingDown, log := map[], [], false, [];
      new;
      StartsWithinBudget();
    }

    /** A process ends by itself. */
    method Exit(pid: nat, code: int)
      requires Valid() && pid < |processes|
      modifies `processes
      ensures Valid() && processes == Terminated(old(processes), pid, code)
    {
      hide AlwaysWithinBudget, Accounted;
      if processes[pid].returncode.None? {
        processes := processes[pid := processes[pid].(returncode := Some(code))];
      }
    }

    /** Starts a service that is not managed; `event` records who asked for it. */
    method StartService(spec: ServiceSpec, ghost event: Event)
      modifies `services, `processes, `log
      ensures services == old(services)[spec.name := ServiceState(spec, Some(|old(processes)|), 0)]
      ensures processes == old(processes) + [Spawned(spec)]
      ensures log == old(log) + [event]
    {
      var pid := |processes|;
      processes := processes + [Process(spec.name, spec.command, spec.port, None)];
      var state := ServiceState(spec, Some(pid), 0);
      services := services[spec.name := state];
      log := log + [event];
    }

    /** Stops and forgets a service; `code` is the exit code that the signal leads to. */
    method StopService(name: string, code: int)
      requires Valid()
      modifies `services, `processes, `log
      ensures Valid()
      ensures services == old(services) - {name}
      ensures name !in old(services) ==> processes == old(processes) && log == old(log)
      ensures name in old(services) ==>
        && Managed(name, old(services)[name], old(processes))
        && processes == Terminated(old(processes), old(services)[name].process.value, code)
        && log == old(log) + [Stopped(name)]
    {
      hide Invariant, Managed;
      if name in services {
        StopKeepsInvariant(services, processes, log, name, code);
        ManagedRuns(name, services[name], processes);
      }
      if name !in services || services[name].process.None? {
        services := services - {name};
        assert services == old(services);
        return;
      }
      var pid := services[name].process.value;
      if processes[pid].returncode.None? {
        processes := processes[pid := processes[pid].(returncode := Some(code))];
      }
      services := services - {name};
      log := log + [Stopped(name)];
    }

    /** Starts one service as the configuration says; a missing command or port raises an error. */
    method StartConfigured(name: string, c: ServiceConfig) returns (ok: bool)
      requires Valid() && name !in services
      modifies `services, `processes, `log
      ensures Valid() && (ok <==> Complete(c))
      ensures !ok ==> services == old(services) && processes == old(processes) && log == old(log)
      ensures ok ==>
        && name in services && FromEntry(name, services[name].spec, c)
        && services == old(services)[name := ServiceState(SpecOf(name, c), Some(|old(processes)|), 0)]
        && processes == old(processes) + [Spawned(SpecOf(name, c))]
        && log == old(log) + [Configured(name, c)]
    {
      hide Invariant;
      if !Complete(c) {
        return false;
      }
      var spec := SpecOf(name, c);
      StartKeepsInvariant(services, processes, log, spec, Configured(name, c));
      LogSnoc(log, Configured(name, c), name);
      StartService(spec, Configured(name, c));
      return true;
    }

    /** Stops the services that the configuration no longer names. */
    method StopRemoved(config: map<string, ServiceConfig>, code: int)
      requires Valid()
      modifies `services, `processes, `log
      ensures Valid()
      ensures services == Retained(old(services), config)
      ensures |processes| == |old(processes)| && Spared(old(processes), processes, config.Keys)
    {
      hide Invariant, Managed;
      var removed := services.Keys - config.Keys;
      while removed != {}
        invariant Valid()
        invariant removed == services.Keys - config.Keys && |processes| == |old(processes)|
        invariant Spared(old(processes), processes, config.Keys)
        invariant forall name | name in services :: name in old(services) && services[name] == old(services)[name]
        invariant forall name | name in old(services) && name in config :: name in services
      {
        var name :| name in removed;
        ghost var state, running := services[name], processes;
        StopService(name, code);
        ManagedRuns(name, state, running);
        removed := removed - {name};
      }
      assert forall name | name in services && name !in config :: name in removed;
    }

    /** Starts the configured services that are not managed yet. */
    method StartAdded(config: map<string, ServiceConfig>) returns (ok: bool)
      requires Valid() && services.Keys <= config.Keys
      modifies `services, `processes, `log
      ensures Valid() && services.Keys <= config.Keys
      ensures ok <==> forall name | name in config && name !in old(services) :: Complete(config[name])
      ensures forall name | name in old(services) :: name in services && services[name] == old(services)[name]
      ensures old(processes) <= processes
      ensures ok ==>
        && services.Keys == config.Keys
        && UpToDate(services, config, config.Keys - old(services).Keys, old(services), |old(processes)|)
    {
      hide Invariant, Complete;
      var added := config.Keys - services.Keys;
      while added != {}
        invariant Valid() && services.Keys <= config.Keys
        invariant added == config.Keys - services.Keys
        invariant forall name | name in config && name !in old(services) && name !in added :: Complete(config[name])
        invariant forall name | name in old(services) :: name in services && services[name] == old(services)[name]
        invariant UpToDate(services, config, services.Keys - old(services).Keys, old(services), |old(processes)|)
        invariant old(processes) <= processes
      {
        var name :| name in added;
        var started := StartConfigured(name, config[name]);
        if !started {
          return false;
        }
        added := added - {name};
      }
      assert forall name | name in config && name !in services :: name in added;
      return true;
    }

    /** Stops a service and starts it from its entry; it stays stopped if the entry is not complete. */
    method StopAndStart(name: string, c: ServiceConfig, code: int) returns (ok: bool)
      requires Valid() && name in services
      modifies `services, `processes, `log
      ensures Valid() && (ok <==> Complete(c)) && |processes| >= |old(processes)|
      ensures OnlyOf(old(processes), processes, name)
      ensures services.Keys == if ok then old(services).Keys else old(services).Keys - {name}
      ensures forall other | other in services && other != name :: services[other] == old(services)[other]
      ensures ok ==>
        && FromEntry(name, services[name].spec, c) && services[name].restartCount == 0
        && c.command == Some(services[name].spec.command) && c.port == Some(services[name].spec.port)
        && services[name].process.Some? && services[name].process.value >= |old(processes)|
    {
      hide Invariant, Complete, Managed;
      ghost var state, running := services[name], processes;
      StopService(name, code);
      ManagedRuns(name, state, running);
      ok := StartConfigured(name, c);
    }

    /** Restarts a service if its command or port is configured differently; fails if that cannot be told or done. */
    method UpdateOne(name: string, c: ServiceConfig, code: int) returns (ok: bool)
      requires Valid() && name in services
      modifies `services, `processes, `log
      ensures Valid() && (ok <==> Matches(old(services)[name].spec, c) || Complete(c))
      ensures |processes| >= |old(processes)| && OnlyOf(old(processes), processes, name)
      ensures Unaltered(old(services)[name].spec, c) ==> processes == old(processes)
      ensures services.Keys == if name in services then old(services).Keys else old(services).Keys - {name}
      ensures forall other | other in services && other != name :: services[other] == old(services)[other]
      ensures ok ==> name in services && AsConfigured(name, services[name], c, old(services), |old(processes)|)
      ensures Unaltered(old(services)[name].spec, c) ==> name in services && services[name] == old(services)[name]
    {
      hide Invariant, Complete, Managed, Matches, Changed, FromEntry, Unaltered;
      ChangedMatches(services[name].spec, c);
      var differs := Changed(services[name].spec, c);
      if differs.None? {
        return false;
      }
      ok := true;
      if differs.value {
        ok := StopAndStart(name, c, code);
      }
    }

    /** Restarts the managed services whose command or port is configured differently. */
    method UpdateChanged(config: map<string, ServiceConfig>, running: set<string>, code: int) returns (ok: bool)
      requires Valid() && services.Keys == config.Keys && running <= config.Keys
      modifies `services, `processes, `log
      ensures Valid() && services.Keys <= config.Keys
      ensures ok ==> services.Keys == config.Keys
      ensures ok ==> UpToDate(services, config, running, old(services), |old(processes)|)
      ensures ok <==> forall name | name in running && !Matches(old(services)[name].spec, config[name]) ::
        Complete(config[name])
      ensures ok ==> forall name | name in config && name !in running :: services[name] == old(services)[name]
      ensures LeftAlone(old(services), old(processes), services, processes, config)
    {
      hide Invariant, Complete, Managed, Matches, FromEntry, Unaltered, AsConfigured, UpToDate, LeftAlone, OnlyOf;
      NothingDone(services, processes, config);
      var changed := running;
      assert running - changed == {};
      while changed != {}
        invariant Valid() && services.Keys == config.Keys && changed <= running
        invariant UpToDate(services, config, running - changed, old(services), |old(processes)|)
        invariant |processes| >= |old(processes)|
        invariant forall name | name in changed || (name in config && name !in running) ::
          services[name] == old(services)[name]
        invariant forall name | name in running - changed && !Matches(old(services)[name].spec, config[name]) ::
          Complete(config[name])
        invariant LeftAlone(old(services), old(processes), services, processes, config)
      {
        var name :| name in changed;
        ghost var now, pnow := services, processes;
        var updated := UpdateOne(name, config[name], code);
        LeftAloneStep(old(services), old(processes), config, now, pnow, services, processes, name);
        if !updated {
          return false;
        }
        UpToDateStep(old(services), config, running - changed, |old(processes)|, now, |pnow|, services, name);
        assert running - changed + {name} == running - (changed - {name});
        changed := changed - {name};
      }
      assert running - changed == running;
      return true;
    }

    /**
     Reconciles with the configuration file; `None` is a file that is missing or cannot be read.  It
     succeeds exactly when every entry that it has to start names a command and a port.
     */
    method Reconcile(loaded: Option<map<string, ServiceConfig>>, code: int) returns (ok: bool)
      requires Valid()
      modifies `services, `processes, `log
      ensures Valid()
      ensures var config := GetOr(loaded, map[]);
        && services.Keys <= config.Keys
        && (ok ==> services.Keys == config.Keys)
        && (ok ==> UpToDate(services, config, config.Keys, old(services), |old(processes)|))
        && LeftAlone(old(services), old(processes), services, processes, config)
        && (ok <==> forall name |
             name in config && (name in old(services) ==>
               config[name].command != Some(old(services)[name].spec.command) ||
               config[name].port != Some(old(services)[name].spec.port)) ::
             config[name].command.Some? && config[name].port.Some?)
    {
      hide Invariant, FromEntry, Unaltered, LeftAlone, UpToDate, AsConfigured, Spared;
      var config := GetOr(loaded, map[]);
      var running := services.Keys;
      StopRemoved(config, code);
      ghost var stopped := processes;
      assert config.Keys - services.Keys == config.Keys - running;
      ok := StartAdded(config);
      ghost var added, started := services, processes;
      NothingDone(services, processes, config);
      if ok {
        ok := UpdateChanged(config, config.Keys * running, code);
        if ok {
          UpToDateThrough(old(services), config, |old(processes)|, added, |started|, services);
        }
      }
      LeftAloneThrough(old(services), old(processes), config, stopped, added, started, services, processes);
    }

    /** One look of the monitor at a service: the restart that is due, or nothing. */
    method MonitorTick(name: string, code: int)
      requires Valid()
      modifies `services, `processes, `log
      ensures Valid()
      ensures var due := name in old(services)
          && old(services)[name].process.Some? && old(services)[name].process.value < |old(processes)|
          && old(processes)[old(services)[name].process.value].returncode.Some?
          && old(services)[name].spec.restartPolicy != "never"
          && old(services)[name].restartCount < old(services)[name].spec.maxRestarts;
        if due then
          var state := old(services)[name];
          && services == old(services)[name := ServiceState(state.spec, Some(|old(processes)|), state.restartCount + 1)]
          && processes == old(processes) + [Spawned(state.spec)]
          && log == old(log) + [Stopped(name), Restarted(name)]
        else
          services == old(services) && processes == old(processes) && log == old(log)
    {
      hide Invariant, Managed, Accounted;
      if name !in services || services[name].process.None? {
        return;
      }
      var state := services[name];
      ManagedState(services, processes, log, name);
      if processes[state.process.value].returncode.None? {
        return;
      }
      if state.spec.restartPolicy == "never" {
        return;
      }
      if state.restartCount >= state.spec.maxRestarts {
        return;
      }
      var count := state.restartCount + 1;
      StopService(name, code);
      LogSnoc(old(log), Stopped(name), name);
      StartKeepsInvariant(services, processes, log, state.spec, Restarted(name));
      LogSnoc(log, Restarted(name), name);
      ghost var remaining, started := services, ServiceState(state.spec, Some(|processes|), 0);
      StartService(state.spec, Restarted(name));
      services := services[name := services[name].(restartCount := count)];
      Overwritten(remaining, name, started, started.(restartCount := count));
      Replaced(old(services), name, services[name]);
      assert log == old(log) + [Stopped(name), Restarted(name)];
    }

    /** Stops everything, once. */
    method Shutdown(code: int)
      requires Valid()
      modifies this
      ensures Valid() && shuttingDown
      ensures old(shuttingDown) ==> services == old(services) && processes == old(processes) && log == old(log)
      ensures !old(shuttingDown) ==>
        services == map[] && forall pid | 0 <= pid < |processes| :: processes[pid].returncode.Some?
    {
      if shuttingDown {
        return;
      }
      shuttingDown := true;
      hide AlwaysWithinBudget, Accounted, Managed;
      StopRemoved(map[], code);
    }
  }

  lemma NothingDone(services: map<string, ServiceState>, processes: seq<Process>, config: map<string, ServiceConfig>)
    ensures LeftAlone(services, processes, services, processes, config)
    ensures UpToDate(services, config, {}, services, |processes|)
  {
  }

  lemma ChangedMatches(spec: ServiceSpec, c: ServiceConfig)
    ensures Changed(spec, c) == Some(false) <==> Matches(spec, c)
    ensures Matches(spec, c) <==> c.command == Some(spec.command) && c.port == Some(spec.port)
    ensures Changed(spec, c) != Some(true) <==> Unaltered(spec, c)
    ensures Changed(spec, c).None? ==> !Complete(c)
  {
  }

  lemma Overwritten(m: map<string, ServiceState>, name: string, v: ServiceState, w: ServiceState)
    ensures m[name := v][name := w] == m[name := w]
  {
  }

  lemma Replaced(m: map<string, ServiceState>, name: string, v: ServiceState)
    requires name in m
    ensures (m - {name})[name := v] == m[name := v]
  {
  }

  lemma ManagedState(services: map<string, ServiceState>, processes: seq<Process>, log: seq<Event>, name: string)
    requires Invariant(services, processes, log) && name in services
    ensures var state := services[name];
      && state.spec.name == name
      && state.process.Some? && state.process.value < |processes|
      && LastConfigured(log, name).Some? && FromEntry(name, state.spec, LastConfigured(log, name).value)
      && RestartsSince(log, name) == state.restartCount
  {
    hide AlwaysWithinBudget, LastConfigured, RestartsSince;
  }

  lemma ManagedRuns(name: string, state: ServiceState, processes: seq<Process>)
    requires Managed(name, state, processes)
    ensures state.process.Some? && state.process.value < |processes| && processes[state.process.value].name == name
  {
  }
}
