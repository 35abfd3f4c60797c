/**
 * The entry points of the upgrade engine: dispatch_request, which hands an
 * invalid module to its package's upgrade handler or to automatic upgrade,
 * and attempt_automatic_upgrade, which finds the module's current
 * descriptor, checks every port the module uses against it and replaces the
 * module.
 */
module Upgrade {
  import opened Wrappers
  import opened Pipelines
  import opened Actions
  import opened Registry
  import opened Packages
  import opened IdScopes
  import opened Controllers
  import opened Validation
  import opened Replacement
  import opened ReplaceMethods

  /** The descriptor an upgrade resolves to, and the registry once the
      package's missing-module handler (if it ran) has had its say. */
  datatype Resolution = Resolution(result: Result<Descriptor, Error>, registry: Registry)

  function KeyOf(m: Module): ModuleKey
  {
    ModuleKey(m.package, m.name, m.namespace)
  }

  /** The descriptor lookup of attempt_automatic_upgrade. A registered
      module resolves at once. Otherwise a package that can handle missing
      modules is asked to, and the lookup is repeated against the registry
      it leaves; the module resolves only if the handler answered true and
      the repeated lookup succeeds. Every other outcome is "could not
      upgrade". */
  function ResolveDescriptor(pkg: Package, reg: Registry, p: Pipeline, moduleId: nat, m: Module)
    : (r: Resolution)
    ensures KeyOf(m) in reg ==> r == Resolution(Success(reg[KeyOf(m)]), reg)
    ensures !pkg.canHandleMissingModules ==> r.registry == reg
    ensures r.result.Success? ==> KeyOf(m) in r.registry && r.result.value == r.registry[KeyOf(m)]
    ensures r.result.Success? && KeyOf(m) !in reg ==>
              pkg.canHandleMissingModules && pkg.handleMissingModule(moduleId, p, reg).0
    ensures r.result.Failure? ==> r.result.error == UpgradeWorkflowError(CouldNotUpgrade(m.name, m.package))
    ensures KeyOf(m) !in reg && pkg.canHandleMissingModules ==>
              r.registry == pkg.handleMissingModule(moduleId, p, reg).1
    ensures var (handled, after) := pkg.handleMissingModule(moduleId, p, reg);
            KeyOf(m) !in reg && pkg.canHandleMissingModules && handled && KeyOf(m) in after ==>
              r.result == Success(after[KeyOf(m)])
  {
    match GetDescriptorByName(reg, m.package, m.name, m.namespace)
    case Success(d) => Resolution(Success(d), reg)
    case Failure(_) =>
      var couldNot := Failure(UpgradeWorkflowError(CouldNotUpgrade(m.name, m.package)));
      if !pkg.canHandleMissingModules then Resolution(couldNot, reg)
      else
        var (handled, after) := pkg.handleMissingModule(moduleId, p, reg);
        match GetDescriptorByName(after, m.package, m.name, m.namespace)
        case Failure(_) => Resolution(couldNot, after)
        case Success(d) => if handled then Resolution(Success(d), after) else Resolution(couldNot, after)
  }

  /** What an upgrade request returns, the id counters after it and the
      registry after it. */
  datatype Upgraded = Upgraded(result: Result<seq<Action>, Error>, counters: Counters,
                               registry: Registry)

  /** attempt_automatic_upgrade(controller, pipeline, module_id): the
      package must be installed and the descriptor must resolve; then every
      port the module uses is checked against the descriptor; then the
      module is replaced by one of the descriptor, with no remaps. */
  function AutomaticUpgradeSpec(pm: PackageManager, reg: Registry, p: Pipeline, moduleId: nat,
                                deleteOps: seq<Op>, create: (string, seq<string>) -> ModuleFunction,
                                c0: Counters): Upgraded
    requires WellFormed(p) && moduleId in p.modules
  {
    var m := p.modules[moduleId];
    match GetPackageByIdentifier(pm, m.package)
    case Failure(e) => Upgraded(Failure(e), c0, reg)
    case Success(pkg) =>
      var res := ResolveDescriptor(pkg, reg, p, moduleId, m);
      match res.result
      case Failure(e) => Upgraded(Failure(e), c0, res.registry)
      case Success(d) =>
        match FirstFailure(m, d, PortUses(p, moduleId, m))
        case Fail(e) => Upgraded(Failure(e), c0, res.registry)
        case Pass =>
          var done := ReplaceModuleSpec(p, res.registry, moduleId, d, NoRemaps(), deleteOps, create, c0);
          Upgraded(done.result, done.counters, res.registry)
  }

  /** dispatch_request(controller, module_id, pipeline): a module no longer
      in the pipeline has been handled already and yields no actions; a
      package with an upgrade handler answers for its module; any other
      module is upgraded automatically. */
  function DispatchSpec(pm: PackageManager, reg: Registry, p: Pipeline, moduleId: nat,
                        deleteOps: seq<Op>, create: (string, seq<string>) -> ModuleFunction,
                        c0: Counters): Upgraded
    requires WellFormed(p)
  {
    if moduleId !in p.modules then Upgraded(Success([]), c0, reg)
    else
      match GetPackageByIdentifier(pm, p.modules[moduleId].package)
      case Failure(e) => Upgraded(Failure(e), c0, reg)
      case Success(pkg) =>
        match pkg.upgradeHandler
        case Some(handler) => Upgraded(handler(moduleId, p), c0, reg)
        case None => AutomaticUpgradeSpec(pm, reg, p, moduleId, deleteOps, create, c0)
  }

  method AttemptAutomaticUpgrade(ctrl: Controller, pm: PackageManager, reg: Registry, p: Pipeline,
                                 moduleId: nat)
    returns (r: Result<seq<Action>, Error>, regAfter: Registry)
    requires WellFormed(p) && moduleId in p.modules
    modifies ctrl.idScope
    ensures Upgraded(r, ctrl.idScope.counters, regAfter) ==
              AutomaticUpgradeSpec(pm, reg, p, moduleId, ctrl.deleteModuleListOps(p, [moduleId]),
                                   ctrl.createFunction, old(ctrl.idScope.counters))
  {
    var m := p.modules[moduleId];
    var pkg := GetPackageByIdentifier(pm, m.package);
    if pkg.Failure? {
      return Failure(pkg.error), reg;
    }
    var resolution := ResolveDescriptor(pkg.value, reg, p, moduleId, m);
    regAfter := resolution.registry;
    if resolution.result.Failure? {
      return Failure(resolution.result.error), regAfter;
    }
    var d := resolution.result.value;
    var check := CheckIncidentPorts(p, moduleId, m, d);
    if check.Fail? {
      return Failure(check.error), regAfter;
    }
    r := ReplaceModule(ctrl, regAfter, p, moduleId, d, NoRemaps());
  }

  method DispatchRequest(ctrl: Controller, pm: PackageManager, reg: Registry, p: Pipeline,
                         moduleId: nat)
    returns (r: Result<seq<Action>, Error>, regAfter: Registry)
    requires WellFormed(p)
    modifies ctrl.idScope
    ensures Upgraded(r, ctrl.idScope.counters, regAfter) ==
              DispatchSpec(pm, reg, p, moduleId, ctrl.deleteModuleListOps(p, [moduleId]),
                           ctrl.createFunction, old(ctrl.idScope.counters))
  {
    if moduleId !in p.modules {
      return Success([]), reg;
    }
    var pkg := GetPackageByIdentifier(pm, p.modules[moduleId].package);
    if pkg.Failure? {
      return Failure(pkg.error), reg;
    }
    match pkg.value.upgradeHandler {
      case Some(handler) =>
        r := handler(moduleId, p);
        regAfter := reg;
      case None =>
        r, regAfter := AttemptAutomaticUpgrade(ctrl, pm, reg, p, moduleId);
    }
  }
}
