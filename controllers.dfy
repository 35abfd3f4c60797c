/**
 * The parts of the vistrail controller the upgrade engine calls: its id
 * scope, the op builder that deletes a module with everything attached to
 * it, and the builders of new modules and functions.
 */
module Controllers {
  import opened Pipelines
  import opened Actions
  import opened Registry
  import opened IdScopes

  /** deleteModuleListOps(pipeline, ids) is delete_module_list_ops;
      createFunction(name, values) is create_function for the new module. */
  datatype Controller = Controller(idScope: IdScope,
                                   deleteModuleListOps: (Pipeline, seq<nat>) -> seq<Op>,
                                   createFunction: (string, seq<string>) -> ModuleFunction)

  /** create_module_from_descriptor(d, x, y): an empty module of the
      descriptor's package, name and namespace, placed at (x, y), under a
      fresh module id. */
  method CreateModuleFromDescriptor(ctrl: Controller, d: Descriptor, x: real, y: real)
    returns (m: Module)
    modifies ctrl.idScope
    ensures m == Module(old(ctrl.idScope.counters).modules, d.identifier, d.name, d.namespace,
                        Location(x, y), Plain, [], [], [], NoSubpipeline)
    ensures ctrl.idScope.counters == old(ctrl.idScope.counters).Bump(ModuleId)
  {
    var id := ctrl.idScope.GetNewId(ModuleId);
    m := Module(id, d.identifier, d.name, d.namespace, Location(x, y), Plain, [], [], [],
                NoSubpipeline);
  }

  /** create_module(package, name, namespace, x, y): the same, for a module
      named directly rather than through a descriptor. */
  method CreateModule(ctrl: Controller, package: string, name: string, namespace: string,
                      x: real, y: real)
    returns (m: Module)
    modifies ctrl.idScope
    ensures m == Module(old(ctrl.idScope.counters).modules, package, name, namespace,
                        Location(x, y), Plain, [], [], [], NoSubpipeline)
    ensures ctrl.idScope.counters == old(ctrl.idScope.counters).Bump(ModuleId)
  {
    var id := ctrl.idScope.GetNewId(ModuleId);
    m := Module(id, package, name, namespace, Location(x, y), Plain, [], [], [], NoSubpipeline);
  }
}
