/**
 * What replace_generic computes, stated as functions of its inputs: the
 * rebuilt module, the rebuilt connections with the ids they draw, the single
 * action's op list, and the id counters after the call.
 */
module Replacement {
  import opened Wrappers
  import opened Pipelines
  import opened Actions
  import opened Registry
  import opened IdScopes
  import opened Remap
  import opened Reconnection

  /** function_remap, src_port_remap, dst_port_remap, annotation_remap. */
  datatype Remaps = Remaps(functions: RemapTable, sourcePorts: RemapTable,
                           destinationPorts: RemapTable, annotations: RemapTable)

  /** The tables of a call that passes none: fresh empty maps. */
  function NoRemaps(): Remaps
  {
    Remaps(map[], map[], map[], map[])
  }

  function AnnotationDecider(t: RemapTable): Annotation -> Decision
  {
    (a: Annotation) => Decide(t, a.key, AnnotationItem(a))
  }

  /** Input specs are remapped by the destination-port table, output specs
      by the source-port table. */
  function PortSpecDecider(r: Remaps): PortSpec -> Decision
  {
    (s: PortSpec) =>
      Decide(if s.ptype == Input then r.destinationPorts else r.sourcePorts, s.name, PortSpecItem(s))
  }

  function FunctionDecider(t: RemapTable): ModuleFunction -> Decision
  {
    (f: ModuleFunction) => Decide(t, f.name, FunctionItem(f))
  }

  /** An outgoing connection is remapped by the name of its source port. */
  function OutgoingDecider(t: RemapTable): Connection -> Decision
  {
    (c: Connection) => Decide(t, c.source.name, ConnectionItem(c))
  }

  /** An incoming connection is remapped by the name of its destination port. */
  function IncomingDecider(t: RemapTable): Connection -> Decision
  {
    (c: Connection) => Decide(t, c.destination.name, ConnectionItem(c))
  }

  /** Groups and abstractions do not have their port specs copied. */
  predicate CopiesPortSpecs(m: Module)
  {
    !m.IsGroup() && !m.IsAbstraction()
  }

  function SpecsToCopy(m: Module): seq<PortSpec>
  {
    if CopiesPortSpecs(m) then m.portSpecs else []
  }

  /** The copied annotations, numbered from the annotation counter in order. */
  function NewAnnotations(kept: seq<(string, Annotation)>, next: nat): (r: seq<Annotation>)
    ensures |r| == |kept|
  {
    if |kept| == 0 then []
    else
      var n := |kept| - 1;
      NewAnnotations(kept[..n], next) + [Annotation(next + n, kept[n].0, kept[n].1.value)]
  }

  /** The copied port specs: each keeps its direction and signature, takes the
      name it is copied under and the next port-spec id. */
  function NewPortSpecs(kept: seq<(string, PortSpec)>, next: nat): (r: seq<PortSpec>)
    ensures |r| == |kept|
  {
    if |kept| == 0 then []
    else
      var n := |kept| - 1;
      NewPortSpecs(kept[..n], next) + [PortSpec(next + n, kept[n].0, kept[n].1.ptype, kept[n].1.sigstring)]
  }

  /** The recreated functions: the controller builds each from the name it is
      copied under and the old parameter values. */
  function NewFunctions(kept: seq<(string, ModuleFunction)>,
                        create: (string, seq<string>) -> ModuleFunction): (r: seq<ModuleFunction>)
    ensures |r| == |kept|
  {
    if |kept| == 0 then []
    else
      var n := |kept| - 1;
      NewFunctions(kept[..n], create) + [create(kept[n].0, kept[n].1.params)]
  }

  /** The j-th copied annotation takes the j-th id from the counter, the
      key it is copied under and the old value. */
  lemma {:induction false} NewAnnotationsAt(kept: seq<(string, Annotation)>, next: nat, j: nat)
    requires j < |kept|
    ensures NewAnnotations(kept, next)[j] == Annotation(next + j, kept[j].0, kept[j].1.value)
  {
    var n := |kept| - 1;
    if j < n {
      NewAnnotationsAt(kept[..n], next, j);
    }
  }

  /** The j-th copied port spec keeps the old direction and signature. */
  lemma {:induction false} NewPortSpecsAt(kept: seq<(string, PortSpec)>, next: nat, j: nat)
    requires j < |kept|
    ensures NewPortSpecs(kept, next)[j] ==
              PortSpec(next + j, kept[j].0, kept[j].1.ptype, kept[j].1.sigstring)
  {
    var n := |kept| - 1;
    if j < n {
      NewPortSpecsAt(kept[..n], next, j);
    }
  }

  /** The j-th recreated function is built from its new name and the old parameter values. */
  lemma {:induction false} NewFunctionsAt(kept: seq<(string, ModuleFunction)>,
                                          create: (string, seq<string>) -> ModuleFunction, j: nat)
    requires j < |kept|
    ensures NewFunctions(kept, create)[j] == create(kept[j].0, kept[j].1.params)
  {
    var n := |kept| - 1;
    if j < n {
      NewFunctionsAt(kept[..n], create, j);
    }
  }

  lemma NewAnnotationsSnoc(kept: seq<(string, Annotation)>, x: (string, Annotation), next: nat)
    ensures NewAnnotations(kept + [x], next) ==
              NewAnnotations(kept, next) + [Annotation(next + |kept|, x.0, x.1.value)]
  {
    assert (kept + [x])[..|kept|] == kept;
  }

  lemma NewPortSpecsSnoc(kept: seq<(string, PortSpec)>, x: (string, PortSpec), next: nat)
    ensures NewPortSpecs(kept + [x], next) ==
              NewPortSpecs(kept, next) + [PortSpec(next + |kept|, x.0, x.1.ptype, x.1.sigstring)]
  {
    assert (kept + [x])[..|kept|] == kept;
  }

  lemma NewFunctionsSnoc(kept: seq<(string, ModuleFunction)>, x: (string, ModuleFunction),
                         create: (string, seq<string>) -> ModuleFunction)
    ensures NewFunctions(kept + [x], create) == NewFunctions(kept, create) + [create(x.0, x.1.params)]
  {
    assert (kept + [x])[..|kept|] == kept;
  }

  function KeptAnnotations(oldModule: Module, remaps: Remaps): seq<(string, Annotation)>
  {
    Kept(oldModule.annotations, AnnotationDecider(remaps.annotations))
  }

  function KeptPortSpecs(oldModule: Module, remaps: Remaps): seq<(string, PortSpec)>
  {
    Kept(SpecsToCopy(oldModule), PortSpecDecider(remaps))
  }

  function KeptFunctions(oldModule: Module, remaps: Remaps): seq<(string, ModuleFunction)>
  {
    Kept(oldModule.functions, FunctionDecider(remaps.functions))
  }

  /** The new module as it is added: its own items followed by the copies. */
  function Rebuilt(oldModule: Module, newModule: Module, remaps: Remaps,
                   create: (string, seq<string>) -> ModuleFunction, c: Counters): Module
  {
    newModule.(annotations := newModule.annotations +
                                NewAnnotations(KeptAnnotations(oldModule, remaps), c.annotations),
               portSpecs := newModule.portSpecs +
                              NewPortSpecs(KeptPortSpecs(oldModule, remaps), c.portSpecs),
               functions := newModule.functions +
                              NewFunctions(KeptFunctions(oldModule, remaps), create))
  }

  /** The deletes, then the callback ops of annotations, port specs and functions. */
  function OpsBeforeAdd(deleteOps: seq<Op>, oldModule: Module, remaps: Remaps): seq<Op>
  {
    deleteOps
      + Spliced(oldModule.annotations, AnnotationDecider(remaps.annotations))
      + Spliced(SpecsToCopy(oldModule), PortSpecDecider(remaps))
      + Spliced(oldModule.functions, FunctionDecider(remaps.functions))
  }

  function KeptOutgoing(p: Pipeline, oldModule: Module, remaps: Remaps): seq<(string, Connection)>
  {
    Kept(OutgoingOf(p, oldModule.id), OutgoingDecider(remaps.sourcePorts))
  }

  function KeptIncoming(p: Pipeline, oldModule: Module, remaps: Remaps): seq<(string, Connection)>
  {
    Kept(IncomingOf(p, oldModule.id), IncomingDecider(remaps.destinationPorts))
  }

  /** The loop over edges_from(old_module.id): the new module m is the source. */
  function OutgoingRebuild(p: Pipeline, reg: Registry, m: Module, oldModule: Module,
                           remaps: Remaps, c: Counters): Rebuild
    requires WellFormed(p)
  {
    ConnectionsRebuild(p, m, PortsOf(m, reg, Output), OutgoingOf(p, oldModule.id),
                       OutgoingDecider(remaps.sourcePorts), Output, c)
  }

  /** The loop over edges_to(old_module.id): the new module m is the destination. */
  function IncomingRebuild(p: Pipeline, reg: Registry, m: Module, oldModule: Module,
                           remaps: Remaps, c: Counters): Rebuild
    requires WellFormed(p)
  {
    ConnectionsRebuild(p, m, PortsOf(m, reg, Input), IncomingOf(p, oldModule.id),
                       IncomingDecider(remaps.destinationPorts), Input, c)
  }

  /** The result of replace_generic and the id counters it leaves behind. */
  datatype Replacement = Replacement(result: Result<seq<Action>, Error>, counters: Counters)

  /** The counters once annotations and port specs have been copied. */
  function AfterCopies(oldModule: Module, remaps: Remaps, c: Counters): Counters
  {
    c.(annotations := c.annotations + |KeptAnnotations(oldModule, remaps)|,
       portSpecs := c.portSpecs + |KeptPortSpecs(oldModule, remaps)|)
  }

  /** replace_generic(controller, pipeline, old_module, new_module, remaps):
      on success a single action holding the deletes, the callback ops, the
      add of the rebuilt module and the connection ops. */
  function ReplaceSpec(p: Pipeline, reg: Registry, oldModule: Module, newModule: Module,
                       remaps: Remaps, deleteOps: seq<Op>,
                       create: (string, seq<string>) -> ModuleFunction, c0: Counters): Replacement
    requires WellFormed(p)
  {
    var m := Rebuilt(oldModule, newModule, remaps, create, c0);
    var out := OutgoingRebuild(p, reg, m, oldModule, remaps, AfterCopies(oldModule, remaps, c0));
    if out.result.Failure? then Replacement(Failure(out.result.error), out.counters)
    else
      var inc := IncomingRebuild(p, reg, m, oldModule, remaps, out.counters);
      if inc.result.Failure? then Replacement(Failure(inc.result.error), inc.counters)
      else
        var ops := OpsBeforeAdd(deleteOps, oldModule, remaps) + [Add(ModuleEntity(m))]
                   + out.result.value + inc.result.value;
        Replacement(Success([Action(ops)]), inc.counters)
  }

  /** The module create_module_from_descriptor(d, x, y) returns under id. */
  function ModuleFromDescriptor(d: Descriptor, at: Location, id: nat): Module
  {
    Module(id, d.identifier, d.name, d.namespace, at, Plain, [], [], [], NoSubpipeline)
  }

  /** The package of the built-in Group module. */
  const BasicPackage := "edu.utah.sci.vistrails.basic"

  /** The group create_module(basic, 'Group', '', x, y) returns under id,
      holding the new sub-pipeline. */
  function NewGroup(sub: Pipeline, at: Location, id: nat): Module
  {
    Module(id, BasicPackage, "Group", "", at, Plain, [], [], [], Subpipeline(sub))
  }

  /** replace_module(controller, pipeline, module_id, d, remaps): a module
      of the new descriptor at the old module's location, drawing the next
      module id, then replace_generic. */
  function ReplaceModuleSpec(p: Pipeline, reg: Registry, moduleId: nat, d: Descriptor,
                             remaps: Remaps, deleteOps: seq<Op>,
                             create: (string, seq<string>) -> ModuleFunction, c0: Counters): Replacement
    requires WellFormed(p) && moduleId in p.modules
  {
    var oldModule := p.modules[moduleId];
    ReplaceSpec(p, reg, oldModule, ModuleFromDescriptor(d, oldModule.location, c0.modules), remaps,
                deleteOps, create, c0.Bump(ModuleId))
  }

  /** replace_group(controller, pipeline, module_id, sub): a new group at the
      old group's location holding sub, then replace_generic with no remaps. */
  function ReplaceGroupSpec(p: Pipeline, reg: Registry, moduleId: nat, sub: Pipeline,
                            deleteOps: seq<Op>, create: (string, seq<string>) -> ModuleFunction,
                            c0: Counters): Replacement
    requires WellFormed(p) && moduleId in p.modules
  {
    var oldGroup := p.modules[moduleId];
    ReplaceSpec(p, reg, oldGroup, NewGroup(sub, oldGroup.location, c0.modules), NoRemaps(),
                deleteOps, create, c0.Bump(ModuleId))
  }
}
