/**
 * replace_generic, replace_module and replace_group as they run: loops over
 * the old module's items that draw ids from the controller's id scope and
 * extend the op list, each proved to compute what the Replacement functions
 * describe.
 */
module ReplaceMethods {
  import opened Wrappers
  import opened Pipelines
  import opened Actions
  import opened Registry
  import opened IdScopes
  import opened Controllers
  import opened Remap
  import opened Reconnection
  import opened Replacement

  /** The annotation loop: the kept annotations under fresh annotation ids,
      and the callback ops. */
  method CopyAnnotations(ctrl: Controller, oldModule: Module, remaps: Remaps)
    returns (copies: seq<Annotation>, added: seq<Op>)
    modifies ctrl.idScope
    ensures copies == NewAnnotations(Kept(oldModule.annotations, AnnotationDecider(remaps.annotations)),
                                     old(ctrl.idScope.counters).annotations)
    ensures added == Spliced(oldModule.annotations, AnnotationDecider(remaps.annotations))
    ensures ctrl.idScope.counters ==
              old(ctrl.idScope.counters).(annotations := old(ctrl.idScope.counters).annotations +
                                                         |Kept(oldModule.annotations, AnnotationDecider(remaps.annotations))|)
  {
    ghost var c0 := ctrl.idScope.counters;
    ghost var next := c0.annotations;
    var decide := AnnotationDecider(remaps.annotations);
    var items := oldModule.annotations;
    ghost var kept: seq<(string, Annotation)> := [];
    copies := [];
    added := [];
    var i := 0;
    while i < |items|
      invariant i <= |items|
      invariant ctrl.idScope.counters == c0.(annotations := c0.annotations + |kept|)
      invariant kept == Kept(items[..i], decide)
      invariant copies == NewAnnotations(kept, next)
      invariant added == Spliced(items[..i], decide)
    {
      var annotation := items[i];
      var d := decide(annotation);
      Step(items, decide, i, d);
      match d {
        case Omit =>
          assert kept + [] == kept && added + [] == added;
        case Splice(ops) =>
          assert kept + [] == kept;
          added := added + ops;
        case Copy(key) =>
          NewAnnotationsSnoc(kept, (key, annotation), next);
          var id := ctrl.idScope.GetNewId(AnnotationId);
          copies := copies + [Annotation(id, key, annotation.value)];
          kept := kept + [(key, annotation)];
          assert added + [] == added;
      }
      i := i + 1;
    }
    assert items[..i] == items;
  }

  /** The port-spec loop: copies each kept spec under a fresh port-spec id
      and its new name. Input specs follow the destination-port table,
      output specs the source-port table. */
  method CopyPortSpecs(ctrl: Controller, oldModule: Module, remaps: Remaps)
    returns (copies: seq<PortSpec>, added: seq<Op>)
    modifies ctrl.idScope
    ensures copies == NewPortSpecs(Kept(oldModule.portSpecs, PortSpecDecider(remaps)),
                                   old(ctrl.idScope.counters).portSpecs)
    ensures added == Spliced(oldModule.portSpecs, PortSpecDecider(remaps))
    ensures ctrl.idScope.counters ==
              old(ctrl.idScope.counters).(portSpecs := old(ctrl.idScope.counters).portSpecs +
                                                       |Kept(oldModule.portSpecs, PortSpecDecider(remaps))|)
  {
    ghost var c0 := ctrl.idScope.counters;
    ghost var next := c0.portSpecs;
    var decide := PortSpecDecider(remaps);
    var items := oldModule.portSpecs;
    ghost var kept: seq<(string, PortSpec)> := [];
    copies := [];
    added := [];
    var i := 0;
    while i < |items|
      invariant i <= |items|
      invariant ctrl.idScope.counters == c0.(portSpecs := c0.portSpecs + |kept|)
      invariant kept == Kept(items[..i], decide)
      invariant copies == NewPortSpecs(kept, next)
      invariant added == Spliced(items[..i], decide)
    {
      var spec := items[i];
      var d := decide(spec);
      Step(items, decide, i, d);
      match d {
        case Omit =>
          assert kept + [] == kept && added + [] == added;
        case Splice(ops) =>
          assert kept + [] == kept;
          added := added + ops;
        case Copy(name) =>
          NewPortSpecsSnoc(kept, (name, spec), next);
          var id := ctrl.idScope.GetNewId(PortSpecId);
          copies := copies + [PortSpec(id, name, spec.ptype, spec.sigstring)];
          kept := kept + [(name, spec)];
          assert added + [] == added;
      }
      i := i + 1;
    }
    assert items[..i] == items;
  }

  /** The function loop: each kept function recreated through the controller,
      and the callback ops. */
  method CopyFunctions(ctrl: Controller, oldModule: Module, remaps: Remaps)
    returns (copies: seq<ModuleFunction>, added: seq<Op>)
    ensures copies == NewFunctions(Kept(oldModule.functions, FunctionDecider(remaps.functions)),
                                   ctrl.createFunction)
    ensures added == Spliced(oldModule.functions, FunctionDecider(remaps.functions))
  {
    var decide := FunctionDecider(remaps.functions);
    var items := oldModule.functions;
    ghost var kept: seq<(string, ModuleFunction)> := [];
    copies := [];
    added := [];
    var i := 0;
    while i < |items|
      invariant i <= |items|
      invariant kept == Kept(items[..i], decide)
      invariant copies == NewFunctions(kept, ctrl.createFunction)
      invariant added == Spliced(items[..i], decide)
    {
      var f := items[i];
      var d := decide(f);
      Step(items, decide, i, d);
      match d {
        case Omit =>
        case Splice(ops) =>
          added := added + ops;
        case Copy(name) =>
          NewFunctionsSnoc(kept, (name, f), ctrl.createFunction);
          copies := copies + [ctrl.createFunction(name, f.params)];
          kept := kept + [(name, f)];
      }
      i := i + 1;
    }
    assert items[..i] == items;
  }

  /** create_new_connection: draws the output port id, builds the source
      port, draws the input port id, builds the destination port, then draws
      the connection id. A port named by a string is looked up on its module;
      a failed lookup ends the call with the ids drawn so far. */
  method CreateNewConnection(ctrl: Controller, reg: Registry, srcModule: Module, srcRef: PortRef,
                             dstModule: Module, dstRef: PortRef)
    returns (r: Result<Connection, Error>)
    modifies ctrl.idScope
    ensures Created(r, ctrl.idScope.counters) ==
              NewConnection(reg, srcModule, srcRef, dstModule, dstRef, old(ctrl.idScope.counters))
  {
    var outputPortId := ctrl.idScope.GetNewId(PortId);
    var outputPort: Port;
    match srcRef {
      case Named(name) =>
        var spec := GetPortSpec(srcModule, reg, name, Output);
        if spec.Failure? {
          return Failure(spec.error);
        }
        outputPort := PortFromSpec(outputPortId, spec.value, srcModule);
      case Existing(port) =>
        outputPort := CopyPort(outputPortId, port, srcModule);
    }
    var inputPortId := ctrl.idScope.GetNewId(PortId);
    var inputPort: Port;
    match dstRef {
      case Named(name) =>
        var spec := GetPortSpec(dstModule, reg, name, Input);
        if spec.Failure? {
          return Failure(spec.error);
        }
        inputPort := PortFromSpec(inputPortId, spec.value, dstModule);
      case Existing(port) =>
        inputPort := CopyPort(inputPortId, port, dstModule);
    }
    var connectionId := ctrl.idScope.GetNewId(ConnectionId);
    r := Success(Connection(connectionId, outputPort, inputPort));
  }

  /** The call of the outgoing loop: create_new_connection(new_module,
      source_name, old_dst_module, old_conn.destination). */
  method ReconnectSource(ctrl: Controller, reg: Registry, p: Pipeline, m: Module, conn: Connection,
                         sourceName: string)
    returns (created: Result<Connection, Error>)
    requires WellFormed(p) && conn in p.connections
    modifies ctrl.idScope
    ensures Created(created, ctrl.idScope.counters) ==
              Recreate(p, m, PortsOf(m, reg, Output), sourceName, conn, Output, old(ctrl.idScope.counters))
  {
    var oldDstModule := p.modules[conn.destination.moduleId];
    NewConnectionRecreates(p, reg, m, sourceName, conn, ctrl.idScope.counters);
    created := CreateNewConnection(ctrl, reg, m, Named(sourceName), oldDstModule, Existing(conn.destination));
  }

  /** The call of the incoming loop: create_new_connection(old_src_module,
      old_conn.source, new_module, destination_name). */
  method ReconnectDestination(ctrl: Controller, reg: Registry, p: Pipeline, m: Module, conn: Connection,
                              destinationName: string)
    returns (created: Result<Connection, Error>)
    requires WellFormed(p) && conn in p.connections
    modifies ctrl.idScope
    ensures Created(created, ctrl.idScope.counters) ==
              Recreate(p, m, PortsOf(m, reg, Input), destinationName, conn, Input, old(ctrl.idScope.counters))
  {
    var oldSrcModule := p.modules[conn.source.moduleId];
    NewConnectionRecreates(p, reg, m, destinationName, conn, ctrl.idScope.counters);
    created := CreateNewConnection(ctrl, reg, oldSrcModule, Existing(conn.source), m, Named(destinationName));
  }

  /** A connection loop: walks items in edge order; each kept connection is
      recreated between the new module m and the module at the far end,
      through the call of its direction (ptype is the near port's); a
      callback's ops are added in its place. The first missing near port
      ends the loop. */
  method ReconnectAll(ctrl: Controller, reg: Registry, p: Pipeline, m: Module,
                      items: seq<Connection>, decide: Connection -> Decision, ptype: PortType)
    returns (r: Result<seq<Op>, Error>)
    requires WellFormed(p) && Within(p, items)
    modifies ctrl.idScope
    ensures Rebuild(r, ctrl.idScope.counters) ==
              ConnectionSteps(p, m, PortsOf(m, reg, ptype), items, decide, ptype, old(ctrl.idScope.counters))
  {
    ghost var c0 := ctrl.idScope.counters;
    ghost var lookup := PortsOf(m, reg, ptype);
    var ops: seq<Op> := [];
    var i := 0;
    while i < |items|
      invariant i <= |items| && Within(p, items[..i])
      invariant Rebuild(Success(ops), ctrl.idScope.counters) ==
                  ConnectionSteps(p, m, lookup, items[..i], decide, ptype, c0)
    {
      var conn := items[i];
      match decide(conn) {
        case Omit =>
          LoopStepSkip(p, m, lookup, items, decide, ptype, c0, i, ops, ctrl.idScope.counters);
        case Splice(callbackOps) =>
          LoopStepSkip(p, m, lookup, items, decide, ptype, c0, i, ops, ctrl.idScope.counters);
          ops := ops + callbackOps;
        case Copy(name) =>
          ghost var before := ctrl.idScope.counters;
          var created;
          if ptype == Output {
            created := ReconnectSource(ctrl, reg, p, m, conn, name);
          } else {
            created := ReconnectDestination(ctrl, reg, p, m, conn, name);
          }
          LoopStepCopy(p, m, lookup, items, decide, ptype, c0, i, ops, before,
                       Created(created, ctrl.idScope.counters));
          if created.Failure? {
            StepsFailureSticks(p, m, lookup, items, decide, ptype, c0, i + 1);
            return Failure(created.error);
          }
          ops := ops + [Add(ConnectionEntity(created.value))];
      }
      i := i + 1;
    }
    assert items[..i] == items;
    r := Success(ops);
  }

  /** The loop over edges_from(old_module.id), from the new module's
      (renamed) source ports. */
  method RebuildOutgoing(ctrl: Controller, reg: Registry, p: Pipeline, m: Module,
                         oldModule: Module, remaps: Remaps)
    returns (r: Result<seq<Op>, Error>)
    requires WellFormed(p)
    modifies ctrl.idScope
    ensures Rebuild(r, ctrl.idScope.counters) ==
              OutgoingRebuild(p, reg, m, oldModule, remaps, old(ctrl.idScope.counters))
  {
    var items := OutgoingOf(p, oldModule.id);
    var decide := OutgoingDecider(remaps.sourcePorts);
    StepsMatchRebuild(p, m, PortsOf(m, reg, Output), items, decide, Output, ctrl.idScope.counters);
    r := ReconnectAll(ctrl, reg, p, m, items, decide, Output);
  }

  /** The loop over edges_to(old_module.id), to the new module's (renamed)
      destination ports. */
  method RebuildIncoming(ctrl: Controller, reg: Registry, p: Pipeline, m: Module,
                         oldModule: Module, remaps: Remaps)
    returns (r: Result<seq<Op>, Error>)
    requires WellFormed(p)
    modifies ctrl.idScope
    ensures Rebuild(r, ctrl.idScope.counters) ==
              IncomingRebuild(p, reg, m, oldModule, remaps, old(ctrl.idScope.counters))
  {
    var items := IncomingOf(p, oldModule.id);
    var decide := IncomingDecider(remaps.destinationPorts);
    StepsMatchRebuild(p, m, PortsOf(m, reg, Input), items, decide, Input, ctrl.idScope.counters);
    r := ReconnectAll(ctrl, reg, p, m, items, decide, Input);
  }

  /** replace_generic: the deletes of the old module, then the annotation,
      port-spec and function loops (port specs only for a module that is
      neither a group nor an abstraction), the add of the new module with
      its copies, and the two connection loops; all in one action. */
  method ReplaceGeneric(ctrl: Controller, reg: Registry, p: Pipeline, oldModule: Module,
                        newModule: Module, remaps: Remaps)
    returns (r: Result<seq<Action>, Error>)
    requires WellFormed(p)
    modifies ctrl.idScope
    ensures Replacement(r, ctrl.idScope.counters) ==
              ReplaceSpec(p, reg, oldModule, newModule, remaps,
                          ctrl.deleteModuleListOps(p, [oldModule.id]), ctrl.createFunction,
                          old(ctrl.idScope.counters))
  {
    ghost var c0 := ctrl.idScope.counters;
    var ops := ctrl.deleteModuleListOps(p, [oldModule.id]);
    var annotations, annotationOps := CopyAnnotations(ctrl, oldModule, remaps);
    ops := ops + annotationOps;
    var specs: seq<PortSpec> := [];
    if CopiesPortSpecs(oldModule) {
      var specOps;
      specs, specOps := CopyPortSpecs(ctrl, oldModule, remaps);
      ops := ops + specOps;
    }
    var functions, functionOps := CopyFunctions(ctrl, oldModule, remaps);
    ops := ops + functionOps;
    var m := newModule.(annotations := newModule.annotations + annotations,
                        portSpecs := newModule.portSpecs + specs,
                        functions := newModule.functions + functions);
    assert m == Rebuilt(oldModule, newModule, remaps, ctrl.createFunction, c0);
    assert ops == OpsBeforeAdd(ctrl.deleteModuleListOps(p, [oldModule.id]), oldModule, remaps);
    assert ctrl.idScope.counters == AfterCopies(oldModule, remaps, c0);
    ops := ops + [Add(ModuleEntity(m))];
    var outgoing := RebuildOutgoing(ctrl, reg, p, m, oldModule, remaps);
    if outgoing.Failure? {
      return Failure(outgoing.error);
    }
    ops := ops + outgoing.value;
    var incoming := RebuildIncoming(ctrl, reg, p, m, oldModule, remaps);
    if incoming.Failure? {
      return Failure(incoming.error);
    }
    ops := ops + incoming.value;
    r := Success([Action(ops)]);
  }

  /** replace_module: the new module from the descriptor at the old
      module's location, then replace_generic with the given remaps. */
  method ReplaceModule(ctrl: Controller, reg: Registry, p: Pipeline, moduleId: nat, d: Descriptor,
                       remaps: Remaps)
    returns (r: Result<seq<Action>, Error>)
    requires WellFormed(p) && moduleId in p.modules
    modifies ctrl.idScope
    ensures Replacement(r, ctrl.idScope.counters) ==
              ReplaceModuleSpec(p, reg, moduleId, d, remaps, ctrl.deleteModuleListOps(p, [moduleId]),
                                ctrl.createFunction, old(ctrl.idScope.counters))
  {
    var oldModule := p.modules[moduleId];
    var newModule := CreateModuleFromDescriptor(ctrl, d, oldModule.location.x, oldModule.location.y);
    r := ReplaceGeneric(ctrl, reg, p, oldModule, newModule, remaps);
  }

  /** replace_group: a new Group module at the old group's location, given
      the new sub-pipeline, then replace_generic with no remaps. */
  method ReplaceGroup(ctrl: Controller, reg: Registry, p: Pipeline, moduleId: nat, sub: Pipeline)
    returns (r: Result<seq<Action>, Error>)
    requires WellFormed(p) && moduleId in p.modules
    modifies ctrl.idScope
    ensures Replacement(r, ctrl.idScope.counters) ==
              ReplaceGroupSpec(p, reg, moduleId, sub, ctrl.deleteModuleListOps(p, [moduleId]),
                               ctrl.createFunction, old(ctrl.idScope.counters))
  {
    var oldGroup := p.modules[moduleId];
    var newGroup := CreateModule(ctrl, BasicPackage, "Group", "", oldGroup.location.x, oldGroup.location.y);
    newGroup := newGroup.(subpipeline := Subpipeline(sub));
    r := ReplaceGeneric(ctrl, reg, p, oldGroup, newGroup, NoRemaps());
  }
}
