/**
 * The pipeline data model the upgrade engine reads: modules with their
 * annotations, declared port specs and bound functions, and the connections
 * between module ports.
 */
module Pipelines {
  import opened Wrappers

  /** The direction of a port, the source's 'input' / 'output' port_type.
      A connection port's 'source' / 'destination' type is stored here already
      mapped through port_type_map (source = Output, destination = Input). */
  datatype PortType = Input | Output

  /** A declared port: name, direction and signature string. */
  datatype PortSpec = PortSpec(id: nat, name: string, ptype: PortType, sigstring: string)

  /** One end of a connection, pointing back at its module by id and name. */
  datatype Port = Port(id: nat, name: string, ptype: PortType, sigstring: string,
                       moduleId: nat, moduleName: string)

  datatype Connection = Connection(id: nat, source: Port, destination: Port)

  /** A free-form key/value annotation on a module. */
  datatype Annotation = Annotation(id: nat, key: string, value: string)

  /** A parameter binding on an input port; params are the parameters' string values. */
  datatype ModuleFunction = ModuleFunction(name: string, sigstring: string, params: seq<string>)

  datatype Location = Location(x: real, y: real)

  /** Groups and abstractions derive their ports from a sub-pipeline. */
  datatype ModuleKind = Plain | Group | Abstraction

  datatype SubPipeline = NoSubpipeline | Subpipeline(pipeline: Pipeline)

  datatype Module = Module(id: nat, package: string, name: string, namespace: string,
                           location: Location, kind: ModuleKind,
                           annotations: seq<Annotation>, portSpecs: seq<PortSpec>,
                           functions: seq<ModuleFunction>, subpipeline: SubPipeline)
  {
    predicate IsGroup() { kind == Group }
    predicate IsAbstraction() { kind == Abstraction }
  }

  /** Modules by id, and the connections in the graph's edge order. */
  datatype Pipeline = Pipeline(modules: map<nat, Module>, connections: seq<Connection>)

  /** What the pipeline guarantees: each module is stored under its own id,
      and every connection runs from an output port to an input port of
      modules of the pipeline. */
  ghost predicate WellFormed(p: Pipeline)
  {
    && (forall k :: k in p.modules ==> p.modules[k].id == k)
    && (forall c :: c in p.connections ==>
          && c.source.moduleId in p.modules && c.destination.moduleId in p.modules
          && c.source.ptype == Output && c.destination.ptype == Input)
  }

  /** The last spec named (name, ptype): adding a spec with a taken
      (name, type) replaces the earlier one in the module's name index. */
  function LookupSpec(specs: seq<PortSpec>, name: string, ptype: PortType): (r: Option<PortSpec>)
    ensures r.Some? ==> r.value in specs && r.value.name == name && r.value.ptype == ptype
    ensures r.None? <==> forall s :: s in specs ==> !(s.name == name && s.ptype == ptype)
  {
    if |specs| == 0 then None
    else
      var last := specs[|specs| - 1];
      if last.name == name && last.ptype == ptype then Some(last)
      else
        assert forall s :: s in specs ==> s in specs[..|specs| - 1] || s == last;
        LookupSpec(specs[..|specs| - 1], name, ptype)
  }

  /** Module.has_portSpec_with_name((name, type)). */
  predicate HasPortSpecWithName(m: Module, name: string, ptype: PortType)
  {
    LookupSpec(m.portSpecs, name, ptype).Some?
  }

  /** graph.edges_from(id): the connections leaving the module, in edge order. */
  function OutgoingOf(p: Pipeline, id: nat): (r: seq<Connection>)
    ensures forall c :: c in r <==> c in p.connections && c.source.moduleId == id
  {
    Filter(p.connections, (c: Connection) => c.source.moduleId == id)
  }

  /** graph.edges_to(id): the connections entering the module, in edge order. */
  function IncomingOf(p: Pipeline, id: nat): (r: seq<Connection>)
    ensures forall c :: c in r <==> c in p.connections && c.destination.moduleId == id
  {
    Filter(p.connections, (c: Connection) => c.destination.moduleId == id)
  }

  function Filter(s: seq<Connection>, keep: Connection -> bool): (r: seq<Connection>)
    ensures forall c :: c in r <==> c in s && keep(c)
    ensures |r| <= |s|
  {
    if |s| == 0 then []
    else (if keep(s[0]) then [s[0]] else []) + Filter(s[1..], keep)
  }
}
