/**
 * The per-vistrail id generator: one counter per kind of entity, each handing
 * out increasing ids that are never reused.
 */
module IdScopes {

  /** The vtType passed to getNewId. */
  datatype IdKind = ModuleId | AnnotationId | PortSpecId | PortId | ConnectionId

  /** The next id of each kind. */
  datatype Counters = Counters(modules: nat, annotations: nat, portSpecs: nat, ports: nat,
                               connections: nat)
  {
    function Get(kind: IdKind): nat
    {
      match kind
      case ModuleId => modules
      case AnnotationId => annotations
      case PortSpecId => portSpecs
      case PortId => ports
      case ConnectionId => connections
    }

    /** The counters after one id of the given kind has been handed out. */
    function Bump(kind: IdKind): (r: Counters)
      ensures r.Get(kind) == Get(kind) + 1
      ensures kind != ModuleId ==> r.modules == modules
      ensures kind != AnnotationId ==> r.annotations == annotations
      ensures kind != PortSpecId ==> r.portSpecs == portSpecs
      ensures kind != PortId ==> r.ports == ports
      ensures kind != ConnectionId ==> r.connections == connections
    {
      match kind
      case ModuleId => this.(modules := modules + 1)
      case AnnotationId => this.(annotations := annotations + 1)
      case PortSpecId => this.(portSpecs := portSpecs + 1)
      case PortId => this.(ports := ports + 1)
      case ConnectionId => this.(connections := connections + 1)
    }
  }

  class IdScope {
    var counters: Counters

    constructor (start: Counters)
      ensures counters == start
    {
      counters := start;
    }

    /** getNewId(vtType): the current counter of that kind, which then advances. */
    method GetNewId(kind: IdKind) returns (id: nat)
      modifies this
      ensures id == old(counters).Get(kind)
      ensures counters == old(counters).Bump(kind)
    {
      id := counters.Get(kind);
      counters := counters.Bump(kind);
    }
  }
}
