/**
 * The module registry as the upgrade engine queries it: descriptors by
 * (package, name, namespace), and port specs by (name, type).
 */
module Registry {
  import opened Wrappers
  import opened Pipelines
  import opened Actions

  datatype ModuleKey = ModuleKey(package: string, name: string, namespace: string)

  /** The registry's current description of a module and its ports. */
  datatype Descriptor = Descriptor(identifier: string, name: string, namespace: string,
                                   portSpecs: seq<PortSpec>)

  type Registry = map<ModuleKey, Descriptor>

  /** Every descriptor is registered under its own package, name and namespace. */
  ghost predicate Consistent(reg: Registry)
  {
    forall k :: k in reg ==>
      reg[k].identifier == k.package && reg[k].name == k.name && reg[k].namespace == k.namespace
  }

  /** get_descriptor_by_name: raises MissingModule when nothing is registered. */
  function GetDescriptorByName(reg: Registry, package: string, name: string, namespace: string)
    : (r: Result<Descriptor, Error>)
    ensures r.Success? <==> ModuleKey(package, name, namespace) in reg
    ensures r.Success? ==> r.value == reg[ModuleKey(package, name, namespace)]
    ensures r.Failure? ==> r.error == MissingModule(package, name, namespace)
  {
    var key := ModuleKey(package, name, namespace);
    if key in reg then Success(reg[key]) else Failure(MissingModule(package, name, namespace))
  }

  /** get_port_spec_from_descriptor: raises MissingPort when the descriptor
      has no port of that name and direction. */
  function GetPortSpecFromDescriptor(d: Descriptor, name: string, ptype: PortType)
    : (r: Result<PortSpec, Error>)
    ensures r.Success? ==> r.value in d.portSpecs && r.value.name == name && r.value.ptype == ptype
    ensures r.Failure? <==> forall s :: s in d.portSpecs ==> !(s.name == name && s.ptype == ptype)
    ensures r.Failure? ==> r.error == MissingPort(name, ptype)
  {
    match LookupSpec(d.portSpecs, name, ptype)
    case Some(s) => Success(s)
    case None => Failure(MissingPort(name, ptype))
  }

  /** Module.get_port_spec: the module's own declared spec if it has one,
      otherwise the spec on the module's registered descriptor. */
  function GetPortSpec(m: Module, reg: Registry, name: string, ptype: PortType)
    : (r: Result<PortSpec, Error>)
    ensures r.Success? ==> r.value.name == name && r.value.ptype == ptype
  {
    match LookupSpec(m.portSpecs, name, ptype)
    case Some(s) => Success(s)
    case None =>
      match GetDescriptorByName(reg, m.package, m.name, m.namespace)
      case Failure(e) => Failure(e)
      case Success(d) => GetPortSpecFromDescriptor(d, name, ptype)
  }

  /** Where get_port_spec finds a port: among the module's own specs first,
      then on its registered descriptor; it fails exactly when neither has it. */
  lemma GetPortSpecCases(m: Module, reg: Registry, name: string, ptype: PortType)
    ensures HasPortSpecWithName(m, name, ptype) ==>
              GetPortSpec(m, reg, name, ptype).Success? && GetPortSpec(m, reg, name, ptype).value in m.portSpecs
    ensures GetPortSpec(m, reg, name, ptype).Failure? <==>
              !HasPortSpecWithName(m, name, ptype) &&
              (ModuleKey(m.package, m.name, m.namespace) in reg ==>
                 GetPortSpecFromDescriptor(reg[ModuleKey(m.package, m.name, m.namespace)], name, ptype).Failure?)
  {
  }
}
