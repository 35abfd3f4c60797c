/**
 * The edit operations an upgrade emits, the action that wraps them, and the
 * errors an upgrade can raise.
 */
module Actions {
  import opened Wrappers
  import opened Pipelines

  /** The object an edit operation adds or deletes. */
  datatype Entity =
    | ModuleEntity(m: Module)
    | ConnectionEntity(c: Connection)
    | AnnotationEntity(a: Annotation)
    | FunctionEntity(f: ModuleFunction)
    | PortSpecEntity(s: PortSpec)

  /** The ('add', obj) / ('delete', obj) pairs of an op list. */
  datatype Op = Add(what: Entity) | Delete(what: Entity)

  /** One atomic pipeline edit, built from an ordered op list. */
  datatype Action = Action(ops: seq<Op>)

  /** Why an UpgradeWorkflowError was raised (the message text is not
      modelled). A mismatch records the declared signature and the one the
      caller expected, which is None when the caller gave none. */
  datatype UpgradeFailure =
    | SignatureMismatch(ptype: PortType, portName: string, moduleName: string,
                        declared: string, used: Option<string>)
    | PortDoesNotExist(ptype: PortType, portName: string, moduleName: string)
    | CouldNotUpgrade(moduleName: string, package: string)

  /** Everything an upgrade request can raise. The last three come from the
      registry and the package manager and pass through unchanged. */
  datatype Error =
    | UpgradeWorkflowError(failure: UpgradeFailure)
    | MissingPort(portName: string, ptype: PortType)
    | MissingModule(package: string, name: string, namespace: string)
    | MissingPackage(identifier: string)
}
