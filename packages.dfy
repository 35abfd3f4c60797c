/**
 * The package manager and the optional capabilities a package may supply
 * to the upgrade engine.
 */
module Packages {
  import opened Wrappers
  import opened Pipelines
  import opened Actions
  import opened Registry

  /** handle_module_upgrade_request(controller, module_id, pipeline). */
  type UpgradeHandler = (nat, Pipeline) -> Result<seq<Action>, Error>

  /** handle_missing_module(controller, module_id, pipeline): its truth value
      and the registry as it stands afterwards (it may register descriptors). */
  type MissingModuleHandler = (nat, Pipeline, Registry) -> (bool, Registry)

  /** An installed package, with the capabilities probed by the engine. */
  datatype Package = Package(identifier: string,
                             upgradeHandler: Option<UpgradeHandler>,
                             canHandleMissingModules: bool,
                             handleMissingModule: MissingModuleHandler)

  type PackageManager = map<string, Package>

  /** get_package_by_identifier: raises when the package is not installed. */
  function GetPackageByIdentifier(pm: PackageManager, identifier: string)
    : (r: Result<Package, Error>)
    ensures r.Success? <==> identifier in pm
    ensures r.Success? ==> r.value == pm[identifier]
    ensures r.Failure? ==> r.error == MissingPackage(identifier)
  {
    if identifier in pm then Success(pm[identifier]) else Failure(MissingPackage(identifier))
  }
}
