# Workflow upgrade engine of VisTrails, modelled in Dafny

VisTrails stores workflows as pipelines of modules joined by connections. A
saved pipeline can refer to a module whose installed package has changed
since. The upgrade engine (`UpgradeWorkflowHandler` in
`vistrails/core/upgradeworkflow.py`) repairs such a module on request
(`dispatch_request`):

- when the module's package has its own upgrade handler, the request goes
  to that handler;
- otherwise the engine attempts an automatic upgrade
  (`attempt_automatic_upgrade`). It checks that the module's ports and
  functions still exist on the current descriptor and then calls
  `replace_module`.

`replace_generic`, `replace_module` and `replace_group` are the primitive
underneath. They build one action that deletes the old module and adds a
new one, carrying over its annotations, port specs, functions and
connections through remap tables. Automatic upgrade uses them, and so do
the upgrade handlers of packages.

The model follows the code one Dafny module at a time:

- **Data.** `Pipelines` holds modules, ports, port specs, connections,
  annotations and functions. `Actions` holds ops, actions and the errors
  the engine raises. `UpgradeWorkflowError` is the constructor
  `Actions.Error.UpgradeWorkflowError`, whose argument says which check
  failed.
- **Collaborators.** `Registry` is the module registry: descriptors by
  (package, name, namespace) and port-spec lookup. `Packages` is the package
  manager and the optional hooks a package supplies.
- **Id scope and controller.** `IdScopes` is the id scope: a class whose
  `GetNewId` advances a per-kind counter in place. `Controllers` is the
  controller: its id scope, its op builders and its module builders.
- **Remap tables.** `Remap` covers the four remap tables. A name that is
  absent keeps its item. `None` drops it. A string renames it. Any other
  value is a callback, whose ops are spliced in.
- **Port checks.** `Validation` covers `check_port_spec` and the check
  loops of automatic upgrade.
- **Connections.** `Reconnection` covers the two connection loops of
  `replace_generic` and `create_new_connection`.
- **Replacement.** `Replacement` gives replacement in closed form
  (`ReplaceSpec`). `ReplaceMethods` gives it as imperative methods: loops
  that extend the op list and draw ids from the id scope. Each method is
  proved equal to its closed form.
- **Entry points.** `Upgrade` covers dispatch and automatic upgrade, both
  as functions and as methods proved equal to them.
- **Properties.** `Properties` proves what the engine promises about those
  functions.

Parameters stand in for the collaborators, whose code is not part of this
model:

- the registry is a map from module key to descriptor;
- the package manager is a map from identifier to package;
- a package's upgrade handler and missing-module handler are function
  values;
- the controller's `delete_module_list_ops` and `create_function` are
  function values.

Errors are values: every operation that can raise returns a `Result` or an
`Outcome`.

## Model

| member | source | states |
|---|---|---|
| Validation.CheckPortSpec | vistrails/core/upgradeworkflow.py:72-94 | The check fails exactly when the descriptor declares the port with a different signature, or neither the descriptor nor the module declares it. The error is a signature mismatch in the first case and "port does not exist" in the second. Both the descriptor and the signature are optional. An absent signature differs from every declared one. |
| Validation.NoSignatureMismatches | vistrails/core/upgradeworkflow.py:72-86 | With the signature left at its default None, a port the descriptor declares always fails with a signature mismatch. |
| Validation.FirstFailure | vistrails/core/upgradeworkflow.py:139-159 | Checking the uses in order passes exactly when every check passes. Otherwise its outcome is the failure of a check all of whose predecessors passed. |
| Validation.FirstFailureAt | vistrails/core/upgradeworkflow.py:146-159 | When check k fails and all earlier checks pass, the check sequence stops with check k's error. |
| Validation.CheckEach | vistrails/core/upgradeworkflow.py:146-151 | The check loop, which stops at the first failing port, computes FirstFailure. |
| Validation.CheckIncidentPorts | vistrails/core/upgradeworkflow.py:139-159 | The three check loops run in a row: outgoing sources, then incoming destinations, then functions. Together they give the first failure over all of those uses, in that order. |
| Validation.EveryUsePassed | vistrails/core/upgradeworkflow.py:146-159 | When the checks pass, every outgoing connection's source port, every incoming connection's destination port and every function passed check_port_spec. |
| Registry.GetDescriptorByName | vistrails/core/upgradeworkflow.py:120-121 | A descriptor is found exactly when the key is registered. Otherwise the lookup raises MissingModule. |
| Registry.GetPortSpecFromDescriptor | vistrails/core/upgradeworkflow.py:78-88 | The lookup returns a spec of the descriptor with the requested name and type. It raises MissingPort exactly when the descriptor has no such spec. |
| Registry.GetPortSpecCases | vistrails/core/upgradeworkflow.py:252-257 | A port the module declares itself is found among its own specs. A lookup fails exactly when neither the module nor its registered descriptor has the port. |
| Packages.GetPackageByIdentifier | vistrails/core/upgradeworkflow.py:117 | The package is found exactly when it is installed. Otherwise the lookup raises MissingPackage. |
| IdScopes.Counters.Bump | vistrails/core/upgradeworkflow.py:191 | Drawing an id advances that kind's counter by one and leaves every other counter unchanged. |
| IdScopes.IdScope.GetNewId | vistrails/core/upgradeworkflow.py:251 | The method returns the current counter of the kind and advances it in place. |
| Controllers.CreateModuleFromDescriptor | vistrails/core/upgradeworkflow.py:354-357 | The new module has the descriptor's package, name and namespace, is placed at the given coordinates, and takes the next module id. |
| Controllers.CreateModule | vistrails/core/upgradeworkflow.py:335-338 | The new module of the named package and name is placed at the given coordinates and takes the next module id. |
| Remap.KeptMembership | vistrails/core/upgradeworkflow.py:176-188 | An item is copied under a name exactly when it is an old item and its table entry decides a copy under that name. An absent entry copies under the item's own name; a string entry copies under that string. |
| Remap.KeptEvery | vistrails/core/upgradeworkflow.py:285-298 | When the table copies every item, the kept list is every item in order, each under the name its decision gives. |
| Remap.KeptFromItems | vistrails/core/upgradeworkflow.py:226-238 | Every copied entry is an old item together with the name its decision gives it. |
| Remap.DroppedItemLeavesNoTrace | vistrails/core/upgradeworkflow.py:181-183 | An item mapped to None contributes neither a copy nor an op. |
| Remap.CopiedItemContributesOneCopy | vistrails/core/upgradeworkflow.py:199-209 | A kept or renamed item contributes exactly one copy, in its place in order, and no op. |
| Remap.TransformedItemSplicesCallback | vistrails/core/upgradeworkflow.py:184-186 | An item mapped to a callback contributes the callback's ops, in its place in order, and no copy. |
| Replacement.NewAnnotationsAt | vistrails/core/upgradeworkflow.py:190-194 | The j-th copied annotation takes the j-th annotation id from the counter, the key it is copied under and the old value. |
| Replacement.NewPortSpecsAt | vistrails/core/upgradeworkflow.py:222-224 | The j-th copied port spec takes the j-th port-spec id and the name it is copied under, and keeps the old type and signature. |
| Replacement.NewFunctionsAt | vistrails/core/upgradeworkflow.py:240-244 | The j-th recreated function is built by the controller from its new name and the old parameter values. |
| Reconnection.Endpoint | vistrails/core/upgradeworkflow.py:252-279 | A port given as an existing port is copied onto the module under the new id. A port given by name resolves exactly when get_port_spec finds it. |
| Reconnection.NewConnectionRecreates | vistrails/core/upgradeworkflow.py:300-327 | The outgoing loop's call looks up the new module's output port and copies the old destination. The incoming loop's call copies the old source and looks up the new module's input port. |
| Reconnection.StepsMatchRebuild | vistrails/core/upgradeworkflow.py:285-328 | The connection loop as it runs, one edge at a time, equals its closed form, both on success and on failure. |
| Reconnection.StepsFailureSticks | vistrails/core/upgradeworkflow.py:285-306 | Once a create_new_connection call has raised, the loop's outcome no longer changes. |
| Reconnection.RebuildSucceedsIff | vistrails/core/upgradeworkflow.py:285-328 | A connection loop succeeds exactly when every kept connection's near port resolves. Otherwise it fails with the error of the first one that does not. |
| Reconnection.WovenOps | vistrails/core/upgradeworkflow.py:285-306 | Every op of a connection loop is a callback op or the add of one of the rebuilt connections. |
| Reconnection.WovenHasAll | vistrails/core/upgradeworkflow.py:285-306 | Conversely, a connection loop emits the add of every rebuilt connection and every callback op. |
| Reconnection.ReconnectedAttach | vistrails/core/upgradeworkflow.py:249-283 | The j-th rebuilt connection attaches to the new module on the near side under the (renamed) port, with the signature of the spec get_port_spec finds for it, and keeps the old far endpoint. It takes port ids 2j and 2j+1 and connection id j from the loop's counters. |
| Reconnection.WovenOnlyRebuilds | vistrails/core/upgradeworkflow.py:285-306 | When every kept connection's near port resolves, each op of the loop is a callback op or the j-th kept connection rebuilt on the new module, with the looked-up port's signature and the j-th fresh ids. |
| Reconnection.WovenRebuildsAll | vistrails/core/upgradeworkflow.py:285-306 | When every kept connection's near port resolves, the loop's ops contain, for every j, the j-th kept connection rebuilt on the new module, with the looked-up port's signature and the j-th fresh ids, and every callback op. |
| Reconnection.RebuildsEveryGrows | vistrails/core/upgradeworkflow.py:306 | Ops appended before or after a loop's ops keep every rebuilt connection among them. |
| Reconnection.RebuiltConnections | vistrails/core/upgradeworkflow.py:249-328 | A successful loop draws two port ids and one connection id per kept connection. Each op it emits is a callback op or a connection rebuilt on the new module, whose near port carries the signature of the looked-up spec, with its own fresh ids. Conversely, every kept connection is rebuilt among its ops and every callback op is emitted. |
| Reconnection.RebuildSucceeds | vistrails/core/upgradeworkflow.py:285-328 | A connection loop succeeds exactly when every kept connection's near port resolves. |
| Reconnection.RebuildCounters | vistrails/core/upgradeworkflow.py:249-328 | A successful loop leaves the counters two port ids and one connection id further on per kept connection. |
| Reconnection.PortsOfFaithful | vistrails/core/upgradeworkflow.py:253-268 | get_port_spec answers a lookup with a spec of the name and type asked for. |
| ReplaceMethods.CopyAnnotations | vistrails/core/upgradeworkflow.py:176-194 | The annotation loop returns the kept annotations under fresh consecutive annotation ids, plus the spliced callback ops. The annotation counter advances by the number of copies. |
| ReplaceMethods.CopyPortSpecs | vistrails/core/upgradeworkflow.py:196-224 | The port-spec loop copies each kept spec under a fresh consecutive port-spec id and returns the spliced ops. Input specs follow the destination-port table and output specs the source-port table. |
| ReplaceMethods.CopyFunctions | vistrails/core/upgradeworkflow.py:226-244 | The function loop recreates each kept function through create_function and returns the spliced ops. No id is drawn. |
| ReplaceMethods.CreateNewConnection | vistrails/core/upgradeworkflow.py:249-283 | The output port id is drawn, then the input port id, then the connection id. A failed name lookup raises with only the ids drawn so far spent. |
| ReplaceMethods.ReconnectSource | vistrails/core/upgradeworkflow.py:300-305 | The outgoing loop's call equals Recreate, from the new module's output port to the old destination. |
| ReplaceMethods.ReconnectDestination | vistrails/core/upgradeworkflow.py:323-327 | The incoming loop's call equals Recreate, from the old source to the new module's input port. |
| ReplaceMethods.ReconnectAll | vistrails/core/upgradeworkflow.py:285-328 | A connection loop, run edge by edge with the id scope updated in place, equals ConnectionSteps. |
| ReplaceMethods.RebuildOutgoing | vistrails/core/upgradeworkflow.py:285-306 | The loop over edges_from equals the closed form of the outgoing rebuild. |
| ReplaceMethods.RebuildIncoming | vistrails/core/upgradeworkflow.py:308-328 | The loop over edges_to equals the closed form of the incoming rebuild. |
| ReplaceMethods.ReplaceGeneric | vistrails/core/upgradeworkflow.py:170-330 | replace_generic's result and its final id counters equal ReplaceSpec. |
| ReplaceMethods.ReplaceModule | vistrails/core/upgradeworkflow.py:350-364 | replace_module's result and its final id counters equal ReplaceModuleSpec. |
| ReplaceMethods.ReplaceGroup | vistrails/core/upgradeworkflow.py:333-341 | replace_group's result and its final id counters equal ReplaceGroupSpec. |
| Upgrade.ResolveDescriptor | vistrails/core/upgradeworkflow.py:118-136 | A registered module resolves at once, without touching the registry. An unregistered one resolves only through a package that can handle missing modules, whose handler answers true, and then to the descriptor registered afterwards. When such a package is asked, the registry afterwards is the one its handler leaves, and a true answer with the module now registered resolves to that descriptor. Every failure is "could not upgrade" with the module's name and package. |
| Upgrade.AttemptAutomaticUpgrade | vistrails/core/upgradeworkflow.py:97-167 | The method's result, id counters and registry equal AutomaticUpgradeSpec. |
| Upgrade.DispatchRequest | vistrails/core/upgradeworkflow.py:51-69 | The method's result, id counters and registry equal DispatchSpec. |
| Pipelines.LookupSpec | vistrails/core/upgradeworkflow.py:90-91 | The lookup finds a spec of the module with the asked name and type, and finds none exactly when the module declares no such spec. |
| Pipelines.HasPortSpecWithName | vistrails/core/upgradeworkflow.py:90-91 | has_portSpec_with_name: the module declares a spec of that name and type. |
| Pipelines.OutgoingOf | vistrails/core/upgradeworkflow.py:285 | edges_from. The ensures states membership: exactly the pipeline's connections whose source is the module. The list order, which is connection order, comes from the definition as a filter. |
| Pipelines.IncomingOf | vistrails/core/upgradeworkflow.py:308 | edges_to. The ensures states membership: exactly the pipeline's connections whose destination is the module. The list order, which is connection order, comes from the definition as a filter. |
| Registry.GetPortSpec | vistrails/core/upgradeworkflow.py:253-268 | get_port_spec: the module's own spec first, then the spec on its registered descriptor. A spec it returns has the asked name and type. |
| Remap.Decide | vistrails/core/upgradeworkflow.py:176-188 | One remap decision: an absent name copies under its own name, None drops the item, a string renames it, any other value is called and its ops are spliced. Its properties are the Remap lemmas above. |
| Reconnection.NewConnection | vistrails/core/upgradeworkflow.py:249-283 | create_new_connection in closed form: output port id, input port id, then connection id. A failed lookup ends it with the ids drawn so far. Its properties are Reconnection.NewConnectionRecreates and ReplaceMethods.CreateNewConnection. |
| Reconnection.ConnectionSteps | vistrails/core/upgradeworkflow.py:285-328 | A connection loop as it runs, one edge at a time. Its properties are Reconnection.StepsMatchRebuild and Reconnection.StepsFailureSticks. |
| Reconnection.ConnectionsRebuild | vistrails/core/upgradeworkflow.py:285-328 | A connection loop in closed form. Its properties are the Reconnection lemmas above. |
| Replacement.ReplaceSpec | vistrails/core/upgradeworkflow.py:170-330 | replace_generic in closed form. Its properties are the Properties lemmas below. |
| Replacement.ReplaceModuleSpec | vistrails/core/upgradeworkflow.py:350-364 | replace_module in closed form. Its properties are Properties.ReplaceModuleKeepsLayout and ReplaceMethods.ReplaceModule. |
| Replacement.ReplaceGroupSpec | vistrails/core/upgradeworkflow.py:333-341 | replace_group in closed form. Its properties are Properties.ReplaceGroupKeepsLayout and ReplaceMethods.ReplaceGroup. |
| Upgrade.AutomaticUpgradeSpec | vistrails/core/upgradeworkflow.py:97-167 | attempt_automatic_upgrade in closed form. Its properties are the Properties lemmas on automatic upgrade. |
| Upgrade.DispatchSpec | vistrails/core/upgradeworkflow.py:51-69 | dispatch_request in closed form. Its properties are Properties.DispatchSkipsMissingModule and Properties.DispatchRoutes. |
| Properties.DispatchSkipsMissingModule | vistrails/core/upgradeworkflow.py:54-59 | A module no longer in the pipeline yields an empty action list. No id is drawn and the registry is unchanged. |
| Properties.DispatchRoutes | vistrails/core/upgradeworkflow.py:60-69 | A missing package raises MissingPackage. A package's own handler answers when present. Otherwise automatic upgrade runs. |
| Properties.AutomaticUpgradeNeedsDescriptor | vistrails/core/upgradeworkflow.py:118-136 | An unregistered module whose package cannot handle missing modules, or whose handler answers false, fails with "could not upgrade" before any id is drawn. |
| Properties.AutomaticUpgradeChecksEveryPort | vistrails/core/upgradeworkflow.py:146-167 | Automatic upgrade returns actions only if the descriptor resolves and every outgoing source port, incoming destination port and function passes check_port_spec. |
| Properties.AutomaticUpgradeStopsAtFirstFailure | vistrails/core/upgradeworkflow.py:146-159 | Any single failing check makes automatic upgrade raise that check's error, before any id is drawn. |
| Properties.NoRemapsKeepConnections | vistrails/core/upgradeworkflow.py:285-323 | With no remap tables, every outgoing and every incoming connection is kept, in edge order, under its own port name. |
| Properties.CheckedPortResolves | vistrails/core/upgradeworkflow.py:72-94 | A port use that passed check_port_spec against the registered descriptor is found by get_port_spec on the module replace_module builds from that descriptor. It is found either on the descriptor or on the copy of the old module's own spec. |
| Properties.OwnSpecCopied | vistrails/core/upgradeworkflow.py:196-224 | With no remaps, a port the old plain module declares itself is declared by the new module too, through the copy of its spec. |
| Properties.AutomaticUpgradeSucceeds | vistrails/core/upgradeworkflow.py:97-167 | The converse of Properties.AutomaticUpgradeChecksEveryPort: when the package is installed, the descriptor is registered and every port and function passes its check, automatic upgrade returns replace_module's result with the registry unchanged, and that result is a success. |
| Properties.AutomaticUpgradeReconnectsAll | vistrails/core/upgradeworkflow.py:97-167 | Under the same conditions, the single action rebuilds every outgoing connection of the old module from the new module's output port of the same name, and every incoming one to its input port of the same name. Each carries the j-th ids of its loop. |
| Properties.CheckedPortKeepsSignature | vistrails/core/upgradeworkflow.py:72-94 | A port use that passed check_port_spec keeps its signature on the module replace_module builds, provided every spec the old module declares itself under that name and type has the use's signature. get_port_spec then finds the use's signature, on the copied own spec or on the descriptor. |
| Properties.OwnSpecShadowsDescriptor | vistrails/core/upgradeworkflow.py:72-94 | Without that proviso the signature can change. An old module declares its own spec x with signature "B", and its descriptor declares x with "A". A use of x with "A" passes the check, but get_port_spec on the new module finds the copied own spec with "B". |
| Properties.CheckedConnectionsKeepSignatures | vistrails/core/upgradeworkflow.py:139-155 | When the checks pass and the old module's own specs agree with the signatures its connections use, get_port_spec on the new module returns each outgoing source port's and each incoming destination port's own signature. |
| Properties.AutomaticUpgradeKeepsSignatures | vistrails/core/upgradeworkflow.py:97-167 | Under the conditions of Properties.AutomaticUpgradeReconnectsAll, and when the old module's own specs agree with the signatures its connections use, every rebuilt connection's near port has the signature of the port it replaces. |
| Reconnection.RebuildsKeepSignatures | vistrails/core/upgradeworkflow.py:249-283 | When get_port_spec gives each connection's near port back its own signature, every rebuild of that connection keeps the signature. |
| Properties.ReplaceSucceedsIff | vistrails/core/upgradeworkflow.py:249-328 | replace_generic succeeds exactly when the new module has every (renamed) output port the kept outgoing connections need and every (renamed) input port the kept incoming ones need. |
| Properties.ReplaceSpecSucceeds | vistrails/core/upgradeworkflow.py:285-330 | replace_generic succeeds exactly when both connection loops succeed. |
| Properties.OutgoingSucceeds | vistrails/core/upgradeworkflow.py:285-306 | The outgoing loop succeeds exactly when the new module has an output port for every kept outgoing connection. |
| Properties.IncomingSucceeds | vistrails/core/upgradeworkflow.py:308-328 | The incoming loop succeeds exactly when the new module has an input port for every kept incoming connection. |
| Properties.ReplaceOpOrder | vistrails/core/upgradeworkflow.py:173-330 | On success there is exactly one action. Its ops are, in order: the deletes; the annotation, port-spec and function callback ops; the add of the new module; then the ops of the outgoing loop followed by those of the incoming loop. Both loops succeed. The outgoing loop draws its ids after the copies and the incoming loop after it, two port ids and one connection id per kept connection. |
| Properties.ReplaceReconnectsAll | vistrails/core/upgradeworkflow.py:249-330 | After the add of the new module, every op is a callback op of a connection loop or a kept connection rebuilt on the new module with its fresh ids. The near port's signature is that of the spec get_port_spec finds on the new module. Conversely, every kept outgoing and incoming connection is rebuilt there and every callback op of both loops appears. |
| Properties.ReplaceModuleKeepsLayout | vistrails/core/upgradeworkflow.py:353-359 | replace_module adds a module of the new descriptor under the next module id, at the old module's location. |
| Properties.ReplaceGroupKeepsLayout | vistrails/core/upgradeworkflow.py:334-341 | replace_group adds a Group of the basic package holding the new sub-pipeline, under the next module id, at the old group's location. |
| Properties.AnnotationsCopied | vistrails/core/upgradeworkflow.py:176-194 | An annotation with a key and value is added exactly when some old annotation with that value is copied under that key. Every copy's id lies in the range the counter hands out. |
| Properties.PortSpecsCopied | vistrails/core/upgradeworkflow.py:196-224 | A spec with a name, type and signature is added exactly when the old module is neither group nor abstraction and one of its specs of that type and signature is copied under that name. Every copy's id lies in the counter's range. |
| Properties.PortSpecsOnlyForPlainModules | vistrails/core/upgradeworkflow.py:196 | For a group or abstraction, no spec is copied, no callback runs and no port-spec id is drawn. |
| Properties.FunctionsCopied | vistrails/core/upgradeworkflow.py:226-244 | A function is added exactly when the controller builds it from some old function's copied name and its old parameter values. |
| Properties.ReplaceDrawsFreshIds | vistrails/core/upgradeworkflow.py:170-330 | When the id scope is ahead of the pipeline, every id of a kind in the pipeline is below that kind's counter. replace_generic then gives the copied annotations and port specs ids the pipeline does not use. On success, every connection it rebuilds, and both of its ports, get ids the pipeline does not use. Only the connection callbacks' own ops are outside this. |
| Properties.ConnectionsDrawFreshIds | vistrails/core/upgradeworkflow.py:249-328 | On success, every op of the connection loops that is not a callback op adds a connection whose id and port ids the pipeline does not use. |
| Properties.ReplaceModuleDrawsFreshIds | vistrails/core/upgradeworkflow.py:350-364 | When the id scope is ahead of the pipeline, replace_module's new module takes a module id the pipeline does not use, and so do its annotations and port specs. On success, its rebuilt connections and their ports do too. |
| Properties.ReplaceGroupDrawsFreshIds | vistrails/core/upgradeworkflow.py:333-341 | The same for replace_group and the new group. |

## Left out

- The `print` and `debug.critical` diagnostics are left out, as is the wording of error messages. These are output only. Each error records its kind, plus the port, module and signatures involved.
- The internals of the registry, package manager and controller are left out; their code is not part of this model. `get_descriptor_by_name`, `get_port_spec_from_descriptor`, `get_package_by_identifier`, `delete_module_list_ops`, `create_function`, `create_module`, `create_module_from_descriptor` and `core.db.action.create_action` are maps, function values or simple functions. `PortSpec.do_copy(True, id_scope, {})` is not shown either; it is modelled as drawing exactly one port-spec id for the copy and keeping the name, type and signature. `Module.get_port_spec` is not shown either; it is modelled as the module's own specs first, then its registered descriptor.
- The module that `create_function` receives is not passed, and ids that `create_function` or `delete_module_list_ops` might draw are not modelled. Both are controller internals.
- The upgrade handlers receive the module id and pipeline but not the controller. Their effect on the id scope is not modelled: a handler's actions are taken as its result.
- `replace_abstraction` is an unfinished placeholder with no behaviour.
- The mutable default remap tables of `replace_generic` and `replace_module` are modelled as fresh empty tables per call. Sharing of one default table between calls is not captured.
- `replace_generic`, `replace_module` and `replace_group` update `new_module` in place (`add_annotation`, `add_port_spec`, `add_function`). The model builds the new module as a value; aliasing of that object is not captured. The id scope is a class updated in place.
- Port specs whose type is neither input nor output are not modelled: a port type is either Input or Output.
- Remap callbacks (annotation, port-spec, function and connection remaps) and a package's `handle_missing_module` are function values, so they draw no ids from the id scope. The consecutive-id claims of Replacement.NewAnnotationsAt, Replacement.NewPortSpecsAt, ReplaceMethods.CopyAnnotations, ReplaceMethods.CopyPortSpecs, Reconnection.ReconnectedAttach, Reconnection.RebuiltConnections and Properties.ReplaceOpOrder hold under that assumption. A callback that drew ids through the controller would shift every later id.
- Properties.AutomaticUpgradeSucceeds and Properties.AutomaticUpgradeReconnectsAll require two things beyond the checks. First, the registry holds each descriptor under its own package, name and namespace (`Registry.Consistent`), so the new module finds its descriptor again. Second, the old module is neither a group nor an abstraction. A group's port specs are not copied, so a port that passed check_port_spec only through the module's own specs would not be found on the new module, and create_new_connection would raise.
- Remap.Decide: a rename target is any string. Python 2 tests `type(remap) != type("")`, so a `unicode` target would be called as a callback. That case is not modelled.
- ReplaceMethods.ReplaceGroup: the ports a group derives from its sub-pipeline are not modelled. `new_group.pipeline` is recorded on the new module, but get_port_spec consults only the group's own specs and the registered basic Group descriptor. So rebuilding a kept connection fails unless that descriptor declares the port.
- ReplaceMethods.ReplaceGroup: `create_module` is modelled as always giving a module of plain kind, so the new group's kind is not recorded. Only the old module's kind decides whether port specs are copied.
- Upgrade.AttemptAutomaticUpgrade: requires the module to be in the pipeline. The source's `pipeline.modules[module_id]` raises KeyError otherwise, and dispatch never calls it in that case.
- Pipeline well-formedness is a precondition: module ids match their keys, connections join modules of the pipeline, and every connection's source port is an output port and its destination port an input port. The graph queries `edges_from` and `edges_to` are filters over the connection list in its order.
- The other files of the repository (system setup, bundle installation, plotting and dialog packages) are platform, process or user-interface code and are not part of this model.
- Properties.AutomaticUpgradeKeepsSignatures: signature preservation is promised only when the old module's own specs agree with the signatures its connections use (`Properties.OwnSpecsAgree`). It does not hold in general as the code is written. get_port_spec looks at the module's own specs before the descriptor. check_port_spec compares the signature only against the descriptor, and the fallback through `has_portSpec_with_name` (lines 90-94) ignores the signature. So an own spec with another signature shadows the checked one on the new module; Properties.OwnSpecShadowsDescriptor gives such a case.
- Properties.ReplaceDrawsFreshIds, Properties.ReplaceModuleDrawsFreshIds and Properties.ReplaceGroupDrawsFreshIds assume that the id scope is ahead of every id in the pipeline (`Properties.IdsBelow`). The id scope is shared with the whole vistrail, and that assumption is not derived from it. Ops returned by remap callbacks are not covered.
