# A verified model of the simulated device provider

The provider hosts simulated devices (`tempctl`, `motorctl`, `relayio`, `analogsensor`) behind one request
interface, injects faults through a built-in control device, and advances a simulation from a background ticker:
by itself in non-interacting mode, through a remote FluxGraph server in sim mode. This project models that
behaviour in Dafny and proves what it keeps over whole runs. `dafny verify dfyconfig.toml` checks everything.

How the pieces fit:

- `FaultInjection`, `ChaosControl`: the fault store with lazily expired entries, proved against a plain log of
  injections, and the argument checks in front of it.
- `TempCtl`, `MotorCtl`, `RelayIO`, `AnalogSensor`, on top of `Relaxation`: the device state machines. Numbers are
  reals, and `exp(-x)` is any function satisfying the hypothesis `IsDecay`.
- `DeviceFactory`, `DeviceAdapter`: strict and degraded start-up, the registry of devices, reads and calls by type.
- `SignalPaths`, `SignalRegistry`, `DeviceManager`, `SimProviderRuntime`: paths, published values in front of
  device state, the actuator snapshot, the function-name cache, calls under faults, and the gates of the runtime.
- `ConfigHash`, `FluxGraphClient`, `FluxGraphAdapter`, `RemoteEngine`: the session protocol. The server is an
  arbitrary function from RPC number to answer. The client keeps a ghost history of its RPCs; its class invariant
  says that its fields are the replay of that history, that every RPC was allowed when it was sent, and that the n-th
  RPC carries the n-th answer of the server. What happens on each status is spelled out status by status.
- `Ticker`, `LocalEngine`, `SimProvider`: the scheduler, the built-in engine, start-up wiring and one ticker pass.
- `ProviderRuns`: all of it as one step relation, in which calls sleep and control passes stand between sections. A
  run of the provider is shown to be, for every device, a run of that device's own machine, which carries the device
  theorems over to the whole provider.
- `TickRuns`, `ProviderActions`: the ticks and requests of a started provider are such runs, for any sequence of
  them and against any server.
- `FaultTiming`: when faults are judged, with a run that shows it.
- `Locks`: operations as programs of lock actions over the shared set of physics-driven paths, with lock order,
  mutual exclusion and freedom from deadlock.

Places where the code does not do what its documentation or names suggest, with the exact conditions proved:

- A device id may contain `/`. Such a device is never reached through the registry: it contributes nothing to the
  actuator snapshot, and outside sim-driven paths its closed loop stands still (`SlashedDeviceIsSilent`,
  `ActuatorCollectedIff`, `ControlInput`).
- The failure rate is documented as 0.0 to 1.0, but NaN passes the check, and then never fails a call
  (`AcceptedRate`).
- A failure rule for function id text with a leading zero is accepted and never fires (`RuleCanFireIff`).
- `clear_faults` is refused while the control device itself is unreachable or unavailable, or while a failure rule for
  its call 5 fires (`ClearFaultsWorksIff`); and an unavailable control device stays listed while `has_device` denies
  it (`GatesAgreeExceptOnControl`).
- Unavailability and unreachability are judged when a call begins, the failure rule when it has slept its latency:
  a fault injected during the sleep stops the call only as a failure rule that fires (`OnlyTheFailureRuleStopsACall`),
  so a relay can change while its device is unavailable (`RelayChangesWhileUnavailable`).
- An unavailable temperature controller also loses its closed loop when it controls on its own temperature
  (`ControlInput`).

## Model

| member | source | states |
|---|---|---|
| `ProviderRuns.PhysicsPathsAreFixed` | src/devices/common/device_manager.cpp:68-105 | On every run, in any interleaving of requests, simulation commands, sleeping calls, control sections, physics ticks and publications by an adapter that reads the output paths of active devices, the physics-driven paths stay exactly those output paths, the registry caches nothing outside them, and start-up's devices and names do not change. |
| `ProviderRuns.TempRunRefines` | src/devices/tempctl/tempctl_device.cpp:96-175 | Every run of the provider, with calls asleep and control sections interleaved, is for each temperature controller a run of that device's own machine over exactly the calls, control sections and ticks that reach it, with the provider's simulated time. |
| `ProviderRuns.TempGuarantees` | src/devices/tempctl/tempctl_device.cpp:66-129 | On every run of a freshly started provider the channels stay in the hull of the configured initial value and the admissible targets, tc1 - tc2 is 1.5 * (1 - e(time/6)) whatever control and callers do, and a staged relay 2 is never on without relay 1. |
| `ProviderRuns.GapIsShared` | src/devices/tempctl/tempctl_device.cpp:118-128 | All temperature controllers of a freshly started provider show the same channel difference at every moment. |
| `ProviderRuns.RelayChangesAreAuthorised` | src/devices/tempctl/tempctl_device.cpp:131-175 | However requests, sleeps and control sections interleave, a relay changes only by a set_relay in open mode whose own beginning found every fault gate open, or by the last section of the control pass in closed mode. |
| `ProviderRuns.StagedUntilNextSetRelay` | src/devices/tempctl/tempctl_device.cpp:131-175 | Once the controller of a device has acted outside its dead band, relay 2 is on only together with relay 1, however the run of the provider goes on, until a set_relay on that device is accepted. |
| `ProviderRuns.MotorGuarantees` | src/devices/motorctl/motorctl_device.cpp:81-94 | On every run of a freshly started provider both speeds of a motor stay between 0 and its configured maximum, which never changes. |
| `ProviderRuns.AnalogGuarantees` | src/devices/analogsensor/analogsensor_device.cpp:79-108 | On every run of a freshly started provider quality, drift and timer of a sensor stay consistent with each other. |
| `ProviderRuns.RelayGuarantees` | src/devices/relayio/relayio_device.cpp:313-349 | On every run of a freshly started provider a relay shows the last well-formed call for its channel that got through, and an input its relay as of the last tick. |
| `ProviderRuns.CallsPassedTheirGates` | src/devices/common/device_manager.cpp:473-493 | A call that is asleep or about to be applied was begun by a request or command that found its device reachable (for requests) and available at that moment, and its thread has been in that very call ever since. |
| `ProviderRuns.OnlyTheFailureRuleStopsACall` | src/devices/common/device_manager.cpp:473-493 | Whatever happens while a call sleeps its latency, on whatever thread: it passes exactly when the failure rule found at wake-up spares it, and it is then applied to its device as the device stands, whatever faults are on it by then. |
| `ProviderRuns.OtherFaultsDoNotStopACall` | src/devices/common/device_manager.cpp:473-493 | If no clear and no rule for its own device and function was injected while it slept, a call passes exactly when the rule in force when it fell asleep spares it; unavailability, unreachability, signal faults and latencies injected meanwhile do not matter. |
| `FaultTiming.RelayChangesWhileUnavailable` | src/devices/common/device_manager.cpp:473-493 | A run in which a relay changes while its device is unavailable: a set_relay sleeps, the simulation makes the device unavailable, and the call is then applied. |
| `FaultTiming.SuchAProviderExists` | src/devices/common/device_manager.cpp:473-493 | The premises of that run can be met: one controller with an injected latency of 50 ms is enough. |
| `ProviderRuns.RequestIsARun` | src/core/sim_provider_runtime.cpp:116-127 | A request that nothing interrupts is its gate section, its sleep and failure rule, and its dispatch, one after the other. |
| `ProviderActions.RunSim` | src/core/main.cpp:160-172 | Any sequence of ticks and requests on a started sim-mode provider, against any server: every one of them is performed, one after the other, with the exchange its server answers dictate; the physics-driven set stays as start-up left it, the state is reached by a legal run over no simulated time of its own, and the commands that run executes are those of the ticking answers, in order, each once. No assumption is made about what the server publishes. |
| `ProviderActions.RunLocal` | src/simulation/engines/local_engine.cpp:20-48 | Any sequence of ticks and requests in non-interacting mode: every one of them is performed, a tick with one step over the time that has passed, up to a quarter of a second; no path becomes physics-driven, no command is executed, and the state is reached by a legal run whose simulated time is the engine's and at most real time. |
| `ProviderActions.FreshRunsStayWithin` | src/simulation/engines/local_engine.cpp:20-48 | On every run of a freshly started provider all its devices together stay within the guarantees of their types, at the run's simulated time. |
| `ProviderActions.StartAndRunLocal` | src/core/main.cpp:130-186 | From any configuration and through any sequence of ticks and requests, all of them performed, every registered device of a non-interacting provider stays within the guarantees of its type, with its configured limits and the engine's simulated time. |
| `ProviderActions.StartAndRunSim` | src/core/main.cpp:130-186 | The same in sim mode against any server, starting exactly when `SimProvider.StartSim` does, with the physics-driven paths still exactly the de-duplicated edge targets of the devices that came up. |
| `ProviderActions.TickDoneLeads` | src/devices/common/device_manager.cpp:216-275 | Whatever a successful tick has done is a legal run, and its commands extend the account of all ticks by exactly that run's commands. |
| `TickRuns.TurnIsARun` | src/devices/tempctl/tempctl_device.cpp:131-175 | The three sections of update_control, with nothing in between, amount to one turn of the control pass. |
| `TickRuns.SimTickIsARun` | src/devices/common/device_manager.cpp:216-275 | For sensors among the marked paths there is a legal run of control sections, publications and commands that leaves exactly what the tick leaves and executes exactly its commands. |
| `TickRuns.FailedTickIsARun` | src/devices/common/device_manager.cpp:270-274 | A failed tick is the run of its control pass. |
| `TickRuns.LocalTickIsARun` | src/devices/common/device_manager.cpp:216-275 | A tick of the local engine is the run of its control pass and one step of simulated time. |
| `SimProvider.Provider.TickOnce` | src/devices/common/device_manager.cpp:216-275 | One pass of the ticker keeps the physics-driven set. With a registered client it sends exactly the snapshot taken after the control pass, with the ambient input in place of whatever stands at its path, and succeeds exactly when the last answer says that a tick occurred; it then has asked for every marked path after that answer, published exactly those fetched, and executed exactly that answer's commands in order. A failed pass has run the control pass and nothing else; without a registration nothing is sent. |
| `SimProvider.StartSim` | src/core/main.cpp:130-172 | A sim-mode provider starts exactly if no device was rejected under the strict policy, the server's conclusive answers take over the configuration and then the registration, and the ambient path is not empty. It then owns exactly the de-duplicated edge targets of the devices that came up, is registered for those devices, feeds in the configured ambient input, and holds every device in its configured initial state. |
| `SimProvider.StartLocal` | src/core/main.cpp:130-186 | A non-interacting provider fails to start exactly when the strict policy rejects a device; no path is physics-driven and every device is in its configured initial state. |
| `SimProvider.TickLocal` | src/devices/common/device_manager.cpp:216-275 | With the local engine a tick publishes nothing and executes no command: it is the control pass followed by one physics step of every registered device, if time has passed. |
| `SimProvider.ControlPassIsExact` | src/devices/common/device_manager.cpp:223-228 | The order in which the devices take their turn in the control pass does not matter: the loop leaves what all turns taken on the same state would leave. |
| `SimProvider.PassStages` | src/devices/common/device_manager.cpp:223-228 | The control pass stages the relays of every controller in closed mode for its own reading, if there is one, and changes nothing else. |
| `SimProvider.CommandsKeepRegistry` | src/devices/common/device_manager.cpp:161-197 | Executing the commands of a tick changes device states and the fault log at most, never the registry or the registered devices. |
| `DeviceManager.ReadIsExact` | src/devices/common/device_manager.cpp:430-449 | A permitted read returns the known ones among the requested signals, in request order with repetitions, and a value has FAULT quality exactly when its signal is faulted at that instant. |
| `DeviceManager.ReadShowsFields` | src/devices/common/device_manager.cpp:430-449 | Every value that is read, of any device type, shows its own field: a published number as it is, a published switch as on from 0.5; otherwise the device's own temperature, relay, speed, duty, input, or base voltage plus drift plus that request's noise within 0 to 10; mode, setpoint and quality are never published. |
| `DeviceManager.SilentWhenUnavailable` | src/devices/common/device_manager.cpp:430-438 | An unavailable or unknown device answers nothing. |
| `DeviceAdapter.SignalsOfTypes` | src/devices/tempctl/tempctl_device.cpp:312-326 | The signals each device type answers for, and those an empty request stands for. |
| `DeviceAdapter.ActuatorsOfTypes` | src/devices/common/device_adapter.cpp:84-113 | The signals each type feeds to the simulation. |
| `DeviceManager.FailedCallChangesNothing` | src/devices/common/device_manager.cpp:473-493 | Every call that ends in another status than OK leaves all devices, the registry and the fault log as they were. |
| `DeviceManager.TableKeepsLast` | src/devices/common/device_manager.cpp:55-66 | The cached table of a function list holds, for each name, the id of its last entry, and nothing else. |
| `DeviceManager.ScanFindsFirst` | src/devices/common/device_manager.cpp:464-469 | The linear scan finds the first entry of a name, if there is one. |
| `DeviceManager.TableAgreesWithScanIff` | src/devices/common/device_manager.cpp:451-471 | Table and scan agree on a name exactly when its first and its last entry carry the same id. |
| `DeviceManager.NamesAreDistinct` | src/devices/common/device_manager.cpp:55-66 | No device type reuses a function name, and none has an empty one. |
| `DeviceManager.Manager.CacheDeviceCapabilities` | src/devices/common/device_manager.cpp:55-66 | Afterwards the cache covers exactly the devices that are listed, each with the table of its current functions. |
| `DeviceManager.Manager.ResolveFunctionId` | src/devices/common/device_manager.cpp:451-471 | Resolution equals a scan of the device's capabilities whenever the device is cached or available; a cached device keeps resolving while it is unavailable. |
| `DeviceManager.Manager.ListDevices` | src/devices/common/device_manager.cpp:383-404 | Once a configuration is loaded the listing holds each registered, available device exactly once, then the control device; otherwise it is empty. |
| `DeviceManager.Manager.ReadSignals` | src/devices/common/device_manager.cpp:430-449 | Nothing for an unavailable or unknown device; otherwise the readings of `ReadIsExact` and `ReadShowsFields`, with published values in front and FAULT-stamped. No read changes any later answer. |
| `DeviceManager.PlainDeviceAnswersItself` | src/devices/common/device_manager.cpp:310-336 | Read through the registry, a device whose id has no slash answers with its own current signal as a number while it is available, and not at all otherwise. |
| `DeviceManager.SlashedDeviceIsSilent` | src/devices/common/device_manager.cpp:310-336 | A device whose id contains a slash is never reached through the device reader, because the path is split inside the id. |
| `DeviceManager.ActuatorCollectedIff` | src/devices/common/device_manager.cpp:107-135 | An actuator is collected exactly when its device id has no slash, its path is not physics-driven and the device is available; the value is then the device's current state, a bool as 1 or 0. |
| `DeviceManager.SnapshotIsExact` | src/devices/common/device_manager.cpp:123-135 | The actuator snapshot holds the path of every contributing actuator with its current state, and no other path. |
| `DeviceManager.SnapshotIsUnique` | src/devices/common/device_manager.cpp:123-135 | These conditions determine the snapshot: a state has at most one. |
| `DeviceManager.Manager.CollectActuatorSignals` | src/devices/common/device_manager.cpp:107-135 | The nested collection loops return that exact snapshot and change no fault answer. |
| `DeviceManager.ControlInput` | src/devices/tempctl/tempctl_device.cpp:145-154 | The closed loop acts on the published temperature where the simulation owns the path; otherwise on the device's own first channel, but only with a slash-free id and while the device is available; else it stands still. |
| `DeviceManager.Manager.UpdateControl` | src/devices/tempctl/tempctl_device.cpp:131-175 | One turn of the control pass: in closed mode, on the reading of the control input, more than 10 degrees below the setpoint both relays are on, more than 2 below the first alone, within 2 degrees both stay, more than 2 above both are off. Without a reading, in open mode, for all other fields and all other devices nothing changes. |
| `DeviceManager.Manager.StartCall` | src/devices/common/device_manager.cpp:473-481 | An unavailable device refuses the call; otherwise the caller sleeps the injected latency in full before anything else happens. |
| `DeviceManager.Manager.FinishCall` | src/devices/common/device_manager.cpp:482-492 | On whatever state the sleep has left: the failure rule comes before the adapter, a chaos call appends exactly its event to the log, and a device call is dispatched to that device alone. |
| `DeviceManager.Manager.CallFunction` | src/devices/common/device_manager.cpp:473-493 | Both halves with nothing in between. |
| `DeviceManager.Manager.ExecuteCommands` | src/devices/common/device_manager.cpp:161-197 | Commands are executed in order, each once, through the name cache; an unknown device or function changes nothing. |
| `DeviceManager.ArgumentsArrive` | src/simulation/adapters/fluxgraph/fluxgraph_client.cpp:387-411 | An argument of a command reaches the call with the type and value it had on the wire; an unset one does not reach it. |
| `DeviceManager.CommandsArriveInOrder` | src/simulation/adapters/fluxgraph/fluxgraph_client.cpp:194-197 | No command of an answer is lost, repeated or moved. |
| `DeviceManager.FunctionsByName` | src/devices/common/device_manager.cpp:451-471 | The functions of each device type and of the control device, with the ids behind their names. |
| `DeviceManager.Manager.RebuildPhysicsOutputPaths` | src/devices/common/device_manager.cpp:68-105 | In sim mode exactly the engine's paths owned by an active device are recorded and marked physics-driven; in the other modes none. |
| `DeviceManager.Manager.InitializePhysics` | src/devices/common/device_manager.cpp:300-340 | On a fresh registry the physics-driven set afterwards equals the recorded output paths, the name cache covers the listed devices, and only an empty ambient path in sim mode is refused. |
| `SimProviderRuntime.GatesAgreeExceptOnControl` | src/core/sim_provider_runtime.cpp:67-85 | For every id but chaos_control, being listed and passing has_device coincide; the control device is listed whenever a configuration is loaded, yet has_device denies it while it is itself faulted unavailable. |
| `SimProviderRuntime.CallByConditions` | src/core/sim_provider_runtime.cpp:116-127 | Which condition decides a call: UNAVAILABLE exactly for an unreachable device, then INVALID_ARGUMENT for an unavailable one, both without any sleep; then, after the injected latency in full, INVALID_ARGUMENT if the failure rule fires; then the control device's or the device's own answer, with the change of that one device; NOT_FOUND last. |
| `SimProviderRuntime.RefusedCallChangesNothing` | src/core/sim_provider_runtime.cpp:116-127 | A runtime call that does not end OK leaves devices, registry and every fault answer unchanged. |
| `SimProviderRuntime.ClearFaultsWorksIff` | src/core/sim_provider_runtime.cpp:116-127 | clear_faults succeeds exactly when the control device is neither unreachable nor unavailable and its call 5 is not made to fail; it then leaves no fault, latency or failure rule of any kind. |
| `SimProviderRuntime.ControlDeviceCanBeLockedOut` | src/chaos/chaos_control_device.cpp:222-240 | Making the control device unreachable through itself, at whatever latency, refuses clear_faults from the end of that call until the fault expires. |
| `SimProviderRuntime.Runtime.Read` | src/core/sim_provider_runtime.cpp:99-114 | A read fails only for an unreachable device; every other read is OK and returns the device manager's answer, with the values of `ReadShowsFields`. |
| `SimProviderRuntime.Runtime.Call` | src/core/sim_provider_runtime.cpp:116-127 | A call on an unreachable device is UNAVAILABLE; otherwise the device manager decides. Anything but OK changes nothing. |
| `FaultInjection.DeviceFaultedIff` | src/chaos/fault_injection.cpp:49-99 | The last injection for the device since the last clear decides, alone, and exactly until its milliseconds have passed. |
| `FaultInjection.SignalFaultedIff` | src/chaos/fault_injection.cpp:101-136 | A signal is faulted exactly while some injection for the pair since the last clear has not expired. |
| `FaultInjection.LatencyIff` | src/chaos/fault_injection.cpp:138-154 | A device has the latency last set for it since the last clear, and otherwise none. |
| `FaultInjection.CallFailsIff` | src/chaos/fault_injection.cpp:156-195 | A call fails exactly when the rate last set for its device and function since the last clear exceeds the sample; NaN exceeds nothing. |
| `FaultInjection.Isolation` | src/chaos/fault_injection.cpp:49-195 | Events on one device never change an answer about another. |
| `FaultInjection.OverlapRules` | src/chaos/fault_injection.cpp:49-136 | A second injection replaces a device fault outright, even by a shorter one, but can only extend a signal fault. |
| `FaultInjection.RuleOutlastsOtherFaults` | src/chaos/fault_injection.cpp:156-195 | A failure rule is touched by no other fault, of whatever kind and on whatever device, short of a clear. |
| `FaultInjection.FaultsOnlyFade` | src/chaos/fault_injection.cpp:57-136 | Without a new injection nothing that is not faulted becomes faulted later. |
| `FaultInjection.RemoveExpired` | src/chaos/fault_injection.cpp:119-126 | The in-place compaction keeps exactly the unexpired entries, in order. |
| `FaultInjection.FaultStore.IsDeviceUnavailable` | src/chaos/fault_injection.cpp:57-74 | Answers as the log of all injections does; the lazy erasure changes no later answer. |
| `FaultInjection.FaultStore.IsDeviceUnreachable` | src/chaos/fault_injection.cpp:84-99 | The same for unreachable devices. |
| `FaultInjection.FaultStore.IsSignalFaulted` | src/chaos/fault_injection.cpp:110-136 | Answers as the log does, and leaves no expired entry of the device behind. |
| `FaultInjection.FaultStore.InjectCallFailure` | src/chaos/fault_injection.cpp:156-174 | One rule per device and function: a new rate replaces the old one, others stay. |
| `FaultInjection.FaultStore.ShouldCallFail` | src/chaos/fault_injection.cpp:176-195 | A call fails exactly when its sample lies below the rate last set for the pair since the last clear. |
| `ChaosControl.CallFunction` | src/chaos/chaos_control_device.cpp:134-245 | An accepted call appends exactly its event to the log; a rejected one leaves the whole store as it was. |
| `ChaosControl.CallsReachExactlyWellFormedEvents` | src/chaos/chaos_control_device.cpp:134-245 | The calls that reach the store are exactly the encodings of well-formed events, and decoding loses nothing. |
| `ChaosControl.AcceptedRate` | src/chaos/chaos_control_device.cpp:190-207 | An accepted failure rate lies in [0, 1] exactly when it is not NaN, and an accepted NaN never makes a call fail. |
| `ChaosControl.DecimalIsCanonical` | src/devices/common/device_manager.cpp:482 | The text of a function id is canonical and reads back as the id. |
| `ChaosControl.RuleCanFireIff` | src/chaos/chaos_control_device.cpp:50-53 | An accepted function id text can match a call exactly when it has no superfluous leading zero and fits 32 bits. |
| `ChaosControl.LeadingZeroNeverFires` | src/chaos/chaos_control_device.cpp:50-53 | "01" passes the numeric check and matches no call. |
| `DeviceFactory.StartupPartition` | src/devices/common/device_factory.cpp:36-84 | Successes and failures divide the configured list; the registry holds exactly the successful ids, each with its own accepted spec. |
| `DeviceFactory.StartupKeepsOrder` | src/devices/common/device_factory.cpp:36-84 | Both lists keep the configured order, and with unique ids no device is in both. |
| `DeviceFactory.AcceptsIff` | src/devices/common/device_adapter.cpp:18-62 | Which configurations are accepted, key by key: values that are present must parse, an initial temperature must lie in a given range, a maximum speed in (0, 10000]; relay and sensor modules look at nothing. |
| `DeviceFactory.InitialStates` | src/devices/common/device_adapter.cpp:47-62 | The initial state of every type, field by field. |
| `DeviceFactory.Factory.InitializeFromConfig` | src/devices/common/device_factory.cpp:36-84 | Strict start-up throws for the first rejected device with an empty registry and no loaded configuration; otherwise it returns the partition, and every registered device holds the initial state its configuration asks for. Degraded start-up always returns it. |
| `DeviceFactory.StartupInitialises` | src/devices/common/device_factory.cpp:36-84 | After the accepted specs were initialised in order, also with repeated ids, every registered device holds the initial state of the spec it is registered with. |
| `DeviceFactory.Factory.InitializeDevice` | src/devices/common/device_factory.cpp:16-34 | A device is registered exactly when its type is known and its own configuration parses and passes its checks; it then gets its configured initial state, and no other device is touched. A rejected one leaves no state. |
| `FluxGraphClient.SessionInvariant` | src/simulation/adapters/fluxgraph/fluxgraph_client.cpp:123-160 | In every reachable state a registered client holds the last session id the server issued, an unregistered one holds none. |
| `FluxGraphClient.UpdatesCarryCurrentSession` | src/simulation/adapters/fluxgraph/fluxgraph_client.cpp:162-225 | Every update ever sent, also after a re-registration within the same call, carried the id last issued at that moment. |
| `FluxGraphClient.CacheIsFresh` | src/simulation/adapters/fluxgraph/fluxgraph_client.cpp:227-278 | A cached value is the answer of one fetch since which nothing has invalidated the cache. |
| `FluxGraphClient.CacheIsStable` | src/simulation/adapters/fluxgraph/fluxgraph_client.cpp:227-278 | Between invalidations a cached path is neither changed nor fetched again. |
| `FluxGraphClient.UpdateIsBounded` | src/simulation/adapters/fluxgraph/fluxgraph_client.cpp:162-225 | Whatever the server answers, one update_signals call sends one or two updates, at most two registrations and no read. |
| `FluxGraphClient.ReadIsBounded` | src/simulation/adapters/fluxgraph/fluxgraph_client.cpp:227-278 | One uncached read_signal call sends one or two reads, at most two registrations and no update. |
| `FluxGraphClient.UpdateByStatus` | src/simulation/adapters/fluxgraph/fluxgraph_client.cpp:178-225 | An OK answer ends an update with its tick flag. UNAVAILABLE, DEADLINE_EXCEEDED, RESOURCE_EXHAUSTED and ABORTED are followed by one more update in the same session whose answer decides. Any other failure ends the call after one RPC. |
| `FluxGraphClient.UpdateReconnects` | src/simulation/adapters/fluxgraph/fluxgraph_client.cpp:205-214 | An update answered UNAUTHENTICATED drops the session and repeats the last registration; if that is accepted a second update with the new session id follows and its answer decides, otherwise the call throws. |
| `FluxGraphClient.UpdateLeaves` | src/simulation/adapters/fluxgraph/fluxgraph_client.cpp:185-225 | An answered update takes over tick flag, time, commands and session of its answer and drops the caches exactly on a tick; one that throws changes the registration at most. |
| `FluxGraphClient.ReadByStatus` | src/simulation/adapters/fluxgraph/fluxgraph_client.cpp:240-278 | A read is fetched by an OK answer with exactly one signal, at once or after one transient failure; any other failure ends it after one RPC. |
| `FluxGraphClient.ReadReconnects` | src/simulation/adapters/fluxgraph/fluxgraph_client.cpp:248-258 | A read answered UNAUTHENTICATED is repeated exactly when the client is registered and its registration is accepted again; the second answer decides. |
| `FluxGraphClient.RegisterByStatus` | src/simulation/adapters/fluxgraph/fluxgraph_client.cpp:123-160 | A registration is repeated once after a transient failure and never otherwise, and stands exactly if the final answer is OK and accepts it. |
| `FluxGraphClient.ConfigByStatus` | src/simulation/adapters/fluxgraph/fluxgraph_client.cpp:88-121 | The same for a configuration, which resets the client exactly if the final answer is OK, succeeds and reports a change. |
| `FluxGraphClient.ResetByStatus` | src/simulation/adapters/fluxgraph/fluxgraph_client.cpp:294-323 | The same for a reset. |
| `FluxGraphClient.Client.UpdateSignals` | src/simulation/adapters/fluxgraph/fluxgraph_client.cpp:162-225 | The retry loop records exactly the closed-form event list whose meaning `UpdateByStatus` and `UpdateReconnects` give, leaves the state `UpdateLeaves` describes, and returns the tick flag of the answer that ended it; unregistered it throws without any RPC. |
| `FluxGraphClient.Client.ReadSignal` | src/simulation/adapters/fluxgraph/fluxgraph_client.cpp:227-278 | A cached path is answered without any RPC; otherwise the loop records exactly the event list whose meaning `ReadByStatus` and `ReadReconnects` give, and the three caches gain exactly the fetched answer. |
| `FluxGraphClient.Client.LoadConfigContent` | src/simulation/adapters/fluxgraph/fluxgraph_client.cpp:79-121 | Sends the hash of the content, with attempts and outcome as in `ConfigByStatus`; a changed configuration drops session, commands and caches, an unchanged one keeps them. |
| `FluxGraphClient.Client.RegisterProvider` | src/simulation/adapters/fluxgraph/fluxgraph_client.cpp:123-160 | Attempts and outcome as in `RegisterByStatus`; success takes over session, provider and devices, failure changes nothing. |
| `FluxGraphClient.Client.TryReregisterSession` | src/simulation/adapters/fluxgraph/fluxgraph_client.cpp:325-357 | Repeats the registration last accepted, if there was one, with attempts and outcome as in `RegisterByStatus`. |
| `FluxGraphClient.Client.DrainCommands` | src/simulation/adapters/fluxgraph/fluxgraph_client.cpp:288-292 | Hands out the pending commands and keeps none. |
| `FluxGraphClient.Client.Reset` | src/simulation/adapters/fluxgraph/fluxgraph_client.cpp:294-323 | Attempts and outcome as in `ResetByStatus`; success forgets time, tick flag, commands and caches, and keeps the session. |
| `FluxGraphClient.Client.UnregisterProviderNoexcept` | src/simulation/adapters/fluxgraph/fluxgraph_client.cpp:359-373 | If registered with a non-empty session id it sends one RPC and ends unregistered without a session; otherwise nothing happens. |
| `FluxGraphAdapter.DedupKeepsEachTargetOnce` | src/simulation/adapters/fluxgraph/fluxgraph_adapter.cpp:31-46 | The output paths are exactly the edge targets, each once. |
| `FluxGraphAdapter.Adapter.LoadConfig` | src/simulation/adapters/fluxgraph/fluxgraph_adapter.cpp:22-46 | Succeeds exactly if the server's conclusive answer takes the configuration over; the de-duplicated targets then replace the known paths, which stay otherwise. |
| `FluxGraphAdapter.Adapter.ReadSignals` | src/simulation/adapters/fluxgraph/fluxgraph_adapter.cpp:61-85 | Every requested path, or without explicit paths every output path owned by a registered device, is asked for unless it is cached, and is part of the result exactly if it was cached or one of its reads was accepted. |
| `RemoteEngine.RunsSettle` | src/simulation/engines/remote_engine.cpp:24-49 | Over any sequence of ticks and any server, the commands handed out are the in-order concatenation of the commands of all answers in which a tick occurred, each once. |
| `RemoteEngine.CachedAfterTickIsFresh` | src/simulation/adapters/fluxgraph/fluxgraph_client.cpp:199-203 | After a ticking answer everything in the cache was fetched after it. |
| `RemoteEngine.Engine.Tick` | src/simulation/engines/remote_engine.cpp:24-49 | A registered tick sends the actuators and succeeds exactly when the answer to its last update is OK and says that a tick occurred. It then returns exactly that answer's commands and, of the owned paths, each of which is asked for after that answer, exactly those fetched, with values fetched after it. A failed one returns nothing; an unregistered one sends nothing. |
| `RemoteEngine.TimeoutCoversTwentyPeriods` | src/simulation/engines/remote_engine.cpp:26-32 | For every admitted rate the timeout is twenty periods in whole milliseconds, 20 ms to 200 s. |
| `ConfigHash.MultiplyIsInvertible` | src/simulation/adapters/fluxgraph/fluxgraph_client.cpp:16-23 | Multiplying by the FNV prime modulo 2^64 is undone by the prime's inverse. |
| `ConfigHash.FoldIsInjective` | src/simulation/adapters/fluxgraph/fluxgraph_client.cpp:16-23 | For fixed bytes the hash is an injective function of its start value. |
| `ConfigHash.ToHexStringIsInjective` | src/simulation/adapters/fluxgraph/fluxgraph_client.cpp:25-29 | Sixteen-digit printing loses nothing. |
| `ConfigHash.OneByteSensitivity` | src/simulation/adapters/fluxgraph/fluxgraph_client.cpp:79-86 | Changing exactly one byte of a configuration, wherever it stands, always changes its config hash. |
| `ConfigHash.Fnv1a64` | src/simulation/adapters/fluxgraph/fluxgraph_client.cpp:16-23 | The loop computes the FNV-1a fold, section 2 of draft-eastlake-fnv. |
| `ConfigHash.RoundIs` | src/simulation/adapters/fluxgraph/fluxgraph_client.cpp:16-23 | In one round the lowest byte of the hash changes bit by bit, and the product with the published prime is cut to 64 bits. |
| `ConfigHash.HexReadsBack` | src/simulation/adapters/fluxgraph/fluxgraph_client.cpp:25-29 | What is printed is the number in lower-case hexadecimal digits, most significant first. |
| `ConfigHash.ConfigHashIs` | src/simulation/adapters/fluxgraph/fluxgraph_client.cpp:79-86 | The hash text is that of the line yaml followed by the content, from the published offset basis, in sixteen digits. |
| `Ticker.Thread.Advance` | src/devices/common/device_manager.cpp:279-292 | After the catch-up loop the schedule stands at the least later slot whose boundary is in the future; stopped early or not, it stays on the boundaries and does not pass that slot. Every slot skipped takes one look at the running flag. |
| `Ticker.NextSlotIsLeast` | src/devices/common/device_manager.cpp:279-292 | max(k + 1, floor((now - S)/P) + 1) is the least slot after k whose boundary lies in the future. |
| `Ticker.Thread.Run` | src/devices/common/device_manager.cpp:212-294 | Ticks until it is stopped: the first at the start, each further one at the later of the end of the previous work and the boundary it slept for, plus oversleep; each aims at the first later slot whose boundary lies after the end of its own work, unless it is stopped while skipping. Looks at the running flag and slots passed are the same number. |
| `Ticker.SchedulePhaseLocks` | src/devices/common/device_manager.cpp:212-294 | A schedule of this kind is phase-locked: every tick starts at or after its slot boundary, and slots strictly increase. |
| `Ticker.NoBurst` | src/devices/common/device_manager.cpp:279-294 | Between the starts of two consecutive ticks lies a slot boundary, so a late run never bursts. |
| `Ticker.SlotsAdvance` | src/devices/common/device_manager.cpp:279-294 | The slots of consecutive ticks strictly increase. |
| `Ticker.TickIsNeverEarly` | src/devices/common/device_manager.cpp:212-294 | Tick n never starts before S + n*P. |
| `Ticker.PeriodIsPositiveIff` | src/devices/common/device_manager.cpp:199-202 | The period is positive, as the catch-up loop needs, for every rate up to 1 GHz; for admitted rates it is 1 ms to 10 s. |
| `Ticker.PeriodInvertsRate` | src/devices/common/device_manager.cpp:199-202 | The period is the inverse of the rate in nanoseconds, short by less than one. |
| `Locks.OperationsAreDisciplined` | src/devices/common/signal_registry.cpp:7-57 | Whatever other threads publish meanwhile, every operation acquires locks in one order, never one it holds, touches the driven set only under the registry mutex, gives all locks back, and enters the device reader at most once. |
| `Locks.ControlLocks` | src/devices/tempctl/tempctl_device.cpp:131-175 | A turn of the control pass takes the device mutex twice, and in between the registry, or for a path that is not driven also the device's own read, never under it. |
| `Locks.SimpleOperationsLock` | src/devices/common/signal_registry.cpp:39-57 | Calls, physics, publication and marking each lock what they touch exactly once. |
| `Locks.SensorRelocksIffPathIsWithdrawn` | src/devices/analogsensor/analogsensor_device.cpp:228-248 | The analog sensor, which keeps its mutex across two registry calls, locks it again exactly when the path is driven at the first call and no longer at the second. |
| `Locks.NoDeadlock` | src/devices/common/signal_registry.cpp:7-57 | No interleaving of any number of threads performing any operations on the shared driven set reaches a deadlock. |
| `Locks.RunsKeepInvariant` | src/devices/common/signal_registry.cpp:7-57 | On every interleaving each lock has at most one holder, threads keep the lock order, and the driven set only grows. |
| `Locks.SchedulesAreFinite` | src/devices/common/signal_registry.cpp:7-57 | Together the threads finish their operations after finitely many actions. |
| `LocalEngine.Engine.Tick` | src/simulation/engines/local_engine.cpp:20-48 | Fails and changes nothing unless time has passed; otherwise every registered device, or without a loaded configuration one device of each type, takes exactly one step of its own physics with a step of at most 0.25 s, and simulated time never outruns real time. |
| `LocalEngine.LoopSteps` | src/simulation/engines/local_engine.cpp:31-38 | The fan-out loop steps every registered device once and nothing else. |
| `LocalEngine.StepIsElapsed` | src/simulation/engines/local_engine.cpp:20-29 | A step is the time passed in seconds, up to a quarter of one. |
| `TempCtl.GapIsIndependentOfControl` | src/devices/tempctl/tempctl_device.cpp:66-129 | tc1 - tc2 depends on the simulated time alone and stays between 0 and 1.5. |
| `TempCtl.TemperaturesStayBounded` | src/devices/tempctl/tempctl_device.cpp:96-129 | Over all runs tc1 and tc2 stay in the hull of the initial value and the admissible targets. |
| `TempCtl.RelayAuthority` | src/devices/tempctl/tempctl_device.cpp:131-175 | Relays change by set_relay in open mode or the controller in closed mode only. |
| `TempCtl.StagedUntilSetRelay` | src/devices/tempctl/tempctl_device.cpp:131-175 | Once the controller has acted outside the dead band, relay 2 is on only with relay 1 until a set_relay succeeds. |
| `TempCtl.ControlStages` | src/devices/tempctl/tempctl_device.cpp:158-174 | The staged decision by temperature, and that it touches the two relays only. |
| `TempCtl.HotterMeansFewerRelays` | src/devices/tempctl/tempctl_device.cpp:158-174 | Outside the dead band the number of relays that are on never grows with the temperature. |
| `TempCtl.ChannelsApproach` | src/devices/tempctl/tempctl_device.cpp:96-129 | Between calls the first channel approaches the setpoint, or 23, 68 or 98 degrees with none, one or both relays on, the second 1.5 degrees below it; the distance shrinks by e(time / 6 s) and nothing else changes. |
| `TempCtl.CallMeans` | src/devices/tempctl/tempctl_device.cpp:384-442 | The calls by name and argument: which are accepted, with which status the others are rejected, and the one field that changes. |
| `TempCtl.PhysicsIsExact` | src/devices/tempctl/tempctl_device.cpp:96-129 | Between calls, any partition of the same time gives the same temperatures. |
| `TempCtl.Module.UpdatePhysics` | src/devices/tempctl/tempctl_device.cpp:96-129 | Both channels relax toward the target the mode and the relays select. |
| `TempCtl.Module.CallFunction` | src/devices/tempctl/tempctl_device.cpp:384-442 | Mode, setpoint and relay calls with their checks in the order of the code; a rejected call changes nothing. |
| `MotorCtl.SpeedsStayBounded` | src/devices/motorctl/motorctl_device.cpp:81-94 | Speeds stay in [0, maximum] over all runs. |
| `MotorCtl.SpeedsFollow` | src/devices/motorctl/motorctl_device.cpp:81-94 | Between calls, any partition of the same time gives the same speeds. |
| `MotorCtl.SpeedsApproach` | src/devices/motorctl/motorctl_device.cpp:81-94 | Between calls each speed approaches its own duty times the maximum; the distance shrinks by e(time / 0.8 s) and nothing else changes. |
| `MotorCtl.CallMeans` | src/devices/motorctl/motorctl_device.cpp:259-291 | When a duty call is accepted, with which status it is rejected otherwise, and the one duty that changes. |
| `MotorCtl.Module.CallFunction` | src/devices/motorctl/motorctl_device.cpp:259-291 | Duty calls with their checks in the order of the code. |
| `AnalogSensor.QualityInvariants` | src/devices/analogsensor/analogsensor_device.cpp:79-108 | NOISY implies a timer above 30, FAULT above 60, disabled noise implies GOOD without drift, and 0 <= drift <= 0.002 * timer. |
| `AnalogSensor.TickMeans` | src/devices/analogsensor/analogsensor_device.cpp:79-108 | On any run, after a tick under noise quality is GOOD exactly while the timer is at most 30, and FAULT exactly past 60 if it was not GOOD before; the drift grows by 0.002 a second, the timer always, and the noise level follows quality. |
| `AnalogSensor.CallMeans` | src/devices/analogsensor/analogsensor_device.cpp:275-314 | When calibration and noise calls are accepted, with which status they are rejected otherwise, and what they reset. |
| `AnalogSensor.QualityOnlyWorsens` | src/devices/analogsensor/analogsensor_device.cpp:89-97 | Until noise is disabled quality never improves, and n ticks worsen it by at most n levels. |
| `AnalogSensor.IdleTimeCounts` | src/devices/analogsensor/analogsensor_device.cpp:79-108 | The timer also runs without noise: a sensor idle for a minute reaches FAULT within two ticks of enabling it. |
| `AnalogSensor.Module.CallFunction` | src/devices/analogsensor/analogsensor_device.cpp:275-314 | Calibration and noise calls with their checks in the order of the code. |
| `RelayIO.CallSetsOneRelay` | src/devices/relayio/relayio_device.cpp:313-349 | A call is accepted exactly with a known channel and a bool argument; call k then sets relay k and touches no other relay and no input, and any other call touches nothing. |
| `RelayIO.RelayShowsLastCommand` | src/devices/relayio/relayio_device.cpp:313-349 | Over any run of calls and ticks a relay shows the last well-formed call for its own channel. |
| `RelayIO.InputsShowLastTick` | src/devices/relayio/relayio_device.cpp:76-87 | Until the next tick the inputs show the relays of the last one, the even channels inverted. |
| `Relaxation.FollowIsExact` | src/devices/tempctl/tempctl_device.cpp:118-128 | A first-order update with a held target depends on the total time only. |
| `Relaxation.ErrorShrinksExactly` | src/devices/motorctl/motorctl_device.cpp:81-94 | The error shrinks by exactly e(total time). |
| `Relaxation.RelaxKeepsSide` | src/devices/motorctl/motorctl_device.cpp:81-94 | The error never changes sign. |
| `SignalPaths.SplitUndoesJoinIff` | src/devices/common/device_manager.cpp:310-318 | Splitting at the first slash undoes joining exactly when the device id holds no slash. |
| `SignalPaths.OwnedByIff` | src/devices/common/device_manager.cpp:86-104 | The owned paths are exactly the signal paths of slash-free ids among the given devices. |
| `SignalPaths.OwnedPathsMembers` | src/devices/common/device_manager.cpp:86-104 | The filter keeps exactly the paths whose first component is one of the devices. |
| `DeviceAdapter.ReadsExactlyTheKnown` | src/devices/tempctl/tempctl_device.cpp:328-378 | A device read answers the known ones among the requested signals in request order. |
| `DeviceAdapter.RejectedCallChangesNothing` | src/devices/common/device_adapter.cpp:86-113 | No device function changes state before its last check has passed. |
| `SignalRegistry.Registry.ReadSection` | src/devices/common/signal_registry.cpp:7-27 | A driven path never asks the device, written or not; any other path always does. |
| `SignalRegistry.Registry.WriteSignal` | src/devices/common/signal_registry.cpp:39-47 | Writing makes the path driven and stores the value, and changes nothing else. |

## Left out

- gRPC channels, protobuf encoding, stdio framing, the Hello gate and the run loop: the server is an arbitrary
  sequence of answers.
- YAML parsing and the schema validator: unique ids, the reserved id `chaos_control` and a tick rate in
  [0.1, 1000] appear as preconditions where a result needs them. Numbers in a device configuration are finite.
- Capability texts, device info, health, readiness metrics, log lines and error messages; a rejected device is
  reported by id and type, without its reason.
- IEEE rounding, the real exponential, random numbers: reals, an assumed decay function, and arbitrary samples.
- Non-finite sensor and actuator values: published values are reals.
- 64-bit overflow of a fault's expiry time: times are unbounded integers.
- `relayio` beyond its calls, physics and reads; the engine of the inert mode, which does nothing; `main` argument
  parsing and the crash timer.
- `clear_physics_overrides` and the other registry queries, which nothing calls; `Locks` shows what withdrawing a
  path would break. The registry's device reader is fixed at start-up and not a field.
- DeviceFactory.Factory.GetRegisteredDevices: returns the entries in some order; the original iterates in key
  order, on which none of the results depends.
- DeviceManager.Manager.ReadSignals: one instant stands for the clock readings of one request, and likewise for
  the control pass and the snapshot of one ticker pass.
- DeviceManager.Manager.CallFunction: nothing happens during its sleep; `StartCall` and `FinishCall` are separate, and
  `ProviderRuns` lets everything happen between them. The fault checks before the sleep are one step.
- ProviderActions.RunSim: requests come between ticks; `ProviderRuns` has the finer interleavings.
- ProviderRuns.TempRunRefines: a registry read is one step; the sections inside it are separated in `Locks`.
- Locks.NoDeadlock: which device answers a read is fixed for each operation, and withdrawing paths is no operation,
  because nothing calls `clear_physics_overrides`.
- FluxGraphClient.Client.LoadConfigContent: the connection check is a parameter, deadlines are not modelled.
