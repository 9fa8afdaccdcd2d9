# AP_Module: external-module hook registry, modelled in Dafny

ArduPilot's `AP_Module` lets separately compiled shared libraries hook into
the flight code at five fixed points: `hook_setup_start`,
`hook_setup_complete`, `hook_AHRS_update`, `hook_gyro_sample` and
`hook_accel_sample`. At startup, `init` lists a module directory. It keeps the
entries whose text from the last `.` on is exactly `.so`, and hands each
`module_path/name` to `module_scan`. `module_scan` loads the library and looks
up the five names. Each symbol it finds is prepended to that hook's list in
the global `hooks[]` array. A library that exports none of them is closed
again. At run time, each `call_hook_*` walks one list from head to tail, so
the most recently registered module is called first. Three of them skip
everything when their list is empty. Otherwise they fill in a versioned
snapshot from their inputs and hand it to every entry.

The project is made of these modules:

- `hooks.dfy` (`Hooks`): the hook types, their slot in `hooks[]` and their
  symbol names.
- `filter.dfy` (`ModuleFiles`): the `strrchr`/`strcmp` filter of `init`, and
  its characterisation as "the name ends in `.so`".
- `registration.dfy` (`Registration`): `module_scan` and `init` as functions
  over a registry value (`RegState`: the five lists plus the trace of loader
  calls). Also the lemmas on registration order, load attempts and release.
- `snapshots.dfy` (`Snapshots`): the `AHRS_state`, `gyro_sample` and
  `accel_sample` structures, the navigation source, and the methods that fill
  the structures field by field.
- `dispatch.dfy` (`Dispatch`): the list walk as a trace of calls, and lemmas
  on call order.
- `apmodule.dfy` (`ApModule`): the class `ModuleRegistry`. It holds
  `hooks: array<seq<Symbol>>`, each sequence a list head first, and the loader
  trace `log`. Its methods `ModuleScan` and `Init` update that state in place
  and are proved to follow `Registration.Scan` and `Registration.Init`. Its
  five dispatchers read the lists and return the calls they make.

The loader and the filesystem are parameters. A `Loader` maps each path
holding a loadable library to its handle and exported symbols; `dlopen` of any
other path fails. A directory is `None` when it cannot be opened, and
otherwise the sequence of its entries. Each entry carries a flag saying
whether `asprintf` managed to build its path. A call into a module is
recorded as `Call(symbol, argument)`. The AHRS, gyro-sample and accel-sample
dispatchers also return the snapshot they built, or `None` when they returned early.

As in the source, all three lanes of the AHRS snapshot's `accel_ef` hold the
x component of the source's earth-frame acceleration
(libraries/AP_Module/AP_Module.cpp:188-190). The euler angles are the
source's cached roll, pitch and yaw. They are not derived from the
quaternion.

## Model

| member | source | states |
|---|---|---|
| `Hooks.Index` | libraries/AP_Module/AP_Module.cpp:31-37 | each hook type has its own slot below NUM_HOOKS = 5, and `HookOf` maps the slot back to it |
| `Hooks.Name` | libraries/AP_Module/AP_Module.cpp:31-37 | each hook type is looked up under its own literal name, `hook_setup_start` through `hook_accel_sample` |
| `Hooks.NamesDistinct` | libraries/AP_Module/AP_Module.cpp:31-37 | the five symbol names are pairwise different, so each hook type is probed under its own name |
| `ModuleFiles.LastIndexOf` | libraries/AP_Module/AP_Module.cpp:85 | `strrchr`: the result is an index holding the character with no later occurrence, and `None` exactly when the character does not occur |
| `ModuleFiles.Extension` | libraries/AP_Module/AP_Module.cpp:85 | the extension is a suffix of the name that starts with its only `.`; there is none exactly when the name has no `.` |
| `ModuleFiles.ExtensionIffSuffix` | libraries/AP_Module/AP_Module.cpp:85-86 | the text from the last `.` on is `.so` exactly when the name ends with `.so` |
| `ModuleFiles.IsModuleFile` | libraries/AP_Module/AP_Module.cpp:85-88 | an entry passes the filter iff its name ends with exactly `.so` (case-sensitive), an independent statement of the last-dot test |
| `ModuleFiles.FilterExamples` | libraries/AP_Module/AP_Module.cpp:85-88 | `a.so` and `b.txt.so` are scanned; `c.SO`, `x.so.1`, `noext`, `b.txt`, `.` and `..` are skipped |
| `Registration.Loader.Open` | libraries/AP_Module/AP_Module.cpp:45-46 | `dlopen` yields a library exactly for a path the loader holds one for |
| `Registration.Lookup` | libraries/AP_Module/AP_Module.cpp:52-53 | `dlsym` finds a symbol exactly when the library exports hook i's name |
| `Registration.EmptyRegistry` | libraries/AP_Module/AP_Module.cpp:29 | before any scan all five lists are empty and no loader call has been made |
| `Registration.Prepended` | libraries/AP_Module/AP_Module.cpp:52-61 | when the module exports hook i, the list grows by one entry, that symbol, at its head, with the old list as its tail; otherwise it is unchanged |
| `Registration.Registered` | libraries/AP_Module/AP_Module.cpp:51-64 | after a loaded module is scanned there are still five lists, and each one is prepended to exactly when the module exports that hook |
| `Registration.Scan` | libraries/AP_Module/AP_Module.cpp:42-70 | a module that cannot be loaded changes no list and adds only its load attempt to the trace; for a loaded one the lists are `Registered`, and it is released iff it exports none of the five names; the old trace is kept as a prefix |
| `Registration.ScanExtends` | libraries/AP_Module/AP_Module.cpp:59-61 | a scan only prepends: every old list is a tail of the new one, and the old trace a prefix of the new one |
| `Registration.ScanReleasesOnlyItself` | libraries/AP_Module/AP_Module.cpp:45-68 | after its load attempt a scan adds at most one loader call, a release of the module it loaded itself, so a module kept by an earlier scan is never released later |
| `Registration.ScanLoadAttempts` | libraries/AP_Module/AP_Module.cpp:45 | a scan attempts to load exactly once, its own path |
| `Registration.JoinPath` | libraries/AP_Module/AP_Module.cpp:90 | the path is the module directory, a `/`, then the entry name |
| `Registration.RegisterAllIsReversed` | libraries/AP_Module/AP_Module.cpp:59-61 | after libraries are registered in order, list i holds their symbols for hook i with the most recent first, in front of the old list |
| `Registration.LaterModuleFirst` | libraries/AP_Module/AP_Module.cpp:59-61 | if modules A then B both export hook i, list i starts with B's symbol, then A's |
| `Registration.InitEntries` | libraries/AP_Module/AP_Module.cpp:84-95 | the readdir loop never removes a registration nor forgets a loader call: old lists are tails, the old trace a prefix |
| `Registration.Init` | libraries/AP_Module/AP_Module.cpp:78-97 | a directory that cannot be opened leaves the registry unchanged; otherwise registration only prepends |
| `Registration.InitLoadAttempts` | libraries/AP_Module/AP_Module.cpp:84-95 | `init` attempts to load exactly the accepted entries, each under `module_path/name`, once each and in directory order; a path that cannot be built skips only its own entry |
| `Registration.InitRegisters` | libraries/AP_Module/AP_Module.cpp:84-95 | the lists after `init` are those after registering, in directory order, every accepted library that loads |
| `Registration.InitFromEmpty` | libraries/AP_Module/AP_Module.cpp:84-95 | from the empty registry, after `init` hook i's list holds the symbols of the loaded modules exporting it, the last scanned first |
| `Registration.NoModuleFilesNoHooks` | libraries/AP_Module/AP_Module.cpp:84-95 | a directory with no accepted entry leaves every list of the empty registry empty |
| `Registration.InitExample` | libraries/AP_Module/AP_Module.cpp:84-93 | a directory with `a.so`, `b.txt` and `c.SO` yields exactly one load attempt, for `mods/a.so` |
| `Snapshots.Metres` | libraries/AP_Module/AP_Module.cpp:165 | the altitude in metres times 100 is the source's centimetre value |
| `Snapshots.StatusOf` | libraries/AP_Module/AP_Module.cpp:141-147 | INITIALISING iff the source is not initialised, whatever its health; HEALTHY iff initialised and healthy; UNHEALTHY iff initialised and not healthy |
| `Snapshots.BuildAhrsState` | libraries/AP_Module/AP_Module.cpp:137-190 | the snapshot has the AHRS version and the given time, the status above, and the source's quaternion and cached eulers; origin and position are flagged iff reported, with lat/lon copied and altitude in metres, and stay zero otherwise; relative position is copied or zero; gyro is copied; all accel_ef lanes hold component 0 |
| `Snapshots.DescribesSourceUnique` | libraries/AP_Module/AP_Module.cpp:137-190 | the properties above fix the snapshot completely, given the source and the time |
| `Snapshots.BuildGyroSample` | libraries/AP_Module/AP_Module.cpp:212-219 | the gyro sample has the gyro version and the time, and copies instance, dt and the three components unchanged |
| `Snapshots.BuildAccelSample` | libraries/AP_Module/AP_Module.cpp:240-247 | the accel sample has the accel version and the time, and copies instance, dt and the three components unchanged |
| `Dispatch.CallEach` | libraries/AP_Module/AP_Module.cpp:192-195 | walking a list makes one call per entry, head to tail, each with the same argument |
| `Dispatch.EachEntryOnce` | libraries/AP_Module/AP_Module.cpp:106-109 | the entries called, in call order, are exactly the list: every registered entry is called, as often as it is registered, and nothing else is |
| `Dispatch.NoEntriesNoCalls` | libraries/AP_Module/AP_Module.cpp:118-121 | an empty list is called not at all |
| `Dispatch.LaterModuleCalledFirst` | libraries/AP_Module/AP_Module.cpp:221-224 | modules A then B both export a hook: its dispatch calls B's entry first and A's second |
| `ApModule.ModuleRegistry.constructor` | libraries/AP_Module/AP_Module.cpp:29 | the registry starts with five empty lists and an empty loader trace |
| `ApModule.ModuleRegistry.ModuleScan` | libraries/AP_Module/AP_Module.cpp:42-70 | the in-place prepend loop leaves the lists and trace as `Registration.Scan` gives them |
| `ApModule.ModuleRegistry.Init` | libraries/AP_Module/AP_Module.cpp:75-97 | the `readdir` loop leaves the lists and trace as `Registration.Init` gives them |
| `ApModule.ModuleRegistry.CallHookSetupStart` | libraries/AP_Module/AP_Module.cpp:103-110 | every setup-start entry is called once, head first, with the current time |
| `ApModule.ModuleRegistry.CallHookSetupComplete` | libraries/AP_Module/AP_Module.cpp:115-122 | every setup-complete entry is called once, head first, with the current time |
| `ApModule.ModuleRegistry.CallHookAhrsUpdate` | libraries/AP_Module/AP_Module.cpp:127-196 | with an empty list there is no snapshot and no call; otherwise the snapshot describes the source, and every entry is called once, head first, with it |
| `ApModule.ModuleRegistry.CallHookGyroSample` | libraries/AP_Module/AP_Module.cpp:202-225 | with an empty list there is no snapshot and no call; otherwise every entry is called once, head first, with the versioned sample of the inputs |
| `ApModule.ModuleRegistry.CallHookAccelSample` | libraries/AP_Module/AP_Module.cpp:230-253 | with an empty list there is no snapshot and no call; otherwise every entry is called once, head first, with the versioned sample of the inputs |

## Left out

- `dlopen`, `dlsym`, `dlclose` and `dlerror` are foreign calls. A library is a handle plus a map from exported names to symbols.
- `Registration.Library`'s `symbols` holds exactly the names `dlsym` resolves to a non-null address. A symbol that exists but resolves to null is treated as absent, as the `s != nullptr` test treats it. `dlclose` is recorded in the trace as `Unload`. Reference counting of repeated `dlopen`s of one path is not modelled.
- A build without `HAVE_LIBDL` compiles `module_scan` to an empty body. The model is of the build with it.
- `opendir`, `readdir` and `closedir` are filesystem I/O. The directory is given as an optional sequence of entries. Names are the characters of `d_name` before its terminator.
- `asprintf` is modelled as string concatenation. Whether its allocation fails is a per-entry flag. `free(path)` has no counterpart.
- `printf` diagnostics are logging and are left out. So is `AP_HAL::panic` on a failed node allocation, which aborts the process; allocation always succeeds in the model.
- The `reinterpret_cast` of symbols and the calls into module code are untyped foreign calls. Each call is recorded as the symbol and its argument. What the module does when called is not modelled.
- `Quaternion::from_rotation_matrix` is floating-point numerics. The navigation source supplies the quaternion of its body-to-NED rotation directly.
- Floating-point values are modelled as `real`s, which are only copied. `Snapshots.Metres` divides the centimetre altitude exactly, so single-precision rounding of `loc.alt*0.01f` is not modelled.
- Latitude, longitude and altitude are unbounded integers. The 32-bit width of `Location`'s fields is not modelled.
- `AP_HAL::micros64()` is a clock. The time is a parameter of each dispatcher.
- The version constants come from `AP_Module_Structures.h`, which is not part of this model. They are fixed at 1 per structure type; only that each snapshot carries its type's constant is modelled.
- That all registration finishes before any dispatch is a caller-discipline and concurrency contract. It is not code behaviour and is not modelled.
- ApModule.ModuleRegistry.CallHookAhrsUpdate: the model cannot observe reads of the navigation source. "No reads when the list is empty" is stated as "no snapshot and no call"; the source is then not used.
- ApModule.ModuleRegistry.CallHookGyroSample: likewise, skipping the clock read on an empty list is stated as "no snapshot and no call".
- ApModule.ModuleRegistry.CallHookAccelSample: likewise, skipping the clock read on an empty list is stated as "no snapshot and no call".
