/** The five fixed extension points of the external-module loader and the
    exported-symbol name each one is looked up by. */
module Hooks {

  datatype Option<+T> = None | Some(value: T)

  /** An opaque address returned by the dynamic loader's symbol lookup. The
      model never calls through it; a dispatch only records it. */
  type Symbol = nat

  /** The number of hook types, the length of the registry array. */
  const NUM_HOOKS: nat := 5

  datatype HookType = SetupStart | SetupComplete | AhrsUpdate | GyroSample | AccelSample

  /** The literal exported-symbol names, indexed as the registry array is. */
  const HookNames: seq<string> := [
    "hook_setup_start",
    "hook_setup_complete",
    "hook_AHRS_update",
    "hook_gyro_sample",
    "hook_accel_sample"
  ]

  /** The slot of a hook type in the registry array and in HookNames. */
  function Index(h: HookType): (i: nat)
    ensures i < NUM_HOOKS && i < |HookNames|
    ensures HookOf(i) == h
  {
    match h
    case SetupStart => 0
    case SetupComplete => 1
    case AhrsUpdate => 2
    case GyroSample => 3
    case AccelSample => 4
  }

  /** The hook type held in registry slot i. */
  function HookOf(i: nat): (h: HookType)
    requires i < NUM_HOOKS
  {
    if i == 0 then SetupStart
    else if i == 1 then SetupComplete
    else if i == 2 then AhrsUpdate
    else if i == 3 then GyroSample
    else AccelSample
  }

  /** The exported-symbol name of a hook type. */
  function Name(h: HookType): (r: string)
    ensures h == SetupStart ==> r == "hook_setup_start"
    ensures h == SetupComplete ==> r == "hook_setup_complete"
    ensures h == AhrsUpdate ==> r == "hook_AHRS_update"
    ensures h == GyroSample ==> r == "hook_gyro_sample"
    ensures h == AccelSample ==> r == "hook_accel_sample"
  {
    HookNames[Index(h)]
  }

  /** Different hook types are probed under different names. */
  lemma NamesDistinct(h1: HookType, h2: HookType)
    ensures Name(h1) == Name(h2) <==> h1 == h2
  {
  }
}
