/** AP_Module: the process-wide hook registry, the module scan that fills it,
    and the five dispatchers that call what it holds. */
module ApModule {
  import opened Hooks
  import opened ModuleFiles
  import opened Registration
  import opened Snapshots
  import opened Dispatch

  class ModuleRegistry {
    /** hooks[i] is the list for hook type HookOf(i), head first; a
        registration is prepended and never removed. */
    var hooks: array<seq<Symbol>>
    /** The loader calls made so far. */
    var log: seq<LoaderEvent>

    ghost predicate Valid()
      reads this
    {
      hooks.Length == NUM_HOOKS
    }

    /** The registry as a value. */
    ghost function State(): (st: RegState)
      reads this, hooks
      requires Valid()
      ensures st.Valid()
    {
      RegState(hooks[..], log)
    }

    /** Five empty lists, before any scanning. */
    constructor ()
      ensures Valid() && fresh(hooks)
      ensures State() == EmptyRegistry()
    {
      hooks := new seq<Symbol>[NUM_HOOKS](_ => []);
      log := [];
      new;
      assert hooks[..] == [[], [], [], [], []];
    }

    /** module_scan(path): load the module, prepend one registration per hook
        name it exports, and release it when it exports none. */
    method ModuleScan(loader: Loader, path: string)
      requires Valid()
      modifies this, hooks
      ensures Valid() && hooks == old(hooks)
      ensures State() == Scan(old(State()), loader, path)
    {
      var m := loader.Open(path);
      log := log + [LoadAttempt(path)];
      if m.None? {
        return;
      }
      var lib := m.value;
      var found := false;
      for i := 0 to NUM_HOOKS
        invariant hooks == old(hooks) && log == old(log) + [LoadAttempt(path)]
        invariant forall j :: 0 <= j < i ==> hooks[j] == Prepended(old(hooks[j]), lib, j)
        invariant forall j :: i <= j < NUM_HOOKS ==> hooks[j] == old(hooks[j])
        invariant found <==> exists j :: 0 <= j < i && HookNames[j] in lib.symbols
      {
        var s := Lookup(lib, i);
        if s.Some? {
          hooks[i] := [s.value] + hooks[i];
          found := true;
        }
      }
      if !found {
        log := log + [Unload(lib.handle)];
      }
      assert hooks[..] == Registered(old(hooks[..]), lib);
    }

    /** init(module_path): scan every directory entry whose name passes the
        filter and whose full path can be built, in directory order. */
    method Init(loader: Loader, dir: Option<seq<DirEntry>>, modulePath: string)
      requires Valid()
      modifies this, hooks
      ensures Valid() && hooks == old(hooks)
      ensures State() == Registration.Init(old(State()), loader, dir, modulePath)
    {
      if dir.None? {
        return;
      }
      var entries := dir.value;
      var k := 0;
      while k < |entries|
        invariant 0 <= k <= |entries|
        invariant Valid() && hooks == old(hooks)
        invariant State() == InitEntries(old(State()), loader, modulePath, entries[..k])
      {
        var e := entries[k];
        k := k + 1;
        assert entries[..k][..k - 1] == entries[..k - 1];
        if !IsModuleFile(e.name) {
          continue;
        }
        if !e.pathBuilt {
          continue;
        }
        ModuleScan(loader, JoinPath(modulePath, e.name));
      }
      assert entries[..k] == entries;
    }

    /** call_hook_setup_start. */
    method CallHookSetupStart(now: uint64) returns (calls: seq<Call>)
      requires Valid()
      ensures CallsEachInOrder(calls, hooks[Index(SetupStart)], Time(now))
    {
      calls := CallEach(hooks[Index(SetupStart)], Time(now));
    }

    /** call_hook_setup_complete. */
    method CallHookSetupComplete(now: uint64) returns (calls: seq<Call>)
      requires Valid()
      ensures CallsEachInOrder(calls, hooks[Index(SetupComplete)], Time(now))
    {
      calls := CallEach(hooks[Index(SetupComplete)], Time(now));
    }

    /** call_hook_AHRS_update: with no registration, no snapshot is built
        and nothing is called. */
    method CallHookAhrsUpdate(src: NavSource, now: uint64) returns (snapshot: Option<AhrsState>, calls: seq<Call>)
      requires Valid()
      ensures snapshot.None? <==> hooks[Index(AhrsUpdate)] == []
      ensures snapshot.None? ==> calls == []
      ensures snapshot.Some? ==> DescribesSource(snapshot.value, src, now)
      ensures snapshot.Some? ==> CallsEachInOrder(calls, hooks[Index(AhrsUpdate)], Ahrs(snapshot.value))
    {
      var list := hooks[Index(AhrsUpdate)];
      if list == [] {
        return None, [];
      }
      var st := BuildAhrsState(src, now);
      snapshot := Some(st);
      calls := CallEach(list, Ahrs(st));
    }

    /** call_hook_gyro_sample. */
    method CallHookGyroSample(now: uint64, instance: uint8, dt: Float, gyro: Vec3)
      returns (snapshot: Option<GyroSampleState>, calls: seq<Call>)
      requires Valid()
      ensures snapshot.None? <==> hooks[Index(GyroSample)] == []
      ensures snapshot.None? ==> calls == []
      ensures snapshot.Some? ==>
                snapshot.value == GyroSampleState(GYRO_SAMPLE_VERSION, now, instance, dt, gyro) &&
                CallsEachInOrder(calls, hooks[Index(GyroSample)], Gyro(snapshot.value))
    {
      var list := hooks[Index(GyroSample)];
      if list == [] {
        return None, [];
      }
      var st := BuildGyroSample(now, instance, dt, gyro);
      snapshot := Some(st);
      calls := CallEach(list, Gyro(st));
    }

    /** call_hook_accel_sample. */
    method CallHookAccelSample(now: uint64, instance: uint8, dt: Float, accel: Vec3)
      returns (snapshot: Option<AccelSampleState>, calls: seq<Call>)
      requires Valid()
      ensures snapshot.None? <==> hooks[Index(AccelSample)] == []
      ensures snapshot.None? ==> calls == []
      ensures snapshot.Some? ==>
                snapshot.value == AccelSampleState(ACCEL_SAMPLE_VERSION, now, instance, dt, accel) &&
                CallsEachInOrder(calls, hooks[Index(AccelSample)], Accel(snapshot.value))
    {
      var list := hooks[Index(AccelSample)];
      if list == [] {
        return None, [];
      }
      var st := BuildAccelSample(now, instance, dt, accel);
      snapshot := Some(st);
      calls := CallEach(list, Accel(st));
    }
  }
}
