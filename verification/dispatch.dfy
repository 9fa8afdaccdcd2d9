/** Dispatch as a trace: a call into a module's entry point is recorded as the
    registered symbol and the argument it was handed. */
module Dispatch {
  import opened Hooks
  import opened Snapshots
  import opened Registration

  /** What an entry point is called with: the timestamp for the two setup
      hooks, a snapshot for the other three. */
  datatype Arg =
    | Time(us: uint64)
    | Ahrs(state: AhrsState)
    | Gyro(gyro: GyroSampleState)
    | Accel(accel: AccelSampleState)

  datatype Call = Call(entry: Symbol, arg: Arg)

  /** calls is one call per entry of list, in list order (head first), each
      with the same argument. */
  predicate CallsEachInOrder(calls: seq<Call>, list: seq<Symbol>, arg: Arg)
  {
    |calls| == |list| && forall k :: 0 <= k < |list| ==> calls[k] == Call(list[k], arg)
  }

  /** The entry points called, in call order. */
  function Entries(calls: seq<Call>): (r: seq<Symbol>)
    ensures |r| == |calls| && forall k :: 0 <= k < |calls| ==> r[k] == calls[k].entry
  {
    if calls == [] then [] else [calls[0].entry] + Entries(calls[1..])
  }

  /** Walks one hook list from head to tail and calls every entry once. */
  method CallEach(list: seq<Symbol>, arg: Arg) returns (calls: seq<Call>)
    ensures CallsEachInOrder(calls, list, arg)
  {
    calls := [];
    var k := 0;
    while k < |list|
      invariant 0 <= k <= |list|
      invariant CallsEachInOrder(calls, list[..k], arg)
    {
      calls := calls + [Call(list[k], arg)];
      k := k + 1;
    }
    assert list[..k] == list;
  }

  /** Every registered entry is called exactly once, and nothing else is:
      the called entries are the list itself, so each symbol is called as
      many times as it is registered. */
  lemma EachEntryOnce(calls: seq<Call>, list: seq<Symbol>, arg: Arg)
    requires CallsEachInOrder(calls, list, arg)
    ensures Entries(calls) == list
  {
  }

  /** An empty list is called not at all. */
  lemma NoEntriesNoCalls(calls: seq<Call>, arg: Arg)
    requires CallsEachInOrder(calls, [], arg)
    ensures calls == []
  {
  }

  /** Modules A then B both export hook i: a dispatch of hook i calls B's
      entry point first and A's second. */
  lemma LaterModuleCalledFirst(calls: seq<Call>, lists: seq<seq<Symbol>>, libs: seq<Library>, i: nat, arg: Arg)
    requires |lists| == NUM_HOOKS && i < NUM_HOOKS && |libs| == 2
    requires HookNames[i] in libs[0].symbols && HookNames[i] in libs[1].symbols
    requires CallsEachInOrder(calls, RegisterAll(lists, libs)[i], arg)
    ensures |calls| >= 2
    ensures calls[0].entry == libs[1].symbols[HookNames[i]] && calls[1].entry == libs[0].symbols[HookNames[i]]
  {
    LaterModuleFirst(lists, libs, i);
    FirstTwoCalls(calls, RegisterAll(lists, libs)[i], arg);
  }

  lemma FirstTwoCalls(calls: seq<Call>, list: seq<Symbol>, arg: Arg)
    requires CallsEachInOrder(calls, list, arg) && |list| >= 2
    ensures |calls| >= 2 && calls[0].entry == list[0] && calls[1].entry == list[1]
  {
  }
}
