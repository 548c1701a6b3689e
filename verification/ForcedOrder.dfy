/** When the forced pass splits its power into grid and battery in the same way, whatever the order of the devices. The
    pass of src/energy/AlgoForced.cpp takes the devices in the order of their addresses. */
module ForcedOrders {
  import opened Devices
  import opened Algos

  /** What a forced pass is about, but for the order. */
  datatype Pass = Pass(devices: seq<Device>, wanted: seq<bool>, unreachable: set<int>, at: Moment)
  {
    ghost predicate Valid()
    {
      Inventory(devices) && |wanted| == |devices|
    }

    function After(i: nat): Device
      requires i < |devices| == |wanted|
    {
      Obey(devices[i], wanted[i], unreachable, at)
    }

    ghost function Run(order: seq<nat>): Forced
      requires Valid() && Picks(order, |devices|)
    {
      ForcedPass(devices, order, wanted, unreachable, at)
    }

    /** Device i before or after its turn. */
    function Moved(i: nat, moved: bool): Device
      requires i < |devices| == |wanted|
    {
      if moved then After(i) else devices[i]
    }

    ghost function BatteryIndex(): (b: nat)
      requires Valid()
      ensures b < |devices| && devices[b].kind == BatteryDevice
    {
      Find(devices, BATTERY_ID)
    }

    /** The controller of device i, if any. */
    ghost function ControllerIndex(i: nat): (c: nat)
      requires Valid() && i < |devices|
      ensures c < |devices|
      ensures devices[i].config.batteryEnabled && devices[i].config.controllerId != 0 ==>
        devices[c].kind == ControllerDevice
    {
      if devices[i].config.batteryEnabled && devices[i].config.controllerId != 0 then
        Find(devices, devices[i].config.controllerId)
      else BatteryIndex()
    }

    /** What device i adds to the grid power when its turn comes, depending on whether the battery and its controller
        had theirs. */
    ghost function GridShare(i: nat, batteryMoved: bool, controllerMoved: bool): real
      requires Valid() && i < |devices|
    {
      var d := After(i);
      var b, c := Moved(BatteryIndex(), batteryMoved), Moved(ControllerIndex(i), controllerMoved);
      if !d.state || (d.kind != BatteryDevice && OnBatteryWith(d, b, c)) then 0.0 else Consumption(d)
    }

    /** The share of device i is the same for every subset of the moves of the battery and of its controller, as far
        as these are among the picks. */
    ghost predicate Settled(picks: seq<nat>, i: nat)
      requires Valid() && i < |devices|
    {
      forall x: bool, y: bool ::
        (x ==> BatteryIndex() in picks) && (y ==> ControllerIndex(i) in picks) ==>
          GridShare(i, x, y) == GridShare(i, false, false)
    }
  }

  function OnBatteryWith(d: Device, battery: Device, controller: Device): bool
  {
    if d.kind == ControllerDevice then !d.state
    else if !d.config.batteryEnabled || !BatteryIsOn(battery) then false
    else d.config.controllerId == 0 || !controller.state
  }

  ghost predicate Reorders(order: seq<nat>, picks: seq<nat>, n: nat)
  {
    Picks(order, n) && forall i: nat :: i in order <==> i in picks
  }

  // ---------------------------------------------------------------- one turn

  lemma TurnAddsShare(p: Pass, order: seq<nat>, i: nat)
    requires p.Valid() && Picks(order, |p.devices|) && i < |p.devices| && i !in order
    ensures Picks(order + [i], |p.devices|)
    ensures p.Run(order + [i]).grid ==
            p.Run(order).grid + p.GridShare(i, p.BatteryIndex() in order, p.ControllerIndex(i) in order)
  {
    hide Inventory, Consumption, Obey, CountsAsChange, IsOnBattery;
    assert (order + [i])[..|order|] == order;
    var before, d := p.Run(order).devices, p.After(i);
    ForcedDevices(p.devices, order, p.wanted, p.unreachable, p.at, i);
    ForcedDevices(p.devices, order, p.wanted, p.unreachable, p.at, p.BatteryIndex());
    ForcedDevices(p.devices, order, p.wanted, p.unreachable, p.at, p.ControllerIndex(i));
    ReplaceSame(before, i, p.wanted[i], p.unreachable, p.at);
    InventorySame(before, before[i := d]);
    assert before[i := d][i] == d;
    SeesBattery(p, before, i);
  }

  /** On whose power a device counts, in terms of the battery and its controller as they are at its turn. */
  lemma SeesBattery(p: Pass, before: seq<Device>, i: nat)
    requires p.Valid() && i < |p.devices| && SameDevices(p.devices, before) && before[i] == p.devices[i]
    requires Inventory(before[i := p.After(i)])
    ensures var d, b, c := p.After(i), before[p.BatteryIndex()], before[p.ControllerIndex(i)];
            && before[i := d][i] == d
            && (d.kind != BatteryDevice ==> (IsOnBattery(before[i := d], d) <==> OnBatteryWith(d, b, c)))
            && (d.kind == BatteryDevice && d.state ==> !IsOnBattery(before[i := d], d))
  {
    hide Consumption;
    var d := p.After(i);
    var now := before[i := d];
    ObeyKeepsIdentity(p.devices[i], p.wanted[i], p.unreachable, p.at);
    FindSame(p.devices, now, BATTERY_ID);
    FindSame(p.devices, now, d.config.controllerId);
    assert now[i] == d;
    if d.kind == BatteryDevice {
      assert Find(now, BATTERY_ID) == i;
    }
  }

  // ---------------------------------------------------------------- settled devices: no order matters

  ghost function Shares(p: Pass): (w: seq<real>)
    requires p.Valid()
    ensures |w| == |p.devices| && forall i :: 0 <= i < |w| ==> w[i] == p.GridShare(i, false, false)
  {
    seq(|p.devices|, i requires 0 <= i < |p.devices| => p.GridShare(i, false, false))
  }

  lemma {:induction false} SettledSum(p: Pass, picks: seq<nat>, order: seq<nat>)
    requires p.Valid() && Picks(order, |p.devices|) && forall i :: i in order ==> i in picks
    requires forall i: nat :: i < |p.devices| && i in picks ==> p.Settled(picks, i)
    ensures p.Run(order).grid == PickSum(Shares(p), order)
  {
    hide Pass.GridShare, ForcedStep, Inventory;
    if order != [] {
      var n := |order| - 1;
      SettledSum(p, picks, order[..n]);
      LastIsNew(order, |p.devices|);
      assert order == order[..n] + [order[n]];
      TurnAddsShare(p, order[..n], order[n]);
      assert order[n] in order;
      var x, y := p.BatteryIndex() in order[..n], p.ControllerIndex(order[n]) in order[..n];
      assert p.Settled(picks, order[n]) && p.GridShare(order[n], x, y) == p.GridShare(order[n], false, false);
    }
  }

  lemma {:induction false} SameIndexSum(weights: seq<real>, a: seq<nat>, b: seq<nat>, n: nat)
    requires n <= |weights| && forall i: nat :: i in a <==> i in b
    ensures IndexSum(weights, a, n) == IndexSum(weights, b, n)
  {
    if n > 0 {
      SameIndexSum(weights, a, b, n - 1);
    }
  }

  lemma SettledIsOrderFree(p: Pass, picks: seq<nat>, order: seq<nat>)
    requires p.Valid() && Picks(picks, |p.devices|) && Reorders(order, picks, |p.devices|)
    requires forall i: nat :: i < |p.devices| && i in picks ==> p.Settled(picks, i)
    ensures p.Run(order).grid == p.Run(picks).grid
  {
    hide Pass.Settled, Pass.Run, Shares, PickSum, IndexSum;
    SettledSum(p, picks, order);
    SettledSum(p, picks, picks);
    PickSumByIndex(Shares(p), order);
    PickSumByIndex(Shares(p), picks);
    SameIndexSum(Shares(p), order, picks, |p.devices|);
  }

  /** A device is settled, for one, when the pass switches neither the battery nor the device's controller. */
  lemma SettledWhenSourcesStay(p: Pass, picks: seq<nat>, i: nat)
    requires p.Valid() && i < |p.devices|
    requires p.BatteryIndex() in picks ==> p.After(p.BatteryIndex()).state == p.devices[p.BatteryIndex()].state
    requires p.ControllerIndex(i) in picks ==>
      p.After(p.ControllerIndex(i)).state == p.devices[p.ControllerIndex(i)].state
    ensures p.Settled(picks, i)
  {
    hide Inventory, Consumption;
    ObeyKeepsIdentity(p.devices[i], p.wanted[i], p.unreachable, p.at);
    ObeyKeepsIdentity(p.devices[p.BatteryIndex()], p.wanted[p.BatteryIndex()], p.unreachable, p.at);
  }

  // ---------------------------------------------------------------- an unsettled device: two orders differ

  /** The picks that are not in done. */
  function Rest(picks: seq<nat>, done: seq<nat>): seq<nat>
  {
    if picks == [] then []
    else
      var n := |picks| - 1;
      Rest(picks[..n], done) + if picks[n] in done then [] else [picks[n]]
  }

  lemma {:induction false} RestPicks(picks: seq<nat>, done: seq<nat>, n: nat)
    requires Picks(picks, n) && Picks(done, n)
    ensures Picks(Rest(picks, done), n)
    ensures forall i: nat :: i in Rest(picks, done) <==> i in picks && i !in done
  {
    if picks != [] {
      var k := |picks| - 1;
      RestPicks(picks[..k], done, n);
      LastIsNew(picks, n);
      forall i: nat
        ensures i in picks <==> i in picks[..k] || i == picks[k]
      {
        InSnoc(picks, i);
      }
    }
  }

  lemma ConcatPicks(a: seq<nat>, b: seq<nat>, n: nat)
    requires Picks(a, n) && Picks(b, n) && forall i: nat :: i in b ==> i !in a
    ensures Picks(a + b, n)
  {
    var all := a + b;
    forall k, l | 0 <= k < l < |all|
      ensures all[k] != all[l]
    {
      if k < |a| <= l {
        assert all[l] in b && all[k] in a;
      }
    }
  }

  lemma SameStep(f: Forced, g: Forced, i: nat, wanted: bool, unreachable: set<int>, at: Moment)
    requires Inventory(f.devices) && i < |f.devices| && f.devices == g.devices
    ensures var f', g' := ForcedStep(f, i, wanted, unreachable, at), ForcedStep(g, i, wanted, unreachable, at);
            f'.devices == g'.devices && f'.grid - f.grid == g'.grid - g.grid
  {
    hide Inventory, Consumption, Obey, IsOnBattery, CountsAsChange;
  }

  lemma LastTurn(p: Pass, order: seq<nat>, i: nat)
    requires p.Valid() && Picks(order + [i], |p.devices|) && Picks(order, |p.devices|)
    ensures Inventory(p.Run(order).devices) && i < |p.Run(order).devices| == |p.wanted|
    ensures p.Run(order + [i]) == ForcedStep(p.Run(order), i, p.wanted[i], p.unreachable, p.at)
  {
    hide ForcedStep, Inventory;
    assert (order + [i])[..|order|] == order && (order + [i])[|order|] == i;
  }

  /** Passes that have come to the same devices go on in the same way. */
  lemma {:induction false} SameTail(p: Pass, a: seq<nat>, b: seq<nat>, rest: seq<nat>)
    requires p.Valid() && Picks(a + rest, |p.devices|) && Picks(b + rest, |p.devices|)
    requires Picks(a, |p.devices|) && Picks(b, |p.devices|) && p.Run(a).devices == p.Run(b).devices
    ensures p.Run(a + rest).devices == p.Run(b + rest).devices
    ensures p.Run(a + rest).grid - p.Run(a).grid == p.Run(b + rest).grid - p.Run(b).grid
  {
    hide Inventory, Pass.Run, ForcedStep;
    if rest == [] {
      assert a + rest == a && b + rest == b;
    } else {
      var n := |rest| - 1;
      assert (a + rest)[..|a| + n] == a + rest[..n] && (b + rest)[..|b| + n] == b + rest[..n];
      PrefixPicks(a + rest, |a| + n, |p.devices|);
      PrefixPicks(b + rest, |b| + n, |p.devices|);
      SameTail(p, a, b, rest[..n]);
      assert a + rest == (a + rest[..n]) + [rest[n]] && b + rest == (b + rest[..n]) + [rest[n]];
      LastTurn(p, a + rest[..n], rest[n]);
      LastTurn(p, b + rest[..n], rest[n]);
      SameStep(p.Run(a + rest[..n]), p.Run(b + rest[..n]), rest[n], p.wanted[rest[n]], p.unreachable, p.at);
    }
  }

  /** Device i and mover, either way around after a common start, add up to different grid powers. */
  lemma SwapDiffers(p: Pass, start: seq<nat>, i: nat, mover: nat)
    requires p.Valid() && Picks(start + [i, mover], |p.devices|) && i < |p.devices| && mover < |p.devices|
    requires p.devices[mover].kind != TimeRangeDevice
    requires p.GridShare(i, p.BatteryIndex() in start, p.ControllerIndex(i) in start)
          != p.GridShare(i, p.BatteryIndex() in start + [mover], p.ControllerIndex(i) in start + [mover])
    ensures Picks(start + [mover, i], |p.devices|)
    ensures p.Run(start + [i, mover]).grid != p.Run(start + [mover, i]).grid
  {
    hide Inventory, Pass.GridShare, Pass.Run;
    SwapPicks(start, i, mover, |p.devices|);
    assert start + [i, mover] == start + [i] + [mover] && start + [mover, i] == start + [mover] + [i];
    TurnAddsShare(p, start, i);
    TurnAddsShare(p, start + [i], mover);
    TurnAddsShare(p, start, mover);
    TurnAddsShare(p, start + [mover], i);
    MoverIsSettled(p, mover, p.BatteryIndex() in start, p.ControllerIndex(mover) in start);
    MoverIsSettled(p, mover, p.BatteryIndex() in start + [i], p.ControllerIndex(mover) in start + [i]);
  }

  /** And so do the orders that go on with the rest of the picks. */
  lemma SwapShows(p: Pass, picks: seq<nat>, start: seq<nat>, i: nat, mover: nat)
    requires p.Valid() && Picks(picks, |p.devices|) && i < |p.devices| && mover < |p.devices|
    requires Picks(start + [i, mover], |p.devices|) && forall j: nat :: j in start + [i, mover] ==> j in picks
    requires p.devices[mover].kind != TimeRangeDevice
    requires p.GridShare(i, p.BatteryIndex() in start, p.ControllerIndex(i) in start)
          != p.GridShare(i, p.BatteryIndex() in start + [mover], p.ControllerIndex(i) in start + [mover])
    ensures !forall order: seq<nat> :: Reorders(order, picks, |p.devices|) ==> p.Run(order).grid == p.Run(picks).grid
  {
    hide Inventory, Pass.GridShare, Pass.Run, Rest, Picks;
    var a, b := start + [i, mover], start + [mover, i];
    SwapDiffers(p, start, i, mover);
    SwapPicks(start, i, mover, |p.devices|);
    SwappedDevices(p, a, b);
    var rest := Rest(picks, a);
    RestPicks(picks, a, |p.devices|);
    ConcatPicks(a, rest, |p.devices|);
    ConcatPicks(b, rest, |p.devices|);
    SameTail(p, a, b, rest);
    RestReorders(picks, a, a, |p.devices|);
    RestReorders(picks, a, b, |p.devices|);
    assert Reorders(a + rest, picks, |p.devices|) && Reorders(b + rest, picks, |p.devices|);
  }

  lemma RestReorders(picks: seq<nat>, a: seq<nat>, b: seq<nat>, n: nat)
    requires Picks(picks, n) && Picks(a, n)
    requires (forall k: nat :: k in a <==> k in b) && forall j: nat :: j in a ==> j in picks
    requires Picks(b + Rest(picks, a), n)
    ensures Reorders(b + Rest(picks, a), picks, n)
  {
    RestPicks(picks, a, n);
  }

  lemma PrefixPicks(a: seq<nat>, k: nat, n: nat)
    requires Picks(a, n) && k <= |a|
    ensures Picks(a[..k], n)
  {
  }

  lemma SwapPicks(start: seq<nat>, i: nat, j: nat, n: nat)
    requires Picks(start + [i, j], n)
    ensures i != j && i !in start && j !in start
    ensures Picks(start + [j, i], n) && Picks(start + [i], n) && Picks(start + [j], n) && Picks(start, n)
    ensures forall k: nat :: k in start + [i, j] <==> k in start + [j, i]
  {
    var a := start + [i, j];
    assert a[|start|] == i && a[|start| + 1] == j;
    assert forall k :: 0 <= k < |start| ==> a[k] == start[k];
  }

  lemma SwappedDevices(p: Pass, a: seq<nat>, b: seq<nat>)
    requires p.Valid() && Picks(a, |p.devices|) && Picks(b, |p.devices|) && forall k: nat :: k in a <==> k in b
    ensures p.Run(a).devices == p.Run(b).devices
  {
    hide Inventory, Obey, ForcedPass;
    forall i | 0 <= i < |p.devices|
      ensures p.Run(a).devices[i] == p.Run(b).devices[i]
    {
      ForcedDevices(p.devices, a, p.wanted, p.unreachable, p.at, i);
      ForcedDevices(p.devices, b, p.wanted, p.unreachable, p.at, i);
    }
  }

  /** The battery and the controllers count the same at any turn. */
  lemma MoverIsSettled(p: Pass, i: nat, x: bool, y: bool)
    requires p.Valid() && i < |p.devices| && p.devices[i].kind != TimeRangeDevice
    ensures p.GridShare(i, x, y) == p.GridShare(i, false, false)
  {
    hide Inventory, Consumption;
  }

  /** Only a device that may be on the battery through a controller looks at a controller. */
  lemma NoController(p: Pass, i: nat, x: bool, y: bool)
    requires p.Valid() && i < |p.devices|
    requires !p.devices[i].config.batteryEnabled || p.devices[i].config.controllerId == 0
    ensures p.GridShare(i, x, y) == p.GridShare(i, x, false)
  {
    hide Inventory, Consumption;
    ObeyKeepsIdentity(p.devices[i], p.wanted[i], p.unreachable, p.at);
  }

  lemma UnsettledShows(p: Pass, picks: seq<nat>, i: nat)
    requires p.Valid() && Picks(picks, |p.devices|) && i < |p.devices| && i in picks && !p.Settled(picks, i)
    ensures !forall order: seq<nat> :: Reorders(order, picks, |p.devices|) ==> p.Run(order).grid == p.Run(picks).grid
  {
    hide Inventory, Pass.GridShare, Pass.Run;
    var b, c := p.BatteryIndex(), p.ControllerIndex(i);
    var x: bool, y: bool :|
      (x ==> b in picks) && (y ==> c in picks) && p.GridShare(i, x, y) != p.GridShare(i, false, false);
    if p.devices[i].kind != TimeRangeDevice {
      MoverIsSettled(p, i, x, y);
    } else if p.GridShare(i, false, y) != p.GridShare(i, false, false) {
      if !p.devices[i].config.batteryEnabled || p.devices[i].config.controllerId == 0 {
        NoController(p, i, false, y);
      } else {
        assert [] + [i, c] == [i, c] && [] + [c] == [c];
        SwapShows(p, picks, [], i, c);
      }
    } else if !p.devices[i].config.batteryEnabled || p.devices[i].config.controllerId == 0 || !y {
      if y {
        NoController(p, i, x, y);
      }
      assert c == b || p.devices[c].kind == ControllerDevice;
      BatteryShows(p, picks, i);
    } else {
      assert [c] + [i, b] == [c, i, b] && [c] + [b] == [c, b];
      SwapShows(p, picks, [c], i, b);
    }
  }

  lemma BatteryShows(p: Pass, picks: seq<nat>, i: nat)
    requires p.Valid() && Picks(picks, |p.devices|) && i < |p.devices| && i in picks && p.BatteryIndex() in picks
    requires p.devices[i].kind == TimeRangeDevice && p.GridShare(i, true, false) != p.GridShare(i, false, false)
    ensures !forall order: seq<nat> :: Reorders(order, picks, |p.devices|) ==> p.Run(order).grid == p.Run(picks).grid
  {
    hide Inventory, Pass.GridShare, Pass.Run;
    var b, c := p.BatteryIndex(), p.ControllerIndex(i);
    assert [] + [i, b] == [i, b] && [] + [b] == [b];
    if c == b {
      NoController(p, i, true, true);
    }
    SwapShows(p, picks, [], i, b);
  }

  /** The forced split does not depend on the order of the devices if and only if every picked device adds the same to
      the grid power whatever of the battery and of its controller had its turn before. */
  lemma SplitOrderFreeIff(p: Pass, picks: seq<nat>)
    requires p.Valid() && Picks(picks, |p.devices|)
    ensures (forall order: seq<nat> :: Reorders(order, picks, |p.devices|) ==> p.Run(order).grid == p.Run(picks).grid)
       <==> (forall i: nat :: i < |p.devices| && i in picks ==> p.Settled(picks, i))
  {
    hide Pass.Settled, Pass.Run, Inventory;
    if forall i: nat :: i < |p.devices| && i in picks ==> p.Settled(picks, i) {
      forall order: seq<nat> | Reorders(order, picks, |p.devices|)
        ensures p.Run(order).grid == p.Run(picks).grid
      {
        SettledIsOrderFree(p, picks, order);
      }
    } else {
      var i: nat :| i < |p.devices| && i in picks && !p.Settled(picks, i);
      UnsettledShows(p, picks, i);
    }
  }
}
