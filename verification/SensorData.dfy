/**
 * The proxy object and its event handlers, with the dual-accelerometer driver plugged in
 * behind the accelerometer type. Replies and signals are ghost logs.
 */
module SensorData {
  import opened Wrappers
  import opened SensorProxy
  import Mxc = Mxc6655

  class SensorData {
    const lazy: bool
    var udev: seq<Option<string>>
    var clients: seq<map<string, nat>>
    var delayed: seq<seq<nat>>
    var eventDelayed: seq<bool>
    var quit: bool
    var accel: Mxc.DrvData?
    ghost var polling: seq<bool>
    ghost var answered: seq<Answer>
    ghost var announced: seq<DriverType>
    ghost var received: set<nat>

    ghost function Abs(): State
      reads this
    {
      State(lazy, udev, clients, delayed, eventDelayed, polling, answered, announced, received, quit)
    }

    /** The accelerometer device follows the polling the proxy asked for, and reports at once. */
    ghost predicate Composed()
      requires Sized(Abs())
      reads this, accel
    {
      accel != null ==>
        accel.Valid() && Exists(Abs(), ACCEL) && accel.wantPolling == polling[ACCEL] && Settled(Abs(), ACCEL)
    }

    /** The invariant between events. */
    ghost predicate Valid()
      reads this, accel
    {
      Sized(Abs()) && Inv(Abs()) && Composed()
    }

    /** Whether turning polling on for `t` brings in a reading before the call returns. */
    predicate ReportsAtOnce(t: DriverType, sync: bool)
      reads this
    {
      sync || (t == ACCEL && accel != null)
    }

    /** name_acquired_handler, once the devices found have been opened; `device` is the accelerometer if it is the dual one. */
    constructor (lazy: bool, found: seq<Option<string>>, device: Mxc.DrvData?, newId: nat)
      requires |found| == NUM_SENSOR_TYPES && newId > 0
      requires device != null ==> device.Valid() && !device.wantPolling && found[ACCEL].Some?
      modifies device
      ensures Valid() && Abs() == StartState(lazy, found) && accel == device
    {
      this.lazy, udev, quit, accel := lazy, found, false, device;
      clients := seq(NUM_SENSOR_TYPES, _ => map[]);
      delayed := seq(NUM_SENSOR_TYPES, _ => []);
      eventDelayed := seq(NUM_SENSOR_TYPES, _ => false);
      polling := StartState(lazy, found).polling;
      answered, announced, received := [], [], {};
      new;
      if device != null && !lazy {
        device.SetPolling(true, newId);
      }
      assert Abs() == StartState(lazy, found);
      StartOk(lazy, found);
    }

    method ReturnValue(inv: nat, ok: bool)
      requires Sized(Abs())
      modifies this`answered
      ensures Abs() == Reply(old(Abs()), inv, ok)
    {
      answered := answered + [Answer(inv, ok)];
    }

    method SendDriverChanged(t: DriverType)
      modifies this`announced
      ensures announced == old(announced) + [t]
    {
      announced := announced + [t];
    }

    /** Answer a stolen list of invocations, first to last. */
    method AnswerAll(invocations: seq<nat>, ok: bool)
      modifies this`answered
      ensures answered == old(answered) + AnswersFor(invocations, ok)
    {
      var i := 0;
      while i < |invocations|
        invariant i <= |invocations|
        invariant answered + AnswersFor(invocations[i..], ok) == old(answered) + AnswersFor(invocations, ok)
      {
        answered := answered + [Answer(invocations[i], ok)];
        assert invocations[i..][1..] == invocations[i + 1..];
        i := i + 1;
      }
    }

    method MaybeNotifySensorStartupFinished(t: DriverType)
      requires Sized(Abs())
      modifies this`answered, this`delayed, this`announced, this`eventDelayed
      ensures Abs() == Notify(old(Abs()), t)
    {
      if |delayed[t]| > 0 {
        var invocations := delayed[t];
        delayed := delayed[t := []];
        AnswerAll(invocations, true);
      }
      if eventDelayed[t] {
        SendDriverChanged(t);
        eventDelayed := eventDelayed[t := false];
      }
    }

    /** driver_set_polling, with the readings the driver hands back before it returns. */
    method DriverSetPolling(t: DriverType, on: bool, sync: bool, newId: nat)
      requires Sized(Abs()) && newId > 0 && (accel != null ==> accel.Valid())
      modifies this`polling, this`answered, this`delayed, this`announced, this`eventDelayed, accel
      ensures Abs() == SetPolling(old(Abs()), t, on, ReportsAtOnce(t, sync))
      ensures accel != null ==> accel.Valid() && accel.wantPolling == if t == ACCEL then on else old(accel.wantPolling)
    {
      polling := polling[t := on];
      if t == ACCEL && accel != null {
        ghost var before := accel.emitted;
        accel.SetPolling(on, newId);
        if on {
          assert |accel.emitted| == |before| + 1;
          MaybeNotifySensorStartupFinished(t);
        }
      } else if on && sync {
        MaybeNotifySensorStartupFinished(t);
      }
    }

    method ReleaseClient(sender: string, t: DriverType, newId: nat)
      requires Sized(Abs()) && newId > 0 && Composed()
      modifies this`clients, this`polling, this`answered, this`delayed, this`announced, this`eventDelayed, accel
      ensures Abs() == ClientRelease(old(Abs()), sender, t) && Composed()
    {
      if sender !in clients[t] { return; }
      clients := clients[t := Leave(clients[t], sender)];
      if lazy && udev[t].Some? && |clients[t]| == 0 {
        DriverSetPolling(t, false, false, newId);
      }
    }

    /** handle_generic_method_call for a claim. */
    method ClaimDevice(sender: string, inv: nat, watchId: nat, t: DriverType, sync: bool, newId: nat)
      requires Sized(Abs()) && newId > 0 && Composed() && Structure(Abs())
      modifies this`clients, this`polling, this`answered, this`delayed, this`announced, this`eventDelayed, accel
      ensures Abs() == ClaimSensor(old(Abs()), sender, inv, watchId, t, ReportsAtOnce(t, sync)) && Composed()
    {
      hide Enroll, Structure, Mxc.DrvData.Valid;
      if sender in clients[t] {
        ReturnValue(inv, true);
        return;
      }
      ghost var was := clients[t];
      clients := clients[t := Enroll(clients[t], sender, watchId)];
      if udev[t].Some? {
        if |clients[t]| == 1 {
          delayed := delayed[t := delayed[t] + [inv]];
          DriverSetPolling(t, true, sync, newId);
        } else if |delayed[t]| > 0 || eventDelayed[t] {
          delayed := delayed[t := delayed[t] + [inv]];
        } else {
          ReturnValue(inv, true);
        }
      } else {
        ReturnValue(inv, true);
      }
    }

    /** handle_method_call and handle_compass_method_call: unknown and refused calls are answered at once. */
    method HandleMethodCall(sender: string, inv: nat, request: Request, authorized: bool, watchId: nat,
        sync: bool, newId: nat)
      requires Valid() && newId > 0 && watchId > 0 && inv !in received
      modifies this, accel
      ensures Valid() && accel == old(accel)
      ensures Abs() == Step(old(Abs()), Call(sender, inv, request, authorized, watchId,
                              request.Claim? && old(ReportsAtOnce(request.t, sync))))
    {
      hide Inv, Structure, ClaimSensor, ClientRelease;
      ghost var e := Call(sender, inv, request, authorized, watchId, request.Claim? && ReportsAtOnce(request.t, sync));
      StepOk(Abs(), e);
      InvStructure(Abs(), received + {inv});
      received := received + {inv};
      if request.UnknownMethod? || !authorized {
        ReturnValue(inv, false);
      } else if request.Claim? {
        ClaimDevice(sender, inv, watchId, request.t, sync, newId);
      } else {
        ReleaseClient(sender, request.t, newId);
        ReturnValue(inv, true);
      }
    }

    /** client_vanished_cb: release whatever the client had claimed. */
    method ClientVanished(name: string, newId: nat)
      requires Valid() && newId > 0
      modifies this, accel
      ensures Valid() && accel == old(accel) && Abs() == Step(old(Abs()), Vanished(name))
    {
      hide Inv, ClientRelease, Settled;
      StepOk(Abs(), Vanished(name));
      var i := 0;
      while i < NUM_SENSOR_TYPES
        invariant i <= NUM_SENSOR_TYPES && Sized(Abs()) && accel == old(accel) && Composed()
        invariant VanishFrom(Abs(), name, i) == VanishFrom(old(Abs()), name, 0)
      {
        ReleaseAbsent(Abs(), name, i);
        if name in clients[i] {
          ReleaseClient(name, i, newId);
        }
        i := i + 1;
      }
    }

    /** A reading reaches the proxy. */
    method ReadingArrived(t: DriverType)
      requires Valid() && udev[t].Some?
      modifies this
      ensures Valid() && accel == old(accel) && Abs() == Step(old(Abs()), Reading(t))
    {
      hide Inv;
      StepOk(Abs(), Reading(t));
      MaybeNotifySensorStartupFinished(t);
    }

    /** sensor_changes for "remove": every type served by the device goes. */
    method SensorRemoved(path: string, newId: nat)
      requires Valid() && newId > 0
      modifies this, accel
      ensures Valid() && Abs() == Step(old(Abs()), Removed(path))
    {
      hide Inv, RemoveSensor, Mxc.DrvData.Valid, Settled;
      StepOk(Abs(), Removed(path));
      var i := 0;
      while i < NUM_SENSOR_TYPES
        invariant i <= NUM_SENSOR_TYPES && Sized(Abs()) && (accel == null || accel == old(accel)) && Composed()
        invariant RemoveFrom(Abs(), path, i) == RemoveFrom(old(Abs()), path, 0)
      {
        if udev[i] == Some(path) {
          CloseSensor(i, newId);
        }
        i := i + 1;
      }
      if !(udev[0].Some? || udev[1].Some? || udev[2].Some? || udev[3].Some?) {
        quit := true;
      }
    }

    method CloseSensor(t: DriverType, newId: nat)
      requires Sized(Abs()) && Composed() && newId > 0
      modifies this`udev, this`clients, this`polling, this`answered, this`delayed, this`announced, this`eventDelayed, this`accel, accel
      ensures Sized(Abs()) && (accel == null || accel == old(accel)) && Composed()
      ensures Abs() == RemoveSensor(old(Abs()), t)
    {
      hide Mxc.DrvData.Valid;
      udev := udev[t := None];
      DriverSetPolling(t, false, false, newId);
      if t == ACCEL {
        accel := null;
      }
      clients := clients[t := map[]];
      DropWaiting(t);
    }

    /** Nobody will get a first reading any more: refuse the waiting calls and announce the removal. */
    method DropWaiting(t: DriverType)
      requires Sized(Abs())
      modifies this`answered, this`delayed, this`announced, this`eventDelayed
      ensures Sized(Abs()) && Abs() == old(Abs()).(answered := old(answered) + AnswersFor(old(delayed[t]), false),
                delayed := old(delayed)[t := []], eventDelayed := old(eventDelayed)[t := false], announced := old(announced) + [t])
    {
      if eventDelayed[t] {
        eventDelayed := eventDelayed[t := false];
      }
      if |delayed[t]| > 0 {
        var invocations := delayed[t];
        delayed := delayed[t := []];
        AnswerAll(invocations, false);
      }
      SendDriverChanged(t);
    }

    /** sensor_changes for "add"; `device` is the dual-accelerometer device when that is the driver that opens. */
    method SensorAdded(path: string, candidates: seq<Candidate>, sync: bool, device: Mxc.DrvData?, newId: nat)
      requires Valid() && newId > 0
      requires device != null ==> device.Valid() && !device.wantPolling && !udev[ACCEL].Some?
      modifies this, accel, device
      ensures Valid()
      ensures Abs() == Step(old(Abs()), Added(path, candidates, sync || (device != null && accel == device)))
    {
      hide Inv, AddSensor;
      ghost var i0 := |candidates|;
      var i := 0;
      while i < |candidates|
        invariant i <= |candidates| && Valid() && Abs() == old(Abs()) && accel == old(accel)
        invariant device != null ==> device.Valid() && !device.wantPolling && !udev[ACCEL].Some?
        invariant AddFrom(Abs(), path, candidates[i..], true) == AddFrom(Abs(), path, candidates, true)
        invariant AddFrom(Abs(), path, candidates[i..], false) == AddFrom(Abs(), path, candidates, false)
      {
        var c := candidates[i];
        assert candidates[i..][1..] == candidates[i + 1..];
        if !udev[c.t].Some? && c.discovers {
          ghost var s := Abs();
          if c.opens {
            OpenSensor(c.t, path, sync, device, newId);
          }
          StepOk(s, Added(path, candidates, sync || (device != null && accel == device)));
          return;
        }
        i := i + 1;
      }
      StepOk(Abs(), Added(path, candidates, sync || (device != null && accel == device)));
    }

    method OpenSensor(t: DriverType, path: string, sync: bool, device: Mxc.DrvData?, newId: nat)
      requires Valid() && newId > 0 && !udev[t].Some?
      requires device != null ==> device.Valid() && !device.wantPolling && !udev[ACCEL].Some?
      modifies this, accel, device
      ensures Sized(Abs()) && Composed()
      ensures Abs() == AddSensor(old(Abs()), t, path, sync || (device != null && accel == device))
    {
      hide Inv, Structure, OnRecord, Enroll, Mxc.DrvData.Valid, SetPolling;
      HotplugAssertion(Abs(), t);
      udev := udev[t := Some(path)];
      if t == ACCEL {
        accel := device;
      }
      assert eventDelayed[t] == false;
      if |clients[t]| > 0 {
        eventDelayed := eventDelayed[t := true];
        FirstPolling(t, sync, newId);
      } else {
        SendDriverChanged(t);
        if !lazy {
          FirstPolling(t, sync, newId);
        }
      }
    }

    /** Start polling a sensor that has just appeared. */
    method FirstPolling(t: DriverType, sync: bool, newId: nat)
      requires Sized(Abs()) && newId > 0
      requires accel != null ==>
                 accel.Valid() && udev[ACCEL].Some? && (t == ACCEL || (accel.wantPolling == polling[ACCEL] && Settled(Abs(), ACCEL)))
      modifies this`polling, this`answered, this`delayed, this`announced, this`eventDelayed, accel
      ensures Abs() == SetPolling(old(Abs()), t, true, ReportsAtOnce(t, sync)) && Composed()
    {
      hide Mxc.DrvData.Valid, SetPolling;
      SetPollingSettles(Abs(), t, ReportsAtOnce(t, sync), ACCEL);
      DriverSetPolling(t, true, sync, newId);
    }

    /** A poll tick of the accelerometer. It reports at most twice; nothing waits, so the proxy state stays as it is. */
    method PollTick(s: Mxc.Sample)
      requires Valid() && accel != null && accel.timeoutId > 0 && Mxc.SampleOk(s)
      modifies this, accel
      ensures Valid() && accel == old(accel)
      ensures Abs() == old(Abs())
    {
      hide Inv;
      NotifySettled(Abs(), ACCEL);
      accel.PollSensors(s);
      MaybeNotifySensorStartupFinished(ACCEL);
    }

    /** The lid moves: only the timer changes. */
    method LidMoved(closed: bool, newId: nat)
      requires Valid() && accel != null && newId > 0
      modifies accel
      ensures Valid() && Abs() == old(Abs()) && accel.lidClosed == closed
    {
      accel.SetLidClosed(closed, newId);
    }

    /** After every event: nobody waits for the accelerometer, and its timer runs exactly when wanted and the lid is open. */
    lemma NothingPending()
      requires Valid() && accel != null
      ensures delayed[ACCEL] == [] && !eventDelayed[ACCEL]
      ensures accel.timeoutId > 0 <==> !accel.lidClosed && (lazy ==> clients[ACCEL] != map[])
    {
    }
  }

  lemma InvStructure(s: State, more: set<nat>)
    requires Inv(s)
    ensures Structure(s) && Structure(s.(received := more))
  {
  }

  /** Turning polling on settles a type that reports at once and leaves a settled one settled. */
  lemma SetPollingSettles(s: State, t: DriverType, sync: bool, u: DriverType)
    requires Sized(s)
    ensures var r := SetPolling(s, t, true, sync);
            r.udev == s.udev && r.polling == s.polling[t := true]
            && ((sync && u == t) || (u != t && Settled(s, u)) ==> Settled(r, u))
  {
  }

  lemma NotifySettled(s: State, t: DriverType)
    requires Sized(s) && Settled(s, t)
    ensures Notify(s, t) == s
  {
    assert AnswersFor([], true) == [];
  }

  lemma ReleaseAbsent(s: State, name: string, t: DriverType)
    requires Sized(s)
    ensures name !in s.clients[t] ==> ClientRelease(s, name, t) == s
  {
  }
}
