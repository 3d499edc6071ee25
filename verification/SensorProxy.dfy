/**
 * The claim protocol of iio-sensor-proxy as a transition system: claims, releases, vanishing
 * clients, sensors coming and going, readings. Method calls are numbered; `answered` logs the
 * replies, `announced` the appearance signals.
 */
module SensorProxy {
  import opened Wrappers

  const NUM_SENSOR_TYPES := 4

  type DriverType = t: nat | t < NUM_SENSOR_TYPES

  const ACCEL: DriverType := 0

  datatype Answer = Answer(inv: nat, ok: bool)

  /** Per sensor type: the device path when a driver is open, the claiming clients with their watch
      numbers, the calls and the appearance signal that wait for a first reading, and whether the device is polled. */
  datatype State = State(
    lazy: bool,
    udev: seq<Option<string>>,
    clients: seq<map<string, nat>>,
    delayed: seq<seq<nat>>,
    eventDelayed: seq<bool>,
    polling: seq<bool>,
    answered: seq<Answer>,
    announced: seq<DriverType>,
    received: set<nat>,
    quit: bool)

  predicate Sized(s: State) {
    |s.udev| == |s.clients| == |s.delayed| == |s.eventDelayed| == |s.polling| == NUM_SENSOR_TYPES
  }

  predicate Exists(s: State, t: DriverType)
    requires Sized(s)
  {
    s.udev[t].Some?
  }

  predicate AnyLeft(s: State)
    requires Sized(s)
  {
    Exists(s, 0) || Exists(s, 1) || Exists(s, 2) || Exists(s, 3)
  }

  datatype Request = UnknownMethod | Claim(t: DriverType) | Release(t: DriverType)

  /** A driver of the built-in list offered a hot-plugged device: does it want it, and does opening work. */
  datatype Candidate = Candidate(t: DriverType, discovers: bool, opens: bool)

  /** `sync` says whether the driver hands in a reading from within `set_polling`. */
  datatype Event =
    | Call(sender: string, inv: nat, request: Request, authorized: bool, watchId: nat, sync: bool)
    | Vanished(name: string)
    | Removed(path: string)
    | Added(newPath: string, candidates: seq<Candidate>, sync: bool)
    | Reading(t: DriverType)

  predicate Possible(s: State, e: Event) {
    match e
    case Call(_, inv, _, _, watchId, _) => inv !in s.received && watchId > 0
    case Reading(t) => Sized(s) && Exists(s, t)
    case _ => true
  }

  // ---- The handlers as functions

  function Enroll(m: map<string, nat>, sender: string, watchId: nat): map<string, nat> {
    var r: map<string, nat> := m[sender := watchId];
    r
  }

  function Leave(m: map<string, nat>, sender: string): map<string, nat> {
    m - {sender}
  }

  function AnswersFor(invs: seq<nat>, ok: bool): seq<Answer> {
    if invs == [] then [] else [Answer(invs[0], ok)] + AnswersFor(invs[1..], ok)
  }

  function Reply(s: State, inv: nat, ok: bool): State {
    s.(answered := s.answered + [Answer(inv, ok)])
  }

  /** Everything that waited for the first reading of `t` is released. */
  function Notify(s: State, t: DriverType): (r: State)
    requires Sized(s)
    ensures Sized(r)
  {
    s.(answered := s.answered + AnswersFor(s.delayed[t], true),
       delayed := s.delayed[t := []],
       announced := if s.eventDelayed[t] then s.announced + [t] else s.announced,
       eventDelayed := s.eventDelayed[t := false])
  }

  function SetPolling(s: State, t: DriverType, on: bool, sync: bool): (r: State)
    requires Sized(s)
    ensures Sized(r)
  {
    var s1 := s.(polling := s.polling[t := on]);
    if on && sync then Notify(s1, t) else s1
  }

  function ClientRelease(s: State, sender: string, t: DriverType): (r: State)
    requires Sized(s)
    ensures Sized(r)
  {
    if sender !in s.clients[t] then s
    else
      var s1 := s.(clients := s.clients[t := Leave(s.clients[t], sender)]);
      if s.lazy && Exists(s, t) && |s1.clients[t]| == 0 then SetPolling(s1, t, false, false) else s1
  }

  function ClaimSensor(s: State, sender: string, inv: nat, watchId: nat, t: DriverType, sync: bool): (r: State)
    requires Sized(s)
    ensures Sized(r)
  {
    if sender in s.clients[t] then Reply(s, inv, true)
    else
      var s1 := s.(clients := s.clients[t := Enroll(s.clients[t], sender, watchId)]);
      var s2 := s1.(delayed := s.delayed[t := s.delayed[t] + [inv]]);
      if !Exists(s, t) then Reply(s1, inv, true)
      else if |s1.clients[t]| == 1 then SetPolling(s2, t, true, sync)
      else if |s.delayed[t]| > 0 || s.eventDelayed[t] then s2
      else Reply(s1, inv, true)
  }

  function HandleCall(s: State, e: Event): (r: State)
    requires e.Call? && Sized(s)
    ensures Sized(r)
  {
    var s1 := s.(received := s.received + {e.inv});
    if e.request.UnknownMethod? || !e.authorized then Reply(s1, e.inv, false)
    else if e.request.Claim? then ClaimSensor(s1, e.sender, e.inv, e.watchId, e.request.t, e.sync)
    else Reply(ClientRelease(s1, e.sender, e.request.t), e.inv, true)
  }

  function VanishFrom(s: State, name: string, i: nat): (r: State)
    requires Sized(s) && i <= NUM_SENSOR_TYPES
    ensures Sized(r)
    decreases NUM_SENSOR_TYPES - i
  {
    if i == NUM_SENSOR_TYPES then s else VanishFrom(ClientRelease(s, name, i), name, i + 1)
  }

  /** The sensor of type `t` is gone: its table and everything that waited for it go too. */
  function RemoveSensor(s: State, t: DriverType): (r: State)
    requires Sized(s)
    ensures Sized(r)
  {
    s.(udev := s.udev[t := None], polling := s.polling[t := false], clients := s.clients[t := map[]],
       eventDelayed := s.eventDelayed[t := false],
       answered := s.answered + AnswersFor(s.delayed[t], false), delayed := s.delayed[t := []],
       announced := s.announced + [t])
  }

  function RemoveOne(s: State, path: string, t: DriverType): (r: State)
    requires Sized(s)
    ensures Sized(r)
  {
    if s.udev[t] == Some(path) then RemoveSensor(s, t) else s
  }

  function RemoveFrom(s: State, path: string, i: nat): (r: State)
    requires Sized(s) && i <= NUM_SENSOR_TYPES
    ensures Sized(r)
    decreases NUM_SENSOR_TYPES - i
  {
    if i == NUM_SENSOR_TYPES then s.(quit := s.quit || !AnyLeft(s))
    else RemoveFrom(RemoveOne(s, path, i), path, i + 1)
  }

  /** A sensor of type `t` was opened: wait for its first reading if it is already claimed. */
  function AddSensor(s: State, t: DriverType, path: string, sync: bool): (r: State)
    requires Sized(s)
    ensures Sized(r)
  {
    var s1 := s.(udev := s.udev[t := Some(path)]);
    if |s.clients[t]| > 0 then SetPolling(s1.(eventDelayed := s.eventDelayed[t := true]), t, true, sync)
    else
      var s2 := s1.(announced := s.announced + [t]);
      if s.lazy then s2 else SetPolling(s2, t, true, sync)
  }

  /** Only the first driver that wants the device is tried. */
  function AddFrom(s: State, path: string, cs: seq<Candidate>, sync: bool): (r: State)
    requires Sized(s)
    ensures Sized(r)
  {
    if cs == [] then s
    else if !Exists(s, cs[0].t) && cs[0].discovers then
      if cs[0].opens then AddSensor(s, cs[0].t, path, sync) else s
    else AddFrom(s, path, cs[1..], sync)
  }

  function Step(s: State, e: Event): (r: State)
    requires Sized(s)
    ensures Sized(r)
  {
    match e
    case Call(_, _, _, _, _, _) => HandleCall(s, e)
    case Vanished(name) => VanishFrom(s, name, 0)
    case Removed(path) => RemoveFrom(s, path, 0)
    case Added(path, cs, sync) => AddFrom(s, path, cs, sync)
    case Reading(t) => Notify(s, t)
  }

  // ---- The invariant

  function Ids(a: seq<Answer>): seq<nat> {
    if a == [] then [] else [a[0].inv] + Ids(a[1..])
  }

  /** All calls waiting for a reading, over all types. */
  function Waiting(d: seq<seq<nat>>): multiset<nat>
    requires |d| == NUM_SENSOR_TYPES
  {
    multiset(d[0]) + multiset(d[1]) + multiset(d[2]) + multiset(d[3])
  }

  /** All calls on record: answered or waiting. */
  function OnRecord(s: State): multiset<nat>
    requires Sized(s)
  {
    multiset(Ids(s.answered)) + Waiting(s.delayed)
  }

  /** Nothing waits for a sensor that is not there. */
  predicate WaitsForDriver(s: State)
    requires Sized(s)
  {
    forall t: DriverType :: s.delayed[t] != [] || s.eventDelayed[t] ==> Exists(s, t)
  }

  /** Which sensors are polled: in lazy mode the claimed ones, otherwise all there are. */
  predicate PollsAsWanted(s: State)
    requires Sized(s)
  {
    forall t: DriverType :: s.polling[t] <==> Exists(s, t) && (s.lazy ==> s.clients[t] != map[])
  }

  /** The invariant apart from the record of calls. */
  predicate Structure(s: State) {
    Sized(s) && WaitsForDriver(s) && PollsAsWanted(s)
  }

  /** Every call received is in the answer log or in one waiting list, and that exactly once. */
  predicate Inv(s: State) {
    Structure(s) && OnRecord(s) == multiset(s.received)
  }

  // ---- The record of calls

  lemma {:induction false} IdsJoin(a: seq<Answer>, b: seq<Answer>)
    ensures Ids(a + b) == Ids(a) + Ids(b)
  {
    if a == [] {
      assert a + b == b;
    } else {
      IdsJoin(a[1..], b);
      assert (a + b)[1..] == a[1..] + b;
    }
  }

  lemma {:induction false} IdsOfAnswers(invs: seq<nat>, ok: bool)
    ensures Ids(AnswersFor(invs, ok)) == invs
  {
    if invs != [] { IdsOfAnswers(invs[1..], ok); }
  }

  /** Changing one waiting list changes the record by the difference. */
  lemma WaitingUpdate(d: seq<seq<nat>>, t: DriverType, l: seq<nat>)
    requires |d| == NUM_SENSOR_TYPES
    ensures Waiting(d[t := l]) + multiset(d[t]) == Waiting(d) + multiset(l)
  {
    var e := d[t := l];
    var a0, a1, a2, a3 := multiset(d[0]), multiset(d[1]), multiset(d[2]), multiset(d[3]);
    var b0, b1, b2, b3 := multiset(e[0]), multiset(e[1]), multiset(e[2]), multiset(e[3]);
    assert b0 == (if t == 0 then multiset(l) else a0) && b1 == (if t == 1 then multiset(l) else a1);
    assert b2 == (if t == 2 then multiset(l) else a2) && b3 == (if t == 3 then multiset(l) else a3);
    assert b0 + b1 + b2 + b3 + multiset(d[t]) == a0 + a1 + a2 + a3 + multiset(l);
  }

  /** Moving a waiting list into the answer log loses and invents nothing. */
  lemma AnswerAll(answered: seq<Answer>, d: seq<seq<nat>>, t: DriverType, ok: bool)
    requires |d| == NUM_SENSOR_TYPES
    ensures multiset(Ids(answered + AnswersFor(d[t], ok))) + Waiting(d[t := []]) == multiset(Ids(answered)) + Waiting(d)
  {
    hide Waiting;
    IdsJoin(answered, AnswersFor(d[t], ok));
    IdsOfAnswers(d[t], ok);
    WaitingUpdate(d, t, []);
    Moved(multiset(Ids(answered)), multiset(d[t]), Waiting(d[t := []]), Waiting(d));
  }

  lemma Moved(a: multiset<nat>, m: multiset<nat>, w: multiset<nat>, v: multiset<nat>)
    requires w + m == v + multiset([])
    ensures a + m + w == a + v
  {
    forall x ensures (a + m + w)[x] == (a + v)[x] {
      assert (w + m)[x] == (v + multiset([]))[x];
    }
  }

  lemma AddedOne(w: multiset<nat>, d: multiset<nat>, v: multiset<nat>, inv: nat)
    requires w + d == v + (d + multiset{inv})
    ensures w == v + multiset{inv}
  {
    forall x ensures w[x] == (v + multiset{inv})[x] {
      assert (w + d)[x] == (v + (d + multiset{inv}))[x];
    }
  }

  lemma AnswerOne(answered: seq<Answer>, inv: nat, ok: bool)
    ensures multiset(Ids(answered + [Answer(inv, ok)])) == multiset(Ids(answered)) + multiset{inv}
  {
    IdsJoin(answered, [Answer(inv, ok)]);
    assert Ids([Answer(inv, ok)]) == [inv];
  }

  lemma NotifyRecord(s: State, t: DriverType)
    requires Sized(s)
    ensures OnRecord(Notify(s, t)) == OnRecord(s)
  {
    hide Waiting;
    AnswerAll(s.answered, s.delayed, t, true);
  }

  lemma SetPollingRecord(s: State, t: DriverType, on: bool, sync: bool)
    requires Sized(s)
    ensures OnRecord(SetPolling(s, t, on, sync)) == OnRecord(s)
  {
    hide Waiting;
    NotifyRecord(s.(polling := s.polling[t := on]), t);
  }

  lemma SetPollingReceived(s: State, t: DriverType, on: bool, sync: bool)
    requires Sized(s)
    ensures SetPolling(s, t, on, sync).received == s.received
  {
  }

  lemma ReleaseRecord(s: State, sender: string, t: DriverType)
    requires Sized(s)
    ensures OnRecord(ClientRelease(s, sender, t)) == OnRecord(s) && ClientRelease(s, sender, t).received == s.received
  {
    hide Waiting;
  }

  lemma ClaimRecord(s: State, sender: string, inv: nat, watchId: nat, t: DriverType, sync: bool)
    requires Sized(s)
    ensures OnRecord(ClaimSensor(s, sender, inv, watchId, t, sync)) == OnRecord(s) + multiset{inv}
    ensures ClaimSensor(s, sender, inv, watchId, t, sync).received == s.received
  {
    hide SetPolling, OnRecord, Enroll;
    var table := s.clients[t := Enroll(s.clients[t], sender, watchId)];
    ReplyRecord(s, inv);
    ReplyRecord(s.(clients := table), inv);
    SameRecord(s, s.(clients := table));
    if sender !in s.clients[t] {
      var s2 := s.(clients := table, delayed := s.delayed[t := s.delayed[t] + [inv]]);
      DelayRecord(s.(clients := table), inv, t);
      SetPollingRecord(s2, t, true, sync);
      SetPollingReceived(s2, t, true, sync);
    }
  }

  lemma SameRecord(a: State, b: State)
    requires Sized(a) && Sized(b) && a.answered == b.answered && a.delayed == b.delayed
    ensures OnRecord(a) == OnRecord(b)
  {
  }

  lemma ReplyRecord(s: State, inv: nat)
    requires Sized(s)
    ensures OnRecord(Reply(s, inv, true)) == OnRecord(Reply(s, inv, false)) == OnRecord(s) + multiset{inv}
  {
    hide Waiting;
    AnswerOne(s.answered, inv, true);
    AnswerOne(s.answered, inv, false);
  }

  lemma DelayRecord(s: State, inv: nat, t: DriverType)
    requires Sized(s)
    ensures OnRecord(s.(delayed := s.delayed[t := s.delayed[t] + [inv]])) == OnRecord(s) + multiset{inv}
  {
    hide Waiting;
    var l := s.delayed[t] + [inv];
    WaitingUpdate(s.delayed, t, l);
    assert multiset(l) == multiset(s.delayed[t]) + multiset{inv};
    AddedOne(Waiting(s.delayed[t := l]), multiset(s.delayed[t]), Waiting(s.delayed), inv);
  }

  lemma RemoveRecord(s: State, path: string, t: DriverType)
    requires Sized(s)
    ensures OnRecord(RemoveOne(s, path, t)) == OnRecord(s) && RemoveOne(s, path, t).received == s.received
  {
    hide Waiting;
    AnswerAll(s.answered, s.delayed, t, false);
  }

  lemma AddRecord(s: State, t: DriverType, path: string, sync: bool)
    requires Sized(s)
    ensures OnRecord(AddSensor(s, t, path, sync)) == OnRecord(s) && AddSensor(s, t, path, sync).received == s.received
  {
    hide Waiting, SetPolling, Ids;
    var s1 := s.(udev := s.udev[t := Some(path)]);
    SetPollingReceived(s1.(eventDelayed := s.eventDelayed[t := true]), t, true, sync);
    SetPollingReceived(s1.(announced := s.announced + [t]), t, true, sync);
    SetPollingRecord(s1.(eventDelayed := s.eventDelayed[t := true]), t, true, sync);
    SetPollingRecord(s1.(announced := s.announced + [t]), t, true, sync);
  }

  // ---- Structure

  lemma NotifyStructure(s: State, t: DriverType)
    requires Structure(s)
    ensures Structure(Notify(s, t))
  {
  }

  lemma ReleaseStructure(s: State, sender: string, t: DriverType)
    requires Structure(s)
    ensures Structure(ClientRelease(s, sender, t)) && ClientRelease(s, sender, t).lazy == s.lazy
  {
    if sender in s.clients[t] {
      var m := Leave(s.clients[t], sender);
      EmptyMap(m);
      EmptyMap(s.clients[t]);
    }
  }

  /** A release changes what is polled exactly when, in lazy mode, the last client of a present sensor goes. */
  lemma ReleaseStopsPolling(s: State, sender: string, t: DriverType, u: DriverType)
    requires Structure(s)
    ensures var r := ClientRelease(s, sender, t);
            r.polling[u] != s.polling[u] <==> u == t && s.lazy && Exists(s, t) && s.clients[t].Keys == {sender}
  {
    ReleaseStructure(s, sender, t);
    var m := Leave(s.clients[t], sender);
    assert m.Keys == s.clients[t].Keys - {sender};
    EmptyMap(m);
    EmptyMap(s.clients[t]);
    EmptyKeys(m);
  }

  lemma EmptyKeys(m: map<string, nat>)
    ensures m == map[] <==> m.Keys == {}
  {
  }

  /** A claim changes what is polled exactly when, in lazy mode, it is the first one of a present sensor. */
  lemma ClaimStartsPolling(s: State, sender: string, inv: nat, watchId: nat, t: DriverType, sync: bool, u: DriverType)
    requires Structure(s)
    ensures var r := ClaimSensor(s, sender, inv, watchId, t, sync);
            r.polling[u] != s.polling[u] <==> u == t && s.lazy && Exists(s, t) && s.clients[t] == map[]
  {
    hide Enroll;
    ClaimStructure(s, sender, inv, watchId, t, sync);
    if sender !in s.clients[t] { OnlyClient(s.clients[t], sender, watchId); }
  }

  lemma EmptyMap(m: map<string, nat>)
    ensures |m| == 0 <==> m == map[]
  {
  }

  /** The table has one entry after a first claim exactly when it was empty. */
  lemma OnlyClient(m: map<string, nat>, k: string, v: nat)
    requires k !in m
    ensures |Enroll(m, k, v)| == 1 <==> m == map[]
    ensures Enroll(m, k, v) != map[]
  {
    assert k in m[k := v];
    assert m[k := v].Keys == m.Keys + {k};
    assert |m[k := v].Keys| == |m.Keys| + 1;
  }

  lemma ClaimStructure(s: State, sender: string, inv: nat, watchId: nat, t: DriverType, sync: bool)
    requires Structure(s)
    ensures Structure(ClaimSensor(s, sender, inv, watchId, t, sync)) && ClaimSensor(s, sender, inv, watchId, t, sync).lazy == s.lazy
  {
    hide Enroll;
    if sender !in s.clients[t] { OnlyClient(s.clients[t], sender, watchId); }
  }

  lemma RemoveStructure(s: State, path: string, t: DriverType)
    requires Structure(s)
    ensures Structure(RemoveOne(s, path, t)) && RemoveOne(s, path, t).lazy == s.lazy
  {
  }

  /** The appearance of a sensor never finds an appearance still waiting: the assertion made there holds. */
  lemma HotplugAssertion(s: State, t: DriverType)
    requires Inv(s) && !Exists(s, t)
    ensures !s.eventDelayed[t] && s.delayed[t] == [] && !s.polling[t]
  {
  }

  lemma AddStructure(s: State, t: DriverType, path: string, sync: bool)
    requires Structure(s) && !Exists(s, t)
    ensures Structure(AddSensor(s, t, path, sync)) && AddSensor(s, t, path, sync).lazy == s.lazy
  {
    EmptyMap(s.clients[t]);
  }

  // ---- Events and runs

  /** What every handler does: keeps the structure, the mode and the record, up to the call itself. */
  predicate Handled(s: State, r: State, added: multiset<nat>)
    requires Sized(s)
  {
    Structure(r) && r.lazy == s.lazy && OnRecord(r) == OnRecord(s) + added
  }

  lemma {:induction false} VanishOk(s: State, name: string, i: nat)
    requires Sized(s) && Structure(s) && i <= NUM_SENSOR_TYPES
    ensures Handled(s, VanishFrom(s, name, i), multiset{}) && VanishFrom(s, name, i).received == s.received
    decreases NUM_SENSOR_TYPES - i
  {
    hide Structure, OnRecord, ClientRelease;
    if i < NUM_SENSOR_TYPES {
      ReleaseStructure(s, name, i);
      ReleaseRecord(s, name, i);
      VanishOk(ClientRelease(s, name, i), name, i + 1);
    }
  }

  lemma {:induction false} RemoveFromOk(s: State, path: string, i: nat)
    requires Sized(s) && Structure(s) && i <= NUM_SENSOR_TYPES
    ensures Handled(s, RemoveFrom(s, path, i), multiset{}) && RemoveFrom(s, path, i).received == s.received
    decreases NUM_SENSOR_TYPES - i
  {
    hide RemoveOne, OnRecord;
    if i == NUM_SENSOR_TYPES {
      SameRecord(s, s.(quit := s.quit || !AnyLeft(s)));
    } else {
      RemoveStructure(s, path, i);
      RemoveRecord(s, path, i);
      RemoveFromOk(RemoveOne(s, path, i), path, i + 1);
    }
  }

  lemma {:induction false} AddFromOk(s: State, path: string, cs: seq<Candidate>, sync: bool)
    requires Sized(s) && Structure(s)
    ensures Handled(s, AddFrom(s, path, cs, sync), multiset{}) && AddFrom(s, path, cs, sync).received == s.received
  {
    hide Structure, OnRecord, AddSensor;
    if cs != [] {
      if !Exists(s, cs[0].t) && cs[0].discovers {
        AddStructure(s, cs[0].t, path, sync);
        AddRecord(s, cs[0].t, path, sync);
      } else {
        AddFromOk(s, path, cs[1..], sync);
      }
    }
  }

  lemma CallOk(s: State, e: Event)
    requires Structure(s) && e.Call?
    ensures Handled(s, HandleCall(s, e), multiset{e.inv}) && HandleCall(s, e).received == s.received + {e.inv}
  {
    hide Structure, OnRecord, ClientRelease, ClaimSensor;
    var s1 := s.(received := s.received + {e.inv});
    ReceivedOnly(s, s1);
    ReplyRecord(s1, e.inv);
    ReplyStructure(s1, e.inv, false);
    if e.request.Claim? {
      ClaimStructure(s1, e.sender, e.inv, e.watchId, e.request.t, e.sync);
      ClaimRecord(s1, e.sender, e.inv, e.watchId, e.request.t, e.sync);
    } else if e.request.Release? {
      ReleaseStructure(s1, e.sender, e.request.t);
      ReleaseRecord(s1, e.sender, e.request.t);
      ReplyRecord(ClientRelease(s1, e.sender, e.request.t), e.inv);
      ReplyStructure(ClientRelease(s1, e.sender, e.request.t), e.inv, true);
    }
  }

  lemma ReceivedOnly(s: State, s1: State)
    requires Structure(s) && s1 == s.(received := s1.received)
    ensures Structure(s1) && OnRecord(s1) == OnRecord(s)
  {
  }

  lemma ReplyStructure(s: State, inv: nat, ok: bool)
    requires Structure(s)
    ensures Structure(Reply(s, inv, ok))
  {
  }

  /** Every event keeps the invariant. */
  lemma StepOk(s: State, e: Event)
    requires Sized(s) && Inv(s) && Possible(s, e)
    ensures Inv(Step(s, e)) && Step(s, e).lazy == s.lazy
  {
    hide Structure, OnRecord, HandleCall, VanishFrom, RemoveFrom, AddFrom, Notify, WaitsForDriver, PollsAsWanted;
    match e
    case Call(_, inv, _, _, _, _) =>
      CallOk(s, e);
      assert multiset(s.received + {inv}) == multiset(s.received) + multiset{inv};
    case Vanished(name) => VanishOk(s, name, 0);
    case Removed(path) => RemoveFromOk(s, path, 0);
    case Added(path, cs, sync) => AddFromOk(s, path, cs, sync);
    case Reading(t) =>
      NotifyStructure(s, t);
      NotifyRecord(s, t);
      NotifyFrame(s, t);
  }

  lemma NotifyFrame(s: State, t: DriverType)
    requires Sized(s)
    ensures Notify(s, t).received == s.received && Notify(s, t).lazy == s.lazy
  {
  }

  /** After name_acquired_handler: the sensors found are open, nobody has claimed anything. */
  function StartState(lazy: bool, found: seq<Option<string>>): (s: State)
    requires |found| == NUM_SENSOR_TYPES
    ensures Sized(s)
  {
    State(lazy, found, seq(NUM_SENSOR_TYPES, _ => map[]), seq(NUM_SENSOR_TYPES, _ => []), seq(NUM_SENSOR_TYPES, _ => false),
      seq(NUM_SENSOR_TYPES, i requires 0 <= i < NUM_SENSOR_TYPES => found[i].Some? && !lazy), [], [], {}, false)
  }

  lemma StartOk(lazy: bool, found: seq<Option<string>>)
    requires |found| == NUM_SENSOR_TYPES
    ensures Inv(StartState(lazy, found))
  {
  }

  predicate PossibleRun(s: State, es: seq<Event>)
    requires Sized(s)
    decreases |es|
  {
    es == [] || (Possible(s, es[0]) && PossibleRun(Step(s, es[0]), es[1..]))
  }

  function Run(s: State, es: seq<Event>): (r: State)
    requires Sized(s)
    ensures Sized(r)
    decreases |es|
  {
    if es == [] then s else Run(Step(s, es[0]), es[1..])
  }

  /** In every interleaving of events, every reachable state satisfies the invariant. */
  lemma {:induction false} RunOk(s: State, es: seq<Event>)
    requires Sized(s) && Inv(s) && PossibleRun(s, es)
    ensures Inv(Run(s, es)) && Run(s, es).lazy == s.lazy
    decreases |es|
  {
    hide Structure, OnRecord, Step;
    if es != [] {
      StepOk(s, es[0]);
      RunOk(Step(s, es[0]), es[1..]);
    }
  }

  /** Each call that was received is answered exactly once or waits in exactly one place; no other call is answered. */
  lemma AnsweredOnce(lazy: bool, found: seq<Option<string>>, es: seq<Event>, inv: nat)
    requires |found| == NUM_SENSOR_TYPES && PossibleRun(StartState(lazy, found), es)
    ensures var s := Run(StartState(lazy, found), es);
            multiset(Ids(s.answered))[inv] + Waiting(s.delayed)[inv] == if inv in s.received then 1 else 0
  {
    hide Waiting, Step, Structure, StartState;
    StartOk(lazy, found);
    RunOk(StartState(lazy, found), es);
    var s := Run(StartState(lazy, found), es);
    assert OnRecord(s)[inv] == multiset(s.received)[inv];
  }

  lemma {:induction false} CountAnswers(a: seq<Answer>, inv: nat)
    ensures multiset(Ids(a))[inv] == multiset(a)[Answer(inv, true)] + multiset(a)[Answer(inv, false)]
  {
    if a != [] {
      CountAnswers(a[1..], inv);
      assert a == [a[0]] + a[1..];
      assert multiset(a) == multiset{a[0]} + multiset(a[1..]);
      assert multiset(Ids(a)) == multiset{a[0].inv} + multiset(Ids(a[1..]));
    }
  }

  /** The call has one reply in the log, which is `ok`, and waits nowhere. */
  predicate AnsweredWith(s: State, inv: nat, ok: bool)
    requires Sized(s)
  {
    && multiset(s.answered)[Answer(inv, ok)] == 1 && multiset(s.answered)[Answer(inv, !ok)] == 0
    && Waiting(s.delayed)[inv] == 0
  }

  /** In a reachable state a reply in the log is the only one. */
  lemma OnlyAnswer(s: State, inv: nat, ok: bool)
    requires Sized(s) && Inv(s) && Answer(inv, ok) in s.answered
    ensures AnsweredWith(s, inv, ok)
  {
    hide Waiting, Structure;
    CountAnswers(s.answered, inv);
    assert OnRecord(s)[inv] == multiset(s.received)[inv] <= 1;
    assert multiset(s.answered)[Answer(inv, ok)] >= 1;
  }

  lemma {:induction false} AnswersForAll(invs: seq<nat>, ok: bool, inv: nat)
    requires inv in invs
    ensures Answer(inv, ok) in AnswersFor(invs, ok)
  {
    if invs[0] != inv { AnswersForAll(invs[1..], ok, inv); }
  }

  lemma {:induction false} RemovalAnswers(s: State, path: string, i: nat, t: DriverType, inv: nat)
    requires Sized(s) && i <= NUM_SENSOR_TYPES
    requires Answer(inv, false) in s.answered || (i <= t && s.udev[t] == Some(path) && inv in s.delayed[t])
    ensures Answer(inv, false) in RemoveFrom(s, path, i).answered
    decreases NUM_SENSOR_TYPES - i
  {
    if i < NUM_SENSOR_TYPES {
      if i == t && inv in s.delayed[t] { AnswersForAll(s.delayed[t], false, inv); }
      RemovalAnswers(RemoveOne(s, path, i), path, i + 1, t, inv);
    }
  }

  lemma {:induction false} RemovalSettles(s: State, path: string, i: nat, t: DriverType)
    requires Sized(s) && i <= NUM_SENSOR_TYPES
    requires (i <= t && s.udev[t] == Some(path)) || (!Exists(s, t) && Settled(s, t))
    ensures !Exists(RemoveFrom(s, path, i), t) && Settled(RemoveFrom(s, path, i), t)
    decreases NUM_SENSOR_TYPES - i
  {
    if i < NUM_SENSOR_TYPES { RemovalSettles(RemoveOne(s, path, i), path, i + 1, t); }
  }

  /**
   * A call that waits has no reply yet. The first reading of its sensor gives it exactly one,
   * positive; the removal of the sensor gives it exactly one, an error. Nobody is left waiting.
   */
  lemma WaitEnds(s: State, t: DriverType, inv: nat)
    requires Sized(s) && Inv(s) && inv in s.delayed[t]
    ensures Exists(s, t) && multiset(Ids(s.answered))[inv] == 0
    ensures var r := Step(s, Reading(t)); AnsweredWith(r, inv, true) && Settled(r, t)
    ensures var r := Step(s, Removed(s.udev[t].value)); AnsweredWith(r, inv, false) && Settled(r, t) && !Exists(r, t)
  {
    hide Inv, Step, AnsweredWith, Settled;
    StillWaiting(s, t, inv);
    ReadingReplies(s, t, inv);
    RemovalReplies(s, t, inv);
  }

  lemma StillWaiting(s: State, t: DriverType, inv: nat)
    requires Sized(s) && Inv(s) && inv in s.delayed[t]
    ensures Exists(s, t) && multiset(Ids(s.answered))[inv] == 0
  {
    hide Waiting, PollsAsWanted;
    assert OnRecord(s)[inv] == multiset(s.received)[inv] <= 1;
    WaitingHas(s.delayed, t, inv);
  }

  lemma ReadingReplies(s: State, t: DriverType, inv: nat)
    requires Sized(s) && Inv(s) && Exists(s, t) && inv in s.delayed[t]
    ensures var r := Step(s, Reading(t)); AnsweredWith(r, inv, true) && Settled(r, t)
  {
    hide Inv, AnsweredWith;
    StepOk(s, Reading(t));
    AnswersForAll(s.delayed[t], true, inv);
    OnlyAnswer(Step(s, Reading(t)), inv, true);
  }

  lemma RemovalReplies(s: State, t: DriverType, inv: nat)
    requires Sized(s) && Inv(s) && Exists(s, t) && inv in s.delayed[t]
    ensures var r := Step(s, Removed(s.udev[t].value)); AnsweredWith(r, inv, false) && Settled(r, t) && !Exists(r, t)
  {
    hide Inv, AnsweredWith, RemoveFrom;
    var path := s.udev[t].value;
    StepOk(s, Removed(path));
    RemovalAnswers(s, path, 0, t, inv);
    RemovalSettles(s, path, 0, t);
    OnlyAnswer(Step(s, Removed(path)), inv, false);
  }

  lemma WaitingHas(d: seq<seq<nat>>, t: DriverType, inv: nat)
    requires |d| == NUM_SENSOR_TYPES && inv in d[t]
    ensures Waiting(d)[inv] >= 1
  {
    assert multiset(d[t])[inv] >= 1;
    assert t == 0 || t == 1 || t == 2 || t == 3;
  }

  // ---- What each event does, and does not do, to the tables

  /** A claim enrols the sender; claiming again changes nothing. */
  lemma ClaimEdges(s: State, sender: string, inv: nat, watchId: nat, t: DriverType, sync: bool)
    requires Sized(s)
    ensures var r := ClaimSensor(s, sender, inv, watchId, t, sync);
            && r.udev == s.udev
            && (forall u: DriverType :: u != t ==> r.clients[u] == s.clients[u])
            && (forall k :: k in r.clients[t] <==> k in s.clients[t] || k == sender)
            && (forall k :: k in s.clients[t] ==> r.clients[t][k] == s.clients[t][k])
            && (sender !in s.clients[t] ==> r.clients[t][sender] == watchId)
  {
  }

  /** A release takes the sender alone out of one table; nothing else changes but, perhaps, the polling. */
  lemma ReleaseEdges(s: State, sender: string, t: DriverType)
    requires Sized(s)
    ensures var r := ClientRelease(s, sender, t);
            r == s.(clients := s.clients[t := s.clients[t] - {sender}], polling := r.polling)
  {
    if sender !in s.clients[t] { assert s.clients[t] - {sender} == s.clients[t]; }
  }

  lemma {:induction false} VanishFromEdges(s: State, name: string, i: nat, u: DriverType)
    requires Structure(s) && i <= NUM_SENSOR_TYPES
    ensures var r := VanishFrom(s, name, i);
            && r == s.(clients := r.clients, polling := r.polling)
            && r.clients[u] == (if u >= i then s.clients[u] - {name} else s.clients[u])
            && (r.polling[u] != s.polling[u] <==> u >= i && s.lazy && Exists(s, u) && s.clients[u].Keys == {name})
    decreases NUM_SENSOR_TYPES - i
  {
    hide Structure, ClientRelease;
    StructureSized(s);
    if i < NUM_SENSOR_TYPES {
      ReleaseEdges(s, name, i);
      ReleaseStructure(s, name, i);
      ReleaseStopsPolling(s, name, i, u);
      VanishFromEdges(ClientRelease(s, name, i), name, i + 1, u);
    }
  }

  lemma StructureSized(s: State)
    requires Structure(s)
    ensures Sized(s)
  {
  }

  /**
   * A client that vanishes leaves every table, and nothing else changes: only a sensor polled
   * for it alone is no longer polled.
   */
  lemma VanishEdges(s: State, name: string)
    requires Sized(s) && Structure(s)
    ensures var r := Step(s, Vanished(name));
            && r == s.(clients := r.clients, polling := r.polling)
            && (forall t: DriverType :: r.clients[t] == s.clients[t] - {name})
            && forall t: DriverType ::
                 r.polling[t] != s.polling[t] <==> s.lazy && Exists(s, t) && s.clients[t].Keys == {name}
  {
    hide VanishFrom, Structure;
    var r := Step(s, Vanished(name));
    VanishFromEdges(s, name, 0, 0);
    forall t: DriverType
      ensures r.clients[t] == s.clients[t] - {name}
      ensures r.polling[t] != s.polling[t] <==> s.lazy && Exists(s, t) && s.clients[t].Keys == {name}
    {
      VanishFromEdges(s, name, 0, t);
    }
  }

  lemma RemoveOneEdges(s: State, path: string, t: DriverType, u: DriverType)
    requires Sized(s)
    ensures var r := RemoveOne(s, path, t);
            var hit := u == t && s.udev[u] == Some(path);
            && r.clients[u] == (if hit then map[] else s.clients[u])
            && r.udev[u] == (if hit then None else s.udev[u])
            && (hit ==> !r.eventDelayed[u]) && (!hit ==> r.eventDelayed[u] == s.eventDelayed[u] && r.delayed[u] == s.delayed[u])
            && multiset(r.announced)[u] == multiset(s.announced)[u] + (if hit then 1 else 0)
            && r.quit == s.quit
  {
  }

  lemma {:induction false} RemoveFromEdges(s: State, path: string, i: nat, u: DriverType)
    requires Sized(s) && i <= NUM_SENSOR_TYPES
    ensures var r := RemoveFrom(s, path, i);
            var hit := u >= i && s.udev[u] == Some(path);
            && r.clients[u] == (if hit then map[] else s.clients[u])
            && r.udev[u] == (if hit then None else s.udev[u])
            && (hit ==> !r.eventDelayed[u]) && (!hit ==> r.eventDelayed[u] == s.eventDelayed[u] && r.delayed[u] == s.delayed[u])
            && multiset(r.announced)[u] == multiset(s.announced)[u] + (if hit then 1 else 0)
            && r.quit == (s.quit || !AnyLeft(r))
    decreases NUM_SENSOR_TYPES - i
  {
    hide RemoveOne;
    if i < NUM_SENSOR_TYPES {
      RemoveOneEdges(s, path, i, u);
      RemoveFromEdges(RemoveOne(s, path, i), path, i + 1, u);
    }
  }

  /** Exactly the sensors on the removed path go, with their clients; without any sensor left the proxy quits. */
  lemma RemovalEdges(s: State, path: string)
    requires Sized(s)
    ensures var r := Step(s, Removed(path));
            && (forall t: DriverType :: r.clients[t] == if s.udev[t] == Some(path) then map[] else s.clients[t])
            && (forall t: DriverType :: r.udev[t] == if s.udev[t] == Some(path) then None else s.udev[t])
            && (r.quit <==> s.quit || forall t: DriverType :: r.udev[t].None?)
  {
    hide RemoveFrom;
    var r := Step(s, Removed(path));
    forall t: DriverType
      ensures r.clients[t] == if s.udev[t] == Some(path) then map[] else s.clients[t]
      ensures r.udev[t] == if s.udev[t] == Some(path) then None else s.udev[t]
    {
      RemoveFromEdges(s, path, 0, t);
    }
    RemoveFromEdges(s, path, 0, 0);
    assert AnyLeft(r) <==> exists t: DriverType :: r.udev[t].Some?;
  }

  /** The first driver in the list that wants the device and has no device yet. */
  predicate FirstWilling(s: State, cs: seq<Candidate>, i: nat)
    requires Sized(s)
  {
    && i < |cs| && !Exists(s, cs[i].t) && cs[i].discovers
    && forall j :: 0 <= j < i ==> Exists(s, cs[j].t) || !cs[j].discovers
  }

  /** Only the first willing driver is tried; if it opens the device its type has it from then on, otherwise nothing changes. */
  lemma {:induction false} AddedOpens(s: State, path: string, cs: seq<Candidate>, sync: bool)
    requires Sized(s)
    ensures var r := AddFrom(s, path, cs, sync);
            && r.clients == s.clients
            && (forall i :: 0 <= i < |cs| && FirstWilling(s, cs, i) && cs[i].opens ==> r.udev == s.udev[cs[i].t := Some(path)])
            && (forall i :: 0 <= i < |cs| && FirstWilling(s, cs, i) && !cs[i].opens ==> r == s)
            && ((forall i :: 0 <= i < |cs| ==> !FirstWilling(s, cs, i)) ==> r == s)
    decreases |cs|
  {
    hide AddSensor;
    if cs != [] {
      if !Exists(s, cs[0].t) && cs[0].discovers {
        assert FirstWilling(s, cs, 0);
        assert forall i :: 0 < i < |cs| ==> !FirstWilling(s, cs, i);
        AddSensorEdges(s, cs[0].t, path, sync);
      } else {
        AddedOpens(s, path, cs[1..], sync);
        forall i | 0 < i < |cs| ensures FirstWilling(s, cs, i) <==> FirstWilling(s, cs[1..], i - 1) {
          assert forall j :: 0 < j < |cs| ==> cs[j] == cs[1..][j - 1];
        }
        assert forall i :: 0 <= i < |cs[1..]| ==> cs[1..][i] == cs[i + 1] && (FirstWilling(s, cs[1..], i) <==> FirstWilling(s, cs, i + 1));
      }
    }
  }

  lemma AddSensorEdges(s: State, t: DriverType, path: string, sync: bool)
    requires Sized(s)
    ensures var r := AddSensor(s, t, path, sync); r.clients == s.clients && r.udev == s.udev[t := Some(path)]
  {
  }

  // ---- Who is in a table, over runs

  /** What an event says about a client's place in the table of a type: put in, taken out, or nothing. */
  function Says(s: State, e: Event, t: DriverType, name: string): Option<bool>
    requires Sized(s)
  {
    match e
    case Call(sender, _, Claim(u), true, _, _) => if sender == name && u == t then Some(true) else None
    case Call(sender, _, Release(u), true, _, _) => if sender == name && u == t then Some(false) else None
    case Vanished(gone) => if gone == name then Some(false) else None
    case Removed(path) => if s.udev[t] == Some(path) then Some(false) else None
    case _ => None
  }

  function LastSays(s: State, es: seq<Event>, t: DriverType, name: string): Option<bool>
    requires Sized(s)
    decreases |es|
  {
    if es == [] then None
    else
      var later := LastSays(Step(s, es[0]), es[1..], t, name);
      if later.Some? then later else Says(s, es[0], t, name)
  }

  lemma TableStep(s: State, e: Event, t: DriverType, name: string)
    requires Sized(s) && Inv(s) && Possible(s, e)
    ensures name in Step(s, e).clients[t] <==>
            if Says(s, e, t, name).Some? then Says(s, e, t, name).value else name in s.clients[t]
  {
    hide Inv, VanishFrom, RemoveFrom, AddFrom, ClaimSensor, ClientRelease;
    InvSized(s);
    match e
    case Call(sender, inv, request, authorized, watchId, sync) =>
      var s1 := s.(received := s.received + {inv});
      if authorized && request.Claim? {
        ClaimEdges(s1, sender, inv, watchId, request.t, sync);
      } else if authorized && request.Release? {
        ReleaseEdges(s1, sender, request.t);
      }
    case Vanished(gone) => VanishEdges(s, gone);
    case Removed(path) => RemovalEdges(s, path);
    case Added(path, cs, sync) => AddedOpens(s, path, cs, sync);
    case Reading(_) =>
  }

  lemma InvSized(s: State)
    requires Inv(s)
    ensures Sized(s) && Structure(s)
  {
  }

  lemma {:induction false} TableRun(s: State, es: seq<Event>, t: DriverType, name: string)
    requires Sized(s) && Inv(s) && PossibleRun(s, es)
    ensures var last := LastSays(s, es, t, name);
            name in Run(s, es).clients[t] <==> if last.Some? then last.value else name in s.clients[t]
    decreases |es|
  {
    hide Inv, Step, Says;
    if es != [] {
      TableStep(s, es[0], t, name);
      StepOk(s, es[0]);
      TableRun(Step(s, es[0]), es[1..], t, name);
    }
  }

  /** From start-up on, a client is in a table exactly when the last thing said about it there was a claim. */
  lemma ClientsAreClaims(lazy: bool, found: seq<Option<string>>, es: seq<Event>, t: DriverType, name: string)
    requires |found| == NUM_SENSOR_TYPES && PossibleRun(StartState(lazy, found), es)
    ensures name in Run(StartState(lazy, found), es).clients[t] <==>
            LastSays(StartState(lazy, found), es, t, name) == Some(true)
  {
    StartOk(lazy, found);
    TableRun(StartState(lazy, found), es, t, name);
  }

  // ---- What a call comes to

  /** A refused or unknown call gets an error and changes nothing else. */
  lemma RefusedCall(s: State, e: Event)
    requires Sized(s) && e.Call? && (!e.authorized || e.request.UnknownMethod?)
    ensures Step(s, e) == s.(received := s.received + {e.inv}, answered := s.answered + [Answer(e.inv, false)])
  {
  }

  /** A new claim of a present sensor waits: for its first reading, or with the others that wait for it. */
  predicate MustWait(s: State, e: Event)
    requires Sized(s) && e.Call? && e.request.Claim?
  {
    var t := e.request.t;
    && e.sender !in s.clients[t] && Exists(s, t)
    && if s.clients[t] == map[] then !e.sync else s.delayed[t] != [] || s.eventDelayed[t]
  }

  /** An accepted claim or release is answered positively, at once unless it is a claim that must wait. */
  lemma AcceptedCall(s: State, e: Event)
    requires Sized(s) && Inv(s) && Possible(s, e) && e.Call? && e.authorized && !e.request.UnknownMethod?
    ensures var r := Step(s, e);
            if e.request.Claim? && MustWait(s, e) then e.inv in r.delayed[e.request.t] && r.answered == s.answered
            else AnsweredWith(r, e.inv, true)
  {
    hide Inv, AnsweredWith, Enroll;
    StepOk(s, e);
    var r := Step(s, e);
    InvSized(r);
    if e.request.Claim? {
      var t := e.request.t;
      if e.sender !in s.clients[t] { OnlyClient(s.clients[t], e.sender, e.watchId); }
      if !MustWait(s, e) {
        if e.sender !in s.clients[t] && Exists(s, t) && s.clients[t] == map[] {
          AnswersForAll(s.delayed[t] + [e.inv], true, e.inv);
        }
        assert Answer(e.inv, true) in r.answered;
        OnlyAnswer(r, e.inv, true);
      }
    } else {
      assert Answer(e.inv, true) in r.answered;
      OnlyAnswer(r, e.inv, true);
    }
  }

  // ---- Announcements

  function Due(s: State, t: DriverType): nat
    requires Sized(s)
  {
    multiset(s.announced)[t] + if s.eventDelayed[t] then 1 else 0
  }

  /**
   * Every removal of a sensor is announced once, on the spot; every appearance once, at once or,
   * when it is claimed and does not report at once, with its first reading; and nothing else is.
   */
  lemma AnnouncedOnce(s: State, e: Event, t: DriverType)
    requires Sized(s) && Inv(s) && Possible(s, e)
    ensures var r := Step(s, e);
            if e.Removed? && s.udev[t] == Some(e.path) then
              multiset(r.announced)[t] == multiset(s.announced)[t] + 1 && !r.eventDelayed[t]
            else Due(r, t) == Due(s, t) + (if !Exists(s, t) && Exists(r, t) then 1 else 0)
    ensures var r := Step(s, e);
            !Exists(s, t) && Exists(r, t) ==> e.Added? && (r.eventDelayed[t] <==> s.clients[t] != map[] && !e.sync)
    ensures e.Reading? && e.t == t ==> !Step(s, e).eventDelayed[t]
  {
    hide Inv, VanishFrom, RemoveFrom, AddFrom;
    InvSized(s);
    match e
    case Call(_, _, _, _, _, _) => CallDue(s, e, t);
    case Vanished(name) => VanishEdges(s, name);
    case Removed(path) =>
      RemoveFromEdges(s, path, 0, t);
    case Added(path, cs, sync) => AddFromDue(s, path, cs, sync, t);
    case Reading(_) =>
  }

  lemma CallDue(s: State, e: Event, t: DriverType)
    requires Sized(s) && e.Call?
    ensures Due(Step(s, e), t) == Due(s, t) && Step(s, e).udev == s.udev
  {
    hide ClaimSensor, ClientRelease;
    var s1 := s.(received := s.received + {e.inv});
    if e.request.Claim? {
      ClaimDue(s1, e.sender, e.inv, e.watchId, e.request.t, e.sync, t);
    } else if e.request.Release? {
      ReleaseEdges(s1, e.sender, e.request.t);
    }
  }

  lemma ClaimDue(s: State, sender: string, inv: nat, watchId: nat, t: DriverType, sync: bool, u: DriverType)
    requires Sized(s)
    ensures var r := ClaimSensor(s, sender, inv, watchId, t, sync); Due(r, u) == Due(s, u) && r.udev == s.udev
  {
    hide Enroll, SetPolling;
    var s1 := s.(clients := s.clients[t := Enroll(s.clients[t], sender, watchId)]);
    PollingDue(s1.(delayed := s.delayed[t := s.delayed[t] + [inv]]), t, sync, u);
  }

  lemma PollingDue(s: State, t: DriverType, sync: bool, u: DriverType)
    requires Sized(s)
    ensures var r := SetPolling(s, t, true, sync); Due(r, u) == Due(s, u) && r.udev == s.udev
  {
  }

  lemma {:induction false} AddFromDue(s: State, path: string, cs: seq<Candidate>, sync: bool, t: DriverType)
    requires Sized(s) && Structure(s)
    ensures var r := AddFrom(s, path, cs, sync);
            && Due(r, t) == Due(s, t) + (if !Exists(s, t) && Exists(r, t) then 1 else 0)
            && (!Exists(s, t) && Exists(r, t) ==> (r.eventDelayed[t] <==> s.clients[t] != map[] && !sync))
    decreases |cs|
  {
    if cs != [] {
      if !Exists(s, cs[0].t) && cs[0].discovers {
        EmptyMap(s.clients[cs[0].t]);
      } else {
        AddFromDue(s, path, cs[1..], sync, t);
      }
    }
  }

  // ---- A driver that reports from within set_polling

  predicate SyncFor(e: Event, t: DriverType) {
    match e
    case Call(_, _, req, _, _, sync) => req.Claim? && req.t == t ==> sync
    case Added(_, _, sync) => sync
    case _ => true
  }

  predicate Settled(s: State, t: DriverType)
    requires Sized(s)
  {
    s.delayed[t] == [] && !s.eventDelayed[t]
  }

  lemma {:induction false} VanishSettles(s: State, name: string, i: nat, t: DriverType)
    requires Sized(s) && Settled(s, t) && i <= NUM_SENSOR_TYPES
    ensures Settled(VanishFrom(s, name, i), t)
    decreases NUM_SENSOR_TYPES - i
  {
    if i < NUM_SENSOR_TYPES { VanishSettles(ClientRelease(s, name, i), name, i + 1, t); }
  }

  lemma {:induction false} RemoveSettles(s: State, path: string, i: nat, t: DriverType)
    requires Sized(s) && Settled(s, t) && i <= NUM_SENSOR_TYPES
    ensures Settled(RemoveFrom(s, path, i), t)
    decreases NUM_SENSOR_TYPES - i
  {
    if i < NUM_SENSOR_TYPES { RemoveSettles(RemoveOne(s, path, i), path, i + 1, t); }
  }

  lemma {:induction false} AddSettles(s: State, path: string, cs: seq<Candidate>, sync: bool, t: DriverType)
    requires Sized(s) && Settled(s, t) && sync
    ensures Settled(AddFrom(s, path, cs, sync), t)
  {
    if cs != [] && !(!Exists(s, cs[0].t) && cs[0].discovers) { AddSettles(s, path, cs[1..], sync, t); }
  }

  /** With a driver that reports at once, no claim and no appearance is left waiting after any event. */
  lemma StepSettles(s: State, e: Event, t: DriverType)
    requires Sized(s) && Settled(s, t) && SyncFor(e, t)
    ensures Settled(Step(s, e), t)
  {
    match e
    case Call(_, _, _, _, _, _) =>
    case Vanished(name) => VanishSettles(s, name, 0, t);
    case Removed(path) => RemoveSettles(s, path, 0, t);
    case Added(path, cs, sync) => AddSettles(s, path, cs, sync, t);
    case Reading(_) =>
  }

  predicate AllSync(es: seq<Event>, t: DriverType) {
    forall i :: 0 <= i < |es| ==> SyncFor(es[i], t)
  }

  lemma {:induction false} RunSettles(s: State, es: seq<Event>, t: DriverType)
    requires Sized(s) && Settled(s, t) && AllSync(es, t)
    ensures Settled(Run(s, es), t)
    decreases |es|
  {
    hide Settled, Step;
    if es != [] {
      assert SyncFor(es[0], t);
      StepSettles(s, es[0], t);
      assert forall i :: 0 <= i < |es[1..]| ==> es[1..][i] == es[i + 1];
      RunSettles(Step(s, es[0]), es[1..], t);
    }
  }
}
