/** The devices page of one trial participant: the devices assigned to the
    participant, and the trial's devices still available for assignment. */
module TrialParticipantDevices {
  import opened Records

  /** A registered device (`sk` is its identifier). */
  datatype Device = Device(sk: string, deviceName: string, trialSSI: string)

  /** A device assignment record. */
  datatype Assignment = Assignment(patientDID: string, deviceId: string)

  /** One entry of the option list handed to the assignment page (`caption` is its `label`). */
  datatype DeviceOption = DeviceOption(value: string, caption: string)

  /** What a click on "assign device" leads to. */
  datatype AssignOutcome =
    | NoDevicesRedirect
    | AssignPage(availableDevices: seq<DeviceOption>, participantDID: string, participantName: string,
                 tpUid: string, trialNumber: string, trialSSI: string)

  /** `devices.findIndex(t => t.sk === id)`. */
  function FindIndexBySk(devices: seq<Device>, id: string): (i: int)
    ensures -1 <= i < |devices|
    ensures 0 <= i ==> devices[i].sk == id && forall j :: 0 <= j < i ==> devices[j].sk != id
    ensures i == -1 <==> forall j :: 0 <= j < |devices| ==> devices[j].sk != id
    decreases |devices|
  {
    if devices == [] then -1
    else if devices[0].sk == id then 0
    else
      var k := FindIndexBySk(devices[1..], id);
      assert forall j :: 1 <= j < |devices| ==> devices[j] == devices[1..][j - 1];
      if k < 0 then -1 else k + 1
  }

  /** `devices.find(element => element.sk === id)`. */
  function FindBySk(devices: seq<Device>, id: string): Option<Device>
  {
    var i := FindIndexBySk(devices, id);
    if i < 0 then None else Some(devices[i])
  }

  /** `assignedDevices.filter(ad => ad.patientDID === did)`. */
  function MatchingAssignments(assignments: seq<Assignment>, did: string): (r: seq<Assignment>)
    ensures |r| <= |assignments|
    ensures forall a :: a in r <==> a in assignments && a.patientDID == did
    decreases |assignments|
  {
    if assignments == [] then []
    else
      (if assignments[0].patientDID == did then [assignments[0]] else [])
      + MatchingAssignments(assignments[1..], did)
  }

  /** `alldevices.filter(t => t.trialSSI === trialSSI)`. */
  function DevicesOfTrial(devices: seq<Device>, trialSSI: string): (r: seq<Device>)
    ensures |r| <= |devices|
    ensures forall d :: d in r <==> d in devices && d.trialSSI == trialSSI
    decreases |devices|
  {
    if devices == [] then []
    else
      (if devices[0].trialSSI == trialSSI then [devices[0]] else []) + DevicesOfTrial(devices[1..], trialSSI)
  }

  /** Every assignment of the participant is kept as often as it occurs, and no other. */
  lemma {:induction false} MatchingAssignmentsKeepsEveryOccurrence(assignments: seq<Assignment>, did: string)
    ensures forall a :: multiset(MatchingAssignments(assignments, did))[a] ==
              if a.patientDID == did then multiset(assignments)[a] else 0
    decreases |assignments|
  {
    if assignments != [] {
      assert assignments == [assignments[0]] + assignments[1..];
      MatchingAssignmentsKeepsEveryOccurrence(assignments[1..], did);
    }
  }

  /** The assignment filter keeps the order and every occurrence: filtering a
      concatenation concatenates the filtered parts, and a single assignment
      is kept exactly when it is the participant's. */
  lemma {:induction false} MatchingAssignmentsAppend(a: seq<Assignment>, b: seq<Assignment>, did: string)
    ensures MatchingAssignments(a + b, did) == MatchingAssignments(a, did) + MatchingAssignments(b, did)
    ensures forall x :: MatchingAssignments([x], did) == if x.patientDID == did then [x] else []
    decreases |a|
  {
    forall x ensures MatchingAssignments([x], did) == if x.patientDID == did then [x] else [] {
      assert [x][1..] == [];
    }
    if a == [] {
      assert a + b == b;
    } else {
      var x, t := a[0], a[1..];
      assert a == [x] + t && a + b == [x] + (t + b);
      MatchingAssignmentsAppend(t, b, did);
      MatchingAssignmentsAppendStep(x, t, b, did);
    }
  }

  lemma MatchingAssignmentsAppendStep(x: Assignment, t: seq<Assignment>, b: seq<Assignment>, did: string)
    requires MatchingAssignments(t + b, did) == MatchingAssignments(t, did) + MatchingAssignments(b, did)
    ensures MatchingAssignments([x] + (t + b), did) == MatchingAssignments([x] + t, did) + MatchingAssignments(b, did)
  {
    var head := if x.patientDID == did then [x] else [];
    var ft, fb := MatchingAssignments(t, did), MatchingAssignments(b, did);
    calc {
      MatchingAssignments([x] + (t + b), did);
    == { MatchingAssignmentsCons(x, t + b, did); }
      head + MatchingAssignments(t + b, did);
    ==
      head + (ft + fb);
    == { SeqAssoc(head, ft, fb); }
      (head + ft) + fb;
    == { MatchingAssignmentsCons(x, t, did); }
      MatchingAssignments([x] + t, did) + fb;
    }
  }

  /** Filtering a list that starts with `x`. */
  lemma MatchingAssignmentsCons(x: Assignment, rest: seq<Assignment>, did: string)
    ensures MatchingAssignments([x] + rest, did) == (if x.patientDID == did then [x] else []) + MatchingAssignments(rest, did)
  {
    assert ([x] + rest)[1..] == rest;
  }


  /** Every device of the trial is kept as often as it occurs, and no other. */
  lemma {:induction false} DevicesOfTrialKeepsEveryOccurrence(devices: seq<Device>, trialSSI: string)
    ensures forall d :: multiset(DevicesOfTrial(devices, trialSSI))[d] ==
              if d.trialSSI == trialSSI then multiset(devices)[d] else 0
    decreases |devices|
  {
    if devices != [] {
      assert devices == [devices[0]] + devices[1..];
      DevicesOfTrialKeepsEveryOccurrence(devices[1..], trialSSI);
    }
  }

  /** The device filter keeps the trial's devices in their order, which
      decides the device a `splice(-1, 1)` removes. */
  lemma {:induction false} DevicesOfTrialAppend(a: seq<Device>, b: seq<Device>, trialSSI: string)
    ensures DevicesOfTrial(a + b, trialSSI) == DevicesOfTrial(a, trialSSI) + DevicesOfTrial(b, trialSSI)
    ensures forall x :: DevicesOfTrial([x], trialSSI) == if x.trialSSI == trialSSI then [x] else []
    decreases |a|
  {
    forall x ensures DevicesOfTrial([x], trialSSI) == if x.trialSSI == trialSSI then [x] else [] {
      assert [x][1..] == [];
    }
    if a == [] {
      assert a + b == b;
    } else {
      var x, t := a[0], a[1..];
      assert a == [x] + t && a + b == [x] + (t + b);
      DevicesOfTrialAppend(t, b, trialSSI);
      DevicesOfTrialAppendStep(x, t, b, trialSSI);
    }
  }

  lemma DevicesOfTrialAppendStep(x: Device, t: seq<Device>, b: seq<Device>, trialSSI: string)
    requires DevicesOfTrial(t + b, trialSSI) == DevicesOfTrial(t, trialSSI) + DevicesOfTrial(b, trialSSI)
    ensures DevicesOfTrial([x] + (t + b), trialSSI) == DevicesOfTrial([x] + t, trialSSI) + DevicesOfTrial(b, trialSSI)
  {
    var head := if x.trialSSI == trialSSI then [x] else [];
    var ft, fb := DevicesOfTrial(t, trialSSI), DevicesOfTrial(b, trialSSI);
    calc {
      DevicesOfTrial([x] + (t + b), trialSSI);
    == { DevicesOfTrialCons(x, t + b, trialSSI); }
      head + DevicesOfTrial(t + b, trialSSI);
    ==
      head + (ft + fb);
    == { SeqAssoc(head, ft, fb); }
      (head + ft) + fb;
    == { DevicesOfTrialCons(x, t, trialSSI); }
      DevicesOfTrial([x] + t, trialSSI) + fb;
    }
  }

  /** Filtering a list that starts with `x`. */
  lemma DevicesOfTrialCons(x: Device, rest: seq<Device>, trialSSI: string)
    ensures DevicesOfTrial([x] + rest, trialSSI) == (if x.trialSSI == trialSSI then [x] else []) + DevicesOfTrial(rest, trialSSI)
  {
    assert ([x] + rest)[1..] == rest;
  }


  /** `list.splice(start, 1)`: a negative start counts from the end. */
  function SpliceOne(list: seq<Device>, start: int): (r: seq<Device>)
    ensures 0 <= start < |list| ==> r == list[..start] + list[start + 1..]
    ensures start == -1 && list != [] ==> r == list[..|list| - 1]
    ensures |list| <= start ==> r == list
  {
    var s := RelativeIndex(start, |list|);
    if s < |list| then list[..s] + list[s + 1..] else list
  }

  /** Taking out position `s` takes exactly that element out of the multiset. */
  lemma RemovedAt(list: seq<Device>, s: nat)
    requires s < |list|
    ensures multiset(list[..s] + list[s + 1..]) + multiset{list[s]} == multiset(list)
  {
    assert list == list[..s] + [list[s]] + list[s + 1..];
  }

  /** One step of the removal loop, `splice(findIndex(t => t.sk === id), 1)`:
      the first device with that id goes; when there is none, `findIndex`
      answers -1 and the LAST device goes instead. */
  function RemoveFirstOrLast(list: seq<Device>, id: string): (r: seq<Device>)
    ensures list == [] ==> r == []
    ensures list != [] ==> |r| == |list| - 1
    ensures forall i :: 0 <= i < |list| && list[i].sk == id && (forall j :: 0 <= j < i ==> list[j].sk != id) ==>
              r == list[..i] + list[i + 1..]
    ensures list != [] && (forall j :: 0 <= j < |list| ==> list[j].sk != id) ==> r == list[..|list| - 1]
    ensures multiset(r) <= multiset(list)
  {
    var i := FindIndexBySk(list, id);
    if list == [] then SpliceOne(list, i)
    else
      var s := if i < 0 then |list| - 1 else i;
      RemovedAt(list, s);
      SpliceOne(list, i)
  }

  /** The list after one removal step per id, in id order. */
  function RemoveAssigned(list: seq<Device>, ids: seq<string>): seq<Device>
    decreases |ids|
  {
    if ids == [] then list
    else RemoveFirstOrLast(RemoveAssigned(list, ids[..|ids| - 1]), ids[|ids| - 1])
  }

  /** Every step removes one element while the list is non-empty, so `k` ids
      leave `max(0, n - k)` devices, all of them devices of the list. */
  lemma {:induction false} RemoveAssignedSize(list: seq<Device>, ids: seq<string>)
    ensures |RemoveAssigned(list, ids)| == if |ids| <= |list| then |list| - |ids| else 0
    ensures multiset(RemoveAssigned(list, ids)) <= multiset(list)
    decreases |ids|
  {
    if ids != [] {
      RemoveAssignedSize(list, ids[..|ids| - 1]);
    }
  }

  /** The `forEach` of `findAvailableDevicesToMatch`: one `splice` at the
      `findIndex` of each id, in id order. */
  method RemoveEach(list: seq<Device>, ids: seq<string>) returns (available: seq<Device>)
    ensures available == RemoveAssigned(list, ids)
  {
    available := list;
    var i := 0;
    while i < |ids|
      invariant 0 <= i <= |ids|
      invariant available == RemoveAssigned(list, ids[..i])
    {
      assert ids[..i + 1][..i] == ids[..i];
      assert RemoveAssigned(list, ids[..i + 1]) == RemoveFirstOrLast(available, ids[i]);
      available := SpliceOne(available, FindIndexBySk(available, ids[i]));
      i := i + 1;
    }
    assert ids[..i] == ids;
  }

  /** The option list of the assignment page, built with one push per device. */
  method BuildOptions(devices: seq<Device>) returns (ids: seq<DeviceOption>)
    ensures |ids| == |devices|
    ensures forall i :: 0 <= i < |devices| ==> ids[i] == DeviceOption(devices[i].sk, devices[i].deviceName)
  {
    ids := [];
    var i := 0;
    while i < |devices|
      invariant 0 <= i <= |devices|
      invariant |ids| == i
      invariant forall k :: 0 <= k < i ==> ids[k] == DeviceOption(devices[k].sk, devices[k].deviceName)
    {
      ids := ids + [DeviceOption(devices[i].sk, devices[i].deviceName)];
      i := i + 1;
    }
  }

  /** The device ids of assignments, in order. */
  function DeviceIds(found: seq<Assignment>): (ids: seq<string>)
    ensures |ids| == |found|
    ensures forall i :: 0 <= i < |found| ==> ids[i] == found[i].deviceId
  {
    if found == [] then [] else DeviceIds(found[..|found| - 1]) + [found[|found| - 1].deviceId]
  }

  /** What the device lookups of the assignments push, in order. */
  function Lookups(devices: seq<Device>, found: seq<Assignment>): (r: seq<Option<Device>>)
    ensures |r| == |found|
    ensures forall i :: 0 <= i < |found| ==> r[i] == FindBySk(devices, found[i].deviceId)
  {
    if found == [] then [] else Lookups(devices, found[..|found| - 1]) + [FindBySk(devices, found[|found| - 1].deviceId)]
  }

  /** The page model of `TrialParticipantDevicesListController`. */
  class DevicesListModel {
    const participantDID: string
    const participantName: string
    const tpUid: string
    const trialNumber: string
    const trialSSI: string

    var assignedDevices: seq<Option<Device>>
    var alldevices: seq<Device>
    var deviceListAvailable: bool
    var assignedDevicesIDsOnly: seq<string>
    var foundAssignedDevices: seq<Assignment>
    var deviceInfo: Option<Device>
    var allRegisteredDevices: seq<Device>
    var availableDevices: seq<Device>

    constructor (participantDID: string, participantName: string, tpUid: string, trialNumber: string, trialSSI: string)
      ensures this.participantDID == participantDID && this.participantName == participantName
      ensures this.tpUid == tpUid && this.trialNumber == trialNumber && this.trialSSI == trialSSI
      ensures assignedDevices == [] && alldevices == [] && !deviceListAvailable && assignedDevicesIDsOnly == []
      ensures foundAssignedDevices == [] && deviceInfo == None
      ensures allRegisteredDevices == [] && availableDevices == []
    {
      this.participantDID, this.participantName := participantDID, participantName;
      this.tpUid, this.trialNumber, this.trialSSI := tpUid, trialNumber, trialSSI;
      assignedDevices, alldevices, deviceListAvailable, assignedDevicesIDsOnly := [], [], false, [];
      foundAssignedDevices, deviceInfo := [], None;
      allRegisteredDevices, availableDevices := [], [];
    }

    /** `getDeviceFullInfo`, with the device search result as a parameter:
        pushes the first device with that id, or `undefined`. */
    method GetDeviceFullInfo(deviceID: string, devices: seq<Device>)
      modifies this`alldevices, this`deviceInfo, this`assignedDevices
      ensures alldevices == devices
      ensures deviceInfo == FindBySk(devices, deviceID)
      ensures assignedDevices == old(assignedDevices) + [FindBySk(devices, deviceID)]
    {
      alldevices := devices;
      deviceInfo := FindBySk(devices, deviceID);
      assignedDevices := assignedDevices + [deviceInfo];
    }

    /** The loop of `findAssignedDevices`: one device lookup and one id push
        per assignment found, each lookup running to completion in turn. */
    method LookUpAssigned(found: seq<Assignment>, devices: seq<Device>)
      requires found != []
      modifies this`assignedDevicesIDsOnly, this`alldevices, this`deviceInfo, this`assignedDevices
      ensures assignedDevicesIDsOnly == old(assignedDevicesIDsOnly) + DeviceIds(found)
      ensures assignedDevices == old(assignedDevices) + Lookups(devices, found)
      ensures alldevices == devices
      ensures deviceInfo == FindBySk(devices, found[|found| - 1].deviceId)
    {
      var ad := 0;
      while ad < |found|
        invariant 0 <= ad <= |found|
        invariant assignedDevicesIDsOnly == old(assignedDevicesIDsOnly) + DeviceIds(found[..ad])
        invariant assignedDevices == old(assignedDevices) + Lookups(devices, found[..ad])
        invariant ad > 0 ==>
                    alldevices == devices && deviceInfo == FindBySk(devices, found[ad - 1].deviceId)
      {
        var id := found[ad].deviceId;
        assert found[..ad + 1][..ad] == found[..ad];
        GetDeviceFullInfo(id, devices);
        assignedDevicesIDsOnly := assignedDevicesIDsOnly + [id];
        ad := ad + 1;
      }
      assert found[..ad] == found;
    }

    /** The callback of `findAssignedDevices`, with the assignment list and the
        device search result as parameters. */
    method FindAssignedDevices(assignments: seq<Assignment>, devices: seq<Device>)
      modifies this`foundAssignedDevices, this`deviceListAvailable, this`assignedDevicesIDsOnly
      modifies this`alldevices, this`deviceInfo, this`assignedDevices
      ensures foundAssignedDevices == MatchingAssignments(assignments, participantDID)
      ensures deviceListAvailable <==> |foundAssignedDevices| > 0
      ensures assignedDevicesIDsOnly == old(assignedDevicesIDsOnly) + DeviceIds(foundAssignedDevices)
      ensures assignedDevices == old(assignedDevices) + Lookups(devices, foundAssignedDevices)
      ensures alldevices == devices
      ensures deviceInfo == if foundAssignedDevices == [] then old(deviceInfo)
                            else FindBySk(devices, foundAssignedDevices[|foundAssignedDevices| - 1].deviceId)
    {
      foundAssignedDevices := MatchingAssignments(assignments, participantDID);
      if |foundAssignedDevices| > 0 {
        deviceListAvailable := true;
        LookUpAssigned(foundAssignedDevices, devices);
      } else {
        deviceListAvailable := false;
        alldevices := devices;
      }
    }

    /** `findAvailableDevicesToMatch`: `available_devices` is the same array as
        `all_registered_devices`, so the removals show through both. */
    method FindAvailableDevicesToMatch()
      modifies this`allRegisteredDevices, this`availableDevices
      ensures allRegisteredDevices == availableDevices
      ensures availableDevices == RemoveAssigned(DevicesOfTrial(alldevices, trialSSI), assignedDevicesIDsOnly)
    {
      var registered := DevicesOfTrial(alldevices, trialSSI);
      var available := RemoveEach(registered, assignedDevicesIDsOnly);
      allRegisteredDevices, availableDevices := available, available;
    }

    /** The "assign device" click: with no device left, the redirect page;
        otherwise the assignment page with one option per available device. */
    method AssignDevice() returns (outcome: AssignOutcome)
      modifies this`allRegisteredDevices, this`availableDevices
      ensures allRegisteredDevices == availableDevices
      ensures availableDevices == RemoveAssigned(DevicesOfTrial(alldevices, trialSSI), assignedDevicesIDsOnly)
      ensures outcome.NoDevicesRedirect? <==> availableDevices == []
      ensures outcome.AssignPage? ==>
        && outcome.participantDID == participantDID && outcome.participantName == participantName
        && outcome.tpUid == tpUid && outcome.trialNumber == trialNumber && outcome.trialSSI == trialSSI
        && |outcome.availableDevices| == |availableDevices|
        && forall i :: 0 <= i < |availableDevices| ==>
             outcome.availableDevices[i] == DeviceOption(availableDevices[i].sk, availableDevices[i].deviceName)
    {
      FindAvailableDevicesToMatch();
      if |availableDevices| == 0 {
        outcome := NoDevicesRedirect;
      } else {
        var ids := BuildOptions(availableDevices);
        outcome := AssignPage(ids, participantDID, participantName, tpUid, trialNumber, trialSSI);
      }
    }
  }
}
