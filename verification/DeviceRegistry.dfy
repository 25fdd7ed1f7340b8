// The list of devices of src/dev_model/dm_manager.c.
module DeviceRegistry {
  import opened Options

  const PRODUCT_KEY_LEN: nat := 20
  const PRODUCT_SECRET_LEN: nat := 64
  const DEVICE_KEY_LEN: nat := 64
  const DEVICE_SECRET_LEN: nat := 64
  const LOCAL_DEVID: int := 0

  datatype Device = Device(devid: int, productKey: string, deviceKey: string)

  // `issued` are the ids that were given out, in their order.
  datatype State = State(devices: seq<Device>, globalDevid: int, issued: seq<int>)

  // What dm_mgr_device_create is given.
  datatype Request = Request(productKey: string, productSecret: string, deviceKey: string, deviceSecret: Option<string>)

  predicate Fits(r: Request) {
    && |r.productKey| <= PRODUCT_KEY_LEN && |r.productSecret| <= PRODUCT_SECRET_LEN && |r.deviceKey| <= DEVICE_KEY_LEN
    && (r.deviceSecret.Some? ==> |r.deviceSecret.value| <= DEVICE_SECRET_LEN)
  }

  datatype Created = Refused | AlreadyThere(devid: int) | New(devid: int)

  // ---------- what the operations do ----------

  // The place of the first device with the id, or the length of the list.
  function PlaceOf(devices: seq<Device>, devid: int, i: nat): (p: nat)
    requires i <= |devices|
    ensures i <= p <= |devices|
    ensures forall k :: i <= k < p ==> devices[k].devid != devid
    ensures p < |devices| ==> devices[p].devid == devid
    decreases |devices| - i
  {
    if i == |devices| || devices[i].devid == devid then i else PlaceOf(devices, devid, i + 1)
  }

  function PlaceOfKeys(devices: seq<Device>, productKey: string, deviceKey: string, i: nat): (p: nat)
    requires i <= |devices|
    ensures i <= p <= |devices|
    ensures forall k :: i <= k < p ==> devices[k].productKey != productKey || devices[k].deviceKey != deviceKey
    ensures p < |devices| ==> devices[p].productKey == productKey && devices[p].deviceKey == deviceKey
    decreases |devices| - i
  {
    if i == |devices| || (devices[i].productKey == productKey && devices[i].deviceKey == deviceKey) then i
    else PlaceOfKeys(devices, productKey, deviceKey, i + 1)
  }

  function Initial(productKey: string, deviceKey: string): State {
    State([Device(LOCAL_DEVID, productKey, deviceKey)], LOCAL_DEVID + 1, [LOCAL_DEVID])
  }

  function CreateResult(s: State, r: Request, memory: bool): Created {
    if !Fits(r) then Refused
    else
      var p := PlaceOfKeys(s.devices, r.productKey, r.deviceKey, 0);
      if p < |s.devices| then AlreadyThere(s.devices[p].devid) else if !memory then Refused else New(s.globalDevid)
  }

  function Create(s: State, r: Request, memory: bool): State {
    if CreateResult(s, r, memory).New?
    then State(s.devices + [Device(s.globalDevid, r.productKey, r.deviceKey)], s.globalDevid + 1, s.issued + [s.globalDevid])
    else s
  }

  // The local node stays.
  predicate CanDestroy(s: State, devid: int) {
    devid >= 0 && PlaceOf(s.devices, devid, 0) < |s.devices| && devid != LOCAL_DEVID
  }

  function Destroy(s: State, devid: int): State {
    if CanDestroy(s, devid) then
      var p := PlaceOf(s.devices, devid, 0);
      s.(devices := Without(s.devices, p))
    else s
  }

  // The id behind the first device with the id.
  function NextDevid(devices: seq<Device>, devid: int): Option<int> {
    var p := PlaceOf(devices, devid, 0);
    if devid < 0 || p + 1 >= |devices| then None else Some(devices[p + 1].devid)
  }

  // ---------- what every run keeps ----------

  predicate Increasing(ids: seq<int>) {
    forall i, j :: 0 <= i < j < |ids| ==> ids[i] < ids[j]
  }

  function Ids(devices: seq<Device>): (ids: seq<int>)
    ensures |ids| == |devices| && forall i :: 0 <= i < |ids| ==> ids[i] == devices[i].devid
  {
    seq(|devices|, i requires 0 <= i < |devices| => devices[i].devid)
  }

  predicate KeysUnique(devices: seq<Device>) {
    forall i, j :: 0 <= i < j < |devices| ==>
      devices[i].productKey != devices[j].productKey || devices[i].deviceKey != devices[j].deviceKey
  }

  // The ids of the list increase from 0 and stay below the next one; an id that was given out once
  // is not given out again.
  ghost predicate Inv(s: State) {
    && Increasing(Ids(s.devices)) && |s.devices| > 0 && s.devices[0].devid == LOCAL_DEVID
    && (forall i :: 0 <= i < |s.devices| ==> s.devices[i].devid < s.globalDevid)
    && KeysUnique(s.devices)
    && Increasing(s.issued) && (forall i :: 0 <= i < |s.issued| ==> s.issued[i] < s.globalDevid)
    && (forall i :: 0 <= i < |s.devices| ==> s.devices[i].devid in s.issued)
  }

  lemma InitialInv(productKey: string, deviceKey: string)
    ensures Inv(Initial(productKey, deviceKey))
  {}

  lemma CreateKeeps(s: State, r: Request, memory: bool)
    requires Inv(s)
    ensures Inv(Create(s, r, memory))
    ensures CreateResult(s, r, memory).New? ==> CreateResult(s, r, memory).devid !in s.issued
  {
    hide Fits;
    if CreateResult(s, r, memory).New? {
      var d := Device(s.globalDevid, r.productKey, r.deviceKey);
      AppendKeepsOrder(s.devices, d);
    }
  }

  lemma AppendKeepsOrder(devices: seq<Device>, d: Device)
    requires Increasing(Ids(devices)) && KeysUnique(devices)
    requires forall i :: 0 <= i < |devices| ==> devices[i].devid < d.devid
    requires forall i :: 0 <= i < |devices| ==> devices[i].productKey != d.productKey || devices[i].deviceKey != d.deviceKey
    ensures Increasing(Ids(devices + [d])) && KeysUnique(devices + [d])
  {
    assert Ids(devices + [d]) == Ids(devices) + [d.devid];
    hide Ids;
  }

  function Without(devices: seq<Device>, p: nat): seq<Device>
    requires p < |devices|
  {
    devices[..p] + devices[p + 1..]
  }

  lemma WithoutIs(devices: seq<Device>, p: nat, k: nat)
    requires p < |devices| && k < |devices| - 1
    ensures Without(devices, p)[k] == devices[if k < p then k else k + 1]
  {}

  lemma WithoutKeepsOrder(devices: seq<Device>, p: nat)
    requires p < |devices| && Increasing(Ids(devices)) && KeysUnique(devices)
    ensures Increasing(Ids(Without(devices, p))) && KeysUnique(Without(devices, p))
  {
    hide Without;
    var left := Without(devices, p);
    assert |left| == |devices| - 1 by {
      LengthWithout(devices, p);
    }
    forall i, j | 0 <= i < j < |left| ensures left[i].devid < left[j].devid
      && (left[i].productKey != left[j].productKey || left[i].deviceKey != left[j].deviceKey) {
      WithoutIs(devices, p, i);
      WithoutIs(devices, p, j);
      var x, y := if i < p then i else i + 1, if j < p then j else j + 1;
      assert Ids(devices)[x] < Ids(devices)[y];
    }
  }

  lemma LengthWithout(devices: seq<Device>, p: nat)
    requires p < |devices|
    ensures |Without(devices, p)| == |devices| - 1
  {}

  // The destroyed id is gone from the list.
  lemma DestroyKeeps(s: State, devid: int)
    requires Inv(s)
    ensures Inv(Destroy(s, devid))
    ensures CanDestroy(s, devid) ==> forall k :: 0 <= k < |Destroy(s, devid).devices| ==> Destroy(s, devid).devices[k].devid != devid
  {
    if CanDestroy(s, devid) {
      var p := PlaceOf(s.devices, devid, 0);
      var left := Without(s.devices, p);
      WithoutKeepsOrder(s.devices, p);
      hide Increasing, KeysUnique, PlaceOf;
      forall k | 0 <= k < |left|
        ensures left[k].devid != devid && left[k].devid < s.globalDevid && left[k].devid in s.issued
      {
        WithoutIs(s.devices, p, k);
        SameId(s.devices, p, if k < p then k else k + 1);
      }
    }
  }

  lemma SameId(devices: seq<Device>, p: nat, k: nat)
    requires Increasing(Ids(devices)) && p < |devices| && k < |devices|
    ensures devices[p].devid == devices[k].devid <==> p == k
  {
    assert Ids(devices)[p] == devices[p].devid && Ids(devices)[k] == devices[k].devid;
  }

  datatype Operation = OpCreate(request: Request, memory: bool) | OpDestroy(devid: int)

  function Apply(s: State, op: Operation): State {
    match op
    case OpCreate(request, memory) => Create(s, request, memory)
    case OpDestroy(devid) => Destroy(s, devid)
  }

  function Run(s: State, ops: seq<Operation>): State
    decreases |ops|
  {
    if ops == [] then s else Run(Apply(s, ops[0]), ops[1..])
  }

  lemma {:induction false} RunKeeps(s: State, ops: seq<Operation>)
    requires Inv(s)
    ensures Inv(Run(s, ops))
    decreases |ops|
  {
    hide Inv, Create, Destroy;
    if ops != [] {
      match ops[0] {
        case OpCreate(request, memory) => CreateKeeps(s, request, memory);
        case OpDestroy(devid) => DestroyKeeps(s, devid);
      }
      RunKeeps(Apply(s, ops[0]), ops[1..]);
    }
  }

  // After any creates and destroys: the ids of the list increase from 0, stay below the next id, and no
  // id was given out twice; no two devices have both keys in common.
  lemma RunsFromStart(productKey: string, deviceKey: string, ops: seq<Operation>)
    ensures var s := Run(Initial(productKey, deviceKey), ops);
            && Increasing(Ids(s.devices)) && |s.devices| > 0 && s.devices[0].devid == LOCAL_DEVID
            && (forall i :: 0 <= i < |s.devices| ==> s.devices[i].devid < s.globalDevid)
            && KeysUnique(s.devices) && Increasing(s.issued)
  {
    InitialInv(productKey, deviceKey);
    RunKeeps(Initial(productKey, deviceKey), ops);
    hide Run;
  }

  // ---------- walking ----------

  // The ids that repeated calls give, from an id on.
  function WalkFrom(devices: seq<Device>, devid: int, calls: nat): seq<int>
    decreases calls
  {
    var next := NextDevid(devices, devid);
    if calls == 0 || next.None? then [devid] else [devid] + WalkFrom(devices, next.value, calls - 1)
  }

  lemma NextIsNext(s: State, i: nat)
    requires Inv(s) && i < |s.devices|
    ensures s.devices[i].devid >= 0 && PlaceOf(s.devices, s.devices[i].devid, 0) == i
    ensures NextDevid(s.devices, s.devices[i].devid) ==
            if i + 1 < |s.devices| then Some(s.devices[i + 1].devid) else None
  {
    SameId(s.devices, PlaceOf(s.devices, s.devices[i].devid, 0), i);
    assert i > 0 ==> Ids(s.devices)[0] < Ids(s.devices)[i];
  }

  // ---------- creating, finding, destroying ----------

  // The device that keys or an id lead to.
  function Found(s: State, productKey: string, deviceKey: string): Option<Device> {
    var p := PlaceOfKeys(s.devices, productKey, deviceKey, 0);
    if p == |s.devices| then None else Some(s.devices[p])
  }

  function Known(s: State, devid: int): Option<Device> {
    var p := PlaceOf(s.devices, devid, 0);
    if p == |s.devices| then None else Some(s.devices[p])
  }

  // In a state of a run, the device of the list with the keys is the one that is found, and likewise
  // by its id.
  lemma FoundIs(s: State, d: Device)
    requires Inv(s)
    ensures Found(s, d.productKey, d.deviceKey) == Some(d) <==> d in s.devices
    ensures Known(s, d.devid) == Some(d) <==> d in s.devices
  {
    if d in s.devices {
      var i :| 0 <= i < |s.devices| && s.devices[i] == d;
      var p := PlaceOfKeys(s.devices, d.productKey, d.deviceKey, 0);
      assert p == i;
      SameId(s.devices, PlaceOf(s.devices, d.devid, 0), i);
    }
  }

  // A created device is found by its keys and by the id that was returned, and every other device is
  // found as before; nothing else is found.
  lemma CreatedIsFound(s: State, r: Request, memory: bool, d: Device)
    requires Inv(s) && CreateResult(s, r, memory).New?
    ensures var after := Create(s, r, memory); var created := Device(CreateResult(s, r, memory).devid, r.productKey, r.deviceKey);
            && (Found(after, d.productKey, d.deviceKey) == Some(d) <==> d == created || Found(s, d.productKey, d.deviceKey) == Some(d))
            && (Known(after, d.devid) == Some(d) <==> d == created || Known(s, d.devid) == Some(d))
  {
    CreateKeeps(s, r, memory);
    FoundIs(s, d);
    FoundIs(Create(s, r, memory), d);
  }

  // A destroyed device is found no more, and every other one as before.
  lemma DestroyedIsGone(s: State, devid: int, d: Device)
    requires Inv(s) && CanDestroy(s, devid)
    ensures var after := Destroy(s, devid);
            && (Found(after, d.productKey, d.deviceKey) == Some(d) <==> d.devid != devid && Found(s, d.productKey, d.deviceKey) == Some(d))
            && (Known(after, d.devid) == Some(d) <==> d.devid != devid && Known(s, d.devid) == Some(d))
  {
    DestroyKeeps(s, devid);
    FoundIs(s, d);
    FoundIs(Destroy(s, devid), d);
    var p := PlaceOf(s.devices, devid, 0);
    StaysIff(s.devices, p, d);
  }

  lemma StaysIff(devices: seq<Device>, p: nat, d: Device)
    requires p < |devices| && Increasing(Ids(devices))
    ensures d in Without(devices, p) <==> d in devices && d.devid != devices[p].devid
  {
    if d in devices && d.devid != devices[p].devid {
      var i :| 0 <= i < |devices| && devices[i] == d;
      assert Without(devices, p)[if i < p then i else i - 1] == d;
    }
    if d in Without(devices, p) {
      var k :| 0 <= k < |Without(devices, p)| && Without(devices, p)[k] == d;
      var i := if k < p then k else k + 1;
      assert devices[i] == d;
      assert Ids(devices)[if i < p then i else p] < Ids(devices)[if i < p then p else i];
    }
  }

  // Walking from 0 with enough calls visits every device once, in the order of the list, and as many as
  // the list is long.
  lemma {:induction false} WalkFromPlace(s: State, i: nat, calls: nat)
    requires Inv(s) && i < |s.devices| && calls >= |s.devices| - i - 1
    ensures WalkFrom(s.devices, s.devices[i].devid, calls) == Ids(s.devices)[i..]
    decreases |s.devices| - i
  {
    hide NextDevid, Inv, Ids;
    NextIsNext(s, i);
    IdsFrom(s.devices, i);
    if i + 1 < |s.devices| {
      WalkFromPlace(s, i + 1, calls - 1);
    }
  }

  lemma IdsFrom(devices: seq<Device>, i: nat)
    requires i < |devices|
    ensures Ids(devices)[i..] == [devices[i].devid] + Ids(devices)[i + 1..]
    ensures i + 1 == |devices| ==> Ids(devices)[i + 1..] == []
  {}

  lemma WalkVisitsAll(s: State, calls: nat)
    requires Inv(s) && calls >= |s.devices|
    ensures WalkFrom(s.devices, LOCAL_DEVID, calls) == Ids(s.devices)
  {
    WalkFromPlace(s, 0, calls);
  }

  // ---------- the code ----------

  class Manager {
    var devList: seq<Device>
    var globalDevid: int
    ghost var issued: seq<int>

    ghost function View(): State
      reads this
    {
      State(devList, globalDevid, issued)
    }

    // dm_mgr_init, when the keys of the local node are short enough.
    constructor (productKey: string, deviceKey: string)
      requires |productKey| <= PRODUCT_KEY_LEN && |deviceKey| <= DEVICE_KEY_LEN
      ensures View() == Initial(productKey, deviceKey)
    {
      devList := [Device(LOCAL_DEVID, productKey, deviceKey)];
      globalDevid := LOCAL_DEVID + 1;
      issued := [LOCAL_DEVID];
    }

    method SearchByDevid(devid: int) returns (p: nat)
      ensures p == PlaceOf(devList, devid, 0)
    {
      p := 0;
      while p < |devList| && devList[p].devid != devid
        invariant p <= |devList| && PlaceOf(devList, devid, p) == PlaceOf(devList, devid, 0)
      {
        p := p + 1;
      }
    }

    method SearchByKeys(productKey: string, deviceKey: string) returns (p: nat)
      ensures p == PlaceOfKeys(devList, productKey, deviceKey, 0)
    {
      p := 0;
      while p < |devList| && !(devList[p].productKey == productKey && devList[p].deviceKey == deviceKey)
        invariant p <= |devList| && PlaceOfKeys(devList, productKey, deviceKey, p) == PlaceOfKeys(devList, productKey, deviceKey, 0)
      {
        p := p + 1;
      }
    }

    method DeviceCreate(r: Request, memory: bool) returns (res: Created)
      modifies this
      ensures res == CreateResult(old(View()), r, memory) && View() == Create(old(View()), r, memory)
    {
      if !Fits(r) {
        return Refused;
      }
      var p := SearchByKeys(r.productKey, r.deviceKey);
      if p < |devList| {
        return AlreadyThere(devList[p].devid);
      }
      if !memory {
        return Refused;
      }
      var devid := globalDevid;
      globalDevid := globalDevid + 1;
      devList := devList + [Device(devid, r.productKey, r.deviceKey)];
      issued := issued + [devid];
      res := New(devid);
    }

    method DeviceDestroy(devid: int) returns (ok: bool)
      modifies this
      ensures ok <==> CanDestroy(old(View()), devid)
      ensures View() == Destroy(old(View()), devid)
    {
      ok := false;
      if devid < 0 {
        return;
      }
      var p := SearchByDevid(devid);
      if p == |devList| || devList[p].devid == LOCAL_DEVID {
        return;
      }
      devList := devList[..p] + devList[p + 1..];
      ok := true;
    }

    method DeviceNumber() returns (index: nat)
      ensures index == |devList|
    {
      index := 0;
      while index < |devList|
        invariant index <= |devList|
      {
        index := index + 1;
      }
    }

    method GetDevidByIndex(index: int) returns (devid: Option<int>)
      ensures devid == if 0 <= index < |devList| then Some(Ids(devList)[index]) else None
    {
      devid := None;
      if index < 0 {
        return;
      }
      var searchIndex := 0;
      while searchIndex < |devList|
        invariant searchIndex <= |devList| && searchIndex <= index
      {
        if searchIndex == index {
          return Some(devList[searchIndex].devid);
        }
        searchIndex := searchIndex + 1;
      }
    }

    // The loop remembers the node with the id, and the turn after that returns.
    method GetNextDevid(devid: int) returns (next: Option<int>)
      ensures next == NextDevid(devList, devid)
    {
      next := None;
      if devid < 0 {
        return;
      }
      var searchNode, i := None, 0;
      while i < |devList|
        invariant i <= |devList|
        invariant searchNode == None ==> PlaceOf(devList, devid, 0) >= i
        invariant searchNode.Some? ==> i > 0 && PlaceOf(devList, devid, 0) == i - 1 && searchNode.value == devList[i - 1]
      {
        if searchNode.Some? && searchNode.value.devid == devid {
          return Some(devList[i].devid);
        }
        if devList[i].devid == devid {
          searchNode := Some(devList[i]);
        }
        i := i + 1;
      }
    }
  }
}
