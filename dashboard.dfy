/**
 * The dashboard page: a device list kept in component state and mirrored
 * to browser storage. Every change computes a new list with `map`,
 * `filter` or a spread, then sets it in state and writes the same list to
 * storage.
 */
module Dashboard {
  import opened Js
  import opened Lists
  import opened DeviceForm

  /** `{ ...input, id }` */
  function WithId(input: DeviceInput, id: string): Device
  {
    Device(id, input.name, input.macAddress, input.ipAddress, input.description, input.isOnline)
  }

  /** The wake handler's list update: the device with that id is marked online. */
  function MarkOnline(ds: seq<Device>, id: string): seq<Device>
  {
    MapWhere(ds, (d: Device) => d.id == id, (d: Device) => d.(isOnline := Some(true)))
  }

  /** The edit branch of `handleSaveDevice`: each entry with that id becomes the form data plus the id. */
  function ReplaceById(ds: seq<Device>, id: string, input: DeviceInput): seq<Device>
  {
    MapWhere(ds, (d: Device) => d.id == id, (d: Device) => WithId(input, id))
  }

  /** `handleDeleteDevice`'s filter: every entry with that id is dropped. */
  function RemoveById(ds: seq<Device>, id: string): seq<Device>
  {
    Without(ds, (d: Device) => d.id == id)
  }

  /** The device added by the add branch of `handleSaveDevice`. */
  function NewDevice(input: DeviceInput, id: string): Device
  {
    WithId(input.(isOnline := Some(false)), id)
  }

  predicate UniqueIds(ds: seq<Device>)
  {
    forall i, j | 0 <= i < j < |ds| :: ds[i].id != ds[j].id
  }

  predicate HasId(ds: seq<Device>, id: string)
  {
    exists i | 0 <= i < |ds| :: ds[i].id == id
  }

  /** The two devices shown when storage holds no list. */
  function SampleDevices(): seq<Device>
  {
    [ Device("1", "メインPC", "00:11:22:33:44:55", "192.168.1.100", Some("リビングのデスクトップPC"), Some(false)),
      Device("2", "ゲーミングPC", "AA:BB:CC:DD:EE:FF", "192.168.1.101", Some("ゲーム用PC"), Some(true)) ]
  }

  /** Marking online changes only the entries with that id, and in them only `isOnline`. */
  lemma MarkOnlineChangesOnlyMatch(ds: seq<Device>, id: string)
    ensures var r := MarkOnline(ds, id);
            && |r| == |ds|
            && (forall i | 0 <= i < |ds| && ds[i].id != id :: r[i] == ds[i])
            && (forall i | 0 <= i < |ds| && ds[i].id == id ::
                  r[i].isOnline == Some(true) && r[i].(isOnline := ds[i].isOnline) == ds[i])
  {
  }

  /** Editing replaces each entry with that id by the form data plus the id, so nothing of
      the old entry, `isOnline` included, is carried over; other entries stay. */
  lemma ReplaceByIdSpec(ds: seq<Device>, id: string, input: DeviceInput)
    ensures var r := ReplaceById(ds, id, input);
            && |r| == |ds|
            && (forall i | 0 <= i < |ds| && ds[i].id != id :: r[i] == ds[i])
            && (forall i | 0 <= i < |ds| && ds[i].id == id :: r[i] == WithId(input, id) && r[i].isOnline == input.isOnline)
  {
  }

  /** Deleting drops every entry with that id and keeps the others in their order. */
  lemma RemoveByIdSpec(ds: seq<Device>, id: string, more: seq<Device>)
    ensures !HasId(RemoveById(ds, id), id)
    ensures forall d | d in ds && d.id != id :: d in RemoveById(ds, id)
    ensures forall d | d in RemoveById(ds, id) :: d in ds
    ensures |RemoveById(ds, id)| == |ds| - Count(ds, (d: Device) => d.id == id)
    ensures |RemoveById(ds, id)| < |ds| <==> HasId(ds, id)
    ensures RemoveById(ds + more, id) == RemoveById(ds, id) + RemoveById(more, id)
  {
    var hit := (d: Device) => d.id == id;
    forall d | d in ds ensures d in RemoveById(ds, id) <==> d.id != id {
      WithoutMembers(ds, hit, d);
    }
    forall d | d in RemoveById(ds, id) ensures d in ds {
      WithoutMembers(ds, hit, d);
    }
    WithoutLength(ds, hit);
    CountZero(ds, hit);
    WithoutAppend(ds, more, hit);
  }

  /** Deleting an id no entry has leaves the list as it is. */
  lemma RemoveAbsentId(ds: seq<Device>, id: string)
    requires !HasId(ds, id)
    ensures RemoveById(ds, id) == ds
  {
    WithoutNothing(ds, (d: Device) => d.id == id);
  }

  /** Marking online, editing and deleting keep ids unique; adding does too when the new id is unused. */
  lemma {:induction false} UniqueIdsKept(ds: seq<Device>, id: string, input: DeviceInput, newId: string)
    requires UniqueIds(ds)
    ensures UniqueIds(MarkOnline(ds, id))
    ensures UniqueIds(ReplaceById(ds, id, input))
    ensures UniqueIds(RemoveById(ds, id))
    ensures !HasId(ds, newId) ==> UniqueIds(ds + [NewDevice(input, newId)])
  {
    var r := ReplaceById(ds, id, input);
    forall i, j | 0 <= i < j < |r| ensures r[i].id != r[j].id {
      assert r[i].id == ds[i].id && r[j].id == ds[j].id;
    }
    RemoveKeepsUnique(ds, id);
    if !HasId(ds, newId) {
      var s := ds + [NewDevice(input, newId)];
      forall i, j | 0 <= i < j < |s| ensures s[i].id != s[j].id {
        if j == |ds| {
          assert s[i] == ds[i];
        }
      }
    }
  }

  lemma {:induction false} RemoveKeepsUnique(ds: seq<Device>, id: string)
    requires UniqueIds(ds)
    ensures UniqueIds(RemoveById(ds, id))
  {
    if ds != [] {
      var hit := (d: Device) => d.id == id;
      RemoveKeepsUnique(ds[1..], id);
      var rest := RemoveById(ds[1..], id);
      assert RemoveById(ds, id) == (if hit(ds[0]) then [] else [ds[0]]) + rest;
      forall k | 0 <= k < |rest| ensures rest[k].id != ds[0].id {
        WithoutMembers(ds[1..], hit, rest[k]);
        var m :| 0 <= m < |ds[1..]| && ds[1..][m] == rest[k];
        assert ds[m + 1] == rest[k];
      }
    }
  }

  /** The sample devices have distinct ids. */
  lemma SampleIdsUnique()
    ensures |SampleDevices()| == 2 && UniqueIds(SampleDevices())
  {
    var ds := SampleDevices();
    assert ds[0].id != ds[1].id;
  }

  /** The sample MAC addresses pass the form's validator. */
  lemma SampleMacsValid()
    ensures ValidateMacAddress(SampleDevices()[0].macAddress) && ValidateMacAddress(SampleDevices()[1].macAddress)
  {
    DigitsMacValid();
    LettersMacValid();
  }

  /** The sample IP addresses pass the form's validator. */
  lemma SampleIpsValid()
    ensures ValidateIpAddress(SampleDevices()[0].ipAddress) && ValidateIpAddress(SampleDevices()[1].ipAddress)
  {
    MainIpValid();
    GamingIpValid();
  }

  lemma DigitsMacValid()
    ensures ValidateMacAddress("00:11:22:33:44:55")
  {
    var s := "00:11:22:33:44:55";
    assert s[3..] == "11:22:33:44:55" && s[3..][3..] == "22:33:44:55" && s[3..][3..][3..] == "33:44:55";
    assert s[3..][3..][3..][3..] == "44:55" && s[3..][3..][3..][3..][3..] == "55";
  }

  lemma LettersMacValid()
    ensures ValidateMacAddress("AA:BB:CC:DD:EE:FF")
  {
    var t := "AA:BB:CC:DD:EE:FF";
    assert t[3..] == "BB:CC:DD:EE:FF" && t[3..][3..] == "CC:DD:EE:FF" && t[3..][3..][3..] == "DD:EE:FF";
    assert t[3..][3..][3..][3..] == "EE:FF" && t[3..][3..][3..][3..][3..] == "FF";
  }

  lemma MainIpValid()
    ensures ValidateIpAddress(SampleDevices()[0].ipAddress)
  {
    SampleIp("100");
    assert SampleDevices()[0].ipAddress == "192.168.1." + "100";
  }

  lemma GamingIpValid()
    ensures ValidateIpAddress(SampleDevices()[1].ipAddress)
  {
    SampleIp("101");
    assert SampleDevices()[1].ipAddress == "192.168.1." + "101";
  }

  lemma SampleIpLast(last: string)
    requires |last| == 3 && last[0] == '1' && last[1] == '0' && IsDigit(last[2])
    ensures MatchDottedOctets("1." + last, 1)
  {
    var s := "1." + last;
    FirstIndexOfAt(s, '.', 1);
    assert s[2..] == last;
    assert s[..1] == "1";
  }

  lemma SampleIpTail(last: string)
    requires |last| == 3 && last[0] == '1' && last[1] == '0' && IsDigit(last[2])
    ensures MatchDottedOctets("168.1." + last, 2)
  {
    var s := "168.1." + last;
    FirstIndexOfAt(s, '.', 3);
    assert s[4..] == "1." + last;
    assert s[..3] == "168";
    SampleIpLast(last);
  }

  lemma SampleIp(last: string)
    requires |last| == 3 && last[0] == '1' && last[1] == '0' && IsDigit(last[2])
    ensures ValidateIpAddress("192.168.1." + last)
  {
    var s := "192.168.1." + last;
    FirstIndexOfAt(s, '.', 3);
    assert s[4..] == "168.1." + last;
    assert s[..3] == "192";
    SampleIpTail(last);
  }

  /** The request body the wake handler posts. */
  datatype WakeRequest = WakeRequest(macAddress: string, ipAddress: string)

  /** A `toast.success` or `toast.error` notification and its text. */
  datatype Toast = Success(text: string) | Failure(text: string)

  const WakeFailedToast := "WOLパケットの送信に失敗しました"
  const DeletedToast := "デバイスを削除しました"

  /** The dashboard's state: the list, the storage entry under "devices", and the form dialog. */
  class DashboardPage {
    var devices: seq<Device>
    var storage: Option<seq<Device>>
    var showDeviceForm: bool
    var editingDevice: Option<Device>
    var isLoading: bool
    var toasts: seq<Toast>

    /** The list in state is the list in storage, and a device is edited only in an open form. */
    ghost predicate Valid()
      reads this
    {
      storage == Some(devices) && (editingDevice.Some? ==> showDeviceForm)
    }

    /** Mounting: an empty list, then the load effect: the stored list if there is one,
        else the two sample devices, which are also stored. */
    constructor (saved: Option<seq<Device>>)
      ensures Valid()
      ensures devices == if saved.Some? then saved.value else SampleDevices()
      ensures !showDeviceForm && editingDevice.None? && !isLoading && toasts == []
    {
      devices := [];
      storage := saved;
      showDeviceForm := false;
      editingDevice := None;
      isLoading := false;
      toasts := [];
      if saved.Some? {
        devices := saved.value;
      } else {
        var sample := SampleDevices();
        devices := sample;
        storage := Some(sample);
      }
    }

    /** `handleWakeOnLan`, given whether the relay answered with an ok status; a failed
        status and a thrown request both leave the list alone and show the error toast. */
    method HandleWakeOnLan(device: Device, responseOk: bool) returns (sent: WakeRequest)
      requires Valid()
      modifies this
      ensures Valid()
      ensures sent == WakeRequest(device.macAddress, device.ipAddress)
      ensures devices == if responseOk then MarkOnline(old(devices), device.id) else old(devices)
      ensures toasts == old(toasts) + [if responseOk then Success(device.name + " への起動信号を送信しました") else Failure(WakeFailedToast)]
      ensures !isLoading
      ensures showDeviceForm == old(showDeviceForm) && editingDevice == old(editingDevice)
    {
      isLoading := true;
      sent := WakeRequest(device.macAddress, device.ipAddress);
      if responseOk {
        var updated := MarkOnline(devices, device.id);
        devices := updated;
        storage := Some(updated);
        toasts := toasts + [Success(device.name + " への起動信号を送信しました")];
      } else {
        toasts := toasts + [Failure(WakeFailedToast)];
      }
      isLoading := false;
    }

    /** The edit button: opens the form on that device. */
    method EditDevice(device: Device)
      requires Valid()
      modifies this
      ensures Valid()
      ensures editingDevice == Some(device) && showDeviceForm
      ensures devices == old(devices) && isLoading == old(isLoading)
      ensures toasts == old(toasts)
    {
      editingDevice := Some(device);
      showDeviceForm := true;
    }

    /** The add button: opens the form, leaving `editingDevice` as it is. */
    method OpenAddForm()
      requires Valid()
      modifies this
      ensures Valid()
      ensures showDeviceForm
      ensures editingDevice == old(editingDevice) && devices == old(devices) && isLoading == old(isLoading)
      ensures toasts == old(toasts)
    {
      showDeviceForm := true;
    }

    /** The form's cancel: closes it and forgets the edited device. */
    method CancelForm()
      requires Valid()
      modifies this
      ensures Valid()
      ensures !showDeviceForm && editingDevice.None?
      ensures devices == old(devices) && isLoading == old(isLoading)
      ensures toasts == old(toasts)
    {
      showDeviceForm := false;
      editingDevice := None;
    }

    /** `handleSaveDevice`: edits the device being edited, or appends a new one whose id is
        the clock reading `now`; either way the form closes. */
    method HandleSaveDevice(input: DeviceInput, now: string)
      requires Valid()
      modifies this
      ensures Valid()
      ensures old(editingDevice).Some? ==> devices == ReplaceById(old(devices), old(editingDevice).value.id, input)
      ensures old(editingDevice).None? ==> devices == old(devices) + [NewDevice(input, now)]
      ensures toasts == old(toasts) + [Success(input.name + if old(editingDevice).Some? then " の情報を更新しました" else " を追加しました")]
      ensures !showDeviceForm && editingDevice.None?
      ensures isLoading == old(isLoading)
    {
      if editingDevice.Some? {
        var updated := ReplaceById(devices, editingDevice.value.id, input);
        devices := updated;
        storage := Some(updated);
        toasts := toasts + [Success(input.name + " の情報を更新しました")];
      } else {
        var updated := devices + [NewDevice(input, now)];
        devices := updated;
        storage := Some(updated);
        toasts := toasts + [Success(input.name + " を追加しました")];
      }
      showDeviceForm := false;
      editingDevice := None;
    }

    /** `handleDeleteDevice` */
    method HandleDeleteDevice(id: string)
      requires Valid()
      modifies this
      ensures Valid()
      ensures devices == RemoveById(old(devices), id)
      ensures toasts == old(toasts) + [Success(DeletedToast)]
      ensures showDeviceForm == old(showDeviceForm) && editingDevice == old(editingDevice)
      ensures isLoading == old(isLoading)
    {
      var updated := RemoveById(devices, id);
      devices := updated;
      storage := Some(updated);
      toasts := toasts + [Success(DeletedToast)];
    }
  }
}
