/**
 * The device context: an SWR cache of the signed-in user's devices and four
 * handlers that call the device and wake routes. Update and delete rewrite
 * the cache before the server answers (optimistically); wake rewrites it
 * only after a successful answer. Add, a successful delete and a thrown
 * update ask SWR to refetch. The server's answer is a parameter of each
 * handler.
 */
module DevicesContext {
  import opened Js
  import opened Lists
  import DeviceForm

  /** A device as the context and the server routes see it: no IP address. */
  datatype Device = Device(id: string, name: string, macAddress: string, description: Option<string>, isOnline: Option<bool>)

  /** What the device form hands to `addDevice` and `updateDevice`. */
  datatype FormValues = FormValues(name: string, macAddress: string, description: Option<string>)

  /** `data.description?.trim() || ''` */
  function DescriptionText(description: Option<string>): string
  {
    if description.Some? then Trim(description.value) else ""
  }

  /** `data.macAddress.trim().toUpperCase()` */
  function MacText(data: FormValues): string
  {
    ToUpper(Trim(data.macAddress))
  }

  /** The entry the optimistic update writes: `{ ...d, name, macAddress, description }`. */
  function Rewritten(d: Device, data: FormValues): Device
  {
    d.(name := Trim(data.name), macAddress := MacText(data), description := Some(DescriptionText(data.description)))
  }

  /** The cache transform of `updateDevice`: `currentDevices?.map(...)`. */
  function ApplyUpdate(cache: Option<seq<Device>>, id: string, data: FormValues): Option<seq<Device>>
  {
    if cache.None? then None
    else Some(MapWhere(cache.value, (d: Device) => d.id == id, (d: Device) => Rewritten(d, data)))
  }

  /** The cache transform of `deleteDevice`: `currentDevices?.filter(...)`. */
  function ApplyDelete(cache: Option<seq<Device>>, id: string): Option<seq<Device>>
  {
    if cache.None? then None else Some(Without(cache.value, (d: Device) => d.id == id))
  }

  /** The cache transform of `sendWakeOnLan` after a successful answer. */
  function ApplyWake(cache: Option<seq<Device>>, id: string): Option<seq<Device>>
  {
    if cache.None? then None
    else Some(MapWhere(cache.value, (d: Device) => d.id == id, (d: Device) => d.(isOnline := Some(true))))
  }

  /** The JSON body posted to the add route. */
  datatype AddRequest = AddRequest(name: string, macAddress: string, description: string, userId: string)

  function AddPayload(data: FormValues, userId: string): AddRequest
  {
    AddRequest(Trim(data.name), MacText(data), DescriptionText(data.description), userId)
  }

  /** The JSON body posted to the update route: no description. */
  datatype UpdateRequest = UpdateRequest(id: string, name: string, macAddress: string)

  function UpdatePayload(id: string, data: FormValues): UpdateRequest
  {
    UpdateRequest(id, Trim(data.name), MacText(data))
  }

  /** The JSON body posted to the delete route; `userId` may be absent. */
  datatype DeleteRequest = DeleteRequest(id: string, userId: Option<string>)

  /** What an awaited server call came to: a response (its `ok` flag and the body's
      `success` and `message`), or a thrown error with its `message`. */
  datatype Reply = Responded(ok: bool, success: bool, message: Option<string>) | Threw(error: Option<string>)

  predicate Succeeded(reply: Reply)
  {
    reply.Responded? && reply.ok && reply.success
  }

  /** `a || fallback` on an optional message. */
  function OrElse(a: Option<string>, fallback: string): string
  {
    if Truthy(a) then a.value else fallback
  }

  /** A thrown error or the value a call returned. */
  datatype Outcome<T> = Returned(value: T) | Raised(message: string)

  /** The select route's answer as the fetcher reads it. */
  datatype SelectReply = SelectReply(ok: bool, message: Option<string>, devices: Option<seq<Device>>)

  /** What `fetcher` did: the user id it posted, if it posted at all, and its outcome. */
  datatype FetchResult = FetchResult(posted: Option<string>, outcome: Outcome<seq<Device>>)

  /** `fetcher`: refuses before any request without a user id; otherwise posts it and
      returns the devices, `[]` when the body has none. */
  function Fetcher(userId: Option<string>, reply: SelectReply): (r: FetchResult)
    ensures r.posted.Some? <==> Truthy(userId)
    ensures r.posted.Some? ==> r.posted == userId
    ensures !Truthy(userId) ==> r.outcome == Raised("User not authenticated")
    ensures Truthy(userId) && reply.ok && reply.devices.Some? ==> r.outcome == Returned(reply.devices.value)
    ensures Truthy(userId) && reply.ok && reply.devices.None? ==> r.outcome == Returned([])
    ensures Truthy(userId) && !reply.ok ==> r.outcome == Raised(OrElse(reply.message, "Failed to fetch devices"))
    ensures Truthy(userId) && !reply.ok ==> r.outcome.message != ""
  {
    if !Truthy(userId) then FetchResult(None, Raised("User not authenticated"))
    else if !reply.ok then FetchResult(userId, Raised(OrElse(reply.message, "Failed to fetch devices")))
    else FetchResult(userId, Returned(if reply.devices.Some? then reply.devices.value else []))
  }

  /** `useDevices`: the context value, or an error outside a provider. */
  function UseDevices<C>(context: Option<C>): (r: Outcome<C>)
    ensures context.None? <==> r.Raised?
    ensures context.Some? ==> r == Returned(context.value)
  {
    if context.None? then Raised("useDevices must be used within a DeviceProvider") else Returned(context.value)
  }

  /** The optimistic update rewrites exactly the entries with that id; in them it keeps the
      id and `isOnline` and sets the normalised name, MAC and description. */
  lemma ApplyUpdateSpec(devices: seq<Device>, id: string, data: FormValues)
    ensures var r := ApplyUpdate(Some(devices), id, data).value;
            && |r| == |devices|
            && (forall i | 0 <= i < |r| && devices[i].id != id :: r[i] == devices[i])
            && (forall i | 0 <= i < |r| && devices[i].id == id ::
                  && r[i].id == id && r[i].isOnline == devices[i].isOnline
                  && r[i].name == Trim(data.name) && r[i].macAddress == ToUpper(Trim(data.macAddress))
                  && r[i].description == Some(DescriptionText(data.description)))
    ensures ApplyUpdate(None, id, data) == None
  {
  }

  /** The optimistic delete drops every entry with that id and keeps the rest in order. */
  lemma ApplyDeleteSpec(devices: seq<Device>, id: string, more: seq<Device>)
    ensures var r := ApplyDelete(Some(devices), id).value;
            && (forall i | 0 <= i < |r| :: r[i].id != id)
            && (forall d | d in devices && d.id != id :: d in r)
            && (forall d | d in r :: d in devices)
    ensures ApplyDelete(Some(devices + more), id).value ==
              ApplyDelete(Some(devices), id).value + ApplyDelete(Some(more), id).value
  {
    var hit := (d: Device) => d.id == id;
    forall d | d in devices ensures d in Without(devices, hit) <==> d.id != id {
      WithoutMembers(devices, hit, d);
    }
    forall d | d in Without(devices, hit) ensures d in devices {
      WithoutMembers(devices, hit, d);
    }
    WithoutAppend(devices, more, hit);
  }

  /** A successful wake marks the entries with that id online and changes nothing else. */
  lemma ApplyWakeSpec(devices: seq<Device>, id: string)
    ensures var r := ApplyWake(Some(devices), id).value;
            && |r| == |devices|
            && (forall i | 0 <= i < |r| && devices[i].id != id :: r[i] == devices[i])
            && (forall i | 0 <= i < |r| && devices[i].id == id ::
                  r[i].isOnline == Some(true) && r[i].(isOnline := devices[i].isOnline) == devices[i])
  {
  }

  /** The add payload is already normalised: normalising it again gives it back, and its
      MAC passes the validator exactly when the trimmed input does. */
  lemma AddPayloadNormalised(data: FormValues, userId: string)
    ensures var p := AddPayload(data, userId);
            && AddPayload(FormValues(p.name, p.macAddress, Some(p.description)), userId) == p
            && (DeviceForm.ValidateMacAddress(p.macAddress) <==> DeviceForm.ValidateMacAddress(Trim(data.macAddress)))
            && p.userId == userId
  {
    TrimIdempotent(data.name);
    TrimToUpperTrimmed(data.macAddress);
    ToUpperIdempotent(Trim(data.macAddress));
    if data.description.Some? {
      TrimIdempotent(data.description.value);
    }
    DeviceForm.ToUpperKeepsMac(Trim(data.macAddress));
  }

  /** The update request carries the same name and MAC the optimistic entry shows, and
      never a description. */
  lemma UpdatePayloadMatchesCache(d: Device, id: string, data: FormValues)
    ensures var q := UpdatePayload(id, data);
            q.id == id && q.name == Rewritten(d, data).name && q.macAddress == Rewritten(d, data).macAddress
  {
  }

  /** How a toast ended: a success, an error, or a promise toast left loading because its
      promise never settled. */
  datatype ToastKind = Success | Failure | Loading
  datatype Toast = Toast(kind: ToastKind, text: Option<string>)

  /** The provider's state: the signed-in user, SWR's cached list, how many refetches
      were asked for, and the toasts shown so far. */
  class DeviceProvider {
    var userId: Option<string>
    var cache: Option<seq<Device>>
    var revalidations: nat
    var toasts: seq<Toast>

    constructor (userId: Option<string>, cache: Option<seq<Device>>)
      ensures this.userId == userId && this.cache == cache
      ensures revalidations == 0 && toasts == []
    {
      this.userId := userId;
      this.cache := cache;
      revalidations := 0;
      toasts := [];
    }

    /** `addDevice`: with no user id, an error toast and no request; otherwise it posts the
        normalised payload and refetches after a success. The cache is not touched. */
    method AddDevice(data: FormValues, reply: Reply) returns (sent: Option<AddRequest>)
      modifies this
      ensures !Truthy(userId) ==> sent.None? && toasts == old(toasts) + [Toast(Failure, Some("ユーザー情報が取得できませんでした"))]
      ensures Truthy(userId) ==> sent == Some(AddPayload(data, userId.value))
      ensures Truthy(userId) && Succeeded(reply) ==>
                toasts == old(toasts) + [Toast(Success, Some(data.name + " を追加しました"))]
                && revalidations == old(revalidations) + 1
      ensures Truthy(userId) && reply.Responded? && !Succeeded(reply) ==>
                toasts == old(toasts) + [Toast(Failure, Some(OrElse(reply.message, "デバイスの追加に失敗しました")))]
      ensures Truthy(userId) && reply.Threw? ==>
                toasts == old(toasts) + [Toast(Failure, Some(OrElse(reply.error, "デバイスの追加に失敗しました")))]
      ensures !(Truthy(userId) && Succeeded(reply)) ==> revalidations == old(revalidations)
      ensures cache == old(cache) && userId == old(userId)
    {
      if !Truthy(userId) {
        toasts := toasts + [Toast(Failure, Some("ユーザー情報が取得できませんでした"))];
        sent := None;
        return;
      }
      sent := Some(AddPayload(data, userId.value));
      if Succeeded(reply) {
        toasts := toasts + [Toast(Success, Some(data.name + " を追加しました"))];
        revalidations := revalidations + 1;
      } else if reply.Responded? {
        toasts := toasts + [Toast(Failure, Some(OrElse(reply.message, "デバイスの追加に失敗しました")))];
      } else {
        toasts := toasts + [Toast(Failure, Some(OrElse(reply.error, "デバイスの追加に失敗しました")))];
      }
    }

    /** `updateDevice`: rewrites the cache first, then posts id, name and MAC. A refused
        answer rejects with the body's message, which may be absent; a thrown request shows
        its own error toast and refetches, and its promise toast never settles. */
    method UpdateDevice(id: string, data: FormValues, reply: Reply) returns (sent: UpdateRequest)
      modifies this
      ensures cache == ApplyUpdate(old(cache), id, data)
      ensures sent == UpdatePayload(id, data)
      ensures Succeeded(reply) ==> toasts == old(toasts) + [Toast(Success, Some(data.name + " の情報を更新しました！"))]
      ensures reply.Responded? && !Succeeded(reply) ==> toasts == old(toasts) + [Toast(Failure, reply.message)]
      ensures reply.Threw? ==>
                toasts == old(toasts) + [Toast(Loading, Some("更新中...")), Toast(Failure, Some(OrElse(reply.error, "デバイスの更新に失敗しました")))]
      ensures revalidations == old(revalidations) + (if reply.Threw? then 1 else 0)
      ensures userId == old(userId)
    {
      cache := ApplyUpdate(cache, id, data);
      sent := UpdatePayload(id, data);
      if Succeeded(reply) {
        toasts := toasts + [Toast(Success, Some(data.name + " の情報を更新しました！"))];
      } else if reply.Responded? {
        toasts := toasts + [Toast(Failure, reply.message)];
      } else {
        toasts := toasts + [Toast(Loading, Some("更新中...")), Toast(Failure, Some(OrElse(reply.error, "デバイスの更新に失敗しました")))];
        revalidations := revalidations + 1;
      }
    }

    /** `deleteDevice`: removes the entries from the cache first; a success refetches, a
        refusal keeps the optimistic list, and a thrown request restores the list as it
        was before the call. */
    method DeleteDevice(id: string, reply: Reply) returns (sent: DeleteRequest)
      modifies this
      ensures sent == DeleteRequest(id, old(userId))
      ensures reply.Threw? ==> cache == old(cache)
      ensures reply.Responded? ==> cache == ApplyDelete(old(cache), id)
      ensures Succeeded(reply) ==> toasts == old(toasts) + [Toast(Success, Some("デバイスを削除しました"))]
      ensures reply.Responded? && !Succeeded(reply) ==> toasts == old(toasts) + [Toast(Failure, reply.message)]
      ensures reply.Threw? ==> toasts == old(toasts) + [Toast(Failure, Some("デバイスの削除に失敗しました"))]
      ensures revalidations == old(revalidations) + (if Succeeded(reply) then 1 else 0)
      ensures userId == old(userId)
    {
      var originalDevices := cache;
      cache := ApplyDelete(cache, id);
      sent := DeleteRequest(id, userId);
      if Succeeded(reply) {
        toasts := toasts + [Toast(Success, Some("デバイスを削除しました"))];
        revalidations := revalidations + 1;
      } else if reply.Responded? {
        toasts := toasts + [Toast(Failure, reply.message)];
      } else {
        toasts := toasts + [Toast(Failure, Some("デバイスの削除に失敗しました"))];
        cache := originalDevices;
      }
    }

    /** `sendWakeOnLan`: posts the MAC; only a successful answer marks the device online.
        A refusal is rethrown with the body's message (or its own fallback), so the
        catch's fallback shows only for a thrown request. */
    method SendWakeOnLan(device: Device, reply: Reply) returns (sentMac: string)
      modifies this
      ensures sentMac == device.macAddress
      ensures cache == if Succeeded(reply) then ApplyWake(old(cache), device.id) else old(cache)
      ensures Succeeded(reply) ==> toasts == old(toasts) + [Toast(Success, Some(device.name + " への起動信号を送信しました！"))]
      ensures reply.Responded? && !Succeeded(reply) ==>
                toasts == old(toasts) + [Toast(Failure, Some(OrElse(reply.message, "WOL送信に失敗しました")))]
      ensures reply.Threw? ==> toasts == old(toasts) + [Toast(Failure, Some(OrElse(reply.error, "WOLパケットの送信に失敗しました")))]
      ensures revalidations == old(revalidations) && userId == old(userId)
    {
      sentMac := device.macAddress;
      if Succeeded(reply) {
        toasts := toasts + [Toast(Success, Some(device.name + " への起動信号を送信しました！"))];
        cache := ApplyWake(cache, device.id);
      } else {
        var thrown := if reply.Responded? then Some(OrElse(reply.message, "WOL送信に失敗しました")) else reply.error;
        toasts := toasts + [Toast(Failure, Some(OrElse(thrown, "WOLパケットの送信に失敗しました")))];
      }
    }
  }

  /** The rethrown refusal always carries a non-empty message, so the catch's own
      fallback text is never shown for a server answer. */
  lemma WakeRefusalMessage(message: Option<string>)
    ensures OrElse(Some(OrElse(message, "WOL送信に失敗しました")), "WOLパケットの送信に失敗しました") ==
              OrElse(message, "WOL送信に失敗しました")
    ensures !Truthy(message) ==> OrElse(message, "WOL送信に失敗しました") == "WOL送信に失敗しました"
  {
  }
}
