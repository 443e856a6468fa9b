/**
 * The device and user routes of the API server over one database. Each
 * database statement is one atomic step; whether the engine throws for a
 * reason the model does not see (a lost connection, say) is the `fault`
 * parameter, holding the error's text. A unique violation, an id that is
 * not an integer and an exhausted id sequence are decided from the state.
 */
module Server {
  import opened Js
  import opened Lists
  import opened Schema
  import DeviceForm

  /** The largest value of a `serial` (a 32-bit signed integer). */
  const MaxSerial := 2147483647

  /** A JSON response: its status and the body's `success` and `message`
      (absent in the validator's own 400 body). */
  datatype Response = Response(status: nat, success: bool, message: Option<string>)

  const ServerError := "サーバーエラーが発生しました"
  const ServerErrorWith := "サーバーエラーが発生しました: "
  const DeviceAdded := "デバイスを追加しました!"
  const DuplicateMac := "同じMACアドレスが既に登録されています"
  const DeviceUpdated := "デバイス情報を更新しました!"
  const DeleteFieldsRequired := "idとユーザーIDは必須です"
  const DeleteNotFound := "指定されたデバイスが見つからないか、権限がありません"
  const DeviceDeleted := "対象のデバイスを削除しました!"
  const UserIdRequired := "ユーザーIDは必須です"
  const DevicesFetched := "デバイス情報を取得しました"
  const RegisterFieldsRequired := "ユーザーIDとメールアドレスと名前は必須です。"

  // ---------------------------------------------------------------- ids

  function DigitChar(d: nat): char
    requires d < 10
  {
    ('0' as int + d) as char
  }

  /** How an id is written in decimal. */
  function DecimalText(n: nat): (s: string)
    ensures s != [] && DeviceForm.AllDigits(s)
  {
    if n < 10 then [DigitChar(n)] else DecimalText(n / 10) + [DigitChar(n % 10)]
  }

  /** The engine's reading of a request's id string as the integer `id` column:
      a non-empty run of decimal digits within the serial range; anything else fails. */
  function ParseSerial(s: string): (r: Option<nat>)
    ensures r.Some? ==> r.value <= MaxSerial && s != [] && DeviceForm.AllDigits(s)
  {
    if s != [] && DeviceForm.AllDigits(s) && DeviceForm.DecValue(s) <= MaxSerial then Some(DeviceForm.DecValue(s)) else None
  }

  lemma {:induction false} DecimalValue(n: nat)
    ensures DeviceForm.DecValue(DecimalText(n)) == n
  {
    if n >= 10 {
      DecimalValue(n / 10);
      var s := DecimalText(n);
      assert s[..|s| - 1] == DecimalText(n / 10);
    }
  }

  /** Every id the sequence can hand out, written in decimal, reads back as itself. */
  lemma ParseSerialRoundTrip(n: nat)
    requires n <= MaxSerial
    ensures ParseSerial(DecimalText(n)) == Some(n)
  {
    DecimalValue(n);
  }

  // ---------------------------------------------------------------- request bodies

  /** A request body field: a string, or `None` when absent or not a string. */
  datatype AddBody = AddBody(name: Option<string>, macAddress: Option<string>, description: Option<string>, userId: Option<string>)
  datatype UpdateBody = UpdateBody(id: Option<string>, name: Option<string>, macAddress: Option<string>)
  datatype DeleteBody = DeleteBody(id: Option<string>, userId: Option<string>)
  datatype SelectBody = SelectBody(userId: Option<string>)
  datatype RegisterBody = RegisterBody(userId: Option<string>, email: Option<string>, name: Option<string>)

  /** The add route's schema: name, MAC and user id are non-empty strings, the MAC matches
      the six-pair pattern, and a description, if given, is a string. */
  predicate AddBodyValid(b: AddBody)
  {
    Truthy(b.name) && Truthy(b.macAddress) && DeviceForm.ValidateMacAddress(b.macAddress.value) && Truthy(b.userId)
  }

  /** The update route's schema: id and name are non-empty strings and the MAC matches. */
  predicate UpdateBodyValid(b: UpdateBody)
  {
    Truthy(b.id) && Truthy(b.name) && Truthy(b.macAddress) && DeviceForm.ValidateMacAddress(b.macAddress.value)
  }

  // ---------------------------------------------------------------- table statements

  /** The row the add route inserts: the fields exactly as sent, no case folding. */
  function NewRow(id: nat, b: AddBody): DeviceRow
    requires AddBodyValid(b)
  {
    DeviceRow(id, b.name.value, b.macAddress.value, b.description, b.userId.value)
  }

  predicate HasId(rows: seq<DeviceRow>, id: nat)
  {
    exists i | 0 <= i < |rows| :: rows[i].id == id
  }

  /** `update(devices).set({ name, macAddress }).where(eq(devices.id, id))` */
  function SetNameMac(rows: seq<DeviceRow>, id: nat, name: string, mac: string): seq<DeviceRow>
  {
    MapWhere(rows, (r: DeviceRow) => r.id == id, (r: DeviceRow) => r.(name := name, macAddress := mac))
  }

  /** The update would give a second row the MAC `mac`. */
  predicate UpdateClash(rows: seq<DeviceRow>, id: nat, mac: string)
  {
    HasId(rows, id) && exists j | 0 <= j < |rows| :: rows[j].id != id && rows[j].macAddress == mac
  }

  /** The delete statement's condition: `and(eq(devices.id, id), eq(devices.userId, userId))`. */
  function Owned(id: nat, userId: string): DeviceRow -> bool
  {
    (r: DeviceRow) => r.id == id && r.userId == userId
  }

  /** `select().from(devices).where(eq(devices.userId, userId))` */
  function RowsOf(rows: seq<DeviceRow>, userId: string): seq<DeviceRow>
  {
    Without(rows, (r: DeviceRow) => r.userId != userId)
  }

  /** `insert(users).values(...).onConflictDoUpdate({ target: users.id, set: ... })` */
  function Upsert(users: map<string, UserRow>, id: string, email: string, name: string): (r: map<string, UserRow>)
    ensures id in r && r[id] == UserRow(email, name)
    ensures forall k | k in users && k != id :: k in r && r[k] == users[k]
    ensures r.Keys == users.Keys + {id}
  {
    users[id := UserRow(email, name)]
  }

  /** The update sets name and MAC on the rows with that id, keeps every other column and
      every other row, and changes nothing when no row has that id. */
  lemma SetNameMacSpec(rows: seq<DeviceRow>, id: nat, name: string, mac: string)
    ensures var r := SetNameMac(rows, id, name, mac);
            && |r| == |rows|
            && (forall i | 0 <= i < |rows| && rows[i].id != id :: r[i] == rows[i])
            && (forall i | 0 <= i < |rows| && rows[i].id == id ::
                  r[i] == DeviceRow(id, name, mac, rows[i].description, rows[i].userId))
    ensures !HasId(rows, id) ==> SetNameMac(rows, id, name, mac) == rows
  {
  }

  /** Without a clash, the update keeps the table valid. */
  lemma SetNameMacKeepsDevicesOk(rows: seq<DeviceRow>, id: nat, name: string, mac: string)
    requires DevicesOk(rows) && |mac| <= MaxMacLength && !UpdateClash(rows, id, mac)
    ensures DevicesOk(SetNameMac(rows, id, name, mac))
  {
    var r := SetNameMac(rows, id, name, mac);
    forall i, j | 0 <= i < j < |r| ensures r[i].macAddress != r[j].macAddress {
      if rows[i].id == id || rows[j].id == id {
        assert HasId(rows, id);
      }
    }
  }

  /** The delete removes exactly the rows with that id owned by that user: rows of other
      users stay, and the rest keep their order. */
  lemma DeleteOwnedSpec(rows: seq<DeviceRow>, id: nat, userId: string, more: seq<DeviceRow>)
    ensures forall r | r in rows :: r in Without(rows, Owned(id, userId)) <==> !(r.id == id && r.userId == userId)
    ensures forall r | r in Without(rows, Owned(id, userId)) :: r in rows
    ensures forall r | r in rows && r.userId != userId :: r in Without(rows, Owned(id, userId))
    ensures |rows| - |Without(rows, Owned(id, userId))| == Count(rows, Owned(id, userId))
    ensures Without(rows + more, Owned(id, userId)) == Without(rows, Owned(id, userId)) + Without(more, Owned(id, userId))
  {
    var hit := Owned(id, userId);
    forall r | r in rows ensures r in Without(rows, hit) <==> !hit(r) {
      WithoutMembers(rows, hit, r);
    }
    forall r | r in Without(rows, hit) ensures r in rows {
      WithoutMembers(rows, hit, r);
    }
    WithoutLength(rows, hit);
    WithoutAppend(rows, more, hit);
  }

  /** The select returns exactly the user's rows, in table order. */
  lemma RowsOfSpec(rows: seq<DeviceRow>, userId: string, more: seq<DeviceRow>)
    ensures forall r :: r in RowsOf(rows, userId) <==> r in rows && r.userId == userId
    ensures RowsOf(rows + more, userId) == RowsOf(rows, userId) + RowsOf(more, userId)
  {
    var hit := (r: DeviceRow) => r.userId != userId;
    forall r ensures r in Without(rows, hit) <==> r in rows && !hit(r) {
      WithoutMembers(rows, hit, r);
    }
    WithoutAppend(rows, more, hit);
  }

  /** Registering twice with the same fields leaves the table as after the first time. */
  lemma UpsertIdempotent(users: map<string, UserRow>, id: string, email: string, name: string)
    ensures Upsert(Upsert(users, id, email, name), id, email, name) == Upsert(users, id, email, name)
  {
  }

  // ---------------------------------------------------------------- the database

  /** The tables and the `devices` id sequence. */
  class Database {
    var devices: seq<DeviceRow>
    var wolQueue: seq<WolQueueRow>
    var users: map<string, UserRow>
    /** The value the `devices` id sequence hands out next. */
    var nextDeviceId: nat

    /** The tables' declared constraints hold, and the sequence is past every id in use. */
    ghost predicate Valid()
      reads this
    {
      && DevicesOk(devices) && WolQueueOk(wolQueue)
      && 1 <= nextDeviceId
      && forall i | 0 <= i < |devices| :: devices[i].id < nextDeviceId
    }

    constructor ()
      ensures Valid()
      ensures devices == [] && wolQueue == [] && users == map[] && nextDeviceId == 1
    {
      devices := [];
      wolQueue := [];
      users := map[];
      nextDeviceId := 1;
    }

    /** POST /add. A refused body writes nothing. The insert takes the next id first, so a
        MAC already present anywhere gives 409 with that id used up; success returns the one
        inserted row. The server stores the MAC as sent. */
    method Add(body: AddBody, fault: Option<string>) returns (resp: Response, inserted: seq<DeviceRow>)
      requires Valid()
      modifies this
      ensures Valid()
      ensures wolQueue == old(wolQueue) && users == old(users)
      ensures !AddBodyValid(body) ==>
                resp == Response(400, false, None) && inserted == []
                && devices == old(devices) && nextDeviceId == old(nextDeviceId)
      ensures AddBodyValid(body) && (fault.Some? || old(nextDeviceId) > MaxSerial) ==>
                resp == Response(500, false, Some(ServerError)) && inserted == []
                && devices == old(devices) && nextDeviceId == old(nextDeviceId)
      ensures AddBodyValid(body) && fault.None? && old(nextDeviceId) <= MaxSerial && HasMac(old(devices), body.macAddress.value) ==>
                resp == Response(409, false, Some(DuplicateMac)) && inserted == []
                && devices == old(devices) && nextDeviceId == old(nextDeviceId) + 1
      ensures AddBodyValid(body) && fault.None? && old(nextDeviceId) <= MaxSerial && !HasMac(old(devices), body.macAddress.value) ==>
                resp == Response(200, true, Some(DeviceAdded))
                && inserted == [NewRow(old(nextDeviceId), body)]
                && devices == old(devices) + inserted && nextDeviceId == old(nextDeviceId) + 1
    {
      inserted := [];
      if !AddBodyValid(body) {
        resp := Response(400, false, None);
        return;
      }
      if fault.Some? || nextDeviceId > MaxSerial {
        resp := Response(500, false, Some(ServerError));
        return;
      }
      var id := nextDeviceId;
      nextDeviceId := nextDeviceId + 1;
      if HasMac(devices, body.macAddress.value) {
        resp := Response(409, false, Some(DuplicateMac));
        return;
      }
      var row := NewRow(id, body);
      DeviceForm.ValidateMacAddressIff(row.macAddress);
      InsertKeepsDevicesOk(devices, row);
      devices := devices + [row];
      inserted := [row];
      resp := Response(200, true, Some(DeviceAdded));
    }

    /** POST /update: sets name and MAC on the row with that id, whoever owns it. It answers
        200 even when no row has that id; any failure, a MAC clash included, is a 500. */
    method Update(body: UpdateBody, fault: Option<string>) returns (resp: Response)
      requires Valid()
      modifies this
      ensures Valid()
      ensures wolQueue == old(wolQueue) && users == old(users) && nextDeviceId == old(nextDeviceId)
      ensures !UpdateBodyValid(body) ==> resp == Response(400, false, None) && devices == old(devices)
      ensures UpdateBodyValid(body) &&
              (fault.Some? || ParseSerial(body.id.value).None? ||
               UpdateClash(old(devices), ParseSerial(body.id.value).value, body.macAddress.value)) ==>
                resp == Response(500, false, Some(ServerError)) && devices == old(devices)
      ensures UpdateBodyValid(body) && fault.None? && ParseSerial(body.id.value).Some? &&
              !UpdateClash(old(devices), ParseSerial(body.id.value).value, body.macAddress.value) ==>
                resp == Response(200, true, Some(DeviceUpdated))
                && devices == SetNameMac(old(devices), ParseSerial(body.id.value).value, body.name.value, body.macAddress.value)
    {
      if !UpdateBodyValid(body) {
        resp := Response(400, false, None);
        return;
      }
      var id := ParseSerial(body.id.value);
      if fault.Some? || id.None? || UpdateClash(devices, id.value, body.macAddress.value) {
        resp := Response(500, false, Some(ServerError));
        return;
      }
      DeviceForm.ValidateMacAddressIff(body.macAddress.value);
      SetNameMacKeepsDevicesOk(devices, id.value, body.name.value, body.macAddress.value);
      devices := SetNameMac(devices, id.value, body.name.value, body.macAddress.value);
      resp := Response(200, true, Some(DeviceUpdated));
    }

    /** POST /delete: removes the rows with that id owned by that user; 404 when there
        were none, 401 without an id or user id, and 500 with the error's text on failure. */
    method Delete(body: DeleteBody, fault: Option<string>) returns (resp: Response)
      requires Valid()
      modifies this
      ensures Valid()
      ensures wolQueue == old(wolQueue) && users == old(users) && nextDeviceId == old(nextDeviceId)
      ensures !Truthy(body.id) || !Truthy(body.userId) ==>
                resp == Response(401, false, Some(DeleteFieldsRequired)) && devices == old(devices)
      ensures Truthy(body.id) && Truthy(body.userId) && fault.Some? ==>
                resp == Response(500, false, Some(ServerErrorWith + fault.value)) && devices == old(devices)
      ensures Truthy(body.id) && Truthy(body.userId) && fault.None? && ParseSerial(body.id.value).None? ==>
                resp.status == 500 && !resp.success && devices == old(devices)
      ensures Truthy(body.id) && Truthy(body.userId) && fault.None? && ParseSerial(body.id.value).Some? ==>
                && devices == Without(old(devices), Owned(ParseSerial(body.id.value).value, body.userId.value))
                && resp == if |devices| == |old(devices)| then Response(404, false, Some(DeleteNotFound))
                           else Response(200, true, Some(DeviceDeleted))
    {
      if !Truthy(body.id) || !Truthy(body.userId) {
        resp := Response(401, false, Some(DeleteFieldsRequired));
        return;
      }
      if fault.Some? {
        resp := Response(500, false, Some(ServerErrorWith + fault.value));
        return;
      }
      var id := ParseSerial(body.id.value);
      if id.None? {
        resp := Response(500, false, Some(ServerErrorWith + "invalid input syntax for type integer"));
        return;
      }
      var before := devices;
      WithoutKeepsDevicesOk(devices, Owned(id.value, body.userId.value));
      devices := Without(devices, Owned(id.value, body.userId.value));
      forall i | 0 <= i < |devices| ensures devices[i].id < nextDeviceId {
        WithoutMembers(before, Owned(id.value, body.userId.value), devices[i]);
      }
      if |devices| == |before| {
        resp := Response(404, false, Some(DeleteNotFound));
      } else {
        resp := Response(200, true, Some(DeviceDeleted));
      }
    }

    /** POST /select: the user's rows and how many there are; reads only. */
    method Select(body: SelectBody, fault: Option<string>) returns (resp: Response, rows: seq<DeviceRow>, count: nat)
      ensures !Truthy(body.userId) ==> resp == Response(400, false, Some(UserIdRequired)) && rows == []
      ensures Truthy(body.userId) && fault.Some? ==> resp == Response(500, false, Some(ServerError)) && rows == []
      ensures Truthy(body.userId) && fault.None? ==>
                && resp == Response(200, true, Some(DevicesFetched))
                && (forall r :: r in rows <==> r in devices && r.userId == body.userId.value)
                && rows == RowsOf(devices, body.userId.value)
      ensures count == |rows|
    {
      rows := [];
      count := 0;
      if !Truthy(body.userId) {
        resp := Response(400, false, Some(UserIdRequired));
        return;
      }
      if fault.Some? {
        resp := Response(500, false, Some(ServerError));
        return;
      }
      rows := RowsOf(devices, body.userId.value);
      RowsOfSpec(devices, body.userId.value, []);
      count := |rows|;
      resp := Response(200, true, Some(DevicesFetched));
    }

    /** POST /register: inserts the user, or overwrites email and name of the user with
        that id; any missing field is a 400 and writes nothing. */
    method Register(body: RegisterBody, fault: Option<string>) returns (resp: Response)
      requires Valid()
      modifies this
      ensures Valid()
      ensures devices == old(devices) && wolQueue == old(wolQueue) && nextDeviceId == old(nextDeviceId)
      ensures !Truthy(body.userId) || !Truthy(body.email) || !Truthy(body.name) ==>
                resp == Response(400, false, Some(RegisterFieldsRequired)) && users == old(users)
      ensures Truthy(body.userId) && Truthy(body.email) && Truthy(body.name) && fault.Some? ==>
                resp == Response(500, false, Some(ServerErrorWith + fault.value)) && users == old(users)
      ensures Truthy(body.userId) && Truthy(body.email) && Truthy(body.name) && fault.None? ==>
                resp == Response(200, true, Some(""))
                && users == Upsert(old(users), body.userId.value, body.email.value, body.name.value)
    {
      if !Truthy(body.userId) || !Truthy(body.email) || !Truthy(body.name) {
        resp := Response(400, false, Some(RegisterFieldsRequired));
        return;
      }
      if fault.Some? {
        resp := Response(500, false, Some(ServerErrorWith + fault.value));
        return;
      }
      users := Upsert(users, body.userId.value, body.email.value, body.name.value);
      resp := Response(200, true, Some(""));
    }
  }
}
