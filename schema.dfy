/**
 * The server's tables. `devices` and `wol_queue` are declared by the Drizzle
 * schema; the routes also read and write `user_id` and `description` on a
 * device row and a `users` table keyed by the identity provider's user id,
 * which the schema does not declare, so the rows here carry them.
 */
module Schema {
  import opened Js
  import opened Lists
  import DeviceForm

  /** `varchar('mac_address', { length: 17 })` */
  const MaxMacLength := 17

  /** A row of `devices`. The id is the serial primary key; name and MAC are `notNull`. */
  datatype DeviceRow = DeviceRow(id: nat, name: string, macAddress: string, description: Option<string>, userId: string)

  /** A row of `wol_queue`. */
  datatype WolQueueRow = WolQueueRow(id: nat, macAddress: string, createdAt: int)

  /** A row of `users`, keyed by its id in the map that holds it. */
  datatype UserRow = UserRow(email: string, name: string)

  /** The primary key: no two device rows share an id. */
  predicate UniqueIds(rows: seq<DeviceRow>)
  {
    forall i, j | 0 <= i < j < |rows| :: rows[i].id != rows[j].id
  }

  /** `uniqueIndex('mac_address_idx').on(table.macAddress)`: on the MAC alone, across all users. */
  predicate UniqueMacs(rows: seq<DeviceRow>)
  {
    forall i, j | 0 <= i < j < |rows| :: rows[i].macAddress != rows[j].macAddress
  }

  predicate MacsFit(rows: seq<DeviceRow>)
  {
    forall i | 0 <= i < |rows| :: |rows[i].macAddress| <= MaxMacLength
  }

  /** What the `devices` table's declaration guarantees of its contents. */
  predicate DevicesOk(rows: seq<DeviceRow>)
  {
    UniqueIds(rows) && UniqueMacs(rows) && MacsFit(rows)
  }

  /** What the `wol_queue` table's declaration guarantees of its contents. */
  predicate WolQueueOk(rows: seq<WolQueueRow>)
  {
    && (forall i, j | 0 <= i < j < |rows| :: rows[i].id != rows[j].id)
    && (forall i | 0 <= i < |rows| :: |rows[i].macAddress| <= MaxMacLength)
  }

  predicate HasMac(rows: seq<DeviceRow>, mac: string)
  {
    exists i | 0 <= i < |rows| :: rows[i].macAddress == mac
  }

  /** Every MAC the validator accepts is exactly as long as the column allows. */
  lemma AcceptedMacFits(mac: string)
    requires DeviceForm.ValidateMacAddress(mac)
    ensures |mac| == MaxMacLength
  {
    DeviceForm.ValidateMacAddressIff(mac);
  }

  /** Appending a row whose id exceeds every id present and whose MAC is new and fits
      keeps the table valid. */
  lemma InsertKeepsDevicesOk(rows: seq<DeviceRow>, row: DeviceRow)
    requires DevicesOk(rows)
    requires forall i | 0 <= i < |rows| :: rows[i].id < row.id
    requires !HasMac(rows, row.macAddress) && |row.macAddress| <= MaxMacLength
    ensures DevicesOk(rows + [row])
  {
    var s := rows + [row];
    forall i, j | 0 <= i < j < |s| ensures s[i].id != s[j].id && s[i].macAddress != s[j].macAddress {
      if j == |rows| {
        assert s[i] == rows[i];
      }
    }
  }

  /** Removing rows keeps the table valid. */
  lemma {:induction false} WithoutKeepsDevicesOk(rows: seq<DeviceRow>, hit: DeviceRow -> bool)
    requires DevicesOk(rows)
    ensures DevicesOk(Without(rows, hit))
  {
    if rows != [] {
      WithoutKeepsDevicesOk(rows[1..], hit);
      var rest := Without(rows[1..], hit);
      assert Without(rows, hit) == (if hit(rows[0]) then [] else [rows[0]]) + rest;
      forall k | 0 <= k < |rest| ensures rest[k].id != rows[0].id && rest[k].macAddress != rows[0].macAddress {
        WithoutMembers(rows[1..], hit, rest[k]);
        var m :| 0 <= m < |rows[1..]| && rows[1..][m] == rest[k];
        assert rows[m + 1] == rest[k];
      }
    }
  }
}
