/**
 * The device form: the MAC-address and IPv4 recognisers, the submit rule
 * that builds an error map and hands a normalised record to `onSave`,
 * and the input-change handler.
 */
module DeviceForm {
  import opened Js

  /** The device record shown by the form and the dashboard. */
  datatype Device = Device(id: string, name: string, macAddress: string, ipAddress: string,
                           description: Option<string>, isOnline: Option<bool>)

  /** A device without its `id`: what `onSave` receives. */
  datatype DeviceInput = DeviceInput(name: string, macAddress: string, ipAddress: string,
                                     description: Option<string>, isOnline: Option<bool>)

  /** The four inputs of the form. */
  datatype Field = Name | MacAddress | IpAddress | Description

  /** The form's controlled values. */
  datatype FormData = FormData(name: string, macAddress: string, ipAddress: string, description: string)
  {
    function Get(field: Field): string
    {
      match field
      case Name => name
      case MacAddress => macAddress
      case IpAddress => ipAddress
      case Description => description
    }

    /** `{ ...prev, [field]: value }` */
    function With(field: Field, value: string): (f: FormData)
      ensures f.Get(field) == value
      ensures forall other | other != field :: f.Get(other) == Get(other)
    {
      match field
      case Name => this.(name := value)
      case MacAddress => this.(macAddress := value)
      case IpAddress => this.(ipAddress := value)
      case Description => this.(description := value)
    }
  }

  const EmptyForm := FormData("", "", "", "")

  // ---------------------------------------------------------------- MAC address

  predicate IsHexDigit(c: char)
  {
    '0' <= c <= '9' || 'A' <= c <= 'F' || 'a' <= c <= 'f'
  }

  predicate IsMacSeparator(c: char)
  {
    c == ':' || c == '-'
  }

  /** `([0-9A-Fa-f]{2}[:-]){n}([0-9A-Fa-f]{2})` matched against all of `s`. */
  predicate MatchMacGroups(s: string, n: nat)
  {
    if n == 0 then |s| == 2 && IsHexDigit(s[0]) && IsHexDigit(s[1])
    else |s| >= 3 && IsHexDigit(s[0]) && IsHexDigit(s[1]) && IsMacSeparator(s[2])
         && MatchMacGroups(s[3..], n - 1)
  }

  /** `validateMacAddress`: the anchored MAC regex, shared by the form and the server. */
  predicate ValidateMacAddress(mac: string)
  {
    MatchMacGroups(mac, 5)
  }

  /** Reference shape: a separator at every third position, a hex digit everywhere else. */
  predicate GroupShape(s: string)
  {
    forall i | 0 <= i < |s| :: if i % 3 == 2 then IsMacSeparator(s[i]) else IsHexDigit(s[i])
  }

  /** Reference definition of a MAC address: 17 code points in the shape above. */
  predicate MacShape(s: string)
  {
    |s| == 17 && GroupShape(s)
  }

  lemma {:induction false} MatchMacGroupsShape(s: string, n: nat)
    ensures MatchMacGroups(s, n) <==> |s| == 3 * n + 2 && GroupShape(s)
  {
    if n > 0 && |s| >= 3 {
      MatchMacGroupsShape(s[3..], n - 1);
      if GroupShape(s) {
        assert GroupShape(s[3..]) by {
          forall i | 0 <= i < |s| - 3 ensures (if i % 3 == 2 then IsMacSeparator(s[3..][i]) else IsHexDigit(s[3..][i])) {
            assert (i + 3) % 3 == i % 3;
          }
        }
      }
      if IsHexDigit(s[0]) && IsHexDigit(s[1]) && IsMacSeparator(s[2]) && GroupShape(s[3..]) {
        forall i | 0 <= i < |s| ensures if i % 3 == 2 then IsMacSeparator(s[i]) else IsHexDigit(s[i]) {
          if i >= 3 {
            assert s[i] == s[3..][i - 3];
            assert (i - 3) % 3 == i % 3;
          }
        }
      }
    }
  }

  /** The regex accepts exactly the 17-character strings of six hex pairs and five separators;
      each separator is `:` or `-` independently of the others. */
  lemma ValidateMacAddressIff(mac: string)
    ensures ValidateMacAddress(mac) <==> MacShape(mac)
  {
    MatchMacGroupsShape(mac, 5);
  }

  /** Mixed separators pass. */
  lemma MixedSeparatorsAccepted()
    ensures ValidateMacAddress("00:11-22:33-44:55")
  {
    var s := "00:11-22:33-44:55";
    assert s[3..] == "11-22:33-44:55";
    assert s[3..][3..] == "22:33-44:55";
    assert s[3..][3..][3..] == "33-44:55";
    assert s[3..][3..][3..][3..] == "44:55";
    assert s[3..][3..][3..][3..][3..] == "55";
  }

  /** Upper-casing neither creates nor destroys a valid MAC address. */
  lemma {:induction false} ToUpperKeepsMac(mac: string)
    ensures ValidateMacAddress(ToUpper(mac)) <==> ValidateMacAddress(mac)
  {
    var u := ToUpper(mac);
    ValidateMacAddressIff(mac);
    ValidateMacAddressIff(u);
    if |mac| == 17 {
      forall i | 0 <= i < 17
        ensures (IsMacSeparator(u[i]) <==> IsMacSeparator(mac[i])) && (IsHexDigit(u[i]) <==> IsHexDigit(mac[i]))
      {
      }
    }
  }

  /** A valid MAC address contains no white space, so trimming leaves it as it is. */
  lemma MacHasNoWhiteSpace(mac: string)
    requires ValidateMacAddress(mac)
    ensures forall k | 0 <= k < |mac| :: !IsWhiteSpace(mac[k])
    ensures Trim(mac) == mac
  {
    ValidateMacAddressIff(mac);
    forall k | 0 <= k < |mac| ensures !IsWhiteSpace(mac[k]) {
      assert IsHexDigit(mac[k]) || IsMacSeparator(mac[k]);
    }
    TrimUnpadded(mac);
  }

  // ---------------------------------------------------------------- IPv4 address

  predicate IsDigit(c: char)
  {
    '0' <= c <= '9'
  }

  /** One octet group, `25[0-5]|2[0-4][0-9]|[01]?[0-9][0-9]?`, matched against all of `t`
      (the optional parts of the last alternative written out). */
  predicate MatchOctet(t: string)
  {
    || (|t| == 3 && t[0] == '2' && t[1] == '5' && '0' <= t[2] <= '5')
    || (|t| == 3 && t[0] == '2' && '0' <= t[1] <= '4' && IsDigit(t[2]))
    || (|t| == 1 && IsDigit(t[0]))
    || (|t| == 2 && IsDigit(t[0]) && IsDigit(t[1]))
    || (|t| == 2 && (t[0] == '0' || t[0] == '1') && IsDigit(t[1]))
    || (|t| == 3 && (t[0] == '0' || t[0] == '1') && IsDigit(t[1]) && IsDigit(t[2]))
  }

  /** Index of the first `c` in `s`, or `|s|` when there is none. */
  function FirstIndexOf(s: string, c: char): (i: nat)
    ensures i <= |s| && c !in s[..i]
    ensures i < |s| ==> s[i] == c
  {
    if s == [] then 0
    else if s[0] == c then 0
    else
      var j := FirstIndexOf(s[1..], c);
      assert s[..j + 1] == [s[0]] + s[1..][..j];
      j + 1
  }

  /** `(?:O\.){n}O` matched against all of `s`, O being the octet group. No octet
      contains a dot, so the k-th group always ends at the k-th dot. */
  predicate MatchDottedOctets(s: string, n: nat)
  {
    if n == 0 then MatchOctet(s)
    else
      var i := FirstIndexOf(s, '.');
      i < |s| && MatchOctet(s[..i]) && MatchDottedOctets(s[i + 1..], n - 1)
  }

  /** `validateIpAddress`: the anchored dotted-decimal regex. */
  predicate ValidateIpAddress(ip: string)
  {
    MatchDottedOctets(ip, 3)
  }

  function DigitValue(c: char): nat
    requires IsDigit(c)
  {
    c as int - '0' as int
  }

  predicate AllDigits(t: string)
  {
    forall k | 0 <= k < |t| :: IsDigit(t[k])
  }

  /** The decimal value of a digit string. */
  function DecValue(t: string): nat
    requires AllDigits(t)
  {
    if t == [] then 0 else 10 * DecValue(t[..|t| - 1]) + DigitValue(t[|t| - 1])
  }

  /** Reference octet: one to three decimal digits (leading zeros allowed) of value at most 255. */
  predicate IsDecOctet(t: string)
  {
    1 <= |t| <= 3 && AllDigits(t) && DecValue(t) <= 255
  }

  /** Reference address: four dot-separated parts, each a decimal octet. */
  predicate IsDottedQuad(ip: string)
  {
    var parts := Split(ip, '.');
    |parts| == 4 && forall p | p in parts :: IsDecOctet(p)
  }

  /** The octet group accepts exactly the decimal octets. */
  lemma OctetIff(t: string)
    ensures MatchOctet(t) <==> IsDecOctet(t)
  {
    if 1 <= |t| <= 3 && AllDigits(t) {
      assert DecValue(t[..1]) == DigitValue(t[0]) by {
        assert t[..1][..0] == [];
      }
      if |t| == 3 {
        assert t[..2][..1] == t[..1];
        assert DecValue(t[..2]) == 10 * DigitValue(t[0]) + DigitValue(t[1]);
        assert DecValue(t) == 100 * DigitValue(t[0]) + 10 * DigitValue(t[1]) + DigitValue(t[2]);
      } else if |t| == 2 {
        assert DecValue(t) == 10 * DigitValue(t[0]) + DigitValue(t[1]);
      }
    }
  }

  /** An octet group has no dot in it. */
  lemma OctetHasNoDot(t: string)
    requires MatchOctet(t)
    ensures '.' !in t
  {
  }

  /** When `s` has a dot, splitting it peels off the text before the first dot. */
  lemma {:induction false} SplitAtFirstDot(s: string)
    requires FirstIndexOf(s, '.') < |s|
    ensures var i := FirstIndexOf(s, '.'); Split(s, '.') == [s[..i]] + Split(s[i + 1..], '.')
  {
    SplitAtFirst(s, '.', FirstIndexOf(s, '.'));
  }

  /** The dotted-group matcher agrees with splitting on dots and matching every part. */
  lemma {:induction false} MatchDottedOctetsSplit(s: string, n: nat)
    ensures MatchDottedOctets(s, n) <==> OctetParts(Split(s, '.'), n)
  {
    var i := FirstIndexOf(s, '.');
    if i < |s| {
      if n > 0 {
        MatchDottedOctetsSplit(s[i + 1..], n - 1);
      }
      DotStep(s, n);
    } else {
      assert s[..i] == s;
      SplitNoSeparator(s, '.');
    }
  }

  /** `n + 1` parts, each an octet group. */
  predicate OctetParts(parts: seq<string>, n: nat)
  {
    |parts| == n + 1 && forall p | p in parts :: MatchOctet(p)
  }

  /** One step of the matcher at the first dot, given the step for the rest. */
  lemma DotStep(s: string, n: nat)
    requires FirstIndexOf(s, '.') < |s|
    requires n > 0 ==> var i := FirstIndexOf(s, '.');
             (MatchDottedOctets(s[i + 1..], n - 1) <==> OctetParts(Split(s[i + 1..], '.'), n - 1))
    ensures MatchDottedOctets(s, n) <==> OctetParts(Split(s, '.'), n)
  {
    var i := FirstIndexOf(s, '.');
    var parts := Split(s, '.');
    SplitAtFirstDot(s);
    var rest := Split(s[i + 1..], '.');
    assert parts == [s[..i]] + rest;
    if n > 0 {
      assert (forall p | p in parts :: MatchOctet(p)) <==> MatchOctet(s[..i]) && (forall p | p in rest :: MatchOctet(p));
    } else {
      assert |parts| >= 2;
      assert !MatchOctet(s) by {
        if MatchOctet(s) { OctetHasNoDot(s); }
      }
    }
  }

  /** The regex accepts exactly four dot-separated decimal octets of value at most 255. */
  lemma ValidateIpAddressIff(ip: string)
    ensures ValidateIpAddress(ip) <==> IsDottedQuad(ip)
  {
    MatchDottedOctetsSplit(ip, 3);
    var parts := Split(ip, '.');
    forall p | p in parts ensures MatchOctet(p) <==> IsDecOctet(p) {
      OctetIff(p);
    }
  }

  /** `FirstIndexOf` finds the first occurrence. */
  lemma {:induction false} FirstIndexOfAt(s: string, c: char, i: nat)
    requires i < |s| && s[i] == c && c !in s[..i]
    ensures FirstIndexOf(s, c) == i
  {
    if i > 0 {
      assert s[0] in s[..i];
      assert s[1..][..i - 1] == s[1..i];
      FirstIndexOfAt(s[1..], c, i - 1);
    }
  }

  lemma LastTwoOctets()
    ensures MatchDottedOctets("0.255", 1)
  {
    FirstIndexOfAt("0.255", '.', 1);
    assert "0.255"[..1] == "0" && "0.255"[2..] == "255";
  }

  lemma LastThreeOctets()
    ensures MatchDottedOctets("099.0.255", 2)
  {
    FirstIndexOfAt("099.0.255", '.', 3);
    assert "099.0.255"[..3] == "099" && "099.0.255"[4..] == "0.255";
    LastTwoOctets();
  }

  /** Leading zeros pass. */
  lemma LeadingZerosAccepted()
    ensures ValidateIpAddress("01.099.0.255")
  {
    FirstIndexOfAt("01.099.0.255", '.', 2);
    assert "01.099.0.255"[..2] == "01" && "01.099.0.255"[3..] == "099.0.255";
    assert MatchOctet("01");
    LastThreeOctets();
  }

  /** An octet above 255 is refused. */
  lemma OctetAbove255Rejected()
    ensures !ValidateIpAddress("256.1.1.1")
  {
    FirstIndexOfAt("256.1.1.1", '.', 3);
    assert "256.1.1.1"[..3] == "256";
  }

  /** Every code point of an accepted address is a digit or a dot. */
  lemma {:induction false} DottedOctetsChars(s: string, n: nat)
    requires MatchDottedOctets(s, n)
    ensures forall k | 0 <= k < |s| :: IsDigit(s[k]) || s[k] == '.'
  {
    if n > 0 {
      var i := FirstIndexOf(s, '.');
      DottedOctetsChars(s[i + 1..], n - 1);
      forall k | 0 <= k < |s| ensures IsDigit(s[k]) || s[k] == '.' {
        if k < i {
          assert s[k] == s[..i][k];
        } else if k > i {
          assert s[k] == s[i + 1..][k - i - 1];
        }
      }
    }
  }

  /** A valid address contains no white space, so trimming leaves it as it is. */
  lemma IpHasNoWhiteSpace(ip: string)
    requires ValidateIpAddress(ip)
    ensures forall k | 0 <= k < |ip| :: !IsWhiteSpace(ip[k])
    ensures Trim(ip) == ip
  {
    DottedOctetsChars(ip, 3);
    TrimUnpadded(ip);
  }

  // ---------------------------------------------------------------- submit

  const NameRequired := "デバイス名は必須です"
  const MacRequired := "MACアドレスは必須です"
  const MacFormat := "MACアドレスの形式が正しくありません (例: 00:11:22:33:44:55)"
  const IpRequired := "IPアドレスは必須です"
  const IpFormat := "IPアドレスの形式が正しくありません"

  /** The message `handleSubmit` records for one field, if any. Emptiness is judged
      on the trimmed value, the format on the value as typed. */
  function FieldError(f: FormData, field: Field): Option<string>
  {
    match field
    case Name =>
      if Trim(f.name) == "" then Some(NameRequired) else None
    case MacAddress =>
      if Trim(f.macAddress) == "" then Some(MacRequired)
      else if !ValidateMacAddress(f.macAddress) then Some(MacFormat)
      else None
    case IpAddress =>
      if Trim(f.ipAddress) == "" then Some(IpRequired)
      else if !ValidateIpAddress(f.ipAddress) then Some(IpFormat)
      else None
    case Description => None
  }

  /** `m` with the message `e` recorded under `field`, if there is one. */
  function Record(m: map<Field, string>, field: Field, e: Option<string>): map<Field, string>
  {
    if e.Some? then m[field := e.value] else m
  }

  /** The error map of a submit: one entry per field that has a message. */
  function SubmitErrors(f: FormData): map<Field, string>
  {
    var e := Record(map[], Name, FieldError(f, Name));
    var e := Record(e, MacAddress, FieldError(f, MacAddress));
    Record(e, IpAddress, FieldError(f, IpAddress))
  }

  /** A field has an entry in the error map exactly when it has a message, and the entry is that message. */
  lemma {:induction false} SubmitErrorsEntry(f: FormData, field: Field)
    ensures field in SubmitErrors(f) <==> FieldError(f, field).Some?
    ensures field in SubmitErrors(f) ==> SubmitErrors(f)[field] == FieldError(f, field).value
  {
    var n, m, i := FieldError(f, Name), FieldError(f, MacAddress), FieldError(f, IpAddress);
    var e1 := Record(map[], Name, n);
    var e2 := Record(e1, MacAddress, m);
    assert SubmitErrors(f) == Record(e2, IpAddress, i);
    assert Description !in SubmitErrors(f);
  }

  /** The record passed to `onSave`: text trimmed, MAC upper-cased, no `id`, no `isOnline`. */
  function Normalised(f: FormData): DeviceInput
  {
    DeviceInput(Trim(f.name), ToUpper(Trim(f.macAddress)), Trim(f.ipAddress), Some(Trim(f.description)), None)
  }

  /** A submit is accepted exactly when the name is non-blank and the MAC and IP
      are non-blank and valid. */
  lemma SubmitAcceptedIff(f: FormData)
    ensures SubmitErrors(f) == map[] <==>
            && Trim(f.name) != ""
            && Trim(f.macAddress) != "" && ValidateMacAddress(f.macAddress)
            && Trim(f.ipAddress) != "" && ValidateIpAddress(f.ipAddress)
  {
    var errs := SubmitErrors(f);
    if errs == map[] {
      assert Name !in errs && MacAddress !in errs && IpAddress !in errs;
    } else {
      var field :| field in errs;
    }
  }

  /** A blank MAC (or IP) gets the "required" message, never the format message. */
  lemma BlankGetsRequired(f: FormData)
    ensures Trim(f.macAddress) == "" ==> MacAddress in SubmitErrors(f) && SubmitErrors(f)[MacAddress] == MacRequired
    ensures Trim(f.ipAddress) == "" ==> IpAddress in SubmitErrors(f) && SubmitErrors(f)[IpAddress] == IpRequired
    ensures MacAddress in SubmitErrors(f) && SubmitErrors(f)[MacAddress] == MacFormat ==> Trim(f.macAddress) != ""
    ensures IpAddress in SubmitErrors(f) && SubmitErrors(f)[IpAddress] == IpFormat ==> Trim(f.ipAddress) != ""
  {
    assert MacRequired != MacFormat;
    assert IpRequired != IpFormat by { assert |IpRequired| != |IpFormat|; }
  }

  /** A MAC with white space anywhere, for instance a valid MAC typed with surrounding
      spaces, is rejected with the format message whatever the IP field holds. */
  lemma PaddedMacRejected(f: FormData, k: nat)
    requires k < |f.macAddress| && IsWhiteSpace(f.macAddress[k]) && Trim(f.macAddress) != ""
    ensures MacAddress in SubmitErrors(f) && SubmitErrors(f)[MacAddress] == MacFormat
  {
    if ValidateMacAddress(f.macAddress) {
      MacHasNoWhiteSpace(f.macAddress);
    }
  }

  /** The same holds of the IP address, whatever the MAC field holds. */
  lemma PaddedIpRejected(f: FormData, j: nat)
    requires j < |f.ipAddress| && IsWhiteSpace(f.ipAddress[j]) && Trim(f.ipAddress) != ""
    ensures IpAddress in SubmitErrors(f) && SubmitErrors(f)[IpAddress] == IpFormat
  {
    if ValidateIpAddress(f.ipAddress) {
      IpHasNoWhiteSpace(f.ipAddress);
    }
  }

  /** An accepted submit saves the typed MAC upper-cased, still valid, and unchanged
      apart from case; name, IP and description are trimmed. */
  lemma SavedRecord(f: FormData)
    requires SubmitErrors(f) == map[]
    ensures var d := Normalised(f);
            && ValidateMacAddress(d.macAddress) && d.macAddress == ToUpper(f.macAddress)
            && ValidateIpAddress(d.ipAddress) && d.ipAddress == f.ipAddress
            && d.name == Trim(f.name) && d.name != ""
            && d.description == Some(Trim(f.description)) && d.isOnline == None
  {
    SubmitAcceptedIff(f);
    MacHasNoWhiteSpace(f.macAddress);
    IpHasNoWhiteSpace(f.ipAddress);
    ToUpperKeepsMac(f.macAddress);
  }

  /** The form dialog: its controlled values and the messages shown under each input. */
  class DeviceFormComponent {
    var formData: FormData
    var errors: map<Field, string>

    /** Mounting the dialog: empty values, then the effect that copies an edited device in. */
    constructor (device: Option<Device>)
      ensures device.None? ==> formData == EmptyForm
      ensures device.Some? ==>
                formData == FormData(device.value.name, device.value.macAddress, device.value.ipAddress,
                                     if device.value.description.Some? then device.value.description.value else "")
      ensures errors == map[]
    {
      formData := EmptyForm;
      errors := map[];
      if device.Some? {
        var d := device.value;
        formData := FormData(d.name, d.macAddress, d.ipAddress,
                             if d.description.Some? then d.description.value else "");
      }
    }

    /** `handleSubmit`: records the error map and returns what is passed to `onSave`, if anything. */
    method HandleSubmit() returns (saved: Option<DeviceInput>)
      modifies this`errors
      ensures errors == SubmitErrors(formData)
      ensures saved.Some? <==> errors == map[]
      ensures saved.Some? ==> saved.value == Normalised(formData)
    {
      var newErrors: map<Field, string> := map[];
      if Trim(formData.name) == "" {
        newErrors := newErrors[Name := NameRequired];
      }
      assert newErrors == Record(map[], Name, FieldError(formData, Name));
      ghost var afterName := newErrors;
      if Trim(formData.macAddress) == "" {
        newErrors := newErrors[MacAddress := MacRequired];
      } else if !ValidateMacAddress(formData.macAddress) {
        newErrors := newErrors[MacAddress := MacFormat];
      }
      assert newErrors == Record(afterName, MacAddress, FieldError(formData, MacAddress));
      if Trim(formData.ipAddress) == "" {
        newErrors := newErrors[IpAddress := IpRequired];
      } else if !ValidateIpAddress(formData.ipAddress) {
        newErrors := newErrors[IpAddress := IpFormat];
      }
      assert newErrors == SubmitErrors(formData);
      errors := newErrors;
      if |newErrors| == 0 {
        saved := Some(Normalised(formData));
      } else {
        saved := None;
      }
    }

    /** `handleInputChange`: sets one value, and blanks that field's message if one is shown. */
    method HandleInputChange(field: Field, value: string)
      modifies this
      ensures formData.Get(field) == value
      ensures forall other | other != field :: formData.Get(other) == old(formData).Get(other)
      ensures field in old(errors) && old(errors)[field] != "" ==> errors == old(errors)[field := ""]
      ensures !(field in old(errors) && old(errors)[field] != "") ==> errors == old(errors)
    {
      formData := formData.With(field, value);
      if field in errors && errors[field] != "" {
        errors := errors[field := ""];
      }
    }
  }
}
