/** WifiProfile: common/src/wifi_profile.cpp, lines 32-60. */
module Profile {
  import opened Octets
  import opened Utf8Text

  const KEY_SIZE := 32

  type Key = k: Bytes | |k| == 32 witness seq(32, _ => 0)

  /** PBKDF2 over (password, ssid); the library may refuse. */
  type Derivation = (Bytes, Bytes) -> Option<Key>

  /** A moved-from profile is one with an empty key. */
  datatype WifiProfile = WifiProfile(ssidHex: Bytes, psk: Bytes, dhcp6: Option<bool>)
  {
    function WithDhcp6(value: Option<bool>): WifiProfile { this.(dhcp6 := value) }
  }

  ghost predicate ValidSsid(ssid: Bytes) {
    1 <= |ssid| <= 32 && IsText(ssid)
  }

  /** The profiles the factory hands out, under any later DHCPv6 setting. */
  ghost predicate ValidProfile(p: WifiProfile) {
    && |p.psk| == KEY_SIZE
    && |p.ssidHex| % 2 == 0 && IsHex(p.ssidHex)
    && ValidSsid(FromHex(p.ssidHex))
  }

  /** Either case is accepted in a raw key. */
  function HexValue(c: byte): (n: int)
    ensures -1 <= n < 16
    ensures Unhex(c) >= 0 ==> n == Unhex(c)
  {
    if 48 <= c <= 57 then c - 48
    else if 97 <= c <= 102 then c - 87
    else if 65 <= c <= 70 then c - 55
    else -1
  }

  ghost predicate IsRawKey(password: Bytes) {
    |password| == 64 && forall i :: 0 <= i < 64 ==> HexValue(password[i]) >= 0
  }

  ghost predicate IsPassphrase(password: Bytes) {
    8 <= |password| <= 63 && forall i :: 0 <= i < |password| ==> 32 <= password[i] <= 126
  }

  function RawKey(password: Bytes): (k: Key)
    requires |password| == 64 && forall i :: 0 <= i < 64 ==> HexValue(password[i]) >= 0
  {
    seq(32, i requires 0 <= i < 32 => HexValue(password[2 * i]) * 16 + HexValue(password[2 * i + 1]))
  }

  /** The key a password stands for, if it is acceptable at all. */
  ghost function KeyFor(ssid: Bytes, password: Bytes, derive: Derivation): Option<Key> {
    if IsRawKey(password) then Some(RawKey(password))
    else if IsPassphrase(password) then derive(password, ssid)
    else None
  }

  ghost function Made(ssid: Bytes, password: Bytes, derive: Derivation): (p: Option<WifiProfile>) {
    if !ValidSsid(ssid) then None
    else match KeyFor(ssid, password, derive)
      case None => None
      case Some(key) => Some(WifiProfile(HexOf(ssid), key, None))
  }

  /** The password checks of the factory. */
  method AcceptablePassword(password: Bytes) returns (ok: bool)
    ensures ok <==> IsRawKey(password) || IsPassphrase(password)
  {
    if |password| == 64 {
      for i := 0 to 64
        invariant forall k :: 0 <= k < i ==> HexValue(password[k]) >= 0
      {
        if HexValue(password[i]) < 0 { return false; }
      }
    } else {
      if |password| < 8 || |password| > 63 { return false; }
      for i := 0 to |password|
        invariant forall k :: 0 <= k < i ==> 32 <= password[k] <= 126
      {
        if password[i] < 32 || password[i] > 126 { return false; }
      }
    }
    return true;
  }

  /** Appends two digits per byte. */
  method WriteHex(bytes: Bytes) returns (hex: Bytes)
    ensures hex == HexOf(bytes)
  {
    hex := [];
    ghost var all := HexOf(bytes);
    for i := 0 to |bytes|
      invariant |hex| == 2 * i
      invariant forall k :: 0 <= k < 2 * i ==> hex[k] == all[k]
    {
      assert all[2 * i] == HexDigit(bytes[i] / 16) && all[2 * i + 1] == HexDigit(bytes[i] % 16);
      hex := hex + [HexDigit(bytes[i] / 16), HexDigit(bytes[i] % 16)];
    }
  }

  /** Fills the 32-byte key buffer from 64 digits. */
  method ReadRawKey(password: Bytes) returns (key: Key)
    requires IsRawKey(password)
    ensures key == RawKey(password)
  {
    var psk := new byte[32];
    for i := 0 to 32
      invariant forall k :: 0 <= k < i ==> psk[k] == RawKey(password)[k]
    {
      psk[i] := HexValue(password[2 * i]) * 16 + HexValue(password[2 * i + 1]);
    }
    assert psk[..] == RawKey(password);
    key := psk[..];
  }

  /** WifiProfile::make */
  method Make(ssid: Bytes, password: Bytes, derive: Derivation) returns (r: Option<WifiProfile>)
    ensures r == Made(ssid, password, derive)
    ensures r.Some? ==> ValidProfile(r.value)
  {
    if ssid == [] || |ssid| > 32 { return None; }
    var text := ValidTextSsid(ssid);
    if !text { return None; }
    var acceptable := AcceptablePassword(password);
    if !acceptable { return None; }
    var ssidHex := WriteHex(ssid);
    HexInverse(ssid);
    var key: Key;
    if |password| == 64 {
      key := ReadRawKey(password);
    } else {
      match derive(password, ssid)
      case None => return None;
      case Some(derived) => key := derived;
    }
    r := Some(WifiProfile(ssidHex, key, None));
  }

  /** Lowercase digits mean the same to the raw-key reader. */
  lemma SameRawKey(key: Bytes)
    requires |key| == 64 && IsHex(key)
    ensures IsRawKey(key) && RawKey(key) == FromHex(key)
  {
    assert forall i :: 0 <= i < 64 ==> Unhex(key[i]) >= 0;
    forall i | 0 <= i < 32 ensures RawKey(key)[i] == FromHex(key)[i] {
      assert Unhex(key[2 * i]) >= 0 && Unhex(key[2 * i + 1]) >= 0;
    }
  }

  /** The SSID and key of a profile, written out as hexadecimal, make the same profile again. */
  lemma MadeAgain(p: WifiProfile, derive: Derivation)
    requires ValidProfile(p)
    ensures Made(FromHex(p.ssidHex), HexOf(p.psk), derive) == Some(p.WithDhcp6(None))
  {
    hide IsText;
    var key := HexOf(p.psk);
    FromHexInverse(p.ssidHex);
    HexInverse(p.psk);
    SameRawKey(key);
  }
}
