/** The managed Netplan and supplicant drafts: common/src/wifi_config_draft.cpp. */
module ConfigDraft {
  import opened Octets
  import opened Utf8Text
  import opened Profile

  const MAX_DRAFT := 4096
  const QUOTE: byte := 34
  const BACKSLASH: byte := 92
  const NEWLINE: byte := 10

  /** The fixed texts of the two formats. */
  datatype Texts = Texts(
    yamlHead: Bytes,     // up to the DHCPv6 line
    dhcp6On: Bytes,
    dhcp6Off: Bytes,
    yamlTail: Bytes,     // from the access points to the quoted SSID
    yamlAuth: Bytes,
    yamlEnd: Bytes,
    wpaHead: Bytes,
    wpaAuth: Bytes,
    wpaEnd: Bytes)

  /** All the proofs need to know: the texts are short and differ where a reader must tell them apart. */
  predicate Distinct(g: Texts) {
    && |g.yamlHead| <= 200 && |g.dhcp6On| <= 20 && |g.dhcp6Off| <= 20 && |g.yamlTail| <= 40
    && |g.yamlAuth| <= 90 && |g.yamlEnd| == 2
    && |g.wpaHead| <= 120 && |g.wpaAuth| <= 90 && |g.wpaEnd| == 3
    && |g.yamlHead| > 18 && |g.wpaHead| > 18 && g.yamlHead[18] != g.wpaHead[18]
    && |g.dhcp6On| > 13 && |g.dhcp6Off| > 13 && |g.yamlTail| > 6
    && g.dhcp6On[13] != g.dhcp6Off[13]
    && g.yamlTail[6] != g.dhcp6On[6] && g.yamlTail[6] != g.dhcp6Off[6]
    && |g.wpaAuth| > 0 && g.wpaAuth[0] == NEWLINE
  }

  /** The program's texts are distinct: they witness the type. */
  type Layout = g: Texts | Distinct(g) witness EncoderTexts()

  /** The texts of the program. */
  function EncoderTexts(): (g: Texts) {
    Texts(
      Ascii("# encoder managed wifi v1\n") +
      Ascii("# Draft only: requires verified WPA2 ") + Ascii("enforcement before installation.\n") +
      Ascii("network:\n  version: 2\n  wifis:\n") + Ascii("    wlan0:\n      renderer: networkd\n") +
      Ascii("      dhcp4: true\n"),
      Ascii("      dhcp6: true\n"),
      Ascii("      dhcp6: false\n"),
      Ascii("      access-points:\n        "),
      Ascii(":\n          auth:\n") + Ascii("            key-management: psk\n") + Ascii("            password: \""),
      Ascii("\"\n"),
      Ascii("# encoder managed WPA2 draft v1\n") + Ascii("ctrl_interface=/run/wpa_supplicant\n") +
      Ascii("update_config=0\nnetwork={\n  ssid="),
      Ascii("\n  proto=RSN\n  key_mgmt=WPA-PSK\n") + Ascii("  pairwise=CCMP\n  group=CCMP\n  psk="),
      Ascii("\n}\n"))
  }

  datatype Draft = Draft(netplanYaml: Bytes, supplicantConfig: Bytes)

  /** prefix_for: the optional line goes in front of the access points. */
  function PrefixFor(g: Layout, dhcp6: Option<bool>): (s: Bytes) {
    g.yamlHead + (if dhcp6.None? then [] else if dhcp6.value then g.dhcp6On else g.dhcp6Off) + g.yamlTail
  }

  predicate StartsWith(s: Bytes, prefix: Bytes) {
    |prefix| <= |s| && s[..|prefix|] == prefix
  }

  function EscapedByte(c: byte): (s: Bytes)
    ensures 1 <= |s| <= 2
  {
    if c == BACKSLASH || c == QUOTE then [BACKSLASH, c] else [c]
  }

  /** Quotes and backslashes gain a backslash; every other byte is kept. */
  function Escape(ssid: Bytes): (s: Bytes)
    ensures |ssid| <= |s| <= 2 * |ssid|
  {
    if ssid == [] then []
    else EscapedByte(ssid[0]) + Escape(ssid[1..])
  }

  /** A double-quoted scalar and what follows it. */
  function Quoted(ssid: Bytes, rest: Bytes): (s: Bytes)
    ensures |s| == |Escape(ssid)| + 2 + |rest|
  {
    [QUOTE] + Escape(ssid) + [QUOTE] + rest
  }

  function Yaml(g: Layout, p: WifiProfile): (s: Bytes)
    requires |p.ssidHex| % 2 == 0 && IsHex(p.ssidHex)
  {
    PrefixFor(g, p.dhcp6) + Quoted(FromHex(p.ssidHex), g.yamlAuth + HexOf(p.psk) + g.yamlEnd)
  }

  function Supplicant(g: Layout, p: WifiProfile): (s: Bytes) {
    g.wpaHead + p.ssidHex + g.wpaAuth + HexOf(p.psk) + g.wpaEnd
  }

  /** The scan of a quoted scalar: the bytes it stands for, and what follows the closing quote. */
  function Scan(rest: Bytes, ssid: Bytes): (r: Option<(Bytes, Bytes)>)
    decreases |rest|
  {
    if rest == [] then None
    else if rest[0] == QUOTE then Some((ssid, rest[1..]))
    else if rest[0] == BACKSLASH then
      if |rest| == 1 || (rest[1] != BACKSLASH && rest[1] != QUOTE) || |ssid| + 1 > 32 then None
      else Scan(rest[2..], ssid + [rest[1]])
    else if |ssid| + 1 > 32 then None
    else Scan(rest[1..], ssid + [rest[0]])
  }

  /** What must follow the SSID: the fixed text, 64 lowercase digits, the end. */
  ghost predicate KeyPart(rest: Bytes, auth: Bytes, end: Bytes) {
    && |rest| == |auth| + 64 + |end|
    && rest[..|auth|] == auth
    && rest[|auth| + 64..] == end
    && IsHex(rest[|auth|..|auth| + 64])
  }

  /** The first prefix that matches, in the order the reader tries them. */
  function Recognise(g: Layout, input: Bytes): (r: Option<Option<bool>>)
    ensures r.Some? ==> StartsWith(input, PrefixFor(g, r.value))
  {
    if StartsWith(input, PrefixFor(g, None)) then Some(None)
    else if StartsWith(input, PrefixFor(g, Some(true))) then Some(Some(true))
    else if StartsWith(input, PrefixFor(g, Some(false))) then Some(Some(false))
    else None
  }

  /** The profile spelled by an SSID and the part that follows it. */
  ghost function WithKey(ssid: Bytes, rest: Bytes, auth: Bytes, end: Bytes, dhcp6: Option<bool>): (p: Option<WifiProfile>)
    ensures p.Some? ==> ValidProfile(p.value)
  {
    if KeyPart(rest, auth, end) && ValidSsid(ssid)
    then
      HexInverse(ssid);
      Some(WifiProfile(HexOf(ssid), FromHex(rest[|auth|..|auth| + 64]), dhcp6))
    else None
  }

  /** The profile a YAML draft spells, before the final comparison. */
  ghost function YamlFields(g: Layout, input: Bytes): (p: Option<WifiProfile>)
    ensures p.Some? ==> ValidProfile(p.value)
  {
    match Recognise(g, input)
    case None => None
    case Some(dhcp6) =>
      var rest := input[|PrefixFor(g, dhcp6)|..];
      if rest == [] || rest[0] != QUOTE then None
      else match Scan(rest[1..], [])
        case None => None
        case Some(scanned) => WithKey(scanned.0, scanned.1, g.yamlAuth, g.yamlEnd, dhcp6)
  }

  /** read_wifi_config_draft, as a verdict. */
  ghost function ReadYaml(g: Layout, input: Bytes): (p: Option<WifiProfile>) {
    var p := YamlFields(g, input);
    if |input| <= MAX_DRAFT && p.Some? && Yaml(g, p.value) == input then p else None
  }

  lemma {:induction false} ScanEscaped(ssid: Bytes, done: Bytes, rest: Bytes)
    requires |done| + |ssid| <= 32
    ensures Scan(Escape(ssid) + [QUOTE] + rest, done) == Some((done + ssid, rest))
    decreases |ssid|
  {
    var s := Escape(ssid) + [QUOTE] + rest;
    if ssid == [] {
      assert s == [QUOTE] + rest && done + ssid == done;
    } else {
      var tail := Escape(ssid[1..]) + [QUOTE] + rest;
      ScanEscaped(ssid[1..], done + [ssid[0]], rest);
      assert done + [ssid[0]] + ssid[1..] == done + ssid;
      if ssid[0] == BACKSLASH || ssid[0] == QUOTE {
        assert s == [BACKSLASH, ssid[0]] + tail;
      } else {
        assert s == [ssid[0]] + tail;
      }
    }
  }

  /** Whatever follows, the reader recovers the setting a prefix was printed for. */
  lemma RecogniseAfter(g: Layout, dhcp6: Option<bool>, rest: Bytes)
    ensures Recognise(g, PrefixFor(g, dhcp6) + rest) == Some(dhcp6)
  {
    var s := PrefixFor(g, dhcp6) + rest;
    var n := |g.yamlHead|;
    assert Distinct(g);
    assert StartsWith(s, PrefixFor(g, dhcp6));
    if dhcp6.Some? {
      assert s[n + 6] != PrefixFor(g, None)[n + 6];
      assert !StartsWith(s, PrefixFor(g, None));
      if !dhcp6.value {
        assert s[n + 13] != PrefixFor(g, Some(true))[n + 13];
        assert !StartsWith(s, PrefixFor(g, Some(true)));
      }
    }
  }

  lemma WithPrintedKey(p: WifiProfile, auth: Bytes, end: Bytes)
    requires ValidProfile(p)
    ensures WithKey(FromHex(p.ssidHex), auth + HexOf(p.psk) + end, auth, end, p.dhcp6) == Some(p)
  {
    var rest := auth + HexOf(p.psk) + end;
    HexInverse(p.psk);
    FromHexInverse(p.ssidHex);
    assert rest[|auth|..|auth| + 64] == HexOf(p.psk);
    assert rest[..|auth|] == auth && rest[|auth| + 64..] == end;
  }

  lemma YamlSize(g: Layout, p: WifiProfile)
    requires ValidProfile(p)
    ensures 0 < |Yaml(g, p)| <= MAX_DRAFT
  {
    assert Distinct(g);
    assert |Escape(FromHex(p.ssidHex))| <= 64;
  }

  lemma ScanQuoted(ssid: Bytes, rest: Bytes)
    requires |ssid| <= 32
    ensures var s := Quoted(ssid, rest); s[0] == QUOTE && Scan(s[1..], []) == Some((ssid, rest))
  {
    assert Quoted(ssid, rest)[1..] == Escape(ssid) + [QUOTE] + rest;
    ScanEscaped(ssid, [], rest);
    assert [] + ssid == ssid;
  }

  lemma FieldsFrom(g: Layout, dhcp6: Option<bool>, prefix: Bytes, rest: Bytes, ssid: Bytes, keyPart: Bytes)
    requires prefix == PrefixFor(g, dhcp6)
    requires Recognise(g, prefix + rest) == Some(dhcp6)
    requires rest != [] && rest[0] == QUOTE && Scan(rest[1..], []) == Some((ssid, keyPart))
    ensures YamlFields(g, prefix + rest) == WithKey(ssid, keyPart, g.yamlAuth, g.yamlEnd, dhcp6)
  {
    assert (prefix + rest)[|prefix|..] == rest;
  }

  /** Reading a printed draft gives back the profile, DHCPv6 setting included. */
  lemma YamlRoundTrip(g: Layout, p: WifiProfile)
    requires ValidProfile(p)
    ensures ReadYaml(g, Yaml(g, p)) == Some(p)
  {
    var ssid := FromHex(p.ssidHex);
    var keyPart := g.yamlAuth + HexOf(p.psk) + g.yamlEnd;
    YamlSize(g, p);
    RecogniseAfter(g, p.dhcp6, Quoted(ssid, keyPart));
    ScanQuoted(ssid, keyPart);
    FieldsFrom(g, p.dhcp6, PrefixFor(g, p.dhcp6), Quoted(ssid, keyPart), ssid, keyPart);
    WithPrintedKey(p, g.yamlAuth, g.yamlEnd);
  }

  /** The accepted language is exactly the printer's image. */
  lemma YamlExact(g: Layout, input: Bytes)
    ensures ReadYaml(g, input).Some? <==> exists p :: ValidProfile(p) && Yaml(g, p) == input
    ensures forall p :: ValidProfile(p) && Yaml(g, p) == input ==> ReadYaml(g, input) == Some(p)
  {
    forall p | ValidProfile(p) && Yaml(g, p) == input ensures ReadYaml(g, input) == Some(p) {
      YamlRoundTrip(g, p);
    }
  }

  /** A draft determines the profile it was printed from. */
  lemma YamlInjective(g: Layout, p: WifiProfile, q: WifiProfile)
    requires ValidProfile(p) && ValidProfile(q) && Yaml(g, p) == Yaml(g, q)
    ensures p == q
  {
    YamlRoundTrip(g, p);
    YamlRoundTrip(g, q);
  }

  /** The position of the first c, or the length if there is none. */
  function IndexOf(s: Bytes, c: byte): (i: nat)
    ensures i <= |s| && (i < |s| ==> s[i] == c)
    ensures forall k :: 0 <= k < i ==> s[k] != c
  {
    if s == [] || s[0] == c then 0 else 1 + IndexOf(s[1..], c)
  }

  /** The profile a supplicant draft spells, before the final comparison. */
  ghost function SupplicantFields(g: Layout, input: Bytes): (p: Option<WifiProfile>)
    ensures p.Some? ==> ValidProfile(p.value)
  {
    if !StartsWith(input, g.wpaHead) then None
    else
      var rest := input[|g.wpaHead|..];
      var end := IndexOf(rest, NEWLINE);
      if end == |rest| || end == 0 || end > 64 || end % 2 != 0 || !IsHex(rest[..end]) then None
      else WithKey(FromHex(rest[..end]), rest[end..], g.wpaAuth, g.wpaEnd, None)
  }

  /** read_wifi_supplicant_draft, as a verdict. */
  ghost function ReadSupplicant(g: Layout, input: Bytes): (p: Option<WifiProfile>) {
    var p := SupplicantFields(g, input);
    if |input| <= MAX_DRAFT && p.Some? && Supplicant(g, p.value) == input then p else None
  }

  lemma SupplicantSplit(g: Layout, p: WifiProfile, keyPart: Bytes)
    requires ValidProfile(p) && keyPart == g.wpaAuth + HexOf(p.psk) + g.wpaEnd
    ensures var s := g.wpaHead + p.ssidHex + keyPart;
      && Supplicant(g, p) == s && |s| <= MAX_DRAFT && StartsWith(s, g.wpaHead)
      && var rest := s[|g.wpaHead|..];
      && IndexOf(rest, NEWLINE) == |p.ssidHex| < |rest|
      && rest[..|p.ssidHex|] == p.ssidHex && rest[|p.ssidHex|..] == keyPart
  {
    assert Distinct(g);
    var s := g.wpaHead + p.ssidHex + keyPart;
    var rest := s[|g.wpaHead|..];
    assert rest == p.ssidHex + keyPart;
    assert rest[|p.ssidHex|] == NEWLINE;
    assert forall k :: 0 <= k < |p.ssidHex| ==> rest[k] == p.ssidHex[k] && Unhex(p.ssidHex[k]) >= 0;
    assert IndexOf(rest, NEWLINE) == |p.ssidHex|;
  }

  /** Reading a printed supplicant draft gives back the profile without its DHCPv6 setting. */
  lemma SupplicantRoundTrip(g: Layout, p: WifiProfile)
    requires ValidProfile(p)
    ensures ReadSupplicant(g, Supplicant(g, p)) == Some(p.WithDhcp6(None))
  {
    var q := p.WithDhcp6(None);
    var keyPart := g.wpaAuth + HexOf(p.psk) + g.wpaEnd;
    SupplicantSplit(g, p, keyPart);
    WithPrintedKey(q, g.wpaAuth, g.wpaEnd);
    assert SupplicantFields(g, Supplicant(g, p)) == Some(q);
  }

  /** The accepted supplicant language is exactly the printer's image. */
  lemma SupplicantExact(g: Layout, input: Bytes)
    ensures ReadSupplicant(g, input).Some? <==> exists p :: ValidProfile(p) && Supplicant(g, p) == input
    ensures forall p :: ValidProfile(p) && Supplicant(g, p) == input ==> ReadSupplicant(g, input) == Some(p.WithDhcp6(None))
  {
    forall p | ValidProfile(p) && Supplicant(g, p) == input
      ensures ReadSupplicant(g, input) == Some(p.WithDhcp6(None))
    {
      SupplicantRoundTrip(g, p);
    }
  }

  lemma YamlMark(g: Layout, input: Bytes)
    ensures ReadYaml(g, input).Some? ==> |input| > 18 && input[18] == g.yamlHead[18]
  {
    assert Distinct(g);
    if ReadYaml(g, input).Some? {
      var prefix := PrefixFor(g, Recognise(g, input).value);
      assert input[..|prefix|] == prefix;
      assert input[18] == input[..|prefix|][18];
    }
  }

  lemma SupplicantMark(g: Layout, input: Bytes)
    ensures ReadSupplicant(g, input).Some? ==> |input| > 18 && input[18] == g.wpaHead[18]
  {
    assert Distinct(g);
    if ReadSupplicant(g, input).Some? { assert input[18] == input[..|g.wpaHead|][18]; }
  }

  /** No file is both a Netplan draft and a supplicant draft. */
  lemma FormatsDisjoint(g: Layout, input: Bytes)
    ensures ReadYaml(g, input).None? || ReadSupplicant(g, input).None?
  {
    assert Distinct(g);
    YamlMark(g, input);
    SupplicantMark(g, input);
    hide ReadYaml, ReadSupplicant;
  }

  ghost predicate Printable(p: WifiProfile) {
    |p.psk| == KEY_SIZE && p.ssidHex != [] && |p.ssidHex| <= 64 && |p.ssidHex| % 2 == 0 && IsHex(p.ssidHex)
  }

  /** with_psk: one buffer, filled in place. */
  method WithPsk(prefix: Bytes, psk: Bytes, suffix: Bytes) returns (result: Bytes)
    requires |psk| == KEY_SIZE
    ensures result == prefix + HexOf(psk) + suffix
  {
    var n := |prefix|;
    var buffer := new byte[n + 64 + |suffix|];
    ghost var hex := HexOf(psk);
    forall i | 0 <= i < n { buffer[i] := prefix[i]; }
    for i := 0 to 32
      invariant forall k :: 0 <= k < n ==> buffer[k] == prefix[k]
      invariant forall k :: 0 <= k < 2 * i ==> buffer[n + k] == hex[k]
    {
      assert hex[2 * i] == HexDigit(psk[i] / 16) && hex[2 * i + 1] == HexDigit(psk[i] % 16);
      buffer[n + 2 * i] := HexDigit(psk[i] / 16);
      buffer[n + 2 * i + 1] := HexDigit(psk[i] % 16);
    }
    forall i | 0 <= i < |suffix| { buffer[n + 64 + i] := suffix[i]; }
    result := buffer[..];
  }

  lemma {:induction false} EscapeAppend(a: Bytes, c: byte)
    ensures Escape(a + [c]) == Escape(a) + EscapedByte(c)
  {
    if a == [] {
      assert [c][1..] == [] && [] + [c] == [c];
      assert Escape([c]) == EscapedByte(c) + Escape([]);
    } else {
      var x, y, z := EscapedByte(a[0]), Escape(a[1..]), EscapedByte(c);
      assert (a + [c])[1..] == a[1..] + [c];
      assert Escape(a + [c]) == x + Escape(a[1..] + [c]);
      EscapeAppend(a[1..], c);
      assert x + (y + z) == x + y + z;
    }
  }

  /** The text holds the opening quote and the first i digits' name, escaped. */
  ghost predicate QuotedUpTo(hex: Bytes, i: nat, text: Bytes) {
    i % 2 == 0 && i <= |hex| && IsHex(hex[..i]) && text == [QUOTE] + Escape(FromHex(hex[..i]))
  }

  lemma QuoteStep(hex: Bytes, i: nat, text: Bytes, c: byte)
    requires QuotedUpTo(hex, i, text) && i + 2 <= |hex|
    requires Unhex(hex[i]) >= 0 && Unhex(hex[i + 1]) >= 0 && c == Unhex(hex[i]) * 16 + Unhex(hex[i + 1])
    ensures QuotedUpTo(hex, i + 2, text + EscapedByte(c))
  {
    FromHexStep(hex, i);
    EscapeAppend(FromHex(hex[..i]), c);
  }

  lemma NotHex(hex: Bytes, i: nat)
    requires i < |hex| && Unhex(hex[i]) < 0
    ensures !IsHex(hex)
  {}

  /** The quoting loop of the printer; it also notices a digit that is not one. */
  method QuoteSsid(hex: Bytes) returns (quoted: Option<Bytes>)
    requires |hex| % 2 == 0
    ensures quoted.Some? <==> IsHex(hex)
    ensures quoted.Some? ==> quoted.value == [QUOTE] + Escape(FromHex(hex)) + [QUOTE]
  {
    var text: Bytes := [QUOTE];
    var i := 0;
    assert FromHex(hex[..0]) == [] && Escape([]) == [];
    assert hex[..|hex|] == hex;
    assert QuotedUpTo(hex, 0, text);
    hide Escape, EscapedByte, FromHex, IsHex, Unhex;
    while i < |hex|
      invariant 0 <= i <= |hex| && i % 2 == 0 && QuotedUpTo(hex, i, text)
    {
      var high, low := Unhex(hex[i]), Unhex(hex[i + 1]);
      if high < 0 || low < 0 {
        NotHex(hex, if high < 0 then i else i + 1);
        return None;
      }
      QuoteStep(hex, i, text, high * 16 + low);
      text := text + EscapedByte(high * 16 + low);
      i := i + 2;
    }
    quoted := Some(text + [QUOTE]);
  }

  /** make_wifi_config_draft */
  method MakeWifiConfigDraft(g: Layout, profile: WifiProfile) returns (draft: Option<Draft>)
    ensures draft.Some? <==> Printable(profile)
    ensures draft.Some? ==> draft.value == Draft(Yaml(g, profile), Supplicant(g, profile))
  {
    var hex := profile.ssidHex;
    if |profile.psk| != KEY_SIZE || hex == [] || |hex| > 64 || |hex| % 2 != 0 { return None; }
    var quoted := QuoteSsid(hex);
    if quoted.None? { return None; }
    var yaml := PrefixFor(g, profile.dhcp6) + quoted.value + g.yamlAuth;
    var wpa := g.wpaHead + hex + g.wpaAuth;
    var netplan := WithPsk(yaml, profile.psk, g.yamlEnd);
    var supplicant := WithPsk(wpa, profile.psk, g.wpaEnd);
    assert netplan == Yaml(g, profile);
    draft := Some(Draft(netplan, supplicant));
  }

  /** The scanning loop of the reader. */
  method ScanSsid(remaining: Bytes) returns (r: Option<(Bytes, nat)>)
    ensures r.Some? <==> Scan(remaining, []).Some?
    ensures r.Some? ==> r.value.1 <= |remaining|
    ensures r.Some? ==> Scan(remaining, []) == Some((r.value.0, remaining[r.value.1..]))
  {
    var ssid: Bytes := [];
    var position := 0;
    assert remaining[0..] == remaining;
    while position < |remaining|
      invariant position <= |remaining|
      invariant Scan(remaining, []) == Scan(remaining[position..], ssid)
    {
      ghost var rest := remaining[position..];
      var c := remaining[position];
      position := position + 1;
      assert rest[1..] == remaining[position..];
      if c == QUOTE { return Some((ssid, position)); }
      if c == BACKSLASH {
        if position == |remaining| { return None; }
        c := remaining[position];
        assert rest[2..] == remaining[position + 1..];
        position := position + 1;
        if c != BACKSLASH && c != QUOTE { return None; }
      }
      if |ssid| + 1 > 32 { return None; }
      ssid := ssid + [c];
    }
    return None;
  }

  /** All lowercase digits? */
  method CheckDigits(key: Bytes) returns (ok: bool)
    ensures ok <==> IsHex(key)
  {
    for i := 0 to |key|
      invariant forall k :: 0 <= k < i ==> Unhex(key[k]) >= 0
    {
      if Unhex(key[i]) < 0 { return false; }
    }
    return true;
  }

  lemma RawKeyOfDigits(key: Bytes)
    requires |key| == 64 && IsHex(key)
    ensures IsRawKey(key) && RawKey(key) == FromHex(key)
  {
    assert forall i :: 0 <= i < 64 ==> Unhex(key[i]) >= 0;
  }

  /** The common end of both readers. */
  method ReadKey(ssid: Bytes, rest: Bytes, auth: Bytes, end: Bytes, dhcp6: Option<bool>, derive: Derivation)
    returns (p: Option<WifiProfile>)
    ensures p == WithKey(ssid, rest, auth, end, dhcp6)
  {
    if |rest| != |auth| + 64 + |end| || rest[..|auth|] != auth || rest[|auth| + 64..] != end { return None; }
    var key := rest[|auth|..|auth| + 64];
    var digits := CheckDigits(key);
    if !digits { return None; }
    RawKeyOfDigits(key);
    var made := Make(ssid, key, derive);
    if made.None? { return None; }
    p := Some(made.value.WithDhcp6(dhcp6));
  }

  /** read_wifi_config_draft */
  method ReadWifiConfigDraft(g: Layout, input: Bytes, derive: Derivation) returns (p: Option<WifiProfile>)
    ensures p == ReadYaml(g, input)
    ensures p.Some? <==> exists q :: ValidProfile(q) && Yaml(g, q) == input
  {
    YamlExact(g, input);
    if |input| > MAX_DRAFT { return None; }
    var dhcp6: Option<bool> := None;
    var prefix := PrefixFor(g, dhcp6);
    if !StartsWith(input, prefix) {
      dhcp6 := Some(true); prefix := PrefixFor(g, dhcp6);
      if !StartsWith(input, prefix) {
        dhcp6 := Some(false); prefix := PrefixFor(g, dhcp6);
        if !StartsWith(input, prefix) { return None; }
      }
    }
    assert Recognise(g, input) == Some(dhcp6);
    var remaining := input[|prefix|..];
    if remaining == [] || remaining[0] != QUOTE { return None; }
    remaining := remaining[1..];
    var scanned := ScanSsid(remaining);
    if scanned.None? { return None; }
    remaining := remaining[scanned.value.1..];
    var fields := ReadKey(scanned.value.0, remaining, g.yamlAuth, g.yamlEnd, dhcp6, derive);
    if fields.None? { return None; }
    var canonical := MakeWifiConfigDraft(g, fields.value);
    if canonical.None? || canonical.value.netplanYaml != input { return None; }
    p := fields;
  }

  /** The SSID loop of the supplicant reader. */
  method ReadDigits(digits: Bytes) returns (ssid: Option<Bytes>)
    requires |digits| % 2 == 0
    ensures ssid.Some? <==> IsHex(digits)
    ensures ssid.Some? ==> ssid.value == FromHex(digits)
  {
    var text: Bytes := [];
    var i := 0;
    while i < |digits|
      invariant 0 <= i <= |digits| && i % 2 == 0
      invariant IsHex(digits[..i]) && text == FromHex(digits[..i])
    {
      var high, low := Unhex(digits[i]), Unhex(digits[i + 1]);
      if high < 0 || low < 0 { return None; }
      FromHexStep(digits, i);
      text := text + [high * 16 + low];
      i := i + 2;
    }
    assert digits[..i] == digits;
    ssid := Some(text);
  }

  /** read_wifi_supplicant_draft */
  method ReadWifiSupplicantDraft(g: Layout, input: Bytes, derive: Derivation) returns (p: Option<WifiProfile>)
    ensures p == ReadSupplicant(g, input)
    ensures p.Some? <==> exists q :: ValidProfile(q) && Supplicant(g, q) == input
  {
    SupplicantExact(g, input);
    if |input| > MAX_DRAFT || !StartsWith(input, g.wpaHead) { return None; }
    var remaining := input[|g.wpaHead|..];
    var end := IndexOf(remaining, NEWLINE);
    if end == |remaining| || end == 0 || end > 64 || end % 2 != 0 { return None; }
    var digits := remaining[..end];
    var ssid := ReadDigits(digits);
    if ssid.None? { return None; }
    var fields := ReadKey(ssid.value, remaining[end..], g.wpaAuth, g.wpaEnd, None, derive);
    if fields.None? { return None; }
    var canonical := MakeWifiConfigDraft(g, fields.value);
    if canonical.None? || canonical.value.supplicantConfig != input { return None; }
    p := fields;
  }
}
