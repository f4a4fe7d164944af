/** Headers and the embedded container: common/src/protocol.cpp and client/src/client_core.cpp. */
module Framing {
  import opened Octets
  import opened Base64

  const NEWLINE: byte := 10
  const RETURN: byte := 13
  const COLON: byte := 58

  type Header = map<Bytes, Bytes>

  predicate Blank(c: byte) {
    c == 32 || c == 9 || c == RETURN || c == NEWLINE
  }

  /** The first character from i on that is not blank. */
  function Start(s: Bytes, i: nat): (start: nat)
    requires i <= |s|
    ensures i <= start <= |s|
    decreases |s| - i
  {
    if i < |s| && Blank(s[i]) then Start(s, i + 1) else i
  }

  /** Just behind the last character before j that is not blank, if s[start] is one. */
  function End(s: Bytes, start: nat, j: nat): (end: nat)
    requires start < j <= |s|
    ensures start < end <= j
  {
    if j - 1 > start && Blank(s[j - 1]) then End(s, start, j - 1) else j
  }

  function Trim(s: Bytes): (t: Bytes) {
    var start := Start(s, 0);
    if start == |s| then [] else s[start..End(s, start, |s|)]
  }

  ghost predicate Trimmed(s: Bytes) {
    s != [] ==> !Blank(s[0]) && !Blank(s[|s| - 1])
  }

  /** A value a header line can carry. */
  ghost predicate PlainValue(v: Bytes) {
    Trimmed(v) && FreeOf(v, NEWLINE)
  }

  ghost predicate PlainKey(k: Bytes) {
    k != [] && PlainValue(k) && FreeOf(k, COLON)
  }

  ghost predicate Plain(h: Header) {
    forall k :: k in h ==> PlainKey(k) && PlainValue(h[k])
  }

  /** The keys of a header in some order, each once. */
  ghost predicate Enumerates(order: seq<Bytes>, h: Header) {
    && (forall k :: k in order <==> k in h)
    && forall i, j :: 0 <= i < j < |order| ==> order[i] != order[j]
  }

  function Line(k: Bytes, v: Bytes): (line: Bytes) {
    k + [COLON, 32] + v
  }

  /** The lines of the first n keys. */
  function Lines(h: Header, order: seq<Bytes>): (text: Bytes)
    requires forall k :: k in order ==> k in h
  {
    if order == [] then [] else Line(order[0], h[order[0]]) + [NEWLINE] + Lines(h, order[1..])
  }

  function Text(h: Header, order: seq<Bytes>): (text: Bytes)
    requires forall k :: k in order ==> k in h
  {
    Lines(h, order) + [NEWLINE]
  }

  /** One line read: a key and a value, if there is a colon and the key is not blank. */
  function Put(fields: Header, line: Bytes): Header {
    var pos := Find(line, COLON, 0);
    if pos == |line| || Trim(line[..pos]) == [] then fields
    else fields[Trim(line[..pos]) := Trim(line[pos + 1..])]
  }

  /** What the parser makes of a text from position begin on: line after line up to the first empty one. */
  function Parsed(raw: Bytes, begin: nat, fields: Header): (h: Header)
    requires begin <= |raw|
    decreases |raw| - begin
  {
    if begin == |raw| then fields
    else
      var end := Find(raw, NEWLINE, begin);
      var line := raw[begin..end];
      if line == [] || line == [RETURN] then fields
      else if end == |raw| then Put(fields, line)
      else Parsed(raw, end + 1, Put(fields, line))
  }

  // ---- Printing and parsing are inverse ----

  lemma FindAt(s: Bytes, c: byte, begin: nat, at: nat)
    requires begin <= at < |s| && s[at] == c && FreeOf(s[begin..at], c)
    ensures Find(s, c, begin) == at
  {
    var end := Find(s, c, begin);
    assert forall i :: begin <= i < at ==> s[i] == s[begin..at][i - begin];
    assert forall i :: begin <= i < end ==> s[i] == s[begin..end][i - begin];
  }

  lemma TrimNothing(s: Bytes)
    requires Trimmed(s)
    ensures Trim(s) == s
  {}

  lemma TrimSpace(s: Bytes)
    requires Trimmed(s)
    ensures Trim([32] + s) == s
  {
    var spaced: Bytes := [32] + s;
    assert spaced[0] == 32 && spaced[1..] == s;
    assert Start(spaced, 0) == Start(spaced, 1) == 1;
    if s != [] {
      assert spaced[|s|] == s[|s| - 1];
      assert End(spaced, 1, |spaced|) == |spaced|;
    }
  }

  lemma PutLine(fields: Header, k: Bytes, v: Bytes)
    requires PlainKey(k) && PlainValue(v)
    ensures Put(fields, Line(k, v)) == fields[k := v]
  {
    hide Find, Trim, FreeOf, Trimmed;
    var spaced: Bytes := [32] + v;
    var line: Bytes := k + [COLON] + spaced;
    assert line == Line(k, v);
    assert line[..|k|] == line[0..|k|] == k;
    FindAt(line, COLON, 0, |k|);
    assert line[|k| + 1..] == spaced;
    TrimNothing(k);
    TrimSpace(v);
  }

  lemma LineIsPlain(k: Bytes, v: Bytes)
    requires PlainKey(k) && PlainValue(v)
    ensures FreeOf(Line(k, v), NEWLINE) && Line(k, v) != [] && Line(k, v)[0] == k[0]
    ensures !Blank(Line(k, v)[0]) && Line(k, v) != [RETURN]
  {}

  /** A printed line is one field more. */
  lemma ParsedLine(raw: Bytes, begin: nat, k: Bytes, v: Bytes, fields: Header)
    requires PlainKey(k) && PlainValue(v)
    requires var line := Line(k, v);
      begin + |line| < |raw| && raw[begin..begin + |line|] == line && raw[begin + |line|] == NEWLINE
    ensures Parsed(raw, begin, fields) == Parsed(raw, begin + |Line(k, v)| + 1, fields[k := v])
  {
    var line := Line(k, v);
    LineIsPlain(k, v);
    hide Line, Put, Find, PlainKey, PlainValue, FreeOf;
    FindAt(raw, NEWLINE, begin, begin + |line|);
    PutLine(fields, k, v);
    ParsedAt(raw, begin, line, fields);
  }

  lemma ParsedAt(raw: Bytes, begin: nat, line: Bytes, fields: Header)
    requires begin + |line| < |raw| && raw[begin..begin + |line|] == line && line != [] && line != [RETURN]
    requires Find(raw, NEWLINE, begin) == begin + |line|
    ensures Parsed(raw, begin, fields) == Parsed(raw, begin + |line| + 1, Put(fields, line))
  {
    hide Find, Put;
  }

  /** The fields of the listed keys. */
  function Listed(h: Header, order: seq<Bytes>, fields: Header): Header
    requires forall k :: k in order ==> k in h
  {
    if order == [] then fields else Listed(h, order[1..], fields[order[0] := h[order[0]]])
  }

  /** The first line of a printed header, in its place. */
  lemma FirstLine(h: Header, order: seq<Bytes>, before: Bytes, rest: Bytes)
    requires order != [] && forall k :: k in order ==> k in h
    ensures var (s, line) := (before + Text(h, order) + rest, Line(order[0], h[order[0]]));
      && |before| + |line| < |s| && s[|before|..|before| + |line|] == line && s[|before| + |line|] == NEWLINE
      && s == (before + line + [NEWLINE]) + Text(h, order[1..]) + rest
  {
    hide Line;
  }

  lemma ParsedEnd(h: Header, before: Bytes, rest: Bytes, fields: Header)
    ensures Parsed(before + Text(h, []) + rest, |before|, fields) == fields == Listed(h, [], fields)
  {
    var s := before + [NEWLINE] + rest;
    assert Text(h, []) == [NEWLINE];
    assert s[|before|] == NEWLINE && s[|before|..|before|] == [];
    FindAt(s, NEWLINE, |before|, |before|);
    hide Find, Put;
  }

  lemma ListedFirst(h: Header, order: seq<Bytes>, fields: Header)
    requires order != [] && forall k :: k in order ==> k in h
    ensures forall k :: k in order[1..] ==> k in h
    ensures Listed(h, order, fields) == Listed(h, order[1..], fields[order[0] := h[order[0]]])
  {}

  lemma {:induction false} ParsedLines(h: Header, order: seq<Bytes>, before: Bytes, rest: Bytes, fields: Header)
    requires Plain(h) && (forall k :: k in order ==> k in h)
    ensures Parsed(before + Text(h, order) + rest, |before|, fields) == Listed(h, order, fields)
    decreases |order|
  {
    hide Parsed, Text, Line, Listed, PlainKey, PlainValue;
    if order == [] {
      ParsedEnd(h, before, rest, fields);
    } else {
      var k := order[0];
      ListedFirst(h, order, fields);
      FirstLine(h, order, before, rest);
      ParsedLine(before + Text(h, order) + rest, |before|, k, h[k], fields);
      ParsedLines(h, order[1..], before + Line(k, h[k]) + [NEWLINE], rest, fields[k := h[k]]);
    }
  }

  lemma {:induction false} ListedAre(h: Header, order: seq<Bytes>, fields: Header)
    requires forall k :: k in order ==> k in h
    ensures forall k :: k in Listed(h, order, fields) <==> k in order || k in fields
    ensures forall k :: k in order ==> Listed(h, order, fields)[k] == h[k]
    ensures forall k :: k in fields && k !in order ==> Listed(h, order, fields)[k] == fields[k]
    decreases |order|
  {
    if order != [] {
      ListedAre(h, order[1..], fields[order[0] := h[order[0]]]);
      assert order == [order[0]] + order[1..];
    }
  }

  /** Whatever order the fields are printed in, and whatever follows, the parser finds the header again. */
  lemma ParseText(h: Header, order: seq<Bytes>, rest: Bytes)
    requires Plain(h) && Enumerates(order, h)
    ensures Parsed(Text(h, order) + rest, 0, map[]) == h
  {
    ParsedLines(h, order, [], rest, map[]);
    assert [] + Text(h, order) + rest == Text(h, order) + rest;
    ListedAre(h, order, map[]);
  }

  // ---- Finding the end of a header in a stream ----

  /** How far read_header reads from position i: up to the newline that ends an empty line. */
  function HeaderEnd(s: Bytes, i: nat, blank: bool): (end: Option<nat>)
    requires i <= |s|
    ensures end.Some? ==> i < end.value <= |s|
    decreases |s| - i
  {
    if i == |s| then None
    else if s[i] == NEWLINE then (if blank then Some(i + 1) else HeaderEnd(s, i + 1, true))
    else if s[i] == RETURN then HeaderEnd(s, i + 1, blank)
    else HeaderEnd(s, i + 1, false)
  }

  /** Inside a line nothing ends. */
  lemma {:induction false} EndBeyondLine(s: Bytes, i: nat, j: nat)
    requires i <= j < |s| && s[j] == NEWLINE
    requires forall k :: i <= k < j ==> s[k] != NEWLINE
    ensures HeaderEnd(s, i, false) == HeaderEnd(s, j + 1, true)
    decreases j - i
  {
    if i < j { EndBeyondLine(s, i + 1, j); }
  }

  lemma EndBeyondPlainLine(s: Bytes, i: nat, line: Bytes)
    requires i + |line| < |s| && s[i..i + |line|] == line && s[i + |line|] == NEWLINE
    requires line != [] && !Blank(line[0]) && FreeOf(line, NEWLINE)
    ensures forall blank :: HeaderEnd(s, i, blank) == HeaderEnd(s, i + |line| + 1, true)
  {
    assert forall k :: i <= k < i + |line| ==> s[k] == line[k - i];
    assert s[i] == line[0];
    EndBeyondLine(s, i + 1, i + |line|);
  }

  lemma {:induction false} EndOfLines(h: Header, order: seq<Bytes>, before: Bytes, payload: Bytes, blank: bool)
    requires Plain(h) && (forall k :: k in order ==> k in h) && (order == [] ==> blank)
    ensures HeaderEnd(before + Text(h, order) + payload, |before|, blank) == Some(|before| + |Text(h, order)|)
    decreases |order|
  {
    var s := before + Text(h, order) + payload;
    if order == [] {
      assert s[|before|] == NEWLINE;
    } else {
      var k := order[0];
      var line := Line(k, h[k]);
      var upTo := before + line + [NEWLINE];
      LineIsPlain(k, h[k]);
      assert s == upTo + Text(h, order[1..]) + payload;
      assert s[|before|..|before| + |line|] == line;
      EndBeyondPlainLine(s, |before|, line);
      EndOfLines(h, order[1..], upTo, payload, true);
      assert |Text(h, order)| == |line| + 1 + |Text(h, order[1..])|;
    }
  }

  lemma SomeKey(h: Header)
    requires h != map[]
    ensures exists k :: k in h
  {
    assert h.Keys != {};
  }

  /** A header with a field is exactly as long as the reader thinks, whatever the payload. */
  lemma EndOfText(h: Header, order: seq<Bytes>, payload: Bytes)
    requires Plain(h) && Enumerates(order, h) && h != map[]
    ensures HeaderEnd(Text(h, order) + payload, 0, false) == Some(|Text(h, order)|)
  {
    SomeKey(h);
    var k := order[0];
    var s := Text(h, order) + payload;
    assert [] + Text(h, order) + payload == s;
    LineIsPlain(k, h[k]);
    assert s[0] == Line(k, h[k])[0];
    EndOfLines(h, order, [], payload, true);
    assert HeaderEnd(s, 0, true) == HeaderEnd(s, 1, false) == HeaderEnd(s, 0, false);
  }

  // ---- The code ----

  /** trim: the first and the last character that are not blank. */
  method TrimBlanks(s: Bytes) returns (t: Bytes)
    ensures t == Trim(s)
  {
    var start := 0;
    while start < |s| && Blank(s[start])
      invariant start <= |s| && Start(s, 0) == Start(s, start)
    {
      start := start + 1;
    }
    if start == |s| { return []; }
    var end := |s|;
    while end - 1 > start && Blank(s[end - 1])
      invariant start < end <= |s| && End(s, start, |s|) == End(s, start, end)
    {
      end := end - 1;
    }
    t := s[start..end];
  }

  /** Header::parse */
  method Parse(raw: Bytes) returns (h: Header)
    ensures h == Parsed(raw, 0, map[])
  {
    h := map[];
    var begin := 0;
    hide Find, Put;
    while begin < |raw|
      invariant begin <= |raw| && Parsed(raw, 0, map[]) == Parsed(raw, begin, h)
    {
      var end := Find(raw, NEWLINE, begin);
      var line := raw[begin..end];
      if line == [] || line == [RETURN] { return; }
      h := ParseLine(h, line);
      if end == |raw| { return; }
      begin := end + 1;
    }
  }

  /** One line of a header. */
  method ParseLine(h: Header, line: Bytes) returns (r: Header)
    ensures r == Put(h, line)
  {
    hide Trim;
    var pos := Find(line, COLON, 0);
    if pos == |line| { return h; }
    var key := TrimBlanks(line[..pos]);
    var value := TrimBlanks(line[pos + 1..]);
    r := if key != [] then h[key := value] else h;
  }

  /** One of the ways to print a header. */
  ghost predicate Prints(text: Bytes, h: Header) {
    exists order :: Enumerates(order, h) && text == Text(h, order)
  }

  /** Header::serialize: the iteration order of the map is anybody's guess. */
  method Serialize(h: Header) returns (text: Bytes, ghost order: seq<Bytes>)
    ensures Prints(text, h) && Enumerates(order, h) && text == Text(h, order)
  {
    text, order := [], [];
    var keys := h.Keys;
    while keys != {}
      invariant keys <= h.Keys && (forall k :: k in order <==> k in h && k !in keys)
      invariant forall i, j :: 0 <= i < j < |order| ==> order[i] != order[j]
      invariant text == Lines(h, order)
      decreases |keys|
    {
      var key :| key in keys;
      LinesAppend(h, order, key);
      text := text + key + [COLON, 32] + h[key] + [NEWLINE];
      assert key !in order;
      order := order + [key];
      keys := keys - {key};
    }
    text := text + [NEWLINE];
    assert Enumerates(order, h) && text == Text(h, order);
  }

  lemma {:induction false} LinesAppend(h: Header, order: seq<Bytes>, key: Bytes)
    requires key in h && forall k :: k in order ==> k in h
    ensures Lines(h, order + [key]) == Lines(h, order) + key + [COLON, 32] + h[key] + [NEWLINE]
    decreases |order|
  {
    var all := order + [key];
    if order == [] {
      assert all[0] == key && all[1..] == [];
    } else {
      assert all[0] == order[0] && all[1..] == order[1..] + [key];
      LinesAppend(h, order[1..], key);
      var head := Line(order[0], h[order[0]]) + [NEWLINE];
      assert head + (Lines(h, order[1..]) + key + [COLON, 32] + h[key] + [NEWLINE]) ==
        (head + Lines(h, order[1..])) + key + [COLON, 32] + h[key] + [NEWLINE];
    }
  }

  /** read_header on a stream that fails once it is exhausted; consumed bytes cannot be put back. */
  method ReadHeader(stream: Bytes, maxBytes: nat) returns (ok: bool, h: Header, consumed: nat)
    ensures var end := HeaderEnd(stream, 0, false);
      ok <==> end.Some? && end.value < maxBytes
    ensures ok ==> consumed == HeaderEnd(stream, 0, false).value && h == Parsed(stream[..consumed], 0, map[])
  {
    var buffer: Bytes := [];
    var total, blank := 0, false;
    h := map[];
    ghost var ended := false;
    while total < maxBytes
      invariant total <= |stream| && total <= maxBytes && buffer == stream[..total] && !ended
      invariant HeaderEnd(stream, 0, false) == HeaderEnd(stream, total, blank)
    {
      if total == |stream| { return false, h, total; }
      var octet := stream[total];
      total := total + 1;
      buffer := buffer + [octet];
      if octet == NEWLINE {
        if blank {
          ended := true;
          break;
        }
        blank := true;
      } else if octet == RETURN {
        continue;
      } else {
        blank := false;
      }
    }
    consumed := total;
    if total >= maxBytes { return false, h, total; }
    h := Parse(buffer);
    ok := true;
  }

  /** A header with a field, sent in any order and followed by anything, is received exactly and nothing more is consumed. */
  lemma Received(h: Header, order: seq<Bytes>, payload: Bytes)
    requires Plain(h) && Enumerates(order, h) && h != map[]
    ensures var text := Text(h, order);
      HeaderEnd(text + payload, 0, false) == Some(|text|) && Parsed((text + payload)[..|text|], 0, map[]) == h
  {
    EndOfText(h, order, payload);
    ParseText(h, order, []);
    assert (Text(h, order) + payload)[..|Text(h, order)|] == Text(h, order) + [];
  }

  /** A header without fields is no header to the reader: it goes on into the payload. */
  lemma EmptyHeaderNotReceived(payload: Bytes)
    ensures HeaderEnd(Text(map[], []) + payload, 0, false) != Some(|Text(map[], [])|)
  {
    var s := Text(map[], []) + payload;
    assert Text(map[], []) == [NEWLINE] && s[0] == NEWLINE;
    assert HeaderEnd(s, 0, false) == HeaderEnd(s, 1, true);
  }

  // ---- The embedded container ----

  /** "CIPHEATOR" and a newline. */
  const MAGIC: Bytes := [67, 73, 80, 72, 69, 65, 84, 79, 82, 10]

  datatype Embedded = NotEmbedded(file: Bytes) | Invalid | Container(header: Header, ciphertext: Bytes)

  /** read_embedded_file, from the bytes of the file on. */
  method ReadEmbedded(file: Bytes) returns (r: Embedded)
    ensures r.NotEmbedded? <==> !(MAGIC <= file)
    ensures r.NotEmbedded? ==> r.file == file
    ensures r.Container? ==> exists at :: FirstEmptyLine(file, 10, at) && IsContainer(file, at, r)
    ensures r.Invalid? ==> forall at :: 10 <= at < |file| - 1 ==> !(file[at] == NEWLINE && file[at + 1] == NEWLINE)
  {
    if |file| < 10 || file[..10] != MAGIC { return NotEmbedded(file); }
    var at := 10;
    while at + 1 < |file| && !(file[at] == NEWLINE && file[at + 1] == NEWLINE)
      invariant 10 <= at <= |file|
      invariant forall k :: 10 <= k < at && k + 1 < |file| ==> !(file[k] == NEWLINE && file[k + 1] == NEWLINE)
    {
      at := at + 1;
    }
    if at + 1 >= |file| { return Invalid; }
    var end := at + 2;
    var header := Parse(file[10..end]);
    r := Container(header, file[end..]);
    assert FirstEmptyLine(file, 10, at) && IsContainer(file, at, r);
  }

  ghost predicate IsContainer(file: Bytes, at: int, r: Embedded)
    requires FirstEmptyLine(file, 10, at)
  {
    r == Container(Parsed(file[10..at + 2], 0, map[]), file[at + 2..])
  }

  /** The first place from begin on where two newlines meet. */
  ghost predicate FirstEmptyLine(file: Bytes, begin: nat, at: int) {
    && begin <= at < |file| - 1 && file[at] == NEWLINE && file[at + 1] == NEWLINE
    && forall k :: begin <= k < at ==> !(file[k] == NEWLINE && file[k + 1] == NEWLINE)
  }

  ghost predicate NoEmptyLine(s: Bytes) {
    forall k :: 0 <= k < |s| - 1 ==> !(s[k] == NEWLINE && s[k + 1] == NEWLINE)
  }

  lemma {:induction false} LinesHaveNoEmptyLine(h: Header, order: seq<Bytes>)
    requires Plain(h) && forall k :: k in order ==> k in h
    ensures NoEmptyLine(Lines(h, order))
    ensures order != [] ==> var t := Lines(h, order); t != [] && t[0] != NEWLINE && t[|t| - 1] == NEWLINE
    decreases |order|
  {
    if order != [] {
      var line := Line(order[0], h[order[0]]);
      var rest := Lines(h, order[1..]);
      LineIsPlain(order[0], h[order[0]]);
      LinesHaveNoEmptyLine(h, order[1..]);
      OneLineMore(line, rest);
    }
  }

  lemma OneLineMore(line: Bytes, rest: Bytes)
    requires line != [] && FreeOf(line, NEWLINE) && NoEmptyLine(rest) && (rest != [] ==> rest[0] != NEWLINE)
    ensures NoEmptyLine(line + [NEWLINE] + rest)
  {
    var t := line + [NEWLINE] + rest;
    forall k | 0 <= k < |t| - 1 ensures !(t[k] == NEWLINE && t[k + 1] == NEWLINE) {
      if k < |line| { assert t[k] == line[k]; }
      else if k > |line| { assert t[k] == rest[k - |line| - 1] && t[k + 1] == rest[k - |line|]; }
    }
  }

  /** A container is split at the right byte, even if the ciphertext contains empty lines. */
  lemma ContainerReadBack(h: Header, order: seq<Bytes>, ciphertext: Bytes, at: int)
    requires Plain(h) && Enumerates(order, h) && h != map[]
    requires FirstEmptyLine(MAGIC + Text(h, order) + ciphertext, 10, at)
    ensures at == 10 + |Text(h, order)| - 2
    ensures IsContainer(MAGIC + Text(h, order) + ciphertext, at, Container(h, ciphertext))
  {
    var lines, text := Lines(h, order), Text(h, order);
    var file := MAGIC + text + ciphertext;
    SomeKey(h);
    LinesHaveNoEmptyLine(h, order);
    assert |MAGIC| == 10;
    var last := 10 + |lines| - 1;
    assert file[last] == NEWLINE && file[last + 1] == NEWLINE;
    assert at <= last;
    forall k | 10 <= k < last ensures !(file[k] == NEWLINE && file[k + 1] == NEWLINE) {
      assert file[k] == lines[k - 10] && file[k + 1] == lines[k - 9];
    }
    hide Lines, Text, Parsed;
    ParseText(h, order, []);
    assert file[10..last + 2] == text + [] && file[last + 2..] == ciphertext;
  }

  /** It is never taken for a damaged or a foreign file. */
  lemma ContainerRecognised(h: Header, order: seq<Bytes>, ciphertext: Bytes)
    requires Plain(h) && Enumerates(order, h) && h != map[]
    ensures var file := MAGIC + Text(h, order) + ciphertext;
      MAGIC <= file && exists at :: 10 <= at < |file| - 1 && file[at] == NEWLINE && file[at + 1] == NEWLINE
  {
    var lines := Lines(h, order);
    var file := MAGIC + Text(h, order) + ciphertext;
    SomeKey(h);
    LinesHaveNoEmptyLine(h, order);
    var last := 10 + |lines| - 1;
    assert file[last] == lines[|lines| - 1] && file[last + 1] == NEWLINE;
    assert file[..10] == MAGIC;
  }

  // ---- Writing a container ----

  const VERSION: Bytes := [118, 101, 114, 115, 105, 111, 110]
  const CIPHER: Bytes := [99, 105, 112, 104, 101, 114]
  const HASH: Bytes := [104, 97, 115, 104]
  const KEY_STORAGE: Bytes := [107, 101, 121, 95, 115, 116, 111, 114, 97, 103, 101]
  const FILE_ID: Bytes := [102, 105, 108, 101, 95, 105, 100]
  const KEY_ID: Bytes := [107, 101, 121, 95, 105, 100]
  const HASH_VALUE: Bytes := [104, 97, 115, 104, 95, 118, 97, 108, 117, 101]
  const IV: Bytes := [105, 118]
  const TAG: Bytes := [116, 97, 103]
  const KEY: Bytes := [107, 101, 121]
  const CLIENT: Bytes := [99, 108, 105, 101, 110, 116]

  /** What encrypting produced; empty where there is nothing. */
  datatype Encrypted = Encrypted(fileId: Bytes, keyId: Bytes, hashValue: Bytes, iv: Bytes, tag: Bytes, key: Bytes)

  function SetIf(h: Header, key: Bytes, present: bool, value: Bytes): Header {
    if present then h[key := value] else h
  }

  function ContainerHeader(cipher: Bytes, hash: Bytes, storage: Bytes, e: Encrypted): Header {
    var h := map[VERSION := [49], CIPHER := cipher, HASH := hash, KEY_STORAGE := storage];
    var named := SetIf(SetIf(SetIf(h, FILE_ID, e.fileId != [], e.fileId), KEY_ID, e.keyId != [], e.keyId),
      HASH_VALUE, e.hashValue != [], e.hashValue);
    SetIf(SetIf(SetIf(named, IV, e.iv != [], Encoding(e.iv)), TAG, e.tag != [], Encoding(e.tag)),
      KEY, storage == CLIENT, Encoding(e.key))
  }

  /** write_embedded_file, up to the bytes of the file. */
  method WriteEmbedded(cipher: Bytes, hash: Bytes, storage: Bytes, e: Encrypted, data: Bytes)
    returns (file: Option<Bytes>, ghost order: seq<Bytes>)
    ensures file.None? <==> storage == CLIENT && e.key == []
    ensures file.Some? ==> var h := ContainerHeader(cipher, hash, storage, e);
      Enumerates(order, h) && file.value == MAGIC + Text(h, order) + data
  {
    order := [];
    var header: Header := map[];
    header := header[VERSION := [49]];
    header := header[CIPHER := cipher];
    header := header[HASH := hash];
    header := header[KEY_STORAGE := storage];
    assert header == map[VERSION := [49], CIPHER := cipher, HASH := hash, KEY_STORAGE := storage];
    if e.fileId != [] { header := header[FILE_ID := e.fileId]; }
    if e.keyId != [] { header := header[KEY_ID := e.keyId]; }
    if e.hashValue != [] { header := header[HASH_VALUE := e.hashValue]; }
    if e.iv != [] {
      var iv := Encode(e.iv);
      header := header[IV := iv];
    }
    if e.tag != [] {
      var tag := Encode(e.tag);
      header := header[TAG := tag];
    }
    if storage == CLIENT {
      if e.key == [] { return None, []; }
      var key := Encode(e.key);
      header := header[KEY := key];
    }
    var text;
    text, order := Serialize(header);
    file := Some(MAGIC + text + data);
  }

  /** Base64 text fits on a header line. */
  lemma EncodingIsPlain(data: Bytes)
    ensures PlainValue(Encoding(data))
  {
    var text := Encoding(data);
    forall i | 0 <= i < |text| ensures !Blank(text[i]) {
      if i < |Pack(data)| { LetterIsNotBlank(Pack(data)[i]); }
    }
  }

  lemma LetterIsNotBlank(v: Sextet)
    ensures !Blank(Letter(v))
  {}

  lemma SetPlain(h: Header, key: Bytes, present: bool, value: Bytes)
    requires Plain(h) && PlainKey(key) && (present ==> PlainValue(value))
    ensures Plain(SetIf(h, key, present, value))
  {}

  lemma KeysArePlain()
    ensures PlainKey(VERSION) && PlainKey(CIPHER) && PlainKey(HASH) && PlainKey(KEY_STORAGE) && PlainKey(FILE_ID)
    ensures PlainKey(KEY_ID) && PlainKey(HASH_VALUE) && PlainKey(IV) && PlainKey(TAG) && PlainKey(KEY)
    ensures PlainValue([49])
  {}

  lemma ContainerHeaderPlain(cipher: Bytes, hash: Bytes, storage: Bytes, e: Encrypted)
    requires PlainValue(cipher) && PlainValue(hash) && PlainValue(storage)
    requires PlainValue(e.fileId) && PlainValue(e.keyId) && PlainValue(e.hashValue)
    ensures Plain(ContainerHeader(cipher, hash, storage, e)) && ContainerHeader(cipher, hash, storage, e) != map[]
  {
    KeysArePlain();
    EncodingIsPlain(e.iv);
    EncodingIsPlain(e.tag);
    EncodingIsPlain(e.key);
    hide PlainKey, PlainValue, Encoding;
    var h0: Header := map[VERSION := [49], CIPHER := cipher, HASH := hash, KEY_STORAGE := storage];
    assert Plain(h0);
    var h1 := SetIf(h0, FILE_ID, e.fileId != [], e.fileId);
    SetPlain(h0, FILE_ID, e.fileId != [], e.fileId);
    var h2 := SetIf(h1, KEY_ID, e.keyId != [], e.keyId);
    SetPlain(h1, KEY_ID, e.keyId != [], e.keyId);
    var h3 := SetIf(h2, HASH_VALUE, e.hashValue != [], e.hashValue);
    SetPlain(h2, HASH_VALUE, e.hashValue != [], e.hashValue);
    var h4 := SetIf(h3, IV, e.iv != [], Encoding(e.iv));
    SetPlain(h3, IV, e.iv != [], Encoding(e.iv));
    var h5 := SetIf(h4, TAG, e.tag != [], Encoding(e.tag));
    SetPlain(h4, TAG, e.tag != [], Encoding(e.tag));
    SetPlain(h5, KEY, storage == CLIENT, Encoding(e.key));
    assert VERSION in ContainerHeader(cipher, hash, storage, e);
  }

  lemma KeysDiffer()
    ensures |CIPHER| == 6 && |HASH| == 4 && |KEY_STORAGE| == 11 && |FILE_ID| == 7 && |KEY_ID| == 6
    ensures |HASH_VALUE| == 10 && |IV| == 2 && |TAG| == 3 && |KEY| == 3
    ensures CIPHER != KEY_ID && TAG != KEY
  {
    assert CIPHER[0] != KEY_ID[0] && TAG[0] != KEY[0];
  }

  lemma ContainerFields(cipher: Bytes, hash: Bytes, storage: Bytes, e: Encrypted)
    ensures var h := ContainerHeader(cipher, hash, storage, e);
      && CIPHER in h && h[CIPHER] == cipher && HASH in h && h[HASH] == hash && KEY_STORAGE in h && h[KEY_STORAGE] == storage
      && (e.iv != [] ==> IV in h && h[IV] == Encoding(e.iv))
      && (e.tag != [] ==> TAG in h && h[TAG] == Encoding(e.tag))
      && (storage == CLIENT ==> KEY in h && h[KEY] == Encoding(e.key))
  {
    hide Encoding;
    KeysDiffer();
  }

  /** What was written is read back: the header field by field, the binary values after base64, the ciphertext untouched. */
  lemma WrittenThenRead(cipher: Bytes, hash: Bytes, storage: Bytes, e: Encrypted, data: Bytes, order: seq<Bytes>, at: int)
    requires PlainValue(cipher) && PlainValue(hash) && PlainValue(storage)
    requires PlainValue(e.fileId) && PlainValue(e.keyId) && PlainValue(e.hashValue)
    requires var h := ContainerHeader(cipher, hash, storage, e);
      Enumerates(order, h) && FirstEmptyLine(MAGIC + Text(h, order) + data, 10, at)
    ensures var h := ContainerHeader(cipher, hash, storage, e);
      && IsContainer(MAGIC + Text(h, order) + data, at, Container(h, data))
      && CIPHER in h && h[CIPHER] == cipher && HASH in h && h[HASH] == hash && KEY_STORAGE in h && h[KEY_STORAGE] == storage
      && (e.iv != [] ==> IV in h && Unpack(Sextets(h[IV])) == e.iv)
      && (e.tag != [] ==> TAG in h && Unpack(Sextets(h[TAG])) == e.tag)
      && (storage == CLIENT ==> KEY in h && Unpack(Sextets(h[KEY])) == e.key)
  {
    var h := ContainerHeader(cipher, hash, storage, e);
    ContainerHeaderPlain(cipher, hash, storage, e);
    ContainerReadBack(h, order, data, at);
    EncodingMeans(e.iv);
    EncodingMeans(e.tag);
    EncodingMeans(e.key);
    ContainerFields(cipher, hash, storage, e);
    hide ContainerHeader, Plain, Enumerates, Text, FirstEmptyLine, IsContainer, Encoding, Unpack, Sextets, PlainValue;
  }
}
