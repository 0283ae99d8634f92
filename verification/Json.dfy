/** The part of JSON (RFC 8259) that tree blobs use: a printer without white space, and a reader. */
module Json {
  import opened Base
  import opened Primitives
  import opened Utf8

  const QUOTE: byte := 34
  const ESCAPE: byte := 92
  const COMMA: byte := 44
  const COLON: byte := 58
  const OPEN_LIST: byte := 91
  const CLOSE_LIST: byte := 93
  const OPEN_OBJECT: byte := 123
  const CLOSE_OBJECT: byte := 125
  const MINUS: byte := 45
  const NULL: Bytes := [110, 117, 108, 108]  // "null"

  datatype Json =
    | Null
    | Int(n: int)
    | String(s: Str)
    | List(items: seq<Json>)
    | Object(members: seq<Member>)

  datatype Member = Member(key: Str, value: Json)

  // ----- Printing

  /** Two-character escapes for seven characters, \u00xx for the other control characters, every other byte as it is. */
  function EscapeByte(c: byte): Bytes {
    if c == QUOTE then [ESCAPE, QUOTE]
    else if c == ESCAPE then [ESCAPE, ESCAPE]
    else if c == 8 then [ESCAPE, 98]
    else if c == 12 then [ESCAPE, 102]
    else if c == 10 then [ESCAPE, 110]
    else if c == 13 then [ESCAPE, 114]
    else if c == 9 then [ESCAPE, 116]
    else if c < 0x20 then [ESCAPE, 117, 48, 48, HexDigit(c / 16), HexDigit(c % 16)]
    else [c]
  }

  function EscapeAll(s: Str): Bytes {
    if s == [] then [] else EscapeByte(s[0]) + EscapeAll(s[1..])
  }

  function RenderString(s: Str): Bytes {
    [QUOTE] + EscapeAll(s) + [QUOTE]
  }

  function Digits(n: nat): (d: Bytes)
    ensures d != [] && forall i :: 0 <= i < |d| ==> 48 <= d[i] <= 57
  {
    if n < 10 then [48 + n] else Digits(n / 10) + [48 + n % 10]
  }

  function RenderInt(n: int): Bytes {
    if n < 0 then [MINUS] + Digits(-n) else Digits(n)
  }

  function Render(j: Json): Bytes {
    match j
    case Null => NULL
    case Int(n) => RenderInt(n)
    case String(s) => RenderString(s)
    case List(items) => [OPEN_LIST] + RenderItems(items) + [CLOSE_LIST]
    case Object(members) => [OPEN_OBJECT] + RenderMembers(members) + [CLOSE_OBJECT]
  }

  function RenderItems(items: seq<Json>): Bytes {
    if items == [] then []
    else if |items| == 1 then Render(items[0])
    else Render(items[0]) + [COMMA] + RenderItems(items[1..])
  }

  function RenderMember(m: Member): Bytes {
    RenderString(m.key) + [COLON] + Render(m.value)
  }

  function RenderMembers(members: seq<Member>): Bytes {
    if members == [] then []
    else if |members| == 1 then RenderMember(members[0])
    else RenderMember(members[0]) + [COMMA] + RenderMembers(members[1..])
  }

  // ----- Reading

  /** The value of four hexadecimal digits. */
  function ReadHex4(s: Bytes): Option<int> {
    if |s| < 4 then None
    else
      match (HexValue(s[0]), HexValue(s[1]), HexValue(s[2]), HexValue(s[3]))
      case (Some(a), Some(b), Some(c), Some(d)) => Some(((a * 16 + b) * 16 + c) * 16 + d)
      case _ => None
  }

  /** The UTF-8 form of a 16-bit code unit; a lone surrogate has none. */
  function EncodeUnit(r: int): Bytes
    requires 0 <= r < 0x10000
  {
    if r < 0x80 then [r]
    else if r < 0x800 then [0xC0 + r / 64, 0x80 + r % 64]
    else if 0xD800 <= r <= 0xDFFF then REPLACEMENT
    else [0xE0 + r / 4096, 0x80 + r / 64 % 64, 0x80 + r % 64]
  }

  function EncodePair(hi: int, lo: int): Bytes
    requires 0xD800 <= hi <= 0xDBFF && 0xDC00 <= lo <= 0xDFFF
  {
    var r := (hi - 0xD800) * 1024 + (lo - 0xDC00) + 0x10000;
    [0xF0 + r / 262144, 0x80 + r / 4096 % 64, 0x80 + r / 64 % 64, 0x80 + r % 64]
  }

  function SimpleEscape(c: byte): Option<byte> {
    if c == QUOTE || c == ESCAPE || c == 47 then Some(c)
    else if c == 98 then Some(8)
    else if c == 102 then Some(12)
    else if c == 110 then Some(10)
    else if c == 114 then Some(13)
    else if c == 116 then Some(9)
    else None
  }

  function Prepend(head: Bytes, r: Option<(Str, Bytes)>): Option<(Str, Bytes)> {
    match r
    case None => None
    case Some((tail, rest)) => Some((head + tail, rest))
  }

  /** The characters up to the closing quote, and what follows it. */
  function ReadChars(s: Bytes): (r: Option<(Str, Bytes)>)
    ensures r.Some? ==> |r.value.1| < |s|
    decreases |s|
  {
    if s == [] then None
    else if s[0] == QUOTE then Some(([], s[1..]))
    else if s[0] == ESCAPE then
      if |s| < 2 then None
      else if s[1] == 117 then ReadUnicode(s)
      else
        match SimpleEscape(s[1])
        case None => None
        case Some(c) => Prepend([c], ReadChars(s[2..]))
    else if s[0] < 0x20 then None
    else if RuneLen(s) > 0 then Prepend(s[..RuneLen(s)], ReadChars(s[RuneLen(s)..]))
    else Prepend(REPLACEMENT, ReadChars(s[1..]))
  }

  /** A \u escape, together with a second one if the two are a surrogate pair. */
  function ReadUnicode(s: Bytes): (r: Option<(Str, Bytes)>)
    requires |s| >= 2
    ensures r.Some? ==> |r.value.1| < |s|
    decreases |s|, 0
  {
    match ReadHex4(s[2..])
    case None => None
    case Some(hi) =>
      var more := s[6..];
      if 0xD800 <= hi <= 0xDBFF && |more| >= 6 && more[0] == ESCAPE && more[1] == 117 &&
         ReadHex4(more[2..]).Some? && 0xDC00 <= ReadHex4(more[2..]).value <= 0xDFFF
      then Prepend(EncodePair(hi, ReadHex4(more[2..]).value), ReadChars(more[6..]))
      else Prepend(EncodeUnit(hi), ReadChars(more))
  }

  function ReadString(s: Bytes): (r: Option<(Str, Bytes)>)
    ensures r.Some? ==> |r.value.1| < |s|
  {
    if s != [] && s[0] == QUOTE then ReadChars(s[1..]) else None
  }

  predicate IsDigit(c: byte) {
    48 <= c <= 57
  }

  /** The digits at the start of s, appended to acc, and what follows them. */
  function ReadDigits(s: Bytes, acc: nat): (r: (nat, Bytes))
    ensures |r.1| <= |s|
    decreases |s|
  {
    if s != [] && IsDigit(s[0]) then ReadDigits(s[1..], 10 * acc + (s[0] - 48)) else (acc, s)
  }

  /** A number without superfluous zeros; one with a fraction or an exponent is not an integer. */
  function ReadNat(s: Bytes): (r: Option<(nat, Bytes)>)
    ensures r.Some? ==> |r.value.1| < |s|
  {
    if s == [] || !IsDigit(s[0]) then None
    else
      var (n, rest) := if s[0] == 48 then (0, s[1..]) else ReadDigits(s[1..], s[0] - 48);
      if rest != [] && (rest[0] == 46 || rest[0] == 69 || rest[0] == 101) then None else Some((n, rest))
  }

  function ReadInt(s: Bytes): (r: Option<(int, Bytes)>)
    ensures r.Some? ==> |r.value.1| < |s|
  {
    if s != [] && s[0] == MINUS then
      match ReadNat(s[1..])
      case None => None
      case Some((n, rest)) => Some((0 - n as int, rest))
    else
      match ReadNat(s)
      case None => None
      case Some((n, rest)) => Some((n, rest))
  }

  function ReadValue(s: Bytes): (r: Option<(Json, Bytes)>)
    ensures r.Some? ==> |r.value.1| < |s|
    decreases |s|, 0
  {
    if s == [] then None
    else if s[0] == QUOTE then
      match ReadString(s)
      case None => None
      case Some((str, rest)) => Some((String(str), rest))
    else if s[0] == OPEN_LIST then
      if |s| >= 2 && s[1] == CLOSE_LIST then Some((List([]), s[2..]))
      else
        match ReadItems(s[1..])
        case None => None
        case Some((items, rest)) => Some((List(items), rest))
    else if s[0] == OPEN_OBJECT then
      if |s| >= 2 && s[1] == CLOSE_OBJECT then Some((Object([]), s[2..]))
      else
        match ReadMembers(s[1..])
        case None => None
        case Some((members, rest)) => Some((Object(members), rest))
    else if s[0] == NULL[0] then
      if |s| >= 4 && s[..4] == NULL then Some((Null, s[4..])) else None
    else
      match ReadInt(s)
      case None => None
      case Some((n, rest)) => Some((Int(n), rest))
  }

  /** One item or more, up to the closing bracket. */
  function ReadItems(s: Bytes): (r: Option<(seq<Json>, Bytes)>)
    ensures r.Some? ==> |r.value.1| < |s|
    decreases |s|, 1
  {
    match ReadValue(s)
    case None => None
    case Some((item, rest)) =>
      if rest == [] then None
      else if rest[0] == CLOSE_LIST then Some(([item], rest[1..]))
      else if rest[0] == COMMA then
        match ReadItems(rest[1..])
        case None => None
        case Some((items, rest')) => Some(([item] + items, rest'))
      else None
  }

  function ReadMember(s: Bytes): (r: Option<(Member, Bytes)>)
    ensures r.Some? ==> |r.value.1| < |s|
    decreases |s|, 1
  {
    match ReadString(s)
    case None => None
    case Some((key, rest)) =>
      if rest == [] || rest[0] != COLON then None
      else
        match ReadValue(rest[1..])
        case None => None
        case Some((value, rest')) => Some((Member(key, value), rest'))
  }

  /** One member or more, up to the closing brace. */
  function ReadMembers(s: Bytes): (r: Option<(seq<Member>, Bytes)>)
    ensures r.Some? ==> |r.value.1| < |s|
    decreases |s|, 2
  {
    match ReadMember(s)
    case None => None
    case Some((m, rest)) =>
      if rest == [] then None
      else if rest[0] == CLOSE_OBJECT then Some(([m], rest[1..]))
      else if rest[0] == COMMA then
        match ReadMembers(rest[1..])
        case None => None
        case Some((ms, rest')) => Some(([m] + ms, rest'))
      else None
  }

  /** A whole document: one value and nothing after it. */
  function ReadDocument(s: Bytes): Option<Json> {
    match ReadValue(s)
    case Some((j, rest)) => if rest == [] then Some(j) else None
    case None => None
  }
}
