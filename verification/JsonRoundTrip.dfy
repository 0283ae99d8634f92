/** Reading undoes printing, up to the repair of malformed UTF-8. */
module JsonRoundTrip {
  import opened Base
  import opened Primitives
  import opened Utf8
  import opened Json

  // ----- Strings

  /** What follows a printed string's opening quote. */
  function Closed(s: Str, rest: Bytes): Bytes {
    EscapeAll(s) + [QUOTE] + rest
  }

  lemma ClosedStep(s: Str, rest: Bytes)
    requires s != []
    ensures Closed(s, rest) == EscapeByte(s[0]) + Closed(s[1..], rest)
  {
  }

  /** The escaping of the next byte starts with that byte if it is not ASCII, and with an ASCII byte otherwise. */
  lemma ClosedHead(s: Str, rest: Bytes)
    ensures Closed(s, rest) != []
    ensures s != [] && s[0] >= 0x80 ==> Closed(s, rest)[0] == s[0] && Closed(s, rest)[1..] == Closed(s[1..], rest)
    ensures s == [] || s[0] < 0x80 ==> Closed(s, rest)[0] < 0x80
  {
    if s != [] {
      ClosedStep(s, rest);
    }
  }

  /** Escaping does not change where characters begin and end. */
  lemma ClosedRunes(s: Str, rest: Bytes)
    requires s != [] && s[0] >= 0x80
    ensures RuneLen(Closed(s, rest)) == RuneLen(s)
  {
    var t := Closed(s, rest);
    ClosedHead(s, rest);
    ClosedHead(s[1..], rest);
    if |s| > 1 && s[1] >= 0x80 {
      assert t[1] == s[1] && t[2..] == Closed(s[2..], rest);
      ClosedHead(s[2..], rest);
      if |s| > 2 && s[2] >= 0x80 {
        assert t[2] == s[2] && t[3..] == Closed(s[3..], rest);
        ClosedHead(s[3..], rest);
        assert t[3] == t[3..][0];
      } else {
        assert t[2] == t[2..][0];
      }
    } else {
      assert t[1] == t[1..][0];
    }
  }

  lemma {:induction false} ClosedPrefix(s: Str, rest: Bytes, n: nat)
    requires n <= |s| && forall i :: 0 <= i < n ==> s[i] >= 0x80
    ensures Closed(s, rest) == s[..n] + Closed(s[n..], rest)
  {
    if n > 0 {
      var t := s[1..];
      ClosedHead(s, rest);
      ClosedPrefix(t, rest, n - 1);
      assert t[n - 1..] == s[n..] && s[..n] == [s[0]] + t[..n - 1];
      PutInFront(Closed(s, rest), s[0], t[..n - 1], Closed(s[n..], rest));
    } else {
      assert s[..0] == [] && s[0..] == s;
    }
  }

  lemma PutInFront(s: Bytes, c: byte, a: Bytes, b: Bytes)
    requires s != [] && s[0] == c && s[1..] == a + b
    ensures s == [c] + a + b
  {
    assert s == [c] + (a + b);
  }

  lemma RuneBytesHigh(s: Str)
    requires s != [] && s[0] >= 0x80 && RuneLen(s) > 0
    ensures forall i :: 0 <= i < RuneLen(s) ==> s[i] >= 0x80
  {
  }

  lemma ReadControlEscape(c: byte, t: Bytes)
    requires c < 0x20 && |EscapeByte(c)| == 6
    ensures ReadChars(EscapeByte(c) + t) == Prepend([c], ReadChars(t))
  {
    var s := EscapeByte(c) + t;
    assert s[2] == 48 && s[3] == 48 && s[4] == HexDigit(c / 16) && s[5] == HexDigit(c % 16);
    var u := s[2..];
    assert u[0] == s[2] && u[1] == s[3] && u[2] == s[4] && u[3] == s[5];
    assert ReadHex4(u) == Some(c);
    assert s[6..] == t;
  }

  lemma ReadShortEscape(c: byte, t: Bytes)
    requires |EscapeByte(c)| == 2
    ensures ReadChars(EscapeByte(c) + t) == Prepend([c], ReadChars(t))
  {
    assert (EscapeByte(c) + t)[2..] == t;
  }

  /** One escaped ASCII byte is read back as that byte. */
  lemma ReadEscape(c: byte, t: Bytes)
    requires c < 0x80
    ensures ReadChars(EscapeByte(c) + t) == Prepend([c], ReadChars(t))
  {
    if |EscapeByte(c)| == 6 {
      ReadControlEscape(c, t);
    } else if |EscapeByte(c)| == 2 {
      ReadShortEscape(c, t);
    } else {
      var s := [c] + t;
      assert s[1..] == t && s[..1] == [c];
    }
  }

  /** The next byte or character that is not ASCII is read as it is, or as the replacement if it is malformed. */
  lemma ReadHigh(s: Str, rest: Bytes)
    requires s != [] && s[0] >= 0x80
    ensures RuneLen(s) > 0 ==>
      ReadChars(Closed(s, rest)) == Prepend(s[..RuneLen(s)], ReadChars(Closed(s[RuneLen(s)..], rest)))
    ensures RuneLen(s) == 0 ==> ReadChars(Closed(s, rest)) == Prepend(REPLACEMENT, ReadChars(Closed(s[1..], rest)))
  {
    var t := Closed(s, rest);
    var n := RuneLen(s);
    ClosedRunes(s, rest);
    ClosedHead(s, rest);
    if n > 0 {
      RuneBytesHigh(s);
      ClosedPrefix(s, rest, n);
      assert t[..n] == s[..n] && t[n..] == Closed(s[n..], rest);
    }
  }

  lemma {:induction false} ReadClosed(s: Str, rest: Bytes)
    ensures ReadChars(Closed(s, rest)) == Some((Sanitize(s), rest))
    decreases |s|
  {
    if s == [] {
      assert Closed(s, rest) == [QUOTE] + rest;
    } else if s[0] < 0x80 {
      ClosedStep(s, rest);
      ReadEscape(s[0], Closed(s[1..], rest));
      ReadClosed(s[1..], rest);
      assert Sanitize(s) == [s[0]] + Sanitize(s[1..]);
    } else {
      ReadHigh(s, rest);
      ReadClosed(if RuneLen(s) > 0 then s[RuneLen(s)..] else s[1..], rest);
    }
  }

  lemma ReadRenderedString(s: Str, rest: Bytes)
    ensures ReadString(RenderString(s) + rest) == Some((Sanitize(s), rest))
  {
    var t := RenderString(s) + rest;
    assert t[1..] == Closed(s, rest);
    ReadClosed(s, rest);
  }

  // ----- Integers

  /** What may follow a number in a document. */
  predicate Delimited(rest: Bytes) {
    rest == [] || rest[0] == COMMA || rest[0] == CLOSE_LIST || rest[0] == CLOSE_OBJECT
  }

  /** The value of a row of digits appended to acc. */
  function Accumulate(d: Bytes, acc: nat): nat
    requires forall i :: 0 <= i < |d| ==> IsDigit(d[i])
  {
    if d == [] then acc else assert IsDigit(d[0]); Accumulate(d[1..], 10 * acc + (d[0] as int - 48))
  }

  lemma {:induction false} AccumulateSnoc(d: Bytes, c: byte, acc: nat)
    requires (forall i :: 0 <= i < |d| ==> IsDigit(d[i])) && IsDigit(c)
    ensures Accumulate(d + [c], acc) == 10 * Accumulate(d, acc) + (c - 48)
    decreases |d|
  {
    if d == [] {
      assert [c][1..] == [];
      assert d + [c] == [c];
    } else {
      assert (d + [c])[1..] == d[1..] + [c];
      AccumulateSnoc(d[1..], c, 10 * acc + (d[0] as int - 48));
    }
  }

  lemma {:induction false} DigitsValue(n: nat)
    ensures Accumulate(Digits(n), 0) == n
    ensures Digits(n)[0] == 48 ==> n == 0 && |Digits(n)| == 1
  {
    if n < 10 {
      assert Digits(n)[1..] == [];
    } else {
      DigitsValue(n / 10);
      AccumulateSnoc(Digits(n / 10), 48 + n % 10, 0);
    }
  }

  lemma {:induction false} ReadDigitsOf(d: Bytes, acc: nat, rest: Bytes)
    requires (forall i :: 0 <= i < |d| ==> IsDigit(d[i])) && Delimited(rest)
    ensures ReadDigits(d + rest, acc) == (Accumulate(d, acc), rest)
    decreases |d|
  {
    if d == [] {
      assert d + rest == rest;
    } else {
      assert (d + rest)[1..] == d[1..] + rest;
      ReadDigitsOf(d[1..], 10 * acc + (d[0] as int - 48), rest);
    }
  }

  /** A row of digits without superfluous zeros is read as the number it stands for. */
  lemma ReadNumber(d: Bytes, rest: Bytes)
    requires d != [] && (forall i :: 0 <= i < |d| ==> IsDigit(d[i])) && (d[0] == 48 ==> |d| == 1) && Delimited(rest)
    ensures ReadNat(d + rest) == Some((Accumulate(d, 0), rest))
  {
    if d[0] != 48 {
      ReadRow(d, rest);
      AccumulateFirst(d);
    } else {
      assert d == [48];
      ReadLoneZero(rest);
    }
  }

  lemma ReadLoneZero(rest: Bytes)
    requires Delimited(rest)
    ensures ReadNat([48] + rest) == Some((0, rest)) && Accumulate([48], 0) == 0
  {
    var d: Bytes := [48];
    assert (d + rest)[1..] == rest;
    assert Accumulate(d, 0) == Accumulate(d[1..], 0);
    assert d[1..] == [];
    ReadZero(d + rest, rest);
  }

  lemma ReadRow(d: Bytes, rest: Bytes)
    requires d != [] && (forall i :: 0 <= i < |d| ==> IsDigit(d[i])) && IsDigit(d[0]) && d[0] != 48 && Delimited(rest)
    ensures ReadNat(d + rest) == Some((Accumulate(d[1..], d[0] as int - 48), rest))
  {
    DigitsAfterFirst(d, rest);
    ReadAfterFirst(d + rest, Accumulate(d[1..], d[0] as int - 48), rest);
  }

  lemma DigitsAfterFirst(d: Bytes, rest: Bytes)
    requires d != [] && (forall i :: 0 <= i < |d| ==> IsDigit(d[i])) && Delimited(rest)
    ensures (d + rest)[0] == d[0] && IsDigit(d[0])
    ensures ReadDigits((d + rest)[1..], d[0] as int - 48) == (Accumulate(d[1..], d[0] as int - 48), rest)
  {
    assert (d + rest)[1..] == d[1..] + rest;
    ReadDigitsOf(d[1..], d[0] as int - 48, rest);
  }

  lemma AccumulateFirst(d: Bytes)
    requires d != [] && forall i :: 0 <= i < |d| ==> IsDigit(d[i])
    ensures IsDigit(d[0]) && Accumulate(d, 0) == Accumulate(d[1..], d[0] as int - 48)
  {
    assert 10 * 0 + (d[0] as int - 48) == d[0] as int - 48;
  }

  lemma ReadAfterFirst(s: Bytes, n: nat, rest: Bytes)
    requires s != [] && IsDigit(s[0]) && s[0] != 48 && ReadDigits(s[1..], s[0] - 48) == (n, rest) && Delimited(rest)
    ensures ReadNat(s) == Some((n, rest))
  {
  }

  lemma ReadZero(s: Bytes, rest: Bytes)
    requires s != [] && s[0] == 48 && s[1..] == rest && Delimited(rest)
    ensures ReadNat(s) == Some((0, rest))
  {
  }

  lemma ReadRenderedNat(n: nat, rest: Bytes)
    requires Delimited(rest)
    ensures ReadNat(Digits(n) + rest) == Some((n, rest))
  {
    DigitsValue(n);
    ReadNumber(Digits(n), rest);
  }

  lemma ReadSigned(d: Bytes, n: nat, rest: Bytes)
    requires d != [] && IsDigit(d[0]) && ReadNat(d + rest) == Some((n, rest))
    ensures ReadInt(d + rest) == Some((n, rest))
    ensures ReadInt([MINUS] + d + rest) == Some((0 - n as int, rest))
  {
    assert (d + rest)[0] == d[0];
    assert ([MINUS] + d + rest)[0] == MINUS && ([MINUS] + d + rest)[1..] == d + rest;
  }

  lemma ReadRenderedInt(n: int, rest: Bytes)
    requires Delimited(rest)
    ensures ReadInt(RenderInt(n) + rest) == Some((n, rest))
  {
    var m: nat := if n < 0 then -n else n;
    ReadRenderedNat(m, rest);
    ReadSigned(Digits(m), m, rest);
  }

  // ----- Values

  /** The value with the text in it repaired. */
  function Repaired(j: Json): Json {
    match j
    case Null => Null
    case Int(n) => Int(n)
    case String(s) => String(Sanitize(s))
    case List(items) => List(RepairedItems(items))
    case Object(members) => Object(RepairedMembers(members))
  }

  function RepairedItems(items: seq<Json>): (r: seq<Json>)
    ensures |r| == |items|
    ensures forall i :: 0 <= i < |items| ==> r[i] == Repaired(items[i])
  {
    if items == [] then [] else [Repaired(items[0])] + RepairedItems(items[1..])
  }

  function RepairedMembers(members: seq<Member>): (r: seq<Member>)
    ensures |r| == |members|
    ensures forall i :: 0 <= i < |members| ==> r[i] == Member(Sanitize(members[i].key), Repaired(members[i].value))
  {
    if members == [] then []
    else [Member(Sanitize(members[0].key), Repaired(members[0].value))] + RepairedMembers(members[1..])
  }

  lemma RenderHead(j: Json)
    ensures Render(j) != []
    ensures Render(j)[0] != CLOSE_LIST && Render(j)[0] != CLOSE_OBJECT
    ensures j.Int? ==> Render(j)[0] == MINUS || IsDigit(Render(j)[0])
  {
  }

  lemma {:induction false} ReadRendered(j: Json, rest: Bytes)
    requires Delimited(rest)
    ensures ReadValue(Render(j) + rest) == Some((Repaired(j), rest))
    decreases j, 0
  {
    var s := Render(j) + rest;
    RenderHead(j);
    match j
    case Null =>
      assert s[..4] == NULL && s[4..] == rest;
    case Int(n) =>
      ReadRenderedInt(n, rest);
    case String(str) =>
      ReadRenderedString(str, rest);
    case List(items) =>
      ReadRenderedList(items, rest, j);
    case Object(members) =>
      ReadRenderedObject(members, rest, j);
  }

  lemma {:induction false} ReadRenderedList(items: seq<Json>, rest: Bytes, j: Json)
    requires j == List(items) && Delimited(rest)
    ensures ReadValue(Render(j) + rest) == Some((Repaired(j), rest))
    decreases j, 0, 0
  {
    var s := Render(j) + rest;
    if items == [] {
      assert s == [OPEN_LIST, CLOSE_LIST] + rest;
      assert s[2..] == rest;
    } else {
      assert s[1..] == RenderItems(items) + ([CLOSE_LIST] + rest);
      ReadRenderedItems(items, rest);
      RenderHead(items[0]);
      assert s[1] == Render(items[0])[0];
    }
  }

  lemma {:induction false} ReadRenderedObject(members: seq<Member>, rest: Bytes, j: Json)
    requires j == Object(members) && Delimited(rest)
    ensures ReadValue(Render(j) + rest) == Some((Repaired(j), rest))
    decreases j, 0, 0
  {
    var s := Render(j) + rest;
    if members == [] {
      assert s == [OPEN_OBJECT, CLOSE_OBJECT] + rest;
      assert s[2..] == rest;
    } else {
      var tail := RenderMembers(members) + ([CLOSE_OBJECT] + rest);
      assert s == [OPEN_OBJECT] + tail;
      ReadRenderedMembers(members, rest);
      assert tail[0] == QUOTE;
      ReadBraced(tail, RepairedMembers(members), rest);
    }
  }

  lemma ReadBraced(tail: Bytes, members: seq<Member>, rest: Bytes)
    requires tail != [] && tail[0] != CLOSE_OBJECT && ReadMembers(tail) == Some((members, rest))
    ensures ReadValue([OPEN_OBJECT] + tail) == Some((Object(members), rest))
  {
    assert ([OPEN_OBJECT] + tail)[1..] == tail;
  }

  lemma ReadItemsLast(s: Bytes, item: Json, rest: Bytes)
    requires ReadValue(s) == Some((item, [CLOSE_LIST] + rest))
    ensures ReadItems(s) == Some(([item], rest))
  {
    assert ([CLOSE_LIST] + rest)[1..] == rest;
  }

  lemma ReadItemsMore(s: Bytes, item: Json, after: Bytes, items: seq<Json>, rest: Bytes)
    requires ReadValue(s) == Some((item, [COMMA] + after)) && ReadItems(after) == Some((items, rest))
    ensures ReadItems(s) == Some(([item] + items, rest))
  {
    assert ([COMMA] + after)[1..] == after;
  }

  lemma {:induction false} ReadRenderedItems(items: seq<Json>, rest: Bytes)
    requires items != [] && Delimited(rest)
    ensures ReadItems(RenderItems(items) + ([CLOSE_LIST] + rest)) == Some((RepairedItems(items), rest))
    decreases items
  {
    var s := RenderItems(items) + ([CLOSE_LIST] + rest);
    var item := Repaired(items[0]);
    if |items| == 1 {
      ReadRendered(items[0], [CLOSE_LIST] + rest);
      ReadItemsLast(s, item, rest);
      assert RepairedItems(items) == [item];
    } else {
      var after := RenderItems(items[1..]) + ([CLOSE_LIST] + rest);
      Regroup(Render(items[0]), [COMMA], RenderItems(items[1..]), [CLOSE_LIST] + rest);
      ReadRendered(items[0], [COMMA] + after);
      ReadRenderedItems(items[1..], rest);
      ReadItemsMore(s, item, after, RepairedItems(items[1..]), rest);
    }
  }

  lemma {:induction false} ReadRenderedMember(m: Member, rest: Bytes)
    requires Delimited(rest)
    ensures ReadMember(RenderMember(m) + rest) == Some((Member(Sanitize(m.key), Repaired(m.value)), rest))
    decreases m
  {
    var after := [COLON] + (Render(m.value) + rest);
    assert RenderMember(m) + rest == RenderString(m.key) + after;
    ReadRenderedString(m.key, after);
    assert after[1..] == Render(m.value) + rest;
    ReadRendered(m.value, rest);
  }

  lemma ReadMembersLast(s: Bytes, m: Member, rest: Bytes)
    requires ReadMember(s) == Some((m, [CLOSE_OBJECT] + rest))
    ensures ReadMembers(s) == Some(([m], rest))
  {
    assert ([CLOSE_OBJECT] + rest)[1..] == rest;
  }

  lemma ReadMembersMore(s: Bytes, m: Member, after: Bytes, ms: seq<Member>, rest: Bytes)
    requires ReadMember(s) == Some((m, [COMMA] + after)) && ReadMembers(after) == Some((ms, rest))
    ensures ReadMembers(s) == Some(([m] + ms, rest))
  {
    assert ([COMMA] + after)[1..] == after;
  }

  lemma {:induction false} ReadRenderedMembers(members: seq<Member>, rest: Bytes)
    requires members != [] && Delimited(rest)
    ensures ReadMembers(RenderMembers(members) + ([CLOSE_OBJECT] + rest)) == Some((RepairedMembers(members), rest))
    decreases members
  {
    var s := RenderMembers(members) + ([CLOSE_OBJECT] + rest);
    var m := Member(Sanitize(members[0].key), Repaired(members[0].value));
    if |members| == 1 {
      ReadRenderedMember(members[0], [CLOSE_OBJECT] + rest);
      ReadMembersLast(s, m, rest);
      assert RepairedMembers(members) == [m];
    } else {
      var after := RenderMembers(members[1..]) + ([CLOSE_OBJECT] + rest);
      Regroup(RenderMember(members[0]), [COMMA], RenderMembers(members[1..]), [CLOSE_OBJECT] + rest);
      ReadRenderedMember(members[0], [COMMA] + after);
      ReadRenderedMembers(members[1..], rest);
      ReadMembersMore(s, m, after, RepairedMembers(members[1..]), rest);
    }
  }

  /** Every document that is printed is read back, with its text repaired. */
  lemma DocumentRoundTrip(j: Json)
    ensures ReadDocument(Render(j)) == Some(Repaired(j))
  {
    ReadRendered(j, []);
    assert Render(j) + [] == Render(j);
  }

  // ----- The shortest text

  /** If nothing is read, the closing quote is all there is. */
  lemma ReadNothing(s: Bytes)
    requires ReadChars(s) == Some(([], []))
    ensures s == [QUOTE]
  {
  }

  lemma PrependOne(head: Bytes, r: Option<(Str, Bytes)>, c: byte)
    requires head != [] && Prepend(head, r) == Some(([c], []))
    ensures head == [c] && r == Some(([], []))
  {
    assert head + r.value.0 == [c];
    assert |head| + |r.value.0| == 1;
    assert (head + r.value.0)[0] == head[0];
  }

  lemma ReadOneUnicode(c: byte, s: Bytes)
    requires |s| >= 2 && c < 0x80 && ReadUnicode(s) == Some(([c], []))
    ensures |s| == 7 && ReadHex4(s[2..]) == Some(c)
  {
    var hi, more := ReadHex4(s[2..]).value, s[6..];
    if ReadUnicode(s) == Prepend(EncodeUnit(hi), ReadChars(more)) {
      PrependOne(EncodeUnit(hi), ReadChars(more), c);
      UnitOfOne(hi, c);
      ReadNothing(more);
    }
  }

  lemma UnitOfOne(r: int, c: byte)
    requires 0 <= r < 0x10000 && EncodeUnit(r) == [c]
    ensures r == c
  {
    assert |EncodeUnit(r)| == 1;
  }

  /** Four digits for an ASCII character are what is printed, or have a capital among them. */
  lemma HexOfAscii(c: byte, u: Bytes)
    requires c < 0x20 && |u| >= 4 && ReadHex4(u) == Some(c)
    ensures u[..4] == [48, 48, HexDigit(c / 16), HexDigit(c % 16)] || 65 <= u[3] <= 70
  {
    var a, b, d, e := HexValue(u[0]).value, HexValue(u[1]).value, HexValue(u[2]).value, HexValue(u[3]).value;
    assert ((a * 16 + b) * 16 + d) * 16 + e == c;
    assert a == 0 && b == 0 && d == c / 16 && e == c % 16;
  }

  /** No text for an ASCII character is shorter than the one printed, and none as short without a capital differs. */
  lemma EscapeIsShortest(c: byte, t: Bytes)
    requires c < 0x80 && ReadChars(t + [QUOTE]) == Some(([c], []))
    ensures |EscapeByte(c)| <= |t|
    ensures |EscapeByte(c)| == |t| ==> t == EscapeByte(c) || exists i :: 0 <= i < |t| && 65 <= t[i] <= 70
  {
    var s := t + [QUOTE];
    ReadOneExactly(c, s);
    assert t == s[..|s| - 1];
    NoneIsShorter(c, s, t);
  }

  lemma NoneIsShorter(c: byte, s: Bytes, t: Bytes)
    requires (IsPlainFor(c, s) || IsShortFor(c, s) || IsLongFor(c, s)) && t == s[..|s| - 1]
    ensures |EscapeByte(c)| <= |t|
    ensures |EscapeByte(c)| == |t| ==> t == EscapeByte(c) || exists i :: 0 <= i < |t| && 65 <= t[i] <= 70
  {
    if IsShortFor(c, s) {
      ShortIsPrinted(c, s);
    } else if IsLongFor(c, s) {
      LongIsPrinted(c, s);
      assert t[5] == s[5];
    }
  }

  lemma ShortIsPrinted(c: byte, s: Bytes)
    requires IsShortFor(c, s)
    ensures |EscapeByte(c)| <= 2 && (|EscapeByte(c)| == 2 ==> s[..2] == EscapeByte(c))
  {
  }

  lemma LongIsPrinted(c: byte, s: Bytes)
    requires IsLongFor(c, s)
    ensures |EscapeByte(c)| <= 6 && (|EscapeByte(c)| == 6 ==> s[..6] == EscapeByte(c) || 65 <= s[5] <= 70)
  {
    if |EscapeByte(c)| == 6 {
      HexOfAscii(c, s[2..]);
      assert s[..6] == [s[0], s[1]] + s[2..][..4];
    }
  }

  predicate IsPlainFor(c: byte, s: Bytes) {
    s == [c, QUOTE] && EscapeByte(c) == [c]
  }

  predicate IsShortFor(c: byte, s: Bytes) {
    |s| == 3 && s[0] == ESCAPE && s[1] != 117 && SimpleEscape(s[1]) == Some(c) && s[2] == QUOTE
  }

  predicate IsLongFor(c: byte, s: Bytes) {
    |s| == 7 && s[0] == ESCAPE && s[1] == 117 && ReadHex4(s[2..]) == Some(c)
  }

  lemma ReadOneShort(c: byte, s: Bytes)
    requires |s| >= 2 && s[0] == ESCAPE && s[1] != 117 && ReadChars(s) == Some(([c], []))
    ensures IsShortFor(c, s)
  {
    PrependOne([SimpleEscape(s[1]).value], ReadChars(s[2..]), c);
    ReadNothing(s[2..]);
  }

  /** What reads as one ASCII character is that character, one of the short escapes, or four digits. */
  lemma ReadOneExactly(c: byte, s: Bytes)
    requires c < 0x80 && ReadChars(s) == Some(([c], []))
    ensures IsPlainFor(c, s) || IsShortFor(c, s) || IsLongFor(c, s)
  {
    if s[0] == ESCAPE && s[1] == 117 {
      ReadOneUnicode(c, s);
    } else if s[0] == ESCAPE {
      ReadOneShort(c, s);
    } else {
      ReadOnePlain(c, s);
    }
  }

  lemma ReadOnePlain(c: byte, s: Bytes)
    requires s != [] && s[0] != ESCAPE && s[0] != QUOTE && c < 0x80 && ReadChars(s) == Some(([c], []))
    ensures IsPlainFor(c, s)
  {
    var n := RuneLen(s);
    if n > 0 {
      PrependOne(s[..n], ReadChars(s[n..]), c);
      ReadNothing(s[n..]);
      assert s == s[..n] + s[n..];
    }
  }
}
