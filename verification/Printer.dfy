/** The printer as it runs: appending to a buffer, piece by piece. */
module Printer {
  import opened Base
  import opened Sorting
  import opened Json
  import opened Trees
  import opened TreeText

  class Buffer {
    var data: Bytes

    constructor ()
      ensures data == []
    {
      data := [];
    }

    method Write(s: Bytes)
      modifies this
      ensures data == old(data) + s
    {
      data := data + s;
    }
  }

  // ----- Growing a printed list at its end

  lemma {:induction false} EscapeAllSnoc(s: Str, c: byte)
    ensures EscapeAll(s + [c]) == EscapeAll(s) + EscapeByte(c)
  {
    var all := s + [c];
    if s == [] {
      assert all[1..] == [];
      assert EscapeAll(all) == EscapeByte(c) + [];
    } else {
      assert all[0] == s[0] && all[1..] == s[1..] + [c];
      EscapeAllSnoc(s[1..], c);
      Associate(EscapeByte(s[0]), EscapeAll(s[1..]), EscapeByte(c));
    }
  }

  lemma EscapeOneMore(s: Str, i: nat)
    requires i < |s|
    ensures EscapeAll(s[..i + 1]) == EscapeAll(s[..i]) + EscapeByte(s[i])
  {
    assert s[..i + 1] == s[..i] + [s[i]];
    EscapeAllSnoc(s[..i], s[i]);
  }

  function Separator(first: bool): Bytes {
    if first then [] else [COMMA]
  }

  lemma {:induction false} RenderItemsSnoc(items: seq<Json>, j: Json)
    ensures RenderItems(items + [j]) == RenderItems(items) + Separator(items == []) + Render(j)
  {
    var all := items + [j];
    if |items| == 0 {
      assert all == [j];
      assert RenderItems(all) == Render(j);
    } else {
      assert all[0] == items[0] && all[1..] == items[1..] + [j];
      RenderItemsSnoc(items[1..], j);
      Regroup(Render(items[0]) + [COMMA], RenderItems(items[1..]), Separator(items[1..] == []), Render(j));
    }
  }

  lemma {:induction false} RenderMembersSnoc(members: seq<Member>, m: Member)
    ensures RenderMembers(members + [m]) == RenderMembers(members) + Separator(members == []) + RenderMember(m)
  {
    if |members| == 0 {
      assert members + [m] == [m];
    } else {
      assert (members + [m])[1..] == members[1..] + [m];
      RenderMembersSnoc(members[1..], m);
    }
  }

  lemma {:induction false} PresentSnoc(fields: seq<Field>, f: Field)
    ensures Present(fields + [f]) == Present(fields) + PresentOne(f)
  {
    var all := fields + [f];
    if fields == [] {
      assert all[0] == f && all[1..] == [];
      assert Present(all) == PresentOne(f) + Present([]);
    } else {
      assert all[0] == fields[0] && all[1..] == fields[1..] + [f];
      PresentSnoc(fields[1..], f);
      Associate(PresentOne(fields[0]), Present(fields[1..]), PresentOne(f));
    }
  }

  lemma Wrapped(a: Bytes, open: Bytes, body: Bytes, close: Bytes)
    ensures a + open + body + close == a + (open + body + close)
  {
  }

  // ----- The methods

  method WriteCanonicalString(buf: Buffer, s: Str)
    modifies buf
    ensures buf.data == old(buf.data) + RenderString(s)
  {
    buf.Write([QUOTE]);
    ghost var before, start := old(buf.data), buf.data;
    var i := 0;
    while i < |s|
      invariant i <= |s|
      invariant buf.data == start + EscapeAll(s[..i])
    {
      EscapeOneMore(s, i);
      Associate(start, EscapeAll(s[..i]), EscapeByte(s[i]));
      buf.Write(EscapeByte(s[i]));
      i := i + 1;
    }
    assert s[..i] == s;
    Wrapped(before, [QUOTE], EscapeAll(s), [QUOTE]);
    buf.Write([QUOTE]);
  }

  method WriteCanonical(buf: Buffer, j: Json)
    modifies buf
    ensures buf.data == old(buf.data) + Render(j)
    decreases j, 1
  {
    match j
    case Null => buf.Write(NULL);
    case Int(n) => buf.Write(RenderInt(n));
    case String(s) => WriteCanonicalString(buf, s);
    case List(items) => WriteItems(buf, items);
    case Object(members) => WriteMembers(buf, members);
  }

  method WriteItems(buf: Buffer, items: seq<Json>)
    modifies buf
    ensures buf.data == old(buf.data) + ([OPEN_LIST] + RenderItems(items) + [CLOSE_LIST])
    decreases items, 0
  {
    ghost var start := buf.data + [OPEN_LIST];
    buf.Write([OPEN_LIST]);
    var i := 0;
    while i < |items|
      invariant i <= |items|
      invariant buf.data == start + RenderItems(items[..i])
    {
      assert items[..i + 1] == items[..i] + [items[i]];
      RenderItemsSnoc(items[..i], items[i]);
      Regroup(start, RenderItems(items[..i]), Separator(i == 0), Render(items[i]));
      if i > 0 {
        buf.Write([COMMA]);
      }
      WriteCanonical(buf, items[i]);
      i := i + 1;
    }
    assert items[..i] == items;
    Wrapped(old(buf.data), [OPEN_LIST], RenderItems(items), [CLOSE_LIST]);
    buf.Write([CLOSE_LIST]);
  }

  method WriteMember(buf: Buffer, m: Member)
    modifies buf
    ensures buf.data == old(buf.data) + RenderMember(m)
    decreases m, 2
  {
    WriteCanonicalString(buf, m.key);
    buf.Write([COLON]);
    WriteCanonical(buf, m.value);
  }

  method WriteMembers(buf: Buffer, members: seq<Member>)
    modifies buf
    ensures buf.data == old(buf.data) + ([OPEN_OBJECT] + RenderMembers(members) + [CLOSE_OBJECT])
    decreases members, 0
  {
    ghost var start := buf.data + [OPEN_OBJECT];
    buf.Write([OPEN_OBJECT]);
    var first := true;
    var i := 0;
    while i < |members|
      invariant i <= |members| && first == (i == 0)
      invariant buf.data == start + RenderMembers(members[..i])
    {
      assert members[..i + 1] == members[..i] + [members[i]];
      RenderMembersSnoc(members[..i], members[i]);
      Regroup(start, RenderMembers(members[..i]), Separator(first), RenderMember(members[i]));
      if !first {
        buf.Write([COMMA]);
      }
      WriteMember(buf, members[i]);
      first := false;
      i := i + 1;
    }
    assert members[..i] == members;
    Wrapped(old(buf.data), [OPEN_OBJECT], RenderMembers(members), [CLOSE_OBJECT]);
    buf.Write([CLOSE_OBJECT]);
  }

  /** Gathers the fields that are not left out, sorts them by key, and prints them. */
  method WriteCanonicalStruct(buf: Buffer, fields: seq<Field>)
    modifies buf
    ensures buf.data == old(buf.data) + Render(Record(fields))
  {
    var pairs := [];
    var i := 0;
    while i < |fields|
      invariant i <= |fields|
      invariant pairs == Present(fields[..i]) && buf.data == old(buf.data)
    {
      assert fields[..i + 1] == fields[..i] + [fields[i]];
      PresentSnoc(fields[..i], fields[i]);
      if fields[i].value.Some? {
        pairs := pairs + [Member(fields[i].key, fields[i].value.value)];
      }
      i := i + 1;
    }
    assert fields[..i] == fields;
    var sorted := Sort(ByKey(MemberKey), pairs);
    assert Record(fields) == Object(sorted);
    WriteMembers(buf, sorted);
  }

  /** The text of a tree and its digest. */
  method HashTree(sha: Bytes -> Str, nodes: Option<seq<TreeNode>>) returns (hash: Str, data: Bytes)
    ensures data == EncodeTree(nodes) == Render(TreeJson(nodes)) && hash == sha(data)
  {
    TreeInOrder(nodes);
    var buf := new Buffer();
    WriteCanonicalStruct(buf, BlobFields(TreeBlob(nodes)));
    data := buf.data;
    hash := sha(data);
  }
}
