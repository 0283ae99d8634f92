/** The text of a tree in full: which members stand in it, and in which order. */
module TreeText {
  import opened Base
  import opened Sorting
  import opened Json
  import opened Trees
  import opened TreeRoundTrip

  // ----- Records

  /** The members of a record ascend by key, and are just the fields that are not left out. */
  lemma RecordInOrder(fields: seq<Field>)
    requires DistinctFields(fields)
    ensures Record(fields) == Object(Arranged(fields)) && Ascending(Map(MemberKey, Arranged(fields)))
    ensures forall m :: m in Arranged(fields) <==> Field(m.key, Some(m.value)) in fields
  {
    PresentMembers(fields);
    ArrangedMembers(fields);
    SortAscends(MemberKey, Present(fields));
  }

  // ----- One node

  function TextMember(key: Str, s: Str): seq<Member> {
    if s == [] then [] else [Member(key, String(s))]
  }

  function NumberMember(key: Str, n: Option<int64>): seq<Member> {
    if n.Some? then [Member(key, Int(n.value))] else []
  }

  function ListMember(key: Str, xs: Option<seq<Str>>): seq<Member> {
    if xs.Some? && xs.value != [] then [Member(key, List(Map((s: Str) => String(s), xs.value)))] else []
  }

  const KEYS_IN_ORDER: seq<Str> :=
    [KEY_CONTENT, KEY_MODE, KEY_MTIME, KEY_NAME, KEY_SIZE, KEY_SUBTREE, KEY_TARGET, KEY_TYPE]

  function PiecesInOrder(n: TreeNode): seq<seq<Member>> {
    [ListMember(KEY_CONTENT, n.content),
     NumberMember(KEY_MODE, n.mode),
     TextMember(KEY_MTIME, n.mtime),
     [Member(KEY_NAME, String(n.name))],
     NumberMember(KEY_SIZE, n.size),
     TextMember(KEY_SUBTREE, n.subtree),
     TextMember(KEY_TARGET, n.target),
     [Member(KEY_TYPE, String(n.typ))]]
  }

  /** What is printed of a node, from the first member to the last. */
  function InOrder(n: TreeNode): seq<Member> {
    Concat(PiecesInOrder(n))
  }

  lemma KeysAscend()
    ensures Ascending(KEYS_IN_ORDER)
  {
    assert SmallerAt(KEY_CONTENT, KEY_MODE, 0);
    assert SmallerAt(KEY_MODE, KEY_MTIME, 1);
    assert SmallerAt(KEY_MTIME, KEY_NAME, 0);
    assert SmallerAt(KEY_NAME, KEY_SIZE, 0);
    assert SmallerAt(KEY_SIZE, KEY_SUBTREE, 1);
    assert SmallerAt(KEY_SUBTREE, KEY_TARGET, 0);
    assert SmallerAt(KEY_TARGET, KEY_TYPE, 1);
    NeighboursAscend(KEYS_IN_ORDER);
  }

  lemma {:induction false} NeighboursAscend(names: seq<Str>)
    requires forall i :: 0 <= i < |names| - 1 ==> ComesBefore(names[i], names[i + 1])
    ensures Ascending(names)
    decreases |names|
  {
    if |names| > 1 {
      var rest := names[1..];
      NeighboursAscend(rest);
      forall j | 0 < j < |names|
        ensures ComesBefore(names[0], names[j])
      {
        if j > 1 {
          assert ComesBefore(rest[0], rest[j - 1]);
          BeforeTransitive(names[0], names[1], names[j]);
        }
      }
      forall i, j | 0 < i < j < |names|
        ensures ComesBefore(names[i], names[j])
      {
        assert ComesBefore(rest[i - 1], rest[j - 1]);
      }
    }
  }

  lemma BeforeTransitive(a: Str, b: Str, c: Str)
    requires ComesBefore(a, b) && ComesBefore(b, c)
    ensures ComesBefore(a, c)
  {
    LessMeans(a, b);
    LessMeans(b, c);
    LessMeans(a, c);
    LessTransitive(a, b, c);
  }

  /** Each piece has at most one member, with its key. */
  ghost predicate PiecesKeyed(keys: seq<Str>, pieces: seq<seq<Member>>) {
    && |keys| == |pieces|
    && forall i :: 0 <= i < |pieces| ==> pieces[i] == [] || (|pieces[i]| == 1 && pieces[i][0].key == keys[i])
  }

  lemma {:induction false} ConcatHas<T>(pieces: seq<seq<T>>, x: T)
    ensures x in Concat(pieces) <==> exists i :: 0 <= i < |pieces| && x in pieces[i]
  {
    if pieces != [] {
      ConcatHas(pieces[1..], x);
      if i :| 0 <= i < |pieces| && x in pieces[i] {
        assert i > 0 ==> x in pieces[1..][i - 1];
      }
    }
  }

  lemma {:induction false} PiecesAscend(keys: seq<Str>, pieces: seq<seq<Member>>)
    requires PiecesKeyed(keys, pieces) && Ascending(keys)
    ensures Ascending(Map(MemberKey, Concat(pieces)))
    decreases |pieces|
  {
    if pieces != [] {
      var rest := Concat(pieces[1..]);
      PiecesAscend(keys[1..], pieces[1..]);
      forall k | 0 <= k < |rest|
        ensures ComesBefore(keys[0], rest[k].key)
      {
        ConcatHas(pieces[1..], rest[k]);
        var i :| 0 <= i < |pieces[1..]| && rest[k] in pieces[1..][i];
        assert rest[k].key == keys[i + 1];
      }
      PrependAscends(pieces[0], rest, keys[0]);
    }
  }

  lemma PrependAscends(piece: seq<Member>, rest: seq<Member>, key: Str)
    requires Ascending(Map(MemberKey, rest)) && (piece == [] || (|piece| == 1 && piece[0].key == key))
    requires forall k :: 0 <= k < |rest| ==> ComesBefore(key, rest[k].key)
    ensures Ascending(Map(MemberKey, piece + rest))
  {
    var all := Map(MemberKey, piece + rest);
    forall i, j | 0 <= i < j < |all|
      ensures ComesBefore(all[i], all[j])
    {
      var n := |piece|;
      assert all[j] == rest[j - n].key == Map(MemberKey, rest)[j - n];
      assert i >= n ==> all[i] == Map(MemberKey, rest)[i - n];
    }
  }

  /** They hold just the fields that are not left out. */
  lemma PiecesHold(n: TreeNode, m: Member)
    ensures (exists i :: 0 <= i < 8 && m in PiecesInOrder(n)[i]) <==> Field(m.key, Some(m.value)) in NodeFields(n)
  {
    var pieces, fields := PiecesInOrder(n), NodeFields(n);
    assert m in pieces[0] <==> Field(m.key, Some(m.value)) == fields[5];
    assert m in pieces[1] <==> Field(m.key, Some(m.value)) == fields[2];
    assert m in pieces[2] <==> Field(m.key, Some(m.value)) == fields[4];
    assert m in pieces[3] <==> Field(m.key, Some(m.value)) == fields[0];
    assert m in pieces[4] <==> Field(m.key, Some(m.value)) == fields[3];
    assert m in pieces[5] <==> Field(m.key, Some(m.value)) == fields[6];
    assert m in pieces[6] <==> Field(m.key, Some(m.value)) == fields[7];
    assert m in pieces[7] <==> Field(m.key, Some(m.value)) == fields[1];
  }

  /** A node prints as the present ones among content, mode, mtime, name, size, subtree, target, type, in this order. */
  lemma NodeInOrder(n: TreeNode)
    ensures NodeJson(n) == Object(InOrder(n))
  {
    NodeFieldsWellFormed(n);
    RecordInOrder(NodeFields(n));
    KeysAscend();
    PiecesAreKeyed(n);
    PiecesAscend(KEYS_IN_ORDER, PiecesInOrder(n));
    SameInOrder(n, Arranged(NodeFields(n)));
  }

  lemma PiecesAreKeyed(n: TreeNode)
    ensures PiecesKeyed(KEYS_IN_ORDER, PiecesInOrder(n))
  {
  }

  lemma SameInOrder(n: TreeNode, members: seq<Member>)
    requires Ascending(Map(MemberKey, members)) && Ascending(Map(MemberKey, InOrder(n)))
    requires forall m :: m in members <==> Field(m.key, Some(m.value)) in NodeFields(n)
    ensures members == InOrder(n)
  {
    forall m
      ensures m in InOrder(n) <==> m in members
    {
      ConcatHas(PiecesInOrder(n), m);
      PiecesHold(n, m);
    }
    AscendingUnique(MemberKey, members, InOrder(n));
  }

  /** Empty texts stand under name and type only. */
  lemma NoEmptyTexts(n: TreeNode, m: Member)
    requires NodeJson(n).Object? && m in NodeJson(n).members && (m.value == String([]) || m.value == List([]))
    ensures m.key == KEY_NAME || m.key == KEY_TYPE
  {
    NodeInOrder(n);
    ConcatHas(PiecesInOrder(n), m);
  }

  // ----- One tree

  /** The text of a tree: its nodes one after the other, or null if it never had a list of them. */
  function TreeJson(nodes: Option<seq<TreeNode>>): Json {
    Object([Member(KEY_NODES, if nodes.None? then Null
                              else List(Map((n: TreeNode) => Object(InOrder(n)), nodes.value)))])
  }

  lemma TreeInOrder(nodes: Option<seq<TreeNode>>)
    ensures EncodeTree(nodes) == Render(TreeJson(nodes))
  {
    if nodes.Some? {
      forall i | 0 <= i < |nodes.value|
        ensures NodeJson(nodes.value[i]) == Object(InOrder(nodes.value[i]))
      {
        NodeInOrder(nodes.value[i]);
      }
      assert Map(NodeJson, nodes.value) == Map((n: TreeNode) => Object(InOrder(n)), nodes.value);
    }
    OneMember(KEY_NODES, if nodes.None? then Null else List(Map(NodeJson, nodes.value)));
  }

  lemma OneMember(key: Str, value: Json)
    ensures Record([Field(key, Some(value))]) == Object([Member(key, value)])
  {
    var fields := [Field(key, Some(value))];
    assert Present(fields) == [Member(key, value)] + Present([]);
    assert Sort(ByKey(MemberKey), Present(fields)) == Insert(ByKey(MemberKey), Member(key, value), []);
  }
}
