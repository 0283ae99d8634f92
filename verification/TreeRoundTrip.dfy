/** Reading a tree blob undoes printing it. */
module TreeRoundTrip {
  import opened Base
  import opened Sorting
  import opened Utf8
  import opened Json
  import opened JsonRoundTrip
  import opened Trees

  ghost predicate Plain(key: Str) {
    forall i :: 0 <= i < |key| ==> key[i] < 0x80
  }

  ghost predicate PlainKeys(fields: seq<Field>) {
    forall i :: 0 <= i < |fields| ==> Plain(fields[i].key)
  }

  function Arranged(fields: seq<Field>): seq<Member> {
    Sort(ByKey(MemberKey), Present(fields))
  }

  /** Sorting the members loses and repeats none. */
  lemma ArrangedMembers(fields: seq<Field>)
    requires DistinctFields(fields)
    ensures DistinctKeys(Arranged(fields))
    ensures forall m :: m in Arranged(fields) <==> Field(m.key, Some(m.value)) in fields
  {
    var less := ByKey(MemberKey);
    var ms := Present(fields);
    PresentMembers(fields);
    SortKeeps(less, ms);
    SameElements(Arranged(fields), ms);
    ByKeyOrdering(MemberKey);
    ByKeyUntied(MemberKey, ms);
    UntiedArrangement(less, ms, Arranged(fields));
    forall i, j | 0 <= i < j < |Arranged(fields)|
      ensures Arranged(fields)[i].key != Arranged(fields)[j].key
    {
      LessTotal(Arranged(fields)[i].key, Arranged(fields)[j].key);
      assert less(Arranged(fields)[i], Arranged(fields)[j]) || less(Arranged(fields)[j], Arranged(fields)[i]);
    }
  }

  lemma RepairedArranged(fields: seq<Field>)
    requires DistinctFields(fields) && PlainKeys(fields)
    ensures forall j :: 0 <= j < |Arranged(fields)| ==>
              Sanitize(Arranged(fields)[j].key) == Arranged(fields)[j].key
  {
    ArrangedMembers(fields);
    forall j | 0 <= j < |Arranged(fields)|
      ensures Sanitize(Arranged(fields)[j].key) == Arranged(fields)[j].key
    {
      var m := Arranged(fields)[j];
      assert Field(m.key, Some(m.value)) in fields;
      var i :| 0 <= i < |fields| && fields[i] == Field(m.key, Some(m.value));
      assert Plain(fields[i].key);
      AsciiValid(m.key);
    }
  }

  function RepairedOption(v: Option<Json>): Option<Json> {
    match v
    case None => None
    case Some(j) => Some(Repaired(j))
  }

  /** Every field of a printed record is found in it again, wherever the order of keys put it. */
  lemma FindInRecord(fields: seq<Field>, i: nat)
    requires DistinctFields(fields) && PlainKeys(fields) && i < |fields|
    ensures Find(RepairedMembers(Arranged(fields)), fields[i].key) == RepairedOption(fields[i].value)
  {
    var ms := Arranged(fields);
    var rs := RepairedMembers(ms);
    ArrangedMembers(fields);
    RepairedArranged(fields);
    assert DistinctKeys(rs);
    if fields[i].value.Some? {
      var m := Member(fields[i].key, fields[i].value.value);
      assert m in ms;
      var j :| 0 <= j < |ms| && ms[j] == m;
      assert rs[j] == Member(m.key, Repaired(m.value));
      FindFinds(rs, rs[j]);
    } else {
      forall r | r in rs
        ensures r.key != fields[i].key
      {
        var j :| 0 <= j < |rs| && rs[j] == r;
        assert ms[j] in ms;
        var k :| 0 <= k < |fields| && fields[k] == Field(ms[j].key, Some(ms[j].value));
        assert k != i;
      }
      FindMisses(rs, fields[i].key);
    }
  }

  /** Tells the keys of a node apart. */
  function KeyCode(key: Str): int {
    if key == [] then 0 else 1000 * |key| + key[0]
  }

  const NODE_CODES := [4110, 4116, 4109, 4115, 5109, 7099, 7115, 6116]

  lemma NodeKeyPlain(n: TreeNode, i: nat)
    requires i < 8
    ensures Plain(NodeFields(n)[i].key)
    ensures KeyCode(NodeFields(n)[i].key) == NODE_CODES[i]
  {
  }

  lemma NodeFieldsWellFormed(n: TreeNode)
    ensures |NodeFields(n)| == 8
    ensures DistinctFields(NodeFields(n)) && PlainKeys(NodeFields(n))
  {
    var fields := NodeFields(n);
    forall i | 0 <= i < 8
      ensures Plain(fields[i].key) && KeyCode(fields[i].key) == NODE_CODES[i]
    {
      NodeKeyPlain(n, i);
    }
    assert forall i, j :: 0 <= i < j < 8 ==> NODE_CODES[i] != NODE_CODES[j];
    assert forall i, j :: 0 <= i < j < 8 ==> KeyCode(fields[i].key) != KeyCode(fields[j].key);
  }

  lemma {:induction false} TextsReadBack(hashes: seq<Str>)
    ensures Texts(RepairedItems(Map((h: Str) => String(h), hashes))) == Some(SanitizedAll(hashes))
  {
    var f := (h: Str) => String(h);
    var items := Map(f, hashes);
    if hashes != [] {
      TextsReadBack(hashes[1..]);
      assert items[1..] == Map(f, hashes[1..]);
      assert RepairedItems(items)[1..] == RepairedItems(items[1..]);
      assert SanitizedAll(hashes) == [Sanitize(hashes[0])] + SanitizedAll(hashes[1..]);
    } else {
      assert SanitizedAll(hashes) == [];
    }
  }

  lemma ContentReadsBack(content: Option<seq<Str>>)
    ensures AsList(RepairedOption(ListField(content)))
            == Some(if content == None || content == Some([]) then None else Some(SanitizedAll(content.value)))
  {
    if content.Some? {
      TextsReadBack(content.value);
    }
  }

  lemma TextReadsBack(s: Str)
    ensures AsText(RepairedOption(TextField(s))) == Some(Sanitize(s))
  {
  }

  lemma IntReadsBack(n: Option<int64>)
    ensures AsInt(RepairedOption(IntField(n))) == Some(n)
  {
  }

  /** ms holds field i of n, as it is printed and read. */
  ghost predicate HasField(ms: seq<Member>, n: TreeNode, i: nat)
    requires i < 8
  {
    Find(ms, NodeFields(n)[i].key) == RepairedOption(NodeFields(n)[i].value)
  }

  lemma NodeFromFields(ms: seq<Member>, n: TreeNode)
    requires forall i :: 0 <= i < 8 ==> HasField(ms, n, i)
    ensures NodeOf(ms) == Some(Normal(n))
  {
    assert HasField(ms, n, 0) && HasField(ms, n, 1);
    assert AsText(Find(ms, KEY_NAME)) == Some(Sanitize(n.name)) && AsText(Find(ms, KEY_TYPE)) == Some(Sanitize(n.typ));
    assert HasField(ms, n, 2) && HasField(ms, n, 3);
    IntReadsBack(n.mode);
    IntReadsBack(n.size);
    assert HasField(ms, n, 4) && HasField(ms, n, 5);
    TextReadsBack(n.mtime);
    ContentReadsBack(n.content);
    assert HasField(ms, n, 6) && HasField(ms, n, 7);
    TextReadsBack(n.subtree);
    TextReadsBack(n.target);
  }

  lemma NodeReadsBack(n: TreeNode)
    ensures AsNode(Repaired(NodeJson(n))) == Some(Normal(n))
  {
    NodeFieldsWellFormed(n);
    var ms := RepairedMembers(Arranged(NodeFields(n)));
    forall i | 0 <= i < 8
      ensures HasField(ms, n, i)
    {
      FindInRecord(NodeFields(n), i);
    }
    NodeFromFields(ms, n);
    NodeFromRecord(NodeFields(n), n);
  }

  lemma NodeFromRecord(fields: seq<Field>, n: TreeNode)
    requires NodeOf(RepairedMembers(Arranged(fields))) == Some(Normal(n))
    ensures AsNode(Repaired(Record(fields))) == Some(Normal(n))
  {
  }

  lemma {:induction false} NodesFromItems(items: seq<Json>, ns: seq<TreeNode>)
    requires |items| == |ns| && forall i :: 0 <= i < |ns| ==> AsNode(items[i]) == Some(Normal(ns[i]))
    ensures Nodes(items) == Some(Map(Normal, ns))
    decreases |ns|
  {
    if ns == [] {
      assert Map(Normal, ns) == [];
    } else {
      NodesFromItems(items[1..], ns[1..]);
      assert Map(Normal, ns) == [Normal(ns[0])] + Map(Normal, ns[1..]);
    }
  }

  lemma NodesReadBack(ns: seq<TreeNode>)
    ensures Nodes(RepairedItems(Map(NodeJson, ns))) == Some(Map(Normal, ns))
  {
    var items := RepairedItems(Map(NodeJson, ns));
    forall i | 0 <= i < |ns|
      ensures AsNode(items[i]) == Some(Normal(ns[i]))
    {
      NodeReadsBack(ns[i]);
    }
    NodesFromItems(items, ns);
  }

  lemma BlobFieldsWellFormed(b: TreeBlob)
    ensures DistinctFields(BlobFields(b)) && PlainKeys(BlobFields(b))
  {
  }

  lemma BlobReadsBack(ms: seq<Member>, nodes: Option<seq<TreeNode>>)
    requires Find(ms, KEY_NODES) == RepairedOption(BlobFields(TreeBlob(nodes))[0].value)
    ensures BlobOf(ms) == Some(NormalBlob(nodes))
  {
    if nodes.Some? {
      NodesReadBack(nodes.value);
    }
  }

  /** Whatever the names, numbers and hashes: what is read is what was printed, normalised. */
  lemma TreeRoundTrips(nodes: Option<seq<TreeNode>>)
    ensures DecodeTree(EncodeTree(nodes)) == Some(NormalBlob(nodes))
  {
    var fields := BlobFields(TreeBlob(nodes));
    DocumentRoundTrip(Record(fields));
    BlobFieldsWellFormed(TreeBlob(nodes));
    FindInRecord(fields, 0);
    BlobReadsBack(RepairedMembers(Arranged(fields)), nodes);
    BlobFromRecord(Render(Record(fields)), fields, nodes);
  }

  lemma BlobFromRecord(data: Bytes, fields: seq<Field>, nodes: Option<seq<TreeNode>>)
    requires ReadDocument(data) == Some(Repaired(Record(fields)))
    requires BlobOf(RepairedMembers(Arranged(fields))) == Some(NormalBlob(nodes))
    ensures DecodeTree(data) == Some(NormalBlob(nodes))
  {
  }

  // ----- When nothing needs normalising

  ghost predicate IsNormal(n: TreeNode) {
    Valid(n.name) && Valid(n.typ) && Valid(n.mtime) && Valid(n.subtree) && Valid(n.target) && n.content != Some([]) &&
    (n.content.Some? ==> forall i :: 0 <= i < |n.content.value| ==> Valid(n.content.value[i]))
  }

  lemma NormalIsNormal(n: TreeNode)
    ensures IsNormal(n) <==> Normal(n) == n
  {
    SanitizeFixes(n.name);
    SanitizeFixes(n.typ);
    SanitizeFixes(n.mtime);
    SanitizeFixes(n.subtree);
    SanitizeFixes(n.target);
    if n.content.Some? {
      var c := n.content.value;
      forall i | 0 <= i < |c|
        ensures Valid(c[i]) <==> SanitizedAll(c)[i] == c[i]
      {
        SanitizeFixes(c[i]);
      }
      if forall i :: 0 <= i < |c| ==> Valid(c[i]) {
        assert SanitizedAll(c) == c;
      }
    }
  }

  /** A blob is read back unchanged exactly when its text is well-formed UTF-8 and no content list is empty. */
  lemma TreeRoundTripsExactly(ns: seq<TreeNode>)
    ensures DecodeTree(EncodeTree(Some(ns))) == Some(TreeBlob(Some(ns))) <==>
      forall i :: 0 <= i < |ns| ==> IsNormal(ns[i])
  {
    TreeRoundTrips(Some(ns));
    forall i | 0 <= i < |ns|
      ensures IsNormal(ns[i]) <==> Map(Normal, ns)[i] == ns[i]
    {
      NormalIsNormal(ns[i]);
    }
    if forall i :: 0 <= i < |ns| ==> IsNormal(ns[i]) {
      assert Map(Normal, ns) == ns;
    }
  }

  /** Equal texts come from blobs that are equal once normalised; so the encoding loses nothing else. */
  lemma EncodingInjective(a: Option<seq<TreeNode>>, b: Option<seq<TreeNode>>)
    requires EncodeTree(a) == EncodeTree(b)
    ensures NormalBlob(a) == NormalBlob(b)
  {
    TreeRoundTrips(a);
    TreeRoundTrips(b);
  }

  /** The text of a tree starts with a brace. */
  lemma EncodeTreeHead(nodes: Option<seq<TreeNode>>)
    ensures EncodeTree(nodes) != [] && EncodeTree(nodes)[0] == OPEN_OBJECT
  {
  }
}
