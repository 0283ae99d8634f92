/** Tree nodes, and their canonical text. */
module Trees {
  import opened Base
  import opened Sorting
  import opened Utf8
  import opened Json

  const KEY_NAME: Str := [110, 97, 109, 101]  // "name"
  const KEY_TYPE: Str := [116, 121, 112, 101]  // "type"
  const KEY_MODE: Str := [109, 111, 100, 101]  // "mode"
  const KEY_SIZE: Str := [115, 105, 122, 101]  // "size"
  const KEY_MTIME: Str := [109, 116, 105, 109, 101]  // "mtime"
  const KEY_CONTENT: Str := [99, 111, 110, 116, 101, 110, 116]  // "content"
  const KEY_SUBTREE: Str := [115, 117, 98, 116, 114, 101, 101]  // "subtree"
  const KEY_TARGET: Str := [116, 97, 114, 103, 101, 116]  // "target"
  const KEY_NODES: Str := [110, 111, 100, 101, 115]  // "nodes"
  const FILE: Str := [102, 105, 108, 101]  // "file"
  const DIR: Str := [100, 105, 114]  // "dir"
  const SYMLINK: Str := [115, 121, 109, 108, 105, 110, 107]  // "symlink"

  datatype TreeNode = TreeNode(
    name: Str,
    typ: Str,
    mode: Option<int64>,
    size: Option<int64>,
    mtime: Str,
    content: Option<seq<Str>>,
    subtree: Str,
    target: Str)

  /** None is a list that was never made, which prints as null. */
  datatype TreeBlob = TreeBlob(nodes: Option<seq<TreeNode>>)

  // ----- Fields

  /** A field of a record: its key, and its value unless it is left out. */
  datatype Field = Field(key: Str, value: Option<Json>)

  function IntField(n: Option<int64>): Option<Json> {
    match n
    case None => None
    case Some(i) => Some(Int(i))
  }

  function TextField(s: Str): Option<Json> {
    if s == [] then None else Some(String(s))
  }

  function ListField(content: Option<seq<Str>>): Option<Json> {
    match content
    case None => None
    case Some(hashes) => if hashes == [] then None else Some(List(Map((h: Str) => String(h), hashes)))
  }

  /** The fields of a node in the order they are declared; all but the first two are left out when empty. */
  function NodeFields(n: TreeNode): seq<Field> {
    [Field(KEY_NAME, Some(String(n.name))),
     Field(KEY_TYPE, Some(String(n.typ))),
     Field(KEY_MODE, IntField(n.mode)),
     Field(KEY_SIZE, IntField(n.size)),
     Field(KEY_MTIME, TextField(n.mtime)),
     Field(KEY_CONTENT, ListField(n.content)),
     Field(KEY_SUBTREE, TextField(n.subtree)),
     Field(KEY_TARGET, TextField(n.target))]
  }

  function PresentOne(f: Field): seq<Member> {
    if f.value.Some? then [Member(f.key, f.value.value)] else []
  }

  function Present(fields: seq<Field>): seq<Member> {
    if fields == [] then [] else PresentOne(fields[0]) + Present(fields[1..])
  }

  function MemberKey(m: Member): Str {
    m.key
  }

  /** A record: what it holds, in the order of the keys. */
  function Record(fields: seq<Field>): Json {
    Object(Sort(ByKey(MemberKey), Present(fields)))
  }

  function NodeJson(n: TreeNode): Json {
    Record(NodeFields(n))
  }

  function BlobFields(b: TreeBlob): seq<Field> {
    [Field(KEY_NODES, Some(match b.nodes
                           case None => Null
                           case Some(ns) => List(Map(NodeJson, ns))))]
  }

  function EncodeTree(nodes: Option<seq<TreeNode>>): Bytes {
    Render(Record(BlobFields(TreeBlob(nodes))))
  }

  // ----- Reading a blob

  /** The value under a key; the last one if the key is repeated. */
  function Find(members: seq<Member>, key: Str): Option<Json> {
    if members == [] then None
    else if members[|members| - 1].key == key then Some(members[|members| - 1].value)
    else Find(members[..|members| - 1], key)
  }

  function AsText(j: Option<Json>): Option<Str> {
    match j
    case None => Some([])
    case Some(Null) => Some([])
    case Some(String(s)) => Some(s)
    case _ => None
  }

  function AsInt(j: Option<Json>): Option<Option<int64>> {
    match j
    case None => Some(None)
    case Some(Null) => Some(None)
    case Some(Int(n)) => if -0x8000_0000_0000_0000 <= n < 0x8000_0000_0000_0000 then Some(Some(n)) else None
    case _ => None
  }

  function Texts(items: seq<Json>): Option<seq<Str>> {
    if items == [] then Some([])
    else
      match (AsText(Some(items[0])), Texts(items[1..]))
      case (Some(s), Some(rest)) => Some([s] + rest)
      case _ => None
  }

  function AsList(j: Option<Json>): Option<Option<seq<Str>>> {
    match j
    case None => Some(None)
    case Some(Null) => Some(None)
    case Some(List(items)) => (
      match Texts(items)
      case Some(texts) => Some(Some(texts))
      case None => None)
    case _ => None
  }

  function NodeOf(ms: seq<Member>): Option<TreeNode> {
    match (AsText(Find(ms, KEY_NAME)), AsText(Find(ms, KEY_TYPE)), AsInt(Find(ms, KEY_MODE)), AsInt(Find(ms, KEY_SIZE)))
    case (Some(name), Some(typ), Some(mode), Some(size)) => (
      match (AsText(Find(ms, KEY_MTIME)), AsList(Find(ms, KEY_CONTENT)), AsText(Find(ms, KEY_SUBTREE)),
             AsText(Find(ms, KEY_TARGET)))
      case (Some(mtime), Some(content), Some(subtree), Some(target)) =>
        Some(TreeNode(name, typ, mode, size, mtime, content, subtree, target))
      case _ => None)
    case _ => None
  }

  function AsNode(j: Json): Option<TreeNode> {
    match j
    case Null => NodeOf([])
    case Object(ms) => NodeOf(ms)
    case _ => None
  }

  function Nodes(items: seq<Json>): Option<seq<TreeNode>> {
    if items == [] then Some([])
    else
      match (AsNode(items[0]), Nodes(items[1..]))
      case (Some(n), Some(rest)) => Some([n] + rest)
      case _ => None
  }

  function BlobOf(ms: seq<Member>): Option<TreeBlob> {
    match Find(ms, KEY_NODES)
    case None => Some(TreeBlob(None))
    case Some(Null) => Some(TreeBlob(None))
    case Some(List(items)) => (
      match Nodes(items)
      case Some(ns) => Some(TreeBlob(Some(ns)))
      case None => None)
    case _ => None
  }

  function DecodeTree(data: Bytes): Option<TreeBlob> {
    match ReadDocument(data)
    case Some(Object(ms)) => BlobOf(ms)
    case Some(Null) => Some(TreeBlob(None))
    case _ => None
  }

  // ----- What reading makes of a node

  function SanitizedAll(xs: seq<Str>): seq<Str> {
    Map(Sanitize, xs)
  }

  /** The node with its text repaired, and an empty content list taken for none. */
  function Normal(n: TreeNode): TreeNode {
    TreeNode(Sanitize(n.name), Sanitize(n.typ), n.mode, n.size, Sanitize(n.mtime),
             if n.content == None || n.content == Some([]) then None else Some(SanitizedAll(n.content.value)),
             Sanitize(n.subtree), Sanitize(n.target))
  }

  function NormalBlob(nodes: Option<seq<TreeNode>>): TreeBlob {
    match nodes
    case None => TreeBlob(None)
    case Some(ns) => TreeBlob(Some(Map(Normal, ns)))
  }

  // ----- Finding fields again

  ghost predicate DistinctKeys(ms: seq<Member>) {
    forall i, j :: 0 <= i < j < |ms| ==> ms[i].key != ms[j].key
  }

  lemma {:induction false} FindFinds(ms: seq<Member>, m: Member)
    requires DistinctKeys(ms) && m in ms
    ensures Find(ms, m.key) == Some(m.value)
    decreases |ms|
  {
    var last := ms[|ms| - 1];
    if last.key != m.key {
      assert m in ms[..|ms| - 1];
      FindFinds(ms[..|ms| - 1], m);
    }
  }

  lemma {:induction false} FindMisses(ms: seq<Member>, key: Str)
    requires forall m :: m in ms ==> m.key != key
    ensures Find(ms, key) == None
    decreases |ms|
  {
    if ms != [] {
      FindMisses(ms[..|ms| - 1], key);
    }
  }

  ghost predicate DistinctFields(fields: seq<Field>) {
    forall i, j :: 0 <= i < j < |fields| ==> fields[i].key != fields[j].key
  }

  lemma {:induction false} PresentMembers(fields: seq<Field>)
    requires DistinctFields(fields)
    ensures DistinctKeys(Present(fields))
    ensures forall m :: m in Present(fields) <==> Field(m.key, Some(m.value)) in fields
    ensures forall m :: m in Present(fields) ==> exists i :: 0 <= i < |fields| && fields[i].key == m.key
    decreases |fields|
  {
    if fields != [] {
      PresentMembers(fields[1..]);
      forall m | m in Present(fields)
        ensures Field(m.key, Some(m.value)) in fields
      {
        if m in Present(fields[1..]) {
          assert Field(m.key, Some(m.value)) in fields[1..];
        }
      }
      forall m: Member | Field(m.key, Some(m.value)) in fields
        ensures m in Present(fields)
      {
        if Field(m.key, Some(m.value)) != fields[0] {
          assert Field(m.key, Some(m.value)) in fields[1..];
        }
      }
    }
  }
}
