/**
 The disk usage tree: reading it from the nested map that C's CBOR decodes to, adding it up, and
 looking a path up in it.
 */
module DiskUsage {
  import opened Wrappers

  const TWO_TO_THE_64 := 0x1_0000_0000_0000_0000
  const TWO_TO_THE_63 := 0x8000_0000_0000_0000

  type uint64 = x: int | 0 <= x < TWO_TO_THE_64

  /** A value of Go's type `any`, as far as the parser tells them apart. */
  datatype Value =
    | Text(text: string)
    | Uint64(u: uint64)
    | Int64(i: int)
    | Float64(f: real)
    | Int(n: int)
    | List(items: seq<Value>)
    | Map(entries: map<string, Value>)
    | Opaque(id: nat)

  type Entries = map<string, Value>

  /** Where Go leaves a float conversion to the platform: values outside the range of the target. */
  datatype Platform = Platform(uint64Outside: real -> uint64, intOutside: real -> int)

  datatype Child = Child(path: string, size: uint64, fsType: int, children: seq<Child>, metadata: Entries)

  const PATH := "path"
  const SIZE_IN_BYTES := "size_in_bytes"
  const SIZE := "size"
  const CHILDREN := "children"
  const FILE_SYSTEM_TYPE := "file_system_type"
  const RESERVED := {PATH, SIZE_IN_BYTES, SIZE, CHILDREN, FILE_SYSTEM_TYPE}

  // ---------------------------------------------------------------- one node

  /** A float conversion drops the fraction. */
  function Truncate(f: real): int { if f >= 0.0 then f.Floor else -(-f).Floor }

  function ToUint64(f: real, p: Platform): uint64 {
    var t := Truncate(f);
    if 0 <= t < TWO_TO_THE_64 then t else p.uint64Outside(f)
  }

  function ToInt(f: real, p: Platform): int {
    var t := Truncate(f);
    if -TWO_TO_THE_63 <= t < TWO_TO_THE_63 then t else p.intOutside(f)
  }

  function PathOf(m: Entries): string { if PATH in m && m[PATH].Text? then m[PATH].text else "" }

  /** The entry at `key` as a size; a negative int64 wraps around. */
  function SizeAt(m: Entries, key: string, p: Platform): Option<uint64> {
    if key !in m then None
    else
      match m[key]
      case Uint64(u) => Some(u)
      case Int64(i) => Some(i % TWO_TO_THE_64)
      case Float64(f) => Some(ToUint64(f, p))
      case _ => None
  }

  function SizeOf(m: Entries, p: Platform): uint64 {
    match SizeAt(m, SIZE_IN_BYTES, p)
    case Some(size) => size
    case None => match SizeAt(m, SIZE, p) { case Some(size) => size case None => 0 }
  }

  function FileSystemTypeOf(m: Entries, p: Platform): int {
    if FILE_SYSTEM_TYPE !in m then 0
    else
      match m[FILE_SYSTEM_TYPE]
      case Int(n) => n
      case Float64(f) => ToInt(f, p)
      case _ => 0
  }

  predicate HasItems(m: Entries) { CHILDREN in m && m[CHILDREN].List? }

  /** The fields of one node, without its children. */
  ghost predicate NodeReads(m: Entries, c: Child, p: Platform) {
    && c.path == PathOf(m)
    && c.size == SizeOf(m, p)
    && c.fsType == FileSystemTypeOf(m, p)
    && c.metadata == m - RESERVED
  }

  /** What a size entry means: an unsigned number is itself, a signed one keeps its 64 bits, a float drops its fraction. */
  ghost predicate MeansSize(v: Value, size: uint64) {
    match v
    case Uint64(u) => size == u
    case Int64(i) => (i - size) % 0x1_0000_0000_0000_0000 == 0
    case Float64(f) =>
      && (-1.0 < f < 0.0 ==> size == 0)
      && (0.0 <= f < 0x1_0000_0000_0000_0000 as real ==> size as real <= f < size as real + 1.0)
    case _ => false
  }

  predicate IsNumber(v: Value) { v.Uint64? || v.Int64? || v.Float64? }

  /** The fields of a node against the entries of its map: size_in_bytes goes before size, and what is missing is zero or empty. */
  lemma {:induction false} FieldsMean(m: Entries, c: Child, p: Platform)
    requires NodeReads(m, c, p)
    ensures "size_in_bytes" in m && IsNumber(m["size_in_bytes"]) ==> MeansSize(m["size_in_bytes"], c.size)
    ensures ("size_in_bytes" in m ==> !IsNumber(m["size_in_bytes"])) && "size" in m && IsNumber(m["size"]) ==>
              MeansSize(m["size"], c.size)
    ensures ("size_in_bytes" in m ==> !IsNumber(m["size_in_bytes"])) && ("size" in m ==> !IsNumber(m["size"])) ==> c.size == 0
    ensures c.path == if "path" in m && m["path"].Text? then m["path"].text else ""
    ensures "file_system_type" in m && m["file_system_type"].Int? ==> c.fsType == m["file_system_type"].n
    ensures "file_system_type" in m && m["file_system_type"].Float64? &&
            0.0 <= m["file_system_type"].f < 0x8000_0000_0000_0000 as real ==>
              c.fsType as real <= m["file_system_type"].f < c.fsType as real + 1.0
    ensures ("file_system_type" in m ==> !m["file_system_type"].Int? && !m["file_system_type"].Float64?) ==> c.fsType == 0
    ensures forall key :: key in c.metadata <==>
              key in m && key != "path" && key != "size_in_bytes" && key != "size" && key != "children" && key != "file_system_type"
    ensures forall key <- c.metadata :: c.metadata[key] == m[key]
  {
    SizesMean(m, p);
  }

  lemma {:induction false} SizesMean(m: Entries, p: Platform)
    ensures forall key | key in m && IsNumber(m[key]) :: SizeAt(m, key, p).Some? && MeansSize(m[key], SizeAt(m, key, p).value)
    ensures forall key | key in m ==> !IsNumber(m[key]) :: SizeAt(m, key, p).None?
  {
  }

  // ---------------------------------------------------------------- a tree

  /** `c` is what the map `v` describes, at every depth. */
  ghost predicate Reads(v: Value, c: Child, p: Platform)
    decreases v
  {
    && v.Map? && NodeReads(v.entries, c, p)
    && if HasItems(v.entries) then ReadsAll(v.entries[CHILDREN].items, c.children, p) else c.children == []
  }

  /** The maps among `items` describe `cs`, one by one; anything else is passed over. */
  ghost predicate ReadsAll(items: seq<Value>, cs: seq<Child>, p: Platform)
    decreases items
  {
    if items == [] then cs == []
    else if items[0].Map? then cs != [] && Reads(items[0], cs[0], p) && ReadsAll(items[1..], cs[1..], p)
    else ReadsAll(items[1..], cs, p)
  }

  /** A map describes one tree only. */
  lemma {:induction false} ReadsOneTree(v: Value, c: Child, c': Child, p: Platform)
    requires Reads(v, c, p) && Reads(v, c', p)
    ensures c == c'
    decreases v
  {
    if HasItems(v.entries) { ReadsOneList(v.entries[CHILDREN].items, c.children, c'.children, p); }
  }

  lemma {:induction false} ReadsOneList(items: seq<Value>, cs: seq<Child>, cs': seq<Child>, p: Platform)
    requires ReadsAll(items, cs, p) && ReadsAll(items, cs', p)
    ensures cs == cs'
    decreases items
  {
    if items != [] {
      if items[0].Map? {
        ReadsOneTree(items[0], cs[0], cs'[0], p);
        ReadsOneList(items[1..], cs[1..], cs'[1..], p);
        assert cs == [cs[0]] + cs[1..] && cs' == [cs'[0]] + cs'[1..];
      } else {
        ReadsOneList(items[1..], cs, cs', p);
      }
    }
  }

  function Preorder(c: Child): seq<Child>
    decreases c
  {
    [c] + PreorderAll(c.children)
  }

  function PreorderAll(cs: seq<Child>): seq<Child>
    decreases cs
  {
    if cs == [] then [] else Preorder(cs[0]) + PreorderAll(cs[1..])
  }

  /** The maps of a nested map, in the order in which a reader of the text meets them. */
  function Maps(v: Value): (r: seq<Entries>)
    decreases v
  {
    if !v.Map? then []
    else [v.entries] + if HasItems(v.entries) then MapsAll(v.entries[CHILDREN].items) else []
  }

  function MapsAll(items: seq<Value>): seq<Entries>
    decreases items
  {
    if items == [] then [] else Maps(items[0]) + MapsAll(items[1..])
  }

  ghost predicate NodesRead(ms: seq<Entries>, cs: seq<Child>, p: Platform) {
    |ms| == |cs| && forall i | 0 <= i < |ms| :: NodeReads(ms[i], cs[i], p)
  }

  /** A tree has one node for each map, in the same order, at every depth. */
  lemma {:induction false} ShapeAndOrder(v: Value, c: Child, p: Platform)
    requires Reads(v, c, p)
    ensures NodesRead(Maps(v), Preorder(c), p)
    decreases v
  {
    if HasItems(v.entries) { ShapeAndOrderAll(v.entries[CHILDREN].items, c.children, p); }
  }

  lemma {:induction false} ShapeAndOrderAll(items: seq<Value>, cs: seq<Child>, p: Platform)
    requires ReadsAll(items, cs, p)
    ensures NodesRead(MapsAll(items), PreorderAll(cs), p)
    decreases items
  {
    if items != [] {
      if items[0].Map? {
        ShapeAndOrder(items[0], cs[0], p);
        ShapeAndOrderAll(items[1..], cs[1..], p);
      } else {
        ShapeAndOrderAll(items[1..], cs, p);
        assert MapsAll(items) == [] + MapsAll(items[1..]) == MapsAll(items[1..]);
      }
    }
  }

  // ---------------------------------------------------------------- writing a tree as a map

  /** The map a tree would be written as. */
  function Written(c: Child): Value
    decreases c
  {
    Map(c.metadata + map[PATH := Text(c.path), SIZE_IN_BYTES := Uint64(c.size),
                         FILE_SYSTEM_TYPE := Int(c.fsType), CHILDREN := List(WrittenAll(c.children))])
  }

  function WrittenAll(cs: seq<Child>): seq<Value>
    decreases cs
  {
    if cs == [] then [] else [Written(cs[0])] + WrittenAll(cs[1..])
  }

  /** No metadata under a name that has a field of its own, at any depth. */
  ghost predicate Plain(c: Child) {
    forall n <- Preorder(c) :: n.metadata.Keys !! RESERVED
  }

  /** Every plain tree can be read back from the map it is written as, and only plain trees are ever read. */
  lemma {:induction false} RoundTrip(c: Child, p: Platform)
    ensures Plain(c) <==> Reads(Written(c), c, p)
  {
    if Plain(c) {
      PlainIsRead(c, p);
    }
    if Reads(Written(c), c, p) {
      ReadIsPlain(Written(c), c, p);
    }
  }

  lemma {:induction false} PlainIsRead(c: Child, p: Platform)
    requires Plain(c)
    ensures Reads(Written(c), c, p)
    decreases c
  {
    assert c in Preorder(c);
    assert Written(c).entries - RESERVED == c.metadata;
    PlainAllRead(c.children, p);
  }

  lemma {:induction false} PlainAllRead(cs: seq<Child>, p: Platform)
    requires forall n <- PreorderAll(cs) :: n.metadata.Keys !! RESERVED
    ensures ReadsAll(WrittenAll(cs), cs, p)
    decreases cs
  {
    if cs != [] {
      assert forall n <- Preorder(cs[0]) :: n in PreorderAll(cs);
      PlainIsRead(cs[0], p);
      PlainAllRead(cs[1..], p);
    }
  }

  lemma {:induction false} ReadIsPlain(v: Value, c: Child, p: Platform)
    requires Reads(v, c, p)
    ensures Plain(c)
  {
    ShapeAndOrder(v, c, p);
  }

  // ---------------------------------------------------------------- parseDiskUsageChild

  method ParseSize(m: Entries, p: Platform) returns (size: uint64)
    ensures size == SizeOf(m, p)
  {
    size := 0;
    if SIZE_IN_BYTES in m && m[SIZE_IN_BYTES].Uint64? {
      size := m[SIZE_IN_BYTES].u;
    } else if SIZE_IN_BYTES in m && m[SIZE_IN_BYTES].Int64? {
      size := m[SIZE_IN_BYTES].i % TWO_TO_THE_64;
    } else if SIZE_IN_BYTES in m && m[SIZE_IN_BYTES].Float64? {
      size := ToUint64(m[SIZE_IN_BYTES].f, p);
    } else if SIZE in m && m[SIZE].Uint64? {
      size := m[SIZE].u;
    } else if SIZE in m && m[SIZE].Int64? {
      size := m[SIZE].i % TWO_TO_THE_64;
    } else if SIZE in m && m[SIZE].Float64? {
      size := ToUint64(m[SIZE].f, p);
    }
  }

  method ParseFileSystemType(m: Entries, p: Platform) returns (fsType: int)
    ensures fsType == FileSystemTypeOf(m, p)
  {
    fsType := 0;
    if FILE_SYSTEM_TYPE in m && m[FILE_SYSTEM_TYPE].Int? {
      fsType := m[FILE_SYSTEM_TYPE].n;
    } else if FILE_SYSTEM_TYPE in m && m[FILE_SYSTEM_TYPE].Float64? {
      fsType := ToInt(m[FILE_SYSTEM_TYPE].f, p);
    }
  }

  method ParseDiskUsageChild(v: Value, p: Platform) returns (c: Child)
    requires v.Map?
    ensures Reads(v, c, p)
    decreases v
  {
    var m := v.entries;
    var path := if PATH in m && m[PATH].Text? then m[PATH].text else "";
    var size := ParseSize(m, p);
    var fsType := ParseFileSystemType(m, p);
    var children: seq<Child> := [];
    if HasItems(m) {
      children := ParseItems(m[CHILDREN].items, p);
    }
    var metadata := CopyMetadata(m);
    c := Child(path, size, fsType, children, metadata);
  }

  /** The loop over the children. */
  method ParseItems(items: seq<Value>, p: Platform) returns (children: seq<Child>)
    ensures ReadsAll(items, children, p)
    decreases items
  {
    children := [];
    var k := 0;
    while k < |items|
      invariant 0 <= k <= |items|
      invariant ReadsAll(items[..k], children, p)
    {
      if items[k].Map? {
        var child := ParseDiskUsageChild(items[k], p);
        OneMoreRead(items[..k], children, items[k], child, p);
        children := children + [child];
      } else {
        OneMoreSkipped(items[..k], children, items[k], p);
      }
      assert items[..k + 1] == items[..k] + [items[k]];
      k := k + 1;
    }
    assert items[..k] == items;
  }

  lemma {:induction false} OneMoreRead(items: seq<Value>, cs: seq<Child>, v: Value, c: Child, p: Platform)
    requires ReadsAll(items, cs, p) && Reads(v, c, p)
    ensures ReadsAll(items + [v], cs + [c], p)
  {
    if items == [] {
      assert items + [v] == [v] && cs + [c] == [c];
    } else {
      assert (items + [v])[1..] == items[1..] + [v];
      if items[0].Map? {
        OneMoreRead(items[1..], cs[1..], v, c, p);
        assert (cs + [c])[1..] == cs[1..] + [c];
      } else {
        OneMoreRead(items[1..], cs, v, c, p);
      }
    }
  }

  lemma {:induction false} OneMoreSkipped(items: seq<Value>, cs: seq<Child>, v: Value, p: Platform)
    requires ReadsAll(items, cs, p) && !v.Map?
    ensures ReadsAll(items + [v], cs, p)
  {
    if items == [] {
      assert items + [v] == [v];
    } else {
      assert (items + [v])[1..] == items[1..] + [v];
      OneMoreSkipped(items[1..], if items[0].Map? then cs[1..] else cs, v, p);
    }
  }

  method CopyMetadata(m: Entries) returns (metadata: Entries)
    ensures metadata == m - RESERVED
  {
    metadata := map[];
    var rest := m.Keys;
    while rest != {}
      invariant rest <= m.Keys
      invariant metadata == m - rest - RESERVED
      decreases |rest|
    {
      var k :| k in rest;
      rest := rest - {k};
      if k != PATH && k != SIZE_IN_BYTES && k != SIZE && k != CHILDREN && k != FILE_SYSTEM_TYPE {
        metadata := metadata[k := m[k]];
      }
    }
  }

  // ---------------------------------------------------------------- GetTotalSize

  function Sizes(cs: seq<Child>): nat {
    if cs == [] then 0 else cs[0].size + Sizes(cs[1..])
  }

  lemma {:induction false} SizesAdd(a: seq<Child>, b: seq<Child>)
    ensures Sizes(a + b) == Sizes(a) + Sizes(b)
  {
    if a == [] {
      assert a + b == b;
    } else {
      assert (a + b)[1..] == a[1..] + b;
      SizesAdd(a[1..], b);
    }
  }

  lemma {:induction false} OneMoreChild(cs: seq<Child>, c: Child)
    ensures PreorderAll(cs + [c]) == PreorderAll(cs) + Preorder(c)
  {
    if cs == [] {
      assert cs + [c] == [c];
    } else {
      assert (cs + [c])[1..] == cs[1..] + [c];
      OneMoreChild(cs[1..], c);
    }
  }

  lemma {:induction false} SizesOneMore(cs: seq<Child>, i: nat)
    requires i < |cs|
    ensures Sizes(PreorderAll(cs[..i + 1])) == Sizes(PreorderAll(cs[..i])) + Sizes(Preorder(cs[i]))
  {
    OneMoreChild(cs[..i], cs[i]);
    SizesAdd(PreorderAll(cs[..i]), Preorder(cs[i]));
    assert cs[..i + 1] == cs[..i] + [cs[i]];
  }

  lemma {:induction false} WrappedSum(a: nat, b: nat)
    ensures (a % TWO_TO_THE_64 + b % TWO_TO_THE_64) % TWO_TO_THE_64 == (a + b) % TWO_TO_THE_64
  {}

  /** Every node counts once: one node alone counts with its size, a tree with its root and its subtrees. */
  lemma {:induction false} EveryNodeCounts(c: Child, i: nat)
    requires i < |c.children|
    ensures Sizes([c]) == c.size
    ensures Sizes(Preorder(c)) == c.size + Sizes(PreorderAll(c.children))
    ensures Sizes(PreorderAll(c.children[..i + 1])) == Sizes(PreorderAll(c.children[..i])) + Sizes(Preorder(c.children[i]))
  {
    assert [c][1..] == [];
    SizesAdd([c], PreorderAll(c.children));
    SizesOneMore(c.children, i);
  }

  /** The sum over all nodes, as far as 64 bits can hold it. */
  method GetTotalSize(d: Child) returns (total: uint64)
    ensures total == Sizes(Preorder(d)) % TWO_TO_THE_64
    decreases d
  {
    total := d.size;
    for i := 0 to |d.children|
      invariant total == (d.size + Sizes(PreorderAll(d.children[..i]))) % TWO_TO_THE_64
    {
      var size := GetTotalSize(d.children[i]);
      SizesOneMore(d.children, i);
      WrappedSum(d.size + Sizes(PreorderAll(d.children[..i])), Sizes(Preorder(d.children[i])));
      total := (total + size) % TWO_TO_THE_64;
    }
    assert d.children[..|d.children|] == d.children;
    SizesAdd([d], PreorderAll(d.children));
  }

  // ---------------------------------------------------------------- FindByPath

  /** The first node of `nodes` with this path, if there is one. */
  ghost predicate IsFirst(r: Option<Child>, nodes: seq<Child>, path: string) {
    match r
    case None => forall n <- nodes :: n.path != path
    case Some(c) => c.path == path && exists i | 0 <= i < |nodes| :: nodes[i] == c && forall j | 0 <= j < i :: nodes[j].path != path
  }

  lemma {:induction false} FirstOfTwo(r: Option<Child>, a: seq<Child>, b: seq<Child>, path: string)
    ensures IsFirst(r, a, path) && r.Some? ==> IsFirst(r, a + b, path)
    ensures IsFirst(None, a, path) && IsFirst(r, b, path) ==> IsFirst(r, a + b, path)
  {
    if r.Some? && IsFirst(r, a, path) {
      var i :| 0 <= i < |a| && a[i] == r.value && forall j | 0 <= j < i :: a[j].path != path;
      assert (a + b)[i] == r.value;
    }
    if IsFirst(None, a, path) && IsFirst(r, b, path) && r.Some? {
      var i :| 0 <= i < |b| && b[i] == r.value && forall j | 0 <= j < i :: b[j].path != path;
      assert (a + b)[|a| + i] == r.value;
      assert forall j | 0 <= j < |a| :: a[j] in a;
    }
  }

  method FindByPath(d: Child, path: string) returns (r: Option<Child>)
    ensures IsFirst(r, Preorder(d), path)
    decreases d
  {
    if d.path == path {
      assert Preorder(d)[0] == d;
      return Some(d);
    }
    assert IsFirst(None, [d], path);
    for i := 0 to |d.children|
      invariant IsFirst(None, PreorderAll(d.children[..i]), path)
    {
      var before, child := PreorderAll(d.children[..i]), d.children[i];
      var found := FindByPath(child, path);
      OneMoreChild(d.children[..i], child);
      FirstOfTwo(found, before, Preorder(child), path);
      assert d.children[..i + 1] == d.children[..i] + [child];
      if found.Some? {
        StartOfChildren(d.children, i + 1);
        ghost var rest :| PreorderAll(d.children) == PreorderAll(d.children[..i + 1]) + rest;
        FirstOfTwo(found, PreorderAll(d.children[..i + 1]), rest, path);
        FirstOfTwo(found, [d], PreorderAll(d.children), path);
        return found;
      }
    }
    assert d.children[..|d.children|] == d.children;
    FirstOfTwo(None, [d], PreorderAll(d.children), path);
    return None;
  }

  lemma {:induction false} StartOfChildren(cs: seq<Child>, i: nat)
    requires i <= |cs|
    ensures exists rest :: PreorderAll(cs) == PreorderAll(cs[..i]) + rest
  {
    if i == 0 {
      assert PreorderAll(cs) == PreorderAll(cs[..0]) + PreorderAll(cs);
    } else {
      StartOfChildren(cs[1..], i - 1);
      assert cs[..i][1..] == cs[1..][..i - 1];
      var rest :| PreorderAll(cs[1..]) == PreorderAll(cs[1..][..i - 1]) + rest;
      assert PreorderAll(cs) == PreorderAll(cs[..i]) + rest;
    }
  }
}
