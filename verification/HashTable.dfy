/** The chained hash table of `deps/argtable/argtable3.c` with its rehashing expansion, its iterator
    and its user `arg_cmd_register`, against a finite map. */
module HashTable {
  import opened Common

  datatype Entry<K, V> = Entry(k: K, v: V, h: nat)

  /** Bucket lists, first element first. */
  type Chains<K, V> = seq<seq<Entry<K, V>>>

  const PRIMES: seq<nat> := [
    53, 97, 193, 389, 769, 1543, 3079, 6151, 12289, 24593, 49157, 98317, 196613, 393241, 786433, 1572869,
    3145739, 6291469, 12582917, 25165843, 50331653, 100663319, 201326611, 402653189, 805306457, 1610612741]

  lemma PrimesPositive()
    ensures |PRIMES| == 26 && forall i :: 0 <= i < |PRIMES| ==> PRIMES[i] > 0
  {
  }

  /** ceil(size * 0.65) */
  function LoadLimit(size: nat): nat { (size * 65 + 99) / 100 }

  /** The next prime admits at least one more entry than the last. */
  lemma LimitsGrow(i: nat)
    requires i < |PRIMES| - 1
    ensures 0 < LoadLimit(PRIMES[i]) < LoadLimit(PRIMES[i + 1])
  {
  }

  function EnhancedHash(raw: bv32): bv32 {
    var a := raw + !(raw << 9);
    var b := a ^ ((a >> 14) | (a << 18));
    var c := b + (b << 4);
    c ^ ((c >> 10) | (c << 22))
  }

  function Index(h: nat, size: nat): (i: nat)
    requires size > 0
    ensures i < size
  {
    h % size
  }

  // ---------------------------------------------------------------- the meaning of the chains

  /** Every entry sits in its bucket with its hash, every key of `m` has an entry with its value,
      and no bucket holds a key twice. */
  ghost predicate Holds<K(!new), V>(chains: Chains<K, V>, m: map<K, V>, hash: K -> nat) {
    && |chains| > 0
    && (forall i, j :: 0 <= i < |chains| && 0 <= j < |chains[i]| ==> Placed(chains[i][j], i, |chains|, m, hash))
    && (forall k :: k in m ==> Occurs(chains[Index(hash(k), |chains|)], k))
    && (forall i :: 0 <= i < |chains| ==> Distinct(chains[i]))
  }

  predicate Placed<K, V(==)>(e: Entry<K, V>, i: nat, size: nat, m: map<K, V>, hash: K -> nat)
    requires size > 0
  {
    e.k in m && m[e.k] == e.v && e.h == hash(e.k) && Index(e.h, size) == i
  }

  ghost predicate Occurs<K, V>(chain: seq<Entry<K, V>>, k: K) {
    exists j :: 0 <= j < |chain| && chain[j].k == k
  }

  ghost predicate Distinct<K, V>(chain: seq<Entry<K, V>>) {
    forall a, b :: 0 <= a < b < |chain| ==> chain[a].k != chain[b].k
  }

  /** Putting a new key in front of its bucket. */
  lemma HoldsInsert<K(!new), V>(chains: Chains<K, V>, m: map<K, V>, hash: K -> nat, k: K, v: V)
    requires Holds(chains, m, hash) && k !in m
    ensures var i := Index(hash(k), |chains|);
      Holds(chains[i := [Entry(k, v, hash(k))] + chains[i]], m[k := v], hash)
  {
    hide Index;
    var i := Index(hash(k), |chains|);
    var e := Entry(k, v, hash(k));
    var chains' := chains[i := [e] + chains[i]];
    forall a, b | 0 <= a < |chains'| && 0 <= b < |chains'[a]|
      ensures Placed(chains'[a][b], a, |chains'|, m[k := v], hash)
    {
      if a == i && b > 0 {
        assert chains'[a][b] == chains[i][b - 1];
      }
    }
    forall k' | k' in m[k := v] ensures Occurs(chains'[Index(hash(k'), |chains'|)], k') {
      if k' == k {
        assert chains'[i][0].k == k;
      } else {
        var n := Index(hash(k'), |chains|);
        var j :| 0 <= j < |chains[n]| && chains[n][j].k == k';
        if n == i {
          assert chains'[n][j + 1].k == k';
        }
      }
    }
    forall a, b | 0 <= a < b < |chains'[i]| ensures chains'[i][a].k != chains'[i][b].k {
      assert Placed(chains[i][b - 1], i, |chains|, m, hash);
      if a > 0 {
        assert Distinct(chains[i]);
        assert chains[i][a - 1].k != chains[i][b - 1].k;
      }
    }
  }

  function Without<T>(s: seq<T>, j: nat): seq<T>
    requires j < |s|
  {
    s[..j] + s[j + 1..]
  }

  /** Unlinking entry `j` of bucket `i`. */
  lemma HoldsRemove<K(!new), V>(chains: Chains<K, V>, m: map<K, V>, hash: K -> nat, i: nat, j: nat)
    requires Holds(chains, m, hash) && i < |chains| && j < |chains[i]|
    ensures chains[i][j].k in m
    ensures Holds(chains[i := Without(chains[i], j)], m - {chains[i][j].k}, hash)
  {
    hide Index;
    var k := chains[i][j].k;
    var rest := Without(chains[i], j);
    var chains' := chains[i := rest];
    assert Placed(chains[i][j], i, |chains|, m, hash);
    assert Distinct(chains[i]);
    forall a, b | 0 <= a < |chains'| && 0 <= b < |chains'[a]|
      ensures Placed(chains'[a][b], a, |chains'|, m - {k}, hash)
    {
      var c := if a == i && b >= j then b + 1 else b;
      assert chains'[a][b] == chains[a][c];
      assert Placed(chains[a][c], a, |chains|, m, hash);
    }
    forall k' | k' in m - {k} ensures Occurs(chains'[Index(hash(k'), |chains'|)], k') {
      var n := Index(hash(k'), |chains|);
      var c :| 0 <= c < |chains[n]| && chains[n][c].k == k';
      if n == i {
        assert rest[if c < j then c else c - 1] == chains[i][c];
      }
    }
    assert Distinct(rest);
  }

  lemma HoldsNothing<K(!new), V>(chains: Chains<K, V>, m: map<K, V>, hash: K -> nat)
    requires Holds(chains, m, hash) && forall i :: 0 <= i < |chains| ==> chains[i] == []
    ensures m == map[]
  {
    forall k ensures k !in m {
      NotFound(chains, m, hash, k);
    }
  }

  lemma HoldsEmpty<K(!new), V>(chains: Chains<K, V>, hash: K -> nat)
    requires |chains| > 0 && forall i :: 0 <= i < |chains| ==> chains[i] == []
    ensures Holds(chains, map[], hash)
  {
  }

  // ---------------------------------------------------------------- chains of nodes

  /** arg_hashtable_entry */
  class Node<K, V> {
    const k: K
    const v: V
    const h: nat
    var next: Node?<K, V>

    constructor (k: K, v: V, h: nat, next: Node?<K, V>)
      ensures this.k == k && this.v == v && this.h == h && this.next == next
    {
      this.k, this.v, this.h, this.next := k, v, h, next;
    }
  }

  /** The nodes of every bucket, in the order of their links. */
  type Spine<K(!new), V> = seq<seq<Node<K, V>>>

  ghost function Row<K, V>(nodes: seq<Node<K, V>>): seq<Entry<K, V>> {
    seq(|nodes|, j requires 0 <= j < |nodes| => Entry(nodes[j].k, nodes[j].v, nodes[j].h))
  }

  ghost function Entries<K(!new), V>(spine: Spine<K, V>): Chains<K, V> {
    seq(|spine|, i requires 0 <= i < |spine| => Row(spine[i]))
  }

  ghost function Nth<K, V>(nodes: seq<Node<K, V>>, j: nat): Node?<K, V> {
    if j < |nodes| then nodes[j] else null
  }

  /** From `head` the links lead through exactly these nodes. */
  ghost predicate Linked<K, V>(head: Node?<K, V>, nodes: seq<Node<K, V>>)
    reads nodes
  {
    head == Nth(nodes, 0) && forall j :: 0 <= j < |nodes| ==> nodes[j].next == Nth(nodes, j + 1)
  }

  ghost predicate Chained<K(!new), V>(table: seq<Node?<K, V>>, spine: Spine<K, V>, repr: set<Node<K, V>>)
    reads repr
  {
    && |spine| == |table|
    && forall i :: 0 <= i < |table| ==> (forall n :: n in spine[i] ==> n in repr) && Linked(table[i], spine[i])
  }

  lemma LinkedFront<K, V>(e: Node<K, V>, nodes: seq<Node<K, V>>)
    requires Linked(e.next, nodes)
    ensures Linked(e, [e] + nodes)
  {
    var all := [e] + nodes;
    forall j | 0 <= j < |all| ensures all[j].next == Nth(all, j + 1) {
      if j > 0 {
        assert all[j] == nodes[j - 1];
      }
    }
  }

  /** Every node but the one before `j` is linked to its successor, that one to the successor of `j`. */
  lemma LinkedAround<K, V>(head: Node?<K, V>, nodes: seq<Node<K, V>>, j: nat)
    requires j < |nodes| && forall a :: 0 <= a < |nodes| && a != j - 1 ==> nodes[a].next == Nth(nodes, a + 1)
    requires if j == 0 then head == Nth(nodes, 1) else head == nodes[0] && nodes[j - 1].next == Nth(nodes, j + 1)
    ensures Linked(head, Without(nodes, j))
  {
    var rest := Without(nodes, j);
    forall a | 0 <= a < |rest| ensures rest[a].next == Nth(rest, a + 1) {
      assert rest[a] == nodes[if a < j then a else a + 1];
    }
  }

  lemma ChainedUpdate<K(!new), V>(table: seq<Node?<K, V>>, spine: Spine<K, V>, repr: set<Node<K, V>>, i: nat,
                                  head: Node?<K, V>, nodes: seq<Node<K, V>>)
    requires Chained(table, spine, repr) && i < |table| && Linked(head, nodes) && forall n :: n in nodes ==> n in repr
    ensures Chained(table[i := head], spine[i := nodes], repr)
  {
    hide Linked;
  }

  lemma EntriesUpdate<K(!new), V>(spine: Spine<K, V>, i: nat, nodes: seq<Node<K, V>>)
    requires i < |spine|
    ensures Entries(spine[i := nodes]) == Entries(spine)[i := Row(nodes)]
  {
  }

  lemma RowFront<K, V>(n: Node<K, V>, nodes: seq<Node<K, V>>)
    ensures Row([n] + nodes) == [Entry(n.k, n.v, n.h)] + Row(nodes)
  {
  }

  lemma RowWithout<K, V>(nodes: seq<Node<K, V>>, j: nat)
    requires j < |nodes|
    ensures Row(Without(nodes, j)) == Without(Row(nodes), j)
  {
  }

  /** A node has one place: its key decides the bucket, and no bucket holds a key twice. */
  lemma OnePlace<K(!new), V>(spine: Spine<K, V>, m: map<K, V>, hash: K -> nat, i: nat, a: nat, j: nat, b: nat)
    requires Holds(Entries(spine), m, hash) && i < |spine| && a < |spine[i]| && j < |spine| && b < |spine[j]|
    requires spine[i][a] == spine[j][b]
    ensures i == j && a == b
  {
    hide Index;
    var chains := Entries(spine);
    assert Placed(chains[i][a], i, |chains|, m, hash) && Placed(chains[j][b], j, |chains|, m, hash);
    assert Distinct(chains[i]);
    assert chains[i][a].k == chains[j][b].k;
  }

  lemma ElsewhereThan<K(!new), V>(spine: Spine<K, V>, m: map<K, V>, hash: K -> nat, i: nat, a: nat)
    requires Holds(Entries(spine), m, hash) && i < |spine| && a < |spine[i]|
    ensures forall j, b :: 0 <= j < |spine| && 0 <= b < |spine[j]| && !(j == i && b == a) ==> spine[j][b] != spine[i][a]
  {
    hide Holds;
    forall j, b | 0 <= j < |spine| && 0 <= b < |spine[j]| && !(j == i && b == a) ensures spine[j][b] != spine[i][a] {
      if spine[j][b] == spine[i][a] {
        OnePlace(spine, m, hash, i, a, j, b);
      }
    }
  }

  lemma RowAt<K(!new), V>(spine: Spine<K, V>, i: nat, j: nat)
    requires i < |spine| && j < |spine[i]|
    ensures |Entries(spine)| == |spine| && Entries(spine)[i] == Row(spine[i]) && |Row(spine[i])| == |spine[i]|
    ensures var n := spine[i][j]; Row(spine[i])[j] == Entry(n.k, n.v, n.h)
  {
  }

  lemma EntryAt<K(!new), V>(spine: Spine<K, V>, m: map<K, V>, hash: K -> nat, i: nat, j: nat)
    requires Holds(Entries(spine), m, hash) && i < |spine| && j < |spine[i]|
    ensures var n := spine[i][j]; n.k in m && m[n.k] == n.v && n.h == hash(n.k)
  {
    hide Holds;
    RowAt(spine, i, j);
    HoldsEntry(Entries(spine), m, hash, i, j);
  }

  lemma Absent<K(!new), V>(spine: Spine<K, V>, m: map<K, V>, hash: K -> nat, k: K)
    requires |spine| > 0 && Holds(Entries(spine), m, hash)
    requires var nodes := spine[Index(hash(k), |spine|)]; forall a :: 0 <= a < |nodes| ==> nodes[a].k != k
    ensures k !in m
  {
    hide Holds, Index;
    NotFound(Entries(spine), m, hash, k);
  }

  // ---------------------------------------------------------------- moving nodes

  predicate Avoids<K(!new), V>(spine: Spine<K, V>, e: Node<K, V>) {
    forall i :: 0 <= i < |spine| ==> e !in spine[i]
  }

  /** The first node of a bucket leaves the map with its binding. */
  lemma TakeFirst<K(!new), V>(spine: Spine<K, V>, m: map<K, V>, hash: K -> nat, i: nat)
    requires Holds(Entries(spine), m, hash) && i < |spine| && spine[i] != []
    ensures var e := spine[i][0]; var rest := spine[i := spine[i][1..]];
      && e.k in m && m[e.k] == e.v && e.h == hash(e.k)
      && Holds(Entries(rest), m - {e.k}, hash) && Avoids(rest, e)
  {
    hide Holds, Row, Entries;
    EntryAt(spine, m, hash, i, 0);
    RowAt(spine, i, 0);
    HoldsRemove(Entries(spine), m, hash, i, 0);
    RowWithout(spine[i], 0);
    assert Without(spine[i], 0) == spine[i][1..];
    EntriesUpdate(spine, i, spine[i][1..]);
    ElsewhereThan(spine, m, hash, i, 0);
    var rest := spine[i := spine[i][1..]];
    forall j, b | 0 <= j < |rest| && 0 <= b < |rest[j]| ensures rest[j][b] != spine[i][0] {
      assert rest[j][b] == spine[j][if j == i then b + 1 else b];
    }
  }

  /** A node with a new key goes to the front of its bucket. */
  lemma PutFirst<K(!new), V>(spine: Spine<K, V>, m: map<K, V>, hash: K -> nat, e: Node<K, V>)
    requires |spine| > 0 && Holds(Entries(spine), m, hash) && e.k !in m && e.h == hash(e.k)
    ensures var i := Index(e.h, |spine|); Holds(Entries(spine[i := [e] + spine[i]]), m[e.k := e.v], hash)
    ensures Avoids(spine, e)
  {
    hide Holds, Row, Index;
    var i := Index(e.h, |spine|);
    HoldsInsert(Entries(spine), m, hash, e.k, e.v);
    EntriesUpdate(spine, i, [e] + spine[i]);
    RowFront(e, spine[i]);
    forall j, b | 0 <= j < |spine| && 0 <= b < |spine[j]| ensures spine[j][b] != e {
      EntryAt(spine, m, hash, j, b);
    }
  }

  method Pop<K(!new), V>(table: array<Node?<K, V>>, i: nat, ghost spine: Spine<K, V>, ghost repr: set<Node<K, V>>)
    returns (e: Node<K, V>)
    requires i < table.Length && Chained(table[..], spine, repr) && table[i] != null
    modifies table
    ensures spine[i] != [] && e == spine[i][0] && e in repr
    ensures Chained(table[..], spine[i := spine[i][1..]], repr)
  {
    ghost var before := table[..];
    assert Linked(before[i], spine[i]);
    e := table[i];
    LinkedSuffix(table[i], spine[i], 1);
    ChainedUpdate(before, spine, repr, i, e.next, spine[i][1..]);
    table[i] := e.next;
    assert table[..] == before[i := e.next];
  }

  method PushNode<K(!new), V>(table: array<Node?<K, V>>, i: nat, e: Node<K, V>, ghost spine: Spine<K, V>, ghost repr: set<Node<K, V>>)
    requires i < table.Length && Chained(table[..], spine, repr) && e in repr && Avoids(spine, e)
    modifies table, e
    ensures Chained(table[..], spine[i := [e] + spine[i]], repr)
  {
    ghost var before := table[..];
    assert forall j :: 0 <= j < table.Length ==> Linked(before[j], spine[j]);
    e.next := table[i];
    table[i] := e;
    forall j | 0 <= j < table.Length ensures Linked(before[j], spine[j]) {
      assert old(Linked(table[..][j], spine[j]));
    }
    LinkedFront(e, spine[i]);
    assert forall j :: 0 <= j < table.Length && j != i ==> table[..][j] == before[j];
  }

  // ---------------------------------------------------------------- the table

  class Table<K(==, !new), V(==)> {
    const hashfn: K -> bv32
    var table: array<Node?<K, V>>
    var primeindex: nat
    var loadlimit: nat
    var entrycount: nat
    ghost var spine: Spine<K, V>
    ghost var repr: set<Node<K, V>>
    ghost var contents: map<K, V>

    function Hash(k: K): nat { EnhancedHash(hashfn(k)) as nat }

    ghost predicate Valid()
      reads this, table, repr
    {
      && primeindex < |PRIMES| && table.Length == PRIMES[primeindex]
      && Chained(table[..], spine, repr) && Holds(Entries(spine), contents, Hash)
      && entrycount == |contents|
      && loadlimit == LoadLimit(table.Length)
      && (entrycount <= loadlimit || primeindex == |PRIMES| - 1)
    }

    lemma SpineLength()
      requires Valid()
      ensures |spine| == table.Length > 0
    {
      PrimesPositive();
    }

    lemma BucketLinked(i: nat)
      requires Valid() && i < table.Length
      ensures |spine| == table.Length && Linked(table[i], spine[i])
    {
      assert Linked(table[..][i], spine[i]);
    }

    /** The first prime above `minsize`. */
    constructor (minsize: nat, hashfn: K -> bv32)
      requires minsize <= 0x4000_0000
      ensures Valid() && fresh(table) && repr == {} && contents == map[] && this.hashfn == hashfn && table.Length > minsize
    {
      PrimesPositive();
      var pindex := 0;
      var size := PRIMES[0];
      while pindex < |PRIMES|
        invariant 0 <= pindex <= |PRIMES|
        invariant forall i :: 0 <= i < pindex ==> PRIMES[i] <= minsize
      {
        if PRIMES[pindex] > minsize {
          size := PRIMES[pindex];
          break;
        }
        pindex := pindex + 1;
      }
      assert pindex < |PRIMES| by { assert PRIMES[25] > minsize; }
      this.hashfn := hashfn;
      this.table := new Node?<K, V>[size](_ => null);
      this.primeindex, this.loadlimit, this.entrycount := pindex, LoadLimit(size), 0;
      this.contents, this.repr := map[], {};
      this.spine := seq(size, _ => []);
      new;
      HoldsEmpty(Entries(spine), Hash);
    }

    /** arg_hashtable_create refuses a size above 2^30. */
    static method Create(minsize: nat, hashfn: K -> bv32) returns (h: Table?<K, V>)
      ensures h == null <==> minsize > 0x4000_0000
      ensures h != null ==>
        h.Valid() && fresh(h) && fresh(h.table) && h.repr == {} && h.contents == map[] && h.table.Length > minsize
    {
      if minsize > 0x4000_0000 {
        return null;
      }
      h := new Table(minsize, hashfn);
    }

    /** arg_hashtable_search */
    method Search(k: K) returns (v: Option<V>)
      requires Valid()
      ensures v == if k in contents then Some(contents[k]) else None
    {
      PrimesPositive();
      hide Hash, Index, Holds, LoadLimit;
      var hashvalue := Hash(k);
      var index := Index(hashvalue, table.Length);
      var e := table[index];
      ghost var nodes, j := spine[index], 0;
      assert Linked(table[..][index], nodes);
      while e != null
        invariant 0 <= j <= |nodes| && e == Nth(nodes, j)
        invariant forall a :: 0 <= a < j ==> nodes[a].k != k
        decreases |nodes| - j
      {
        assert Linked(table[..][index], nodes);
        assert nodes[j].next == Nth(nodes, j + 1);
        HoldsEntry(Entries(spine), contents, Hash, index, j);
        if hashvalue == e.h && k == e.k {
          return Some(e.v);
        }
        e := e.next;
        j := j + 1;
      }
      NotFound(Entries(spine), contents, Hash, k);
      return None;
    }

    /** A new node in front of bucket `i`. */
    method Push(k: K, v: V)
      requires Valid() && k !in contents && (entrycount < loadlimit || primeindex == |PRIMES| - 1)
      modifies this`entrycount, this`spine, this`repr, this`contents, table
      ensures Valid() && contents == old(contents)[k := v] && fresh(repr - old(repr))
    {
      hide Hash, Holds, Index, LoadLimit;
      PrimesPositive();
      var h := Hash(k);
      var index := Index(h, table.Length);
      var e := new Node(k, v, h, table[index]);
      HoldsInsert(Entries(spine), contents, Hash, k, v);
      EntriesUpdate(spine, index, [e] + spine[index]);
      RowFront(e, spine[index]);
      ghost var before := table[..];
      assert Linked(before[index], spine[index]);
      LinkedFront(e, spine[index]);
      assert Chained(before, spine, repr + {e});
      ChainedUpdate(before, spine, repr + {e}, index, e, [e] + spine[index]);
      table[index] := e;
      assert table[..] == before[index := e];
      spine := spine[index := [e] + spine[index]];
      repr := repr + {e};
      contents := contents[k := v];
      entrycount := entrycount + 1;
    }

    /** The node at place `j` of bucket `index`, behind `parent`, is taken out. */
    method Unlink(index: nat, parent: Node?<K, V>, e: Node<K, V>, ghost j: nat)
      requires Valid() && index < table.Length && j < |spine[index]| && e == spine[index][j]
      requires parent == if j == 0 then null else spine[index][j - 1]
      modifies this`entrycount, this`spine, this`contents, table, repr
      ensures Valid() && contents == old(contents) - {e.k} && e.next == old(e.next)
      ensures spine == old(spine)[index := Without(old(spine)[index], j)]
    {
      hide Hash, Holds, Index, LoadLimit, Row, Entries;
      PrimesPositive();
      Relink(index, parent, e, j);
      RowAt(spine, index, j);
      HoldsRemove(Entries(spine), contents, Hash, index, j);
      EntriesUpdate(spine, index, Without(spine[index], j));
      RowWithout(spine[index], j);
      assert contents == (contents - {e.k})[e.k := contents[e.k]];
      contents := contents - {e.k};
      entrycount := entrycount - 1;
      spine := spine[index := Without(spine[index], j)];
    }

    method Relink(index: nat, parent: Node?<K, V>, e: Node<K, V>, ghost j: nat)
      requires Chained(table[..], spine, repr) && Holds(Entries(spine), contents, Hash)
      requires index < table.Length && j < |spine[index]| && e == spine[index][j]
      requires parent == if j == 0 then null else spine[index][j - 1]
      modifies table, repr
      ensures Chained(table[..], spine[index := Without(spine[index], j)], repr) && e.next == old(e.next)
    {
      hide Hash, Holds, Index, Row, Entries;
      ghost var before, nodes := table[..], spine[index];
      assert Linked(before[index], nodes);
      assert e.next == Nth(nodes, j + 1);
      if parent == null {
        table[index] := e.next;
      } else {
        ElsewhereThan(spine, contents, Hash, index, j - 1);
        assert parent in repr;
        parent.next := e.next;
      }
      LinkedAround(table[index], nodes, j);
      forall i | 0 <= i < table.Length && i != index ensures Linked(table[..][i], spine[i]) {
        assert old(Linked(table[..][i], spine[i]));
      }
    }

    /** The walk of arg_hashtable_remove: the node of the key and the one before it. */
    method Locate(k: K) returns (index: nat, parent: Node?<K, V>, e: Node?<K, V>, ghost j: nat)
      requires Valid()
      ensures e == null ==> k !in contents
      ensures e != null ==>
        && e.k == k && index < table.Length == |spine| && j < |spine[index]| && e == spine[index][j]
        && parent == if j == 0 then null else spine[index][j - 1]
    {
      hide Hash, Index, Holds, LoadLimit, Row, Entries;
      PrimesPositive();
      var hashvalue := Hash(k);
      index := Index(hashvalue, table.Length);
      parent, e, j := null, table[index], 0;
      ghost var nodes := spine[index];
      assert Linked(table[..][index], nodes);
      while e != null
        invariant 0 <= j <= |nodes| && e == Nth(nodes, j) && parent == if j == 0 then null else nodes[j - 1]
        invariant forall a :: 0 <= a < j ==> nodes[a].k != k
        decreases |nodes| - j
      {
        assert Linked(table[..][index], nodes);
        assert nodes[j].next == Nth(nodes, j + 1);
        EntryAt(spine, contents, Hash, index, j);
        if hashvalue == e.h && k == e.k {
          return;
        }
        parent := e;
        e := e.next;
        j := j + 1;
      }
      Absent(spine, contents, Hash, k);
    }

    /** arg_hashtable_remove: the node of the key is unlinked from its chain. */
    method Remove(k: K)
      requires Valid()
      modifies this`entrycount, this`spine, this`contents, table, repr
      ensures Valid() && contents == old(contents) - {k}
    {
      hide *;
      var index, parent, e, j := Locate(k);
      if e != null {
        Unlink(index, parent, e, j);
      }
    }

    /** The first node of bucket `i` moves to the front of its new bucket. */
    method MoveOne(links: array<Node?<K, V>>, newtable: array<Node?<K, V>>, i: nat, ghost repr: set<Node<K, V>>,
                   ghost a: Half<K, V>, ghost b: Half<K, V>) returns (ghost a': Half<K, V>, ghost b': Half<K, V>)
      requires links != newtable && i < links.Length && links[i] != null
      requires Stored(links, a, repr, Hash) && Stored(newtable, b, repr, Hash) && a.m.Keys !! b.m.Keys
      modifies links, newtable, repr
      ensures Stored(links, a', repr, Hash) && Stored(newtable, b', repr, Hash) && a'.m.Keys !! b'.m.Keys
      ensures a'.m + b'.m == a.m + b.m && a.spine[i] != [] && a'.spine == a.spine[i := a.spine[i][1..]]
    {
      hide Hash, Holds, Index, Row, Entries, Chained;
      HalfSize(links[..], a, repr);
      HalfSize(newtable[..], b, repr);
      HoldsSize(Entries(b.spine), b.m, Hash);
      SpineSize(b.spine);
      var e := Pop(links, i, a.spine, repr);
      TakeFirst(a.spine, a.m, Hash, i);
      PutFirst(b.spine, b.m, Hash, e);
      a' := Half(a.spine[i := a.spine[i][1..]], a.m - {e.k});
      var index := Index(e.h, newtable.Length);
      b' := Half(b.spine[index := [e] + b.spine[index]], b.m[e.k := e.v]);
      PushBeside(links, newtable, index, e, a'.spine, b.spine, repr);
    }

    /** The inner loop of the expansion: the chain at `i` is emptied from its head. */
    method MoveChain(links: array<Node?<K, V>>, newtable: array<Node?<K, V>>, i: nat, ghost repr: set<Node<K, V>>,
                     ghost a0: Half<K, V>, ghost b0: Half<K, V>) returns (ghost a: Half<K, V>, ghost b: Half<K, V>)
      requires links != newtable && i < links.Length
      requires Stored(links, a0, repr, Hash) && Stored(newtable, b0, repr, Hash) && a0.m.Keys !! b0.m.Keys
      modifies links, newtable, repr
      ensures Stored(links, a, repr, Hash) && Stored(newtable, b, repr, Hash) && a.m.Keys !! b.m.Keys
      ensures a.m + b.m == a0.m + b0.m && i < |a0.spine| && a.spine == a0.spine[i := []]
    {
      hide Hash, Stored;
      a, b := a0, b0;
      StoredSize(links, a, repr, Hash);
      while links[i] != null
        invariant Stored(links, a, repr, Hash) && Stored(newtable, b, repr, Hash) && a.m.Keys !! b.m.Keys
        invariant a.m + b.m == a0.m + b0.m && |a.spine| == |a0.spine| == links.Length && a.spine == a0.spine[i := a.spine[i]]
        decreases |a.spine[i]|
      {
        a, b := MoveOne(links, newtable, i, repr, a, b);
      }
      StoredEnd(links, a, repr, Hash, i);
    }

    /** The two loops of the expansion. */
    method MoveAll(links: array<Node?<K, V>>, newtable: array<Node?<K, V>>, ghost repr: set<Node<K, V>>,
                   ghost a0: Half<K, V>, ghost b0: Half<K, V>) returns (ghost b: Half<K, V>)
      requires links != newtable && Stored(links, a0, repr, Hash) && Stored(newtable, b0, repr, Hash) && b0.m == map[]
      modifies links, newtable, repr
      ensures Stored(newtable, b, repr, Hash) && b.m == a0.m
    {
      hide Hash, Stored;
      ghost var a := a0;
      b := b0;
      StoredSize(links, a, repr, Hash);
      for i := 0 to links.Length
        invariant Stored(links, a, repr, Hash) && Stored(newtable, b, repr, Hash) && a.m.Keys !! b.m.Keys
        invariant a.m + b.m == a0.m && |a.spine| == links.Length
        invariant forall j :: 0 <= j < i ==> a.spine[j] == []
      {
        a, b := MoveChain(links, newtable, i, repr, a, b);
      }
      StoredNothing(links, a, repr, Hash);
    }

    /** arg_hashtable_expand: every node moves to its bucket in the next larger table. */
    method Expand() returns (grown: bool)
      requires Valid()
      modifies this`table, this`primeindex, this`loadlimit, this`spine, table, repr
      ensures Valid()
      ensures grown == (old(primeindex) < |PRIMES| - 1)
      ensures if grown then fresh(table) && primeindex == old(primeindex) + 1
              else table == old(table) && primeindex == old(primeindex) && spine == old(spine)
    {
      hide Hash, Holds, Chained, LoadLimit, Row, Entries;
      PrimesPositive();
      if primeindex == |PRIMES| - 1 {
        return false;
      }
      LimitsGrow(primeindex);
      var newsize := PRIMES[primeindex + 1];
      var newtable := new Node?<K, V>[newsize](_ => null);
      ghost var empty := EmptyHalf(newtable, repr, Hash);
      ghost var moved := MoveAll(table, newtable, repr, Half(spine, contents), empty);
      primeindex := primeindex + 1;
      table := newtable;
      spine := moved.spine;
      loadlimit := LoadLimit(newsize);
      return true;
    }

    /** arg_hashtable_insert; a key is inserted once, as the source asks of its callers. */
    method Insert(k: K, v: V)
      requires Valid() && k !in contents
      modifies this, table, repr
      ensures Valid() && contents == old(contents)[k := v]
      ensures (table == old(table) || fresh(table)) && fresh(repr - old(repr))
    {
      hide Hash, Holds, Chained, Index, LoadLimit, Row, Entries;
      PrimesPositive();
      if entrycount + 1 > loadlimit {
        if primeindex < |PRIMES| - 1 { LimitsGrow(primeindex); }
        var _ := Expand();
      }
      Push(k, v);
    }

    /** arg_cmd_register: a command of that name is replaced, otherwise added. */
    method Register(name: K, info: V)
      requires Valid()
      modifies this, table, repr
      ensures Valid() && contents == old(contents)[name := info]
      ensures (table == old(table) || fresh(table)) && fresh(repr - old(repr))
    {
      hide *;
      var found := Search(name);
      if found.Some? {
        Remove(name);
      }
      Insert(name, info);
    }

    /** arg_cmd_unregister */
    method Unregister(name: K)
      requires Valid()
      modifies this`entrycount, this`spine, this`contents, table, repr
      ensures Valid() && contents == old(contents) - {name}
    {
      Remove(name);
    }

    /** Any sequence of registrations, with whatever expansions they cause, and removals. */
    method Perform(commands: seq<Command<K, V>>)
      requires Valid()
      modifies this, table, repr
      ensures Valid() && contents == Applied(old(contents), commands)
    {
      hide *;
      AppliedNothing(contents, commands);
      for i := 0 to |commands|
        invariant Valid() && contents == Applied(old(contents), commands[..i])
        invariant (table == old(table) || fresh(table)) && fresh(repr - old(repr))
      {
        AppliedSnoc(old(contents), commands, i);
        PerformOne(commands[i]);
      }
      assert commands[..|commands|] == commands;
    }

    method PerformOne(command: Command<K, V>)
      requires Valid()
      modifies this, table, repr
      ensures Valid() && contents == Changed(old(contents), command)
      ensures (table == old(table) || fresh(table)) && fresh(repr - old(repr))
    {
      hide Valid;
      match command
      case Registration(name, info) => Register(name, info);
      case Removal(name) => Unregister(name);
    }
  }

  /** One of the two tables of an expansion with the bindings it has. */
  datatype Half<K(!new), V> = Half(spine: Spine<K, V>, m: map<K, V>)

  ghost predicate Stored<K(!new), V>(table: array<Node?<K, V>>, half: Half<K, V>, repr: set<Node<K, V>>, hash: K -> nat)
    reads table, repr
  {
    Chained(table[..], half.spine, repr) && Holds(Entries(half.spine), half.m, hash)
  }

  lemma HalfSize<K(!new), V>(table: seq<Node?<K, V>>, half: Half<K, V>, repr: set<Node<K, V>>)
    requires Chained(table, half.spine, repr)
    ensures |half.spine| == |table|
  {
  }

  lemma StoredSize<K(!new), V>(table: array<Node?<K, V>>, half: Half<K, V>, repr: set<Node<K, V>>, hash: K -> nat)
    requires Stored(table, half, repr, hash)
    ensures |half.spine| == table.Length
  {
  }

  /** Where the links end at once there are no nodes. */
  lemma StoredEnd<K(!new), V>(table: array<Node?<K, V>>, half: Half<K, V>, repr: set<Node<K, V>>, hash: K -> nat, i: nat)
    requires Stored(table, half, repr, hash) && i < table.Length && table[i] == null
    ensures i < |half.spine| && half.spine[i] == []
  {
    hide Holds;
    assert Linked(table[..][i], half.spine[i]);
  }

  lemma StoredNothing<K(!new), V>(table: array<Node?<K, V>>, half: Half<K, V>, repr: set<Node<K, V>>, hash: K -> nat)
    requires Stored(table, half, repr, hash) && forall i :: 0 <= i < |half.spine| ==> half.spine[i] == []
    ensures half.m == map[]
  {
    hide Holds, Chained;
    HoldsNothing(Entries(half.spine), half.m, hash);
  }

  lemma EmptyHalf<K(!new), V>(table: array<Node?<K, V>>, repr: set<Node<K, V>>, hash: K -> nat) returns (half: Half<K, V>)
    requires table.Length > 0 && forall i :: 0 <= i < table.Length ==> table[i] == null
    ensures Stored(table, half, repr, hash) && half.m == map[]
  {
    hide Holds;
    half := Half(seq(table.Length, _ => []), map[]);
    HoldsEmpty(Entries(half.spine), hash);
  }

  lemma SpineSize<K(!new), V>(spine: Spine<K, V>)
    ensures |Entries(spine)| == |spine|
  {
  }

  /** A node that left `links` goes into `newtable`; the chains left behind do not notice. */
  method PushBeside<K(!new), V>(links: array<Node?<K, V>>, newtable: array<Node?<K, V>>, i: nat, e: Node<K, V>,
                                ghost left: Spine<K, V>, ghost spine: Spine<K, V>, ghost repr: set<Node<K, V>>)
    requires links != newtable && i < newtable.Length && e in repr && Avoids(left, e) && Avoids(spine, e)
    requires Chained(links[..], left, repr) && Chained(newtable[..], spine, repr)
    modifies newtable, e
    ensures Chained(links[..], left, repr) && Chained(newtable[..], spine[i := [e] + spine[i]], repr)
  {
    ghost var before := links[..];
    assert forall j :: 0 <= j < links.Length ==> Linked(before[j], left[j]);
    PushNode(newtable, i, e, spine, repr);
    forall j | 0 <= j < links.Length ensures Linked(links[..][j], left[j]) {
      assert old(Linked(links[..][j], left[j]));
    }
  }

  datatype Command<K, V> = Registration(name: K, info: V) | Removal(name: K)

  ghost function Changed<K, V>(m: map<K, V>, command: Command<K, V>): map<K, V> {
    match command
    case Registration(name, info) => m[name := info]
    case Removal(name) => m - {name}
  }

  ghost function Applied<K, V>(m: map<K, V>, commands: seq<Command<K, V>>): map<K, V> {
    if commands == [] then m
    else Changed(Applied(m, commands[..|commands| - 1]), commands[|commands| - 1])
  }

  lemma AppliedNothing<K, V>(m: map<K, V>, commands: seq<Command<K, V>>)
    ensures Applied(m, commands[..0]) == m
  {
  }

  lemma AppliedSnoc<K, V>(m: map<K, V>, commands: seq<Command<K, V>>, i: nat)
    requires i < |commands|
    ensures Applied(m, commands[..i + 1]) == Changed(Applied(m, commands[..i]), commands[i])
  {
    assert commands[..i + 1][..i] == commands[..i];
  }

  lemma HoldsEntry<K(!new), V>(chains: Chains<K, V>, m: map<K, V>, hash: K -> nat, i: nat, j: nat)
    requires Holds(chains, m, hash) && i < |chains| && j < |chains[i]|
    ensures var e := chains[i][j]; e.k in m && m[e.k] == e.v && e.h == hash(e.k)
  {
    assert Placed(chains[i][j], i, |chains|, m, hash);
  }

  lemma HoldsSize<K(!new), V>(chains: Chains<K, V>, m: map<K, V>, hash: K -> nat)
    requires Holds(chains, m, hash)
    ensures |chains| > 0
  {
  }

  lemma NotFound<K(!new), V>(chains: Chains<K, V>, m: map<K, V>, hash: K -> nat, k: K)
    requires Holds(chains, m, hash)
    requires var chain := chains[Index(hash(k), |chains|)]; forall a :: 0 <= a < |chain| ==> chain[a].k != k
    ensures k !in m
  {
  }

  // ---------------------------------------------------------------- iteration

  /** The entries in the order of the buckets. */
  ghost function Flat<K, V>(chains: Chains<K, V>): seq<Entry<K, V>> {
    if chains == [] then [] else chains[0] + Flat(chains[1..])
  }

  /** `entries` lists every binding of `m` exactly once and nothing else. */
  ghost predicate Visits<K(!new), V>(entries: seq<Entry<K, V>>, m: map<K, V>) {
    && (forall j :: 0 <= j < |entries| ==> entries[j].k in m && m[entries[j].k] == entries[j].v)
    && Distinct(entries)
    && (forall k :: k in m ==> Occurs(entries, k))
  }

  lemma {:induction false} VisitsSize<K(!new), V>(entries: seq<Entry<K, V>>, m: map<K, V>)
    requires Visits(entries, m)
    ensures |entries| == |m|
  {
    if entries == [] {
      assert m == map[] by {
        forall k ensures k !in m { assert !Occurs(entries, k); }
      }
    } else {
      var k, rest := entries[0].k, entries[1..];
      forall k' | k' in m - {k} ensures Occurs(rest, k') {
        var j :| 0 <= j < |entries| && entries[j].k == k';
        assert rest[j - 1].k == k';
      }
      VisitsSize(rest, m - {k});
      assert m == (m - {k})[k := m[k]];
    }
  }

  lemma VisitsAppend<K(!new), V>(a: seq<Entry<K, V>>, m: map<K, V>, b: seq<Entry<K, V>>, n: map<K, V>)
    requires Visits(a, m) && Visits(b, n) && m.Keys !! n.Keys
    ensures Visits(a + b, m + n)
  {
    forall k | k in m + n ensures Occurs(a + b, k) {
      if k in m {
        var j :| 0 <= j < |a| && a[j].k == k;
        assert (a + b)[j].k == k;
      } else {
        var j :| 0 <= j < |b| && b[j].k == k;
        assert (a + b)[|a| + j].k == k;
      }
    }
  }

  /** The bindings whose bucket is `i` or later. */
  ghost function From<K, V>(m: map<K, V>, hash: K -> nat, size: nat, i: nat): map<K, V>
    requires size > 0
  {
    map k | k in m && i <= Index(hash(k), size) :: m[k]
  }

  /** The bindings whose bucket is `i`. */
  ghost function At<K, V>(m: map<K, V>, hash: K -> nat, size: nat, i: nat): map<K, V>
    requires size > 0
  {
    map k | k in m && i == Index(hash(k), size) :: m[k]
  }

  lemma ChainVisits<K(!new), V>(chains: Chains<K, V>, m: map<K, V>, hash: K -> nat, i: nat)
    requires Holds(chains, m, hash) && i < |chains|
    ensures Visits(chains[i], At(m, hash, |chains|, i))
  {
    hide Index;
    forall j | 0 <= j < |chains[i]| ensures Placed(chains[i][j], i, |chains|, m, hash) {
    }
    assert Distinct(chains[i]);
  }

  lemma {:induction false} FlatVisitsFrom<K(!new), V>(chains: Chains<K, V>, m: map<K, V>, hash: K -> nat, i: nat)
    requires Holds(chains, m, hash) && i <= |chains|
    ensures Visits(Flat(chains[i..]), From(m, hash, |chains|, i))
    decreases |chains| - i
  {
    hide Index, Holds;
    HoldsSize(chains, m, hash);
    if i == |chains| {
      assert From(m, hash, |chains|, i) == map[];
    } else {
      hide Visits;
      FlatVisitsFrom(chains, m, hash, i + 1);
      ChainVisits(chains, m, hash, i);
      var here, after := At(m, hash, |chains|, i), From(m, hash, |chains|, i + 1);
      VisitsAppend(chains[i], here, Flat(chains[i + 1..]), after);
      assert chains[i..][0] == chains[i] && chains[i..][1..] == chains[i + 1..];
      assert here + after == From(m, hash, |chains|, i);
    }
  }

  /** A walk over all the buckets meets every binding exactly once. */
  lemma FlatVisits<K(!new), V>(chains: Chains<K, V>, m: map<K, V>, hash: K -> nat)
    requires Holds(chains, m, hash)
    ensures Visits(Flat(chains), m) && |Flat(chains)| == |m|
  {
    FlatVisitsFrom(chains, m, hash, 0);
    assert chains[0..] == chains;
    assert From(m, hash, |chains|, 0) == m;
    VisitsSize(Flat(chains), m);
  }

  lemma {:induction false} FlatSkips<K, V>(chains: Chains<K, V>, i: nat, j: nat)
    requires i <= j <= |chains| && forall a :: i <= a < j ==> chains[a] == []
    ensures Flat(chains[i..]) == Flat(chains[j..])
    decreases j - i
  {
    if i < j {
      FlatSkips(chains, i + 1, j);
      assert chains[i..][1..] == chains[i + 1..];
    }
  }

  lemma LinkedSuffix<K, V>(head: Node?<K, V>, nodes: seq<Node<K, V>>, p: nat)
    requires Linked(head, nodes) && p <= |nodes|
    ensures Linked(Nth(nodes, p), nodes[p..])
  {
    forall j | 0 <= j < |nodes| - p ensures nodes[p..][j].next == Nth(nodes[p..], j + 1) {
      assert nodes[p..][j] == nodes[p + j];
    }
  }

  /** arg_hashtable_itr_t: at the node `e` of bucket `index`, behind `parent`, or past the last bucket. */
  class Cursor<K(==, !new), V(==)> {
    const h: Table<K, V>
    var e: Node?<K, V>
    var parent: Node?<K, V>
    var index: nat
    ghost var pos: nat

    /** The current node is where `index` and `pos` say. */
    ghost predicate Sited()
      reads this`e, this`index, this`pos, h, h.table, h.repr
    {
      && h.Valid() && |h.spine| == h.table.Length
      && if e == null then index == h.table.Length
         else index < h.table.Length && pos < |h.spine[index]| && e == h.spine[index][pos]
    }

    ghost predicate Valid()
      reads this, h, h.table, h.repr
    {
      Sited() && (e != null ==> parent == if pos == 0 then null else h.spine[index][pos - 1])
    }

    /** The entries from the current one on. */
    ghost function Remaining(): seq<Entry<K, V>>
      requires Sited()
      reads this`e, this`index, this`pos, h, h.table, h.repr
    {
      if e == null then [] else Row(h.spine[index][pos..]) + Flat(Entries(h.spine)[index + 1..])
    }

    lemma SomethingLeft()
      requires Sited()
      ensures e == null ==> Remaining() == []
      ensures e != null ==> Remaining() != [] && Remaining()[0] == Entry(e.k, e.v, e.h)
      ensures e != null ==> Remaining()[1..] == Row(h.spine[index][pos + 1..]) + Flat(Entries(h.spine)[index + 1..])
    {
      hide Table.Valid, Row, Flat, Entries;
      if e != null {
        RowTail(h.spine[index], pos);
      }
    }

    /** arg_hashtable_itr_create */
    constructor (h: Table<K, V>)
      requires h.Valid()
      ensures this.h == h && Valid() && Visits(Remaining(), h.contents) && |Remaining()| == h.entrycount
    {
      this.h := h;
      this.e, this.parent, this.index, this.pos := null, null, h.table.Length, 0;
      new;
      hide Holds, Visits, Flat, Row, LoadLimit;
      FlatVisits(Entries(h.spine), h.contents, h.Hash);
      if h.entrycount == 0 {
        return;
      }
      var _ := SeekFrom(0);
      assert Entries(h.spine)[0..] == Entries(h.spine);
    }

    /** The search for the next bucket that is not empty. */
    method SeekFrom(start: nat) returns (more: bool)
      requires h.Valid() && start <= h.table.Length
      modifies this
      ensures Sited() && more == (e != null) && parent == null && (e != null ==> pos == 0)
      ensures Remaining() == Flat(Entries(h.spine)[start..])
    {
      hide Table.Valid, Row, Flat, Entries;
      h.SpineLength();
      SpineSize(h.spine);
      var i := start;
      while i < h.table.Length && h.table[i] == null
        invariant start <= i <= h.table.Length
        invariant forall a :: start <= a < i ==> h.spine[a] == []
      {
        h.BucketLinked(i);
        i := i + 1;
      }
      index, parent, pos := i, null, 0;
      SkipEmpty(h.spine, start, i);
      if i == h.table.Length {
        e := null;
        return false;
      }
      h.BucketLinked(i);
      e := h.table[i];
      FlatAt(h.spine, i);
      return true;
    }

    /** The nodes behind the current one are those of its bucket from place `p` on. */
    method Follow(ghost p: nat) returns (more: bool)
      requires h.Valid() && e != null && index < |h.spine| == h.table.Length && p <= |h.spine[index]|
      requires Linked(e.next, h.spine[index][p..])
      modifies this
      ensures Sited() && more == (e != null)
      ensures if p < |h.spine[old(index)]| then more && parent == old(e) && pos == p && index == old(index)
              else parent == null && (e != null ==> pos == 0)
      ensures Remaining() == Row(h.spine[old(index)][p..]) + Flat(Entries(h.spine)[old(index) + 1..])
    {
      hide Table.Valid, Row, Flat, Entries;
      SpineSize(h.spine);
      NoRow(h.spine[index][p..]);
      var next := e.next;
      if next != null {
        parent := e;
        e := next;
        pos := p;
        return true;
      }
      more := SeekFrom(index + 1);
    }

    /** arg_hashtable_itr_advance */
    method Advance() returns (more: bool)
      requires Valid()
      modifies this
      ensures Valid() && more == (Remaining() != [])
      ensures Remaining() == if old(Remaining()) == [] then [] else old(Remaining())[1..]
    {
      hide Table.Valid, Remaining, Row, Flat, Entries;
      SomethingLeft();
      if e == null {
        return false;
      }
      h.BucketLinked(index);
      LinkedSuffix(h.table[index], h.spine[index], pos + 1);
      more := Follow(pos + 1);
      SomethingLeft();
    }

    /** The first half of arg_hashtable_itr_remove: the current node is unlinked through its parent,
        and its own link still leads to the nodes behind it. */
    method TakeOut()
      requires Valid() && e != null
      modifies h, h.table, h.repr
      ensures h.Valid() && h.contents == old(h.contents) - {e.k}
      ensures index < |h.spine| == h.table.Length && pos <= |h.spine[index]| && Linked(e.next, h.spine[index][pos..])
      ensures parent == if pos == 0 then null else h.spine[index][pos - 1]
      ensures h.spine[index][pos..] == old(h.spine[index][pos + 1..])
      ensures Entries(h.spine)[index + 1..] == old(Entries(h.spine)[index + 1..])
    {
      hide Table.Valid, Row, Entries;
      h.BucketLinked(index);
      ghost var before := h.spine;
      assert e.next == Nth(before[index], pos + 1);
      h.Unlink(index, parent, e, pos);
      h.SpineLength();
      h.BucketLinked(index);
      LinkedSuffix(h.table[index], h.spine[index], pos);
      UnlinkedRest(before, index, pos);
    }

    /** arg_hashtable_itr_remove: the current node is unlinked and the walk goes on behind it, with the
        parent corrected. */
    method RemoveCurrent() returns (more: bool)
      requires Valid() && Remaining() != []
      modifies this, h, h.table, h.repr
      ensures Valid() && more == (Remaining() != [])
      ensures h.contents == old(h.contents) - {old(Remaining())[0].k}
      ensures Remaining() == old(Remaining())[1..]
    {
      hide Table.Valid, Remaining, Row, Flat, Entries;
      SomethingLeft();
      TakeOut();
      var rememberE, rememberParent := e, parent;
      more := Follow(pos);
      if parent == rememberE {
        parent := rememberParent;
      }
      SomethingLeft();
    }
  }

  lemma NoRow<K, V>(nodes: seq<Node<K, V>>)
    ensures nodes == [] ==> Row(nodes) == []
  {
  }

  /** Without node `p` of bucket `i`, its place is taken by the next one. */
  lemma UnlinkedRest<K(!new), V>(spine: Spine<K, V>, i: nat, p: nat)
    requires i < |spine| && p < |spine[i]|
    ensures var rest := spine[i := Without(spine[i], p)];
      && rest[i][p..] == spine[i][p + 1..] && Nth(rest[i], p) == Nth(spine[i], p + 1)
      && (p > 0 ==> rest[i][p - 1] == spine[i][p - 1])
      && |Entries(rest)| == |Entries(spine)| == |spine| && Entries(rest)[i + 1..] == Entries(spine)[i + 1..]
  {
    hide Row;
  }

  lemma RowTail<K, V>(nodes: seq<Node<K, V>>, p: nat)
    requires p < |nodes|
    ensures Row(nodes[p..]) == [Entry(nodes[p].k, nodes[p].v, nodes[p].h)] + Row(nodes[p + 1..])
    ensures Without(nodes, p)[p..] == nodes[p + 1..]
    ensures p + 1 == |nodes| ==> Row(nodes[p + 1..]) == []
  {
  }

  lemma SkipEmpty<K(!new), V>(spine: Spine<K, V>, i: nat, j: nat)
    requires i <= j <= |spine| && forall a :: i <= a < j ==> spine[a] == []
    ensures Flat(Entries(spine)[i..]) == Flat(Entries(spine)[j..])
    ensures j == |spine| ==> Flat(Entries(spine)[j..]) == []
  {
    FlatSkips(Entries(spine), i, j);
  }

  lemma FlatAt<K(!new), V>(spine: Spine<K, V>, i: nat)
    requires i < |spine|
    ensures Flat(Entries(spine)[i..]) == Row(spine[i][0..]) + Flat(Entries(spine)[i + 1..])
  {
    assert Entries(spine)[i..][1..] == Entries(spine)[i + 1..];
    assert spine[i][0..] == spine[i];
  }
}
