/** The hash table from device objects to their records: chained buckets, doubled to keep two objects per bucket. */
module ShadowTable {
  import opened Arith
  import opened Seqs

  /** The record of a live object: its device and host address, its size, and its page or -1. */
  datatype Obj = Obj(dev: int, host: int, size: nat, page: int)

  type Hash = (nat, int) -> nat

  /** The hash of a table with 2^hbits buckets names one of them; nothing else is known about it. */
  ghost predicate HashOk(hash: Hash) {
    forall hbits, dev {:trigger hash(hbits, dev)} :: hash(hbits, dev) < Pow2(hbits)
  }

  ghost predicate InBucket(hash: Hash, hbits: nat, contents: map<int, Obj>, b: nat, o: Obj) {
    o.dev in contents && contents[o.dev] == o && hash(hbits, o.dev) == b
  }

  /** A bucket holds objects of the contents that hash to it, each once. */
  ghost predicate BucketOk(hash: Hash, hbits: nat, contents: map<int, Obj>, b: nat, bucket: seq<Obj>) {
    && (forall j :: 0 <= j < |bucket| ==> InBucket(hash, hbits, contents, b, bucket[j]))
    && forall j, k :: 0 <= j < k < |bucket| ==> bucket[j].dev != bucket[k].dev
  }

  /** The table holds exactly the objects in `there`, a part of the contents. */
  ghost predicate Holds(hash: Hash, hbits: nat, table: seq<seq<Obj>>, contents: map<int, Obj>, there: set<int>) {
    && HashOk(hash) && |table| == Pow2(hbits) && there <= contents.Keys
    && (forall d :: d in contents ==> contents[d].dev == d)
    && (forall b: nat {:trigger BucketOk(hash, hbits, contents, b, table[b])} :: b < |table| ==>
          BucketOk(hash, hbits, contents, b, table[b]))
    && forall d {:trigger Present(hash, hbits, table, contents, d)} :: d in contents ==>
         (Present(hash, hbits, table, contents, d) <==> d in there)
  }

  ghost predicate Present(hash: Hash, hbits: nat, table: seq<seq<Obj>>, contents: map<int, Obj>, d: int) {
    d in contents && hash(hbits, d) < |table| && contents[d] in table[hash(hbits, d)]
  }

  ghost predicate TableOk(hash: Hash, hbits: nat, table: seq<seq<Obj>>, contents: map<int, Obj>) {
    Holds(hash, hbits, table, contents, contents.Keys)
  }

  function Insert(hash: Hash, hbits: nat, table: seq<seq<Obj>>, o: Obj): seq<seq<Obj>>
    requires hash(hbits, o.dev) < |table|
  {
    table[hash(hbits, o.dev) := [o] + table[hash(hbits, o.dev)]]
  }

  /** An object of the contents that is not in the table yet joins its bucket. */
  lemma InsertKeeps(hash: Hash, hbits: nat, table: seq<seq<Obj>>, contents: map<int, Obj>, there: set<int>, o: Obj)
    requires Holds(hash, hbits, table, contents, there) && o.dev in contents && contents[o.dev] == o && o.dev !in there
    ensures hash(hbits, o.dev) < |table| && Holds(hash, hbits, Insert(hash, hbits, table, o), contents, there + {o.dev})
  {
    var b0 := hash(hbits, o.dev);
    var table' := Insert(hash, hbits, table, o);
    assert BucketOk(hash, hbits, contents, b0, table[b0]);
    assert !Present(hash, hbits, table, contents, o.dev);
    forall b: nat | b < |table'| ensures BucketOk(hash, hbits, contents, b, table'[b]) {
      assert BucketOk(hash, hbits, contents, b, table[b]);
    }
    forall d | d in contents ensures Present(hash, hbits, table', contents, d) <==> d in there + {o.dev} {
      assert Present(hash, hbits, table, contents, d) <==> d in there;
    }
  }

  lemma NewContents(hash: Hash, hbits: nat, table: seq<seq<Obj>>, contents: map<int, Obj>, o: Obj)
    requires TableOk(hash, hbits, table, contents) && o.dev !in contents
    ensures Holds(hash, hbits, table, contents[o.dev := o], contents.Keys)
  {
    var contents' := contents[o.dev := o];
    forall b: nat | b < |table| ensures BucketOk(hash, hbits, contents', b, table[b]) {
      assert BucketOk(hash, hbits, contents, b, table[b]);
    }
    forall d | d in contents' ensures Present(hash, hbits, table, contents', d) <==> d in contents.Keys {
      if d in contents {
        assert Present(hash, hbits, table, contents, d);
      } else {
        assert BucketOk(hash, hbits, contents, hash(hbits, d), table[hash(hbits, d)]);
      }
    }
  }

  lemma RemoveKeeps(hash: Hash, hbits: nat, table: seq<seq<Obj>>, contents: map<int, Obj>, b0: nat, j: nat)
    requires TableOk(hash, hbits, table, contents) && b0 < |table| && j < |table[b0]|
    ensures table[b0][j].dev in contents && hash(hbits, table[b0][j].dev) == b0
    ensures TableOk(hash, hbits, table[b0 := Without(table[b0], j)], contents - {table[b0][j].dev})
  {
    var o := table[b0][j];
    assert BucketOk(hash, hbits, contents, b0, table[b0]) && InBucket(hash, hbits, contents, b0, o);
    var table', contents' := table[b0 := Without(table[b0], j)], contents - {o.dev};
    forall b: nat | b < |table'| ensures BucketOk(hash, hbits, contents', b, table'[b]) {
      assert BucketOk(hash, hbits, contents, b, table[b]);
      RemoveBucket(hash, hbits, contents, table[b], b, b0, o, j);
    }
    forall d | d in contents' ensures Present(hash, hbits, table', contents', d) {
      assert Present(hash, hbits, table, contents, d);
      if hash(hbits, d) == b0 {
        var k :| 0 <= k < |table[b0]| && table[b0][k] == contents[d];
        assert table'[b0][if k < j then k else k - 1] == contents[d];
      }
    }
  }

  lemma RemoveBucket(hash: Hash, hbits: nat, contents: map<int, Obj>, bucket: seq<Obj>, b: nat, b0: nat, o: Obj, j: nat)
    requires BucketOk(hash, hbits, contents, b, bucket) && hash(hbits, o.dev) == b0
    requires b == b0 ==> j < |bucket| && bucket[j] == o
    ensures BucketOk(hash, hbits, contents - {o.dev}, b, if b == b0 then Without(bucket, j) else bucket)
  {
    if b == b0 {
      RemoveFromBucket(hash, hbits, contents, bucket, b, j);
    } else {
      forall k | 0 <= k < |bucket| ensures InBucket(hash, hbits, contents - {o.dev}, b, bucket[k]) {
        assert InBucket(hash, hbits, contents, b, bucket[k]);
      }
    }
  }

  lemma RemoveFromBucket(hash: Hash, hbits: nat, contents: map<int, Obj>, bucket: seq<Obj>, b: nat, j: nat)
    requires BucketOk(hash, hbits, contents, b, bucket) && j < |bucket|
    ensures BucketOk(hash, hbits, contents - {bucket[j].dev}, b, Without(bucket, j))
  {
    var bucket' := Without(bucket, j);
    forall k | 0 <= k < |bucket'| ensures InBucket(hash, hbits, contents - {bucket[j].dev}, b, bucket'[k]) {
      var m := if k >= j then k + 1 else k;
      assert bucket'[k] == bucket[m] && InBucket(hash, hbits, contents, b, bucket[m]);
    }
  }

  /** Looks an object up along its bucket; the position is the bucket's length when it is not there. */
  method Find(hash: Hash, hbits: nat, table: seq<seq<Obj>>, dev: int, ghost contents: map<int, Obj>)
    returns (b: nat, j: nat)
    requires TableOk(hash, hbits, table, contents)
    ensures b < |table| && j <= |table[b]|
    ensures if dev in contents then j < |table[b]| && table[b][j] == contents[dev] else j == |table[b]|
  {
    b, j := hash(hbits, dev), 0;
    assert BucketOk(hash, hbits, contents, b, table[b]);
    assert dev in contents ==> Present(hash, hbits, table, contents, dev);
    while j < |table[b]| && table[b][j].dev != dev
      invariant j <= |table[b]| && forall k :: 0 <= k < j ==> table[b][k].dev != dev
    {
      j := j + 1;
    }
    if j < |table[b]| {
      assert InBucket(hash, hbits, contents, b, table[b][j]);
    }
  }

  /** An empty table. */
  method NewTable(hash: Hash, hbits: nat, ghost contents: map<int, Obj>) returns (table: seq<seq<Obj>>)
    requires HashOk(hash) && forall d :: d in contents ==> contents[d].dev == d
    ensures Holds(hash, hbits, table, contents, {})
  {
    table := seq(Pow2(hbits), _ => []);
    forall b: nat | b < |table| ensures BucketOk(hash, hbits, contents, b, table[b]) {
    }
  }

  /** Objects of the contents that hash below bucket n, or to bucket n and stand before position j. */
  ghost function Before(hash: Hash, hbits: nat, table: seq<seq<Obj>>, contents: map<int, Obj>, n: nat,
                        j: nat): (s: set<int>)
    requires n < |table| ==> j <= |table[n]|
  {
    set d | d in contents && (hash(hbits, d) < n || (hash(hbits, d) == n < |table| && contents[d] in table[n][..j]))
  }

  /** Doubles the table: every object moves to the bucket its hash now names. */
  method Double(hash: Hash, hbits: nat, table0: seq<seq<Obj>>, ghost contents: map<int, Obj>)
    returns (table1: seq<seq<Obj>>)
    requires TableOk(hash, hbits, table0, contents)
    ensures TableOk(hash, hbits + 1, table1, contents)
  {
    table1 := NewTable(hash, hbits + 1, contents);
    assert Before(hash, hbits, table0, contents, 0, 0) == {};
    for i0 := 0 to |table0|
      invariant Holds(hash, hbits + 1, table1, contents, Before(hash, hbits, table0, contents, i0, 0))
    {
      table1 := MoveBucket(hash, hbits, table0, table1, contents, i0);
    }
    forall d | d in contents ensures hash(hbits, d) < |table0| {
    }
    assert Before(hash, hbits, table0, contents, |table0|, 0) == contents.Keys;
  }

  method MoveBucket(hash: Hash, hbits: nat, table0: seq<seq<Obj>>, table1: seq<seq<Obj>>, ghost contents: map<int, Obj>,
                    i0: nat)
    returns (table1': seq<seq<Obj>>)
    requires TableOk(hash, hbits, table0, contents) && i0 < |table0|
    requires Holds(hash, hbits + 1, table1, contents, Before(hash, hbits, table0, contents, i0, 0))
    ensures Holds(hash, hbits + 1, table1', contents, Before(hash, hbits, table0, contents, i0 + 1, 0))
  {
    table1' := table1;
    for j := 0 to |table0[i0]|
      invariant Holds(hash, hbits + 1, table1', contents, Before(hash, hbits, table0, contents, i0, j))
    {
      var o := table0[i0][j];
      MoveOne(hash, hbits, table0, contents, i0, j);
      InsertKeeps(hash, hbits + 1, table1', contents, Before(hash, hbits, table0, contents, i0, j), o);
      table1' := Insert(hash, hbits + 1, table1', o);
    }
    MovedAll(hash, hbits, table0, contents, i0);
  }

  lemma MoveOne(hash: Hash, hbits: nat, table: seq<seq<Obj>>, contents: map<int, Obj>, n: nat, j: nat)
    requires TableOk(hash, hbits, table, contents) && n < |table| && j < |table[n]|
    ensures table[n][j].dev in contents && contents[table[n][j].dev] == table[n][j]
    ensures table[n][j].dev !in Before(hash, hbits, table, contents, n, j)
    ensures Before(hash, hbits, table, contents, n, j + 1) == Before(hash, hbits, table, contents, n, j)
            + {table[n][j].dev}
  {
    assert BucketOk(hash, hbits, contents, n, table[n]) && InBucket(hash, hbits, contents, n, table[n][j]);
    var bucket, o := table[n], table[n][j];
    assert bucket[..j + 1] == bucket[..j] + [o];
    forall k | 0 <= k < j ensures bucket[..j][k] != o {
    }
    var next, now := Before(hash, hbits, table, contents, n, j + 1), Before(hash, hbits, table, contents, n, j);
    forall d ensures d in next <==> d in now || d == o.dev {
      if d in contents && hash(hbits, d) == n {
        assert contents[d] in bucket[..j + 1] <==> contents[d] in bucket[..j] || contents[d] == o;
      }
    }
  }

  lemma MovedAll(hash: Hash, hbits: nat, table: seq<seq<Obj>>, contents: map<int, Obj>, n: nat)
    requires TableOk(hash, hbits, table, contents) && n < |table|
    ensures Before(hash, hbits, table, contents, n, |table[n]|) == Before(hash, hbits, table, contents, n + 1, 0)
  {
    assert table[n][..|table[n]|] == table[n];
    forall d | d in contents && hash(hbits, d) == n ensures contents[d] in table[n] {
      assert Present(hash, hbits, table, contents, d);
    }
  }
}
