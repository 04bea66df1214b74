/** Cutting a file into packets (src/rtp.cpp:699-719) and writing packets back in key order (src/rtp.cpp:783-788). */
module Segmentation {
  import opened SequenceNumbers
  import opened Packets

  type Bytes = seq<bv8>
  type DataMap = map<int, Packet>

  /** The largest file whose packet count is computed without wrap-around. */
  const MAX_FILE := UINT32 - PAYLOAD_MAX

  /** `tellg` stored in an unsigned 32-bit integer. */
  function FileSize(file: Bytes): (n: nat)
    ensures n <= |file| && n < UINT32
  {
    |file| % UINT32
  }

  /** The packet count, computed in unsigned 32-bit arithmetic. */
  function TotalPackets(file: Bytes): (n: nat)
    ensures n * PAYLOAD_MAX < UINT32
    ensures n > 0 ==> (n - 1) * PAYLOAD_MAX < FileSize(file) <= n * PAYLOAD_MAX
  {
    ((FileSize(file) + PAYLOAD_MAX - 1) % UINT32) / PAYLOAD_MAX
  }

  function SegmentLength(file: Bytes, i: nat): (n: nat)
    requires i < TotalPackets(file)
    ensures 1 <= n <= PAYLOAD_MAX
    ensures i * PAYLOAD_MAX + n <= FileSize(file)
    ensures i * PAYLOAD_MAX + n == if i == TotalPackets(file) - 1 then FileSize(file) else (i + 1) * PAYLOAD_MAX
  {
    var size := FileSize(file);
    if i == TotalPackets(file) - 1 && size % PAYLOAD_MAX != 0 then size % PAYLOAD_MAX else PAYLOAD_MAX
  }

  /** `i * PAYLOAD_MAX` in unsigned 32-bit arithmetic, which never wraps here. */
  function SegmentOffset(file: Bytes, i: nat): (n: nat)
    requires i < TotalPackets(file)
    ensures n == i * PAYLOAD_MAX && n + SegmentLength(file, i) <= FileSize(file)
  {
    (i * PAYLOAD_MAX) % UINT32
  }

  function Segment(file: Bytes, i: nat): (s: Bytes)
    requires i < TotalPackets(file)
    ensures 1 <= |s| <= PAYLOAD_MAX
  {
    file[SegmentOffset(file, i)..SegmentOffset(file, i) + SegmentLength(file, i)]
  }

  ghost predicate KeysAre(m: DataMap, lo: int, hi: int) {
    forall k :: k in m <==> lo <= k < hi
  }

  /** data_map as send_file fills it, the first packet under the key `first`. */
  function Packetize(nb: Numbering, first: int, file: Bytes): (m: DataMap)
    ensures KeysAre(m, first, first + TotalPackets(file))
  {
    map k | first <= k < first + TotalPackets(file) :: Data(Encode(nb, k), Segment(file, k - first))
  }

  function PayloadAt(m: DataMap, k: int): Bytes {
    if k in m then m[k].payload else []
  }

  /** The payloads under the keys from `lo` up to `hi`, in order. */
  function Payloads(m: DataMap, lo: int, hi: int): Bytes
    decreases hi - lo
  {
    if hi <= lo then [] else Payloads(m, lo, hi - 1) + PayloadAt(m, hi - 1)
  }

  // ---------------------------------------------------------------- writing a map in key order

  predicate IsLeast(k: int, keys: set<int>) {
    k in keys && forall j :: j in keys ==> k <= j
  }

  lemma Member<T>(s: set<T>) returns (x: T)
    requires s != {}
    ensures x in s
  {
    x :| x in s;
  }

  lemma {:induction false} LeastKeyExists(keys: set<int>) returns (least: int)
    requires keys != {}
    ensures IsLeast(least, keys)
    decreases keys
  {
    var some := Member(keys);
    var rest := keys - {some};
    least := some;
    if rest != {} {
      var other := LeastKeyExists(rest);
      least := if other < some then other else some;
    }
    forall j | j in keys ensures least <= j {
      assert j == some || j in rest;
    }
  }

  lemma SomeLeastKey(keys: set<int>)
    requires keys != {}
    ensures exists k :: IsLeast(k, keys)
  {
    var k := LeastKeyExists(keys);
    assert IsLeast(k, keys);
  }

  ghost function LeastKey(keys: set<int>): (k: int)
    requires keys != {}
    ensures IsLeast(k, keys)
  {
    SomeLeastKey(keys);
    var k :| IsLeast(k, keys);
    k
  }

  /** What the loop over a std::map writes: every payload, in ascending order of the keys. */
  ghost function InOrder(m: DataMap): Bytes
    decreases |m|
  {
    if |m| == 0 then [] else
      assert m.Keys != {};
      var k := LeastKey(m.Keys);
      assert (m - {k}).Keys == m.Keys - {k} && |m.Keys - {k}| == |m.Keys| - 1;
      m[k].payload + InOrder(m - {k})
  }

  lemma Associates(a: Bytes, b: Bytes, c: Bytes)
    ensures (a + b) + c == a + (b + c)
  {
  }

  lemma {:induction false} PayloadsFrom(m: DataMap, lo: int, hi: int)
    requires lo < hi
    ensures Payloads(m, lo, hi) == PayloadAt(m, lo) + Payloads(m, lo + 1, hi)
    decreases hi - lo
  {
    if lo + 1 < hi {
      PayloadsFrom(m, lo, hi - 1);
      Associates(PayloadAt(m, lo), Payloads(m, lo + 1, hi - 1), PayloadAt(m, hi - 1));
    }
  }

  /** `n` holds under the keys shifted by `shift` the payloads that `m` holds from `lo` up to `hi`. */
  ghost predicate AllSame(m: DataMap, n: DataMap, lo: int, hi: int, shift: int) {
    forall k :: lo <= k < hi ==> PayloadAt(m, k) == PayloadAt(n, k + shift)
  }

  lemma {:induction false} PayloadsAgree(m: DataMap, n: DataMap, lo: int, hi: int, shift: int)
    requires AllSame(m, n, lo, hi, shift)
    ensures Payloads(m, lo, hi) == Payloads(n, lo + shift, hi + shift)
    decreases hi - lo
  {
    if lo < hi {
      PayloadsAgree(m, n, lo, hi - 1, shift);
      assert PayloadAt(m, hi - 1) == PayloadAt(n, hi - 1 + shift);
    }
  }

  lemma InOrderStep(m: DataMap, k: int)
    requires IsLeast(k, m.Keys)
    ensures InOrder(m) == m[k].payload + InOrder(m - {k}) && |m| == |m - {k}| + 1
  {
    assert LeastKey(m.Keys) == k;
    assert (m - {k}).Keys == m.Keys - {k};
  }

  lemma PayloadsWithout(m: DataMap, lo: int, hi: int)
    ensures Payloads(m - {lo}, lo + 1, hi) == Payloads(m, lo + 1, hi)
  {
    PayloadsAgree(m - {lo}, m, lo + 1, hi, 0);
  }

  /** A map without gaps is written as the payloads of its keys in order. */
  lemma {:induction false} InOrderContiguous(m: DataMap, lo: int, hi: int)
    requires lo <= hi && KeysAre(m, lo, hi)
    ensures InOrder(m) == Payloads(m, lo, hi) && |m| == hi - lo
    decreases hi - lo
  {
    if lo == hi {
      if m.Keys != {} {
        var k := Member(m.Keys);
      }
    } else {
      InOrderStep(m, lo);
      InOrderContiguous(m - {lo}, lo + 1, hi);
      PayloadsFrom(m, lo, hi);
      PayloadsWithout(m, lo, hi);
    }
  }

  /** `keys` lists the keys of `m` in ascending order. */
  ghost predicate Ascending(m: DataMap, keys: seq<int>) {
    && (forall k :: k in m <==> k in keys)
    && (forall i, j :: 0 <= i < j < |keys| ==> keys[i] < keys[j])
  }

  function PayloadsAt(m: DataMap, keys: seq<int>): Bytes {
    if |keys| == 0 then [] else PayloadAt(m, keys[0]) + PayloadsAt(m, keys[1..])
  }

  lemma {:induction false} PayloadsOfRest(m: DataMap, k: int, keys: seq<int>)
    requires k !in keys
    ensures PayloadsAt(m - {k}, keys) == PayloadsAt(m, keys)
    decreases |keys|
  {
    if |keys| > 0 {
      PayloadsOfRest(m, k, keys[1..]);
      assert keys[0] != k;
    }
  }

  lemma AscendingHead(m: DataMap, keys: seq<int>)
    requires Ascending(m, keys) && |keys| > 0
    ensures IsLeast(keys[0], m.Keys) && keys[0] !in keys[1..]
  {
    forall j | j in m.Keys ensures keys[0] <= j {
      assert j in keys;
      var i :| 0 <= i < |keys| && keys[i] == j;
    }
  }

  lemma AscendingRest(m: DataMap, keys: seq<int>)
    requires Ascending(m, keys) && |keys| > 0
    ensures Ascending(m - {keys[0]}, keys[1..])
  {
    var rest := keys[1..];
    AscendingHead(m, keys);
    assert keys == [keys[0]] + rest;
    forall k ensures k in m - {keys[0]} <==> k in rest {
      assert k in keys <==> k == keys[0] || k in rest;
    }
  }

  /** Any map, also one with gaps: the payloads are written one after the other in ascending order of the keys. */
  lemma {:induction false} InOrderAscending(m: DataMap, keys: seq<int>)
    requires Ascending(m, keys)
    ensures InOrder(m) == PayloadsAt(m, keys)
    decreases |keys|
  {
    if |keys| == 0 {
      NoKeys(m);
    } else {
      AscendingHead(m, keys);
      AscendingRest(m, keys);
      InOrderStep(m, keys[0]);
      InOrderAscending(m - {keys[0]}, keys[1..]);
      PayloadsOfRest(m, keys[0], keys[1..]);
    }
  }

  lemma NoKeys(m: DataMap)
    requires forall k :: k !in m
    ensures InOrder(m) == []
  {
    if m.Keys != {} {
      var k := Member(m.Keys);
    }
  }

  /** A map that holds the payloads of `m` under shifted keys is written as those payloads. */
  lemma InOrderLike(m: DataMap, n: DataMap, lo: int, hi: int, shift: int)
    requires lo <= hi && KeysAre(n, lo + shift, hi + shift) && AllSame(m, n, lo, hi, shift)
    ensures InOrder(n) == Payloads(m, lo, hi) && |n| == hi - lo
  {
    var first, last := lo + shift, hi + shift;
    PayloadsAgreeAt(m, n, lo, hi, first, last);
    InOrderIs(n, first, last, Payloads(m, lo, hi));
  }

  lemma InOrderIs(m: DataMap, lo: int, hi: int, bytes: Bytes)
    requires lo <= hi && KeysAre(m, lo, hi) && bytes == Payloads(m, lo, hi)
    ensures InOrder(m) == bytes && |m| == hi - lo
  {
    InOrderContiguous(m, lo, hi);
  }

  lemma PayloadsAgreeAt(m: DataMap, n: DataMap, lo: int, hi: int, first: int, last: int)
    requires first - lo == last - hi && AllSame(m, n, lo, hi, first - lo)
    ensures Payloads(m, lo, hi) == Payloads(n, first, last)
  {
    PayloadsAgree(m, n, lo, hi, first - lo);
  }

  lemma {:induction false} PayloadsPrefix(m: DataMap, lo: int, mid: int, hi: int)
    requires lo <= mid <= hi
    ensures Payloads(m, lo, mid) <= Payloads(m, lo, hi)
    decreases hi - mid
  {
    if mid < hi {
      PayloadsPrefix(m, lo, mid, hi - 1);
    }
  }

  /** A map that holds the first payloads of `m` under shifted keys holds a prefix of them all. */
  lemma PrefixLike(m: DataMap, n: DataMap, lo: int, mid: int, hi: int, shift: int)
    requires lo <= mid <= hi && AllSame(m, n, lo, mid, shift)
    ensures Payloads(n, lo + shift, mid + shift) <= Payloads(m, lo, hi)
  {
    PayloadsAgree(m, n, lo, mid, shift);
    PayloadsPrefix(m, lo, mid, hi);
  }

  // ---------------------------------------------------------------- round trip

  lemma JoinSlices(file: Bytes, i: nat, j: nat)
    requires i <= j <= |file|
    ensures file[..i] + file[i..j] == file[..j]
  {
  }

  /** `m` holds, from the key `first` on, `n` full slices of the file. */
  ghost predicate FullSlices(m: DataMap, first: int, file: Bytes, n: nat) {
    && n * PAYLOAD_MAX <= |file|
    && forall k :: first <= k < first + n ==> k in m && m[k].payload == Slice(file, k - first, n)
  }

  function Slice(file: Bytes, i: nat, n: nat): Bytes
    requires i < n && n * PAYLOAD_MAX <= |file|
  {
    file[i * PAYLOAD_MAX..(i + 1) * PAYLOAD_MAX]
  }

  lemma {:induction false} FullSlicesJoin(m: DataMap, first: int, file: Bytes, n: nat)
    requires FullSlices(m, first, file, n)
    ensures Payloads(m, first, first + n) == file[..n * PAYLOAD_MAX]
    decreases n
  {
    if n > 0 {
      assert m[first + n - 1].payload == Slice(file, n - 1, n);
      assert FullSlices(m, first, file, n - 1) by {
        forall k | first <= k < first + n - 1 ensures k in m && m[k].payload == Slice(file, k - first, n - 1) {
          assert Slice(file, k - first, n - 1) == Slice(file, k - first, n);
        }
      }
      FullSlicesJoin(m, first, file, n - 1);
      JoinSlices(file, (n - 1) * PAYLOAD_MAX, n * PAYLOAD_MAX);
    }
  }

  /** Every packet but the last carries a full slice. */
  lemma PacketsAreSlices(nb: Numbering, first: int, file: Bytes)
    requires TotalPackets(file) > 0
    ensures FullSlices(Packetize(nb, first, file), first, file, TotalPackets(file) - 1)
  {
    var m, n := Packetize(nb, first, file), TotalPackets(file) - 1;
    forall k | first <= k < first + n ensures k in m && m[k].payload == Slice(file, k - first, n) {
      assert m[k].payload == Segment(file, k - first);
    }
  }

  lemma LastPacket(nb: Numbering, first: int, file: Bytes)
    requires TotalPackets(file) > 0
    ensures var n := TotalPackets(file) - 1;
            && n * PAYLOAD_MAX <= FileSize(file)
            && Packetize(nb, first, file)[first + n].payload == file[n * PAYLOAD_MAX..FileSize(file)]
  {
    var n := TotalPackets(file) - 1;
    assert Packetize(nb, first, file)[first + n].payload == Segment(file, n);
  }

  /** What a receiver writes that has received every packet of `file`. */
  ghost function Reassembled(nb: Numbering, first: int, file: Bytes): Bytes {
    InOrder(Packetize(nb, first, file))
  }

  /** The bytes a complete transfer delivers: the first `FileSize` of the file, or none if the packet count wraps. */
  function Carried(file: Bytes): Bytes {
    if TotalPackets(file) == 0 then [] else file[..FileSize(file)]
  }

  lemma SlicesJoin(m: DataMap, first: int, end: int, file: Bytes, n: nat, size: nat)
    requires FullSlices(m, first, file, n) && n * PAYLOAD_MAX <= size <= |file| && end == first + n + 1
    requires first + n in m && m[first + n].payload == file[n * PAYLOAD_MAX..size]
    ensures Payloads(m, first, end) == file[..size]
  {
    FullSlicesJoin(m, first, file, n);
    JoinSlices(file, n * PAYLOAD_MAX, size);
  }

  lemma PacketsJoin(nb: Numbering, first: int, end: int, file: Bytes)
    requires TotalPackets(file) > 0 && end == first + TotalPackets(file)
    ensures Payloads(Packetize(nb, first, file), first, end) == file[..FileSize(file)]
  {
    var n := TotalPackets(file) - 1;
    PacketsAreSlices(nb, first, file);
    LastPacket(nb, first, file);
    SlicesJoin(Packetize(nb, first, file), first, end, file, n, FileSize(file));
  }

  lemma PayloadsAreCarried(nb: Numbering, first: int, file: Bytes)
    ensures Payloads(Packetize(nb, first, file), first, first + TotalPackets(file)) == Carried(file)
  {
    if TotalPackets(file) > 0 {
      PacketsJoin(nb, first, first + TotalPackets(file), file);
    }
  }

  lemma ReassembledIsCarried(nb: Numbering, first: int, file: Bytes)
    ensures Reassembled(nb, first, file) == Carried(file)
  {
    PayloadsAreCarried(nb, first, file);
    InOrderIs(Packetize(nb, first, file), first, first + TotalPackets(file), Carried(file));
  }

  lemma CarriedIsFile(file: Bytes)
    ensures Carried(file) == file <==> |file| <= MAX_FILE
  {
    if |file| <= MAX_FILE {
      assert FileSize(file) == |file|;
      assert file[..|file|] == file;
    } else if |file| < UINT32 {
      assert FileSize(file) == |file|;
    }
  }

  /** Every packet but the last is full, with 1461 bytes, and the last one has what is left of the file. */
  lemma FullButTheLast(file: Bytes, i: nat)
    requires i < TotalPackets(file)
    ensures i + 1 < TotalPackets(file) ==> Segment(file, i) == file[1461 * i..1461 * (i + 1)]
    ensures i + 1 == TotalPackets(file) ==>
              1 <= FileSize(file) - 1461 * i <= 1461 && Segment(file, i) == file[1461 * i..FileSize(file)]
    ensures |file| < 0x1_0000_0000 ==> FileSize(file) == |file|
  {
  }

  /** Segmentation and reassembly undo each other exactly for files of at most 2^32 - 1461 bytes. */
  lemma RoundTrip(nb: Numbering, first: int, file: Bytes)
    ensures Reassembled(nb, first, file) == file <==> |file| <= MAX_FILE
    ensures MAX_FILE == 0x1_0000_0000 - 1461
  {
    ReassembledIsCarried(nb, first, file);
    CarriedIsFile(file);
  }
}
