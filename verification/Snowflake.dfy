/**
 * Node ids (pkg/base/snowflakex/snowflake.go). A hostname is its bytes; int64 is bv64 in
 * two's complement.
 */
module Snowflake {
  import opened Options

  type Bytes = seq<bv8>

  /** A uint32. */
  datatype Word = Word(bits: bv32)

  const OFFSET_BASIS := Word(2166136261)
  const PRIME: bv32 := 16777619
  const MAX_NODE_BITS: bv64 := 1023

  function Xor(h: Word, b: bv8): Word
  {
    Word(h.bits ^ (b as bv32))
  }

  function Times(h: Word): Word
  {
    Word(h.bits * PRIME)
  }

  /** One byte of FNV-1a: xor, then multiply, modulo 2^32. */
  function Step(h: Word, b: bv8): Word
  {
    Times(Xor(h, b))
  }

  /** The loop of a byte-wise hash over the first n bytes. */
  function Fold(step: (Word, bv8) -> Word, s: Bytes, n: nat): Word
    requires n <= |s|
  {
    if n == 0 then OFFSET_BASIS else step(Fold(step, s, n - 1), s[n - 1])
  }

  /** FNV-1a of the first n bytes (section 2 of draft-eastlake-fnv). */
  function Fnv(s: Bytes, n: nat): Word
    requires n <= |s|
  {
    Fold(Step, s, n)
  }

  function Wide(h: Word): bv64
  {
    h.bits as bv64
  }

  function Hash(s: Bytes): bv64
  {
    Wide(Fnv(s, |s|))
  }

  method FnvHash(s: Bytes) returns (r: bv64)
    ensures r == Hash(s)
  {
    var h := OFFSET_BASIS;
    var i := 0;
    while i < |s|
      invariant i <= |s| && h == Fnv(s, i)
    {
      h := Step(h, s[i]);
      i := i + 1;
    }
    r := Wide(h);
  }

  predicate Positive(v: bv64)
  {
    0 < v < 0x8000_0000_0000_0000
  }

  /** The bits of cfgNode above five bits of the hash. */
  function Configured(cfgNode: bv64, h: bv64): (id: bv64)
    ensures id <= MAX_NODE_BITS
  {
    ((cfgNode << 5) | (h & 0x1f)) & MAX_NODE_BITS
  }

  function Unconfigured(h: bv64): (id: bv64)
    ensures id <= MAX_NODE_BITS
  {
    h & MAX_NODE_BITS
  }

  /** resolveNodeID; `env` is SNOWFLAKE_NODE when it is set and parses. */
  function NodeID(env: Option<bv64>, cfgNode: bv64, hostname: Bytes): (id: bv64)
    ensures id <= MAX_NODE_BITS
  {
    if env.Some? && (env.value == 0 || Positive(env.value)) then env.value & MAX_NODE_BITS
    else if hostname == [] then (if Positive(cfgNode) then cfgNode & MAX_NODE_BITS else 1)
    else if Positive(cfgNode) then Configured(cfgNode, Hash(hostname))
    else Unconfigured(Hash(hostname))
  }

  // ------------------------------------------------------------ one byte

  predicate Low5(h: Word, k: Word)
  {
    h.bits & 31 == k.bits & 31
  }

  predicate Low10(h: Word, k: Word)
  {
    h.bits & 1023 == k.bits & 1023
  }

  lemma Times5(x: Word, y: Word)
    ensures Low5(Times(x), Times(y)) <==> Low5(x, y)
  {
  }

  lemma Times10(x: Word, y: Word)
    requires Low10(x, y)
    ensures Low10(Times(x), Times(y))
  {
  }

  /** The multiplier is odd, so the low bits of the product still tell. */
  lemma Times10Back(x: Word, y: Word)
    requires Low10(Times(x), Times(y))
    ensures Low10(x, y)
  {
  }

  lemma Xor5(h: Word, k: Word, b: bv8, c: bv8)
    requires b & 31 == c & 31
    ensures Low5(Xor(h, b), Xor(k, c)) <==> Low5(h, k)
  {
  }

  lemma Xor10(h: Word, k: Word, b: bv8)
    requires Low10(h, k)
    ensures Low10(Xor(h, b), Xor(k, b))
  {
  }

  lemma Xor10Back(h: Word, k: Word, b: bv8)
    requires Low10(Xor(h, b), Xor(k, b))
    ensures Low10(h, k)
  {
  }

  lemma Byte5(h: Word, b: bv8, c: bv8)
    ensures Low5(Xor(h, b), Xor(h, c)) <==> b & 31 == c & 31
  {
  }

  lemma ByteBits(h: bv32, b: bv8, c: bv8)
    requires (h ^ (b as bv32)) & 1023 == (h ^ (c as bv32)) & 1023
    ensures b == c
  {
  }

  lemma Byte10(h: Word, b: bv8, c: bv8)
    requires Low10(Xor(h, b), Xor(h, c))
    ensures b == c
  {
    ByteBits(h.bits, b, c);
  }

  /** Bytes that agree keep the low bits of two states equal or different. */
  lemma Step5(h: Word, k: Word, b: bv8, c: bv8)
    requires b & 31 == c & 31
    ensures Low5(Step(h, b), Step(k, c)) <==> Low5(h, k)
  {
    Xor5(h, k, b, c);
    Times5(Xor(h, b), Xor(k, c));
  }

  lemma Step10(h: Word, k: Word, b: bv8)
    ensures Low10(Step(h, b), Step(k, b)) <==> Low10(h, k)
  {
    if Low10(h, k) {
      Xor10(h, k, b);
      Times10(Xor(h, b), Xor(k, b));
    }
    if Low10(Step(h, b), Step(k, b)) {
      Times10Back(Xor(h, b), Xor(k, b));
      Xor10Back(h, k, b);
    }
  }

  /** From one state, the byte decides. */
  lemma SameState(h: Word, b: bv8, c: bv8)
    ensures Low5(Step(h, b), Step(h, c)) <==> b & 31 == c & 31
    ensures Low10(Step(h, b), Step(h, c)) <==> b == c
  {
    Byte5(h, b, c);
    Times5(Xor(h, b), Xor(h, c));
    if Low10(Step(h, b), Step(h, c)) {
      Times10Back(Xor(h, b), Xor(h, c));
      Byte10(h, b, c);
    }
  }

  lemma WideLow5(x: bv32, y: bv32)
    ensures (x as bv64) & 0x1f == (y as bv64) & 0x1f <==> x & 31 == y & 31
  {
  }

  lemma WideLow10(x: bv32, y: bv32)
    ensures (x as bv64) & 1023 == (y as bv64) & 1023 <==> x & 1023 == y & 1023
  {
  }

  lemma Combine(m: bv64, n: bv64, h: bv64, k: bv64)
    ensures Configured(m, h) == Configured(n, k) <==> m & 31 == n & 31 && h & 0x1f == k & 0x1f
  {
  }

  lemma SameConfigured(m: bv64, n: bv64, x: Word, y: Word)
    ensures Configured(m, Wide(x)) == Configured(n, Wide(y)) <==> m & 31 == n & 31 && Low5(x, y)
  {
    WideLow5(x.bits, y.bits);
    Combine(m, n, Wide(x), Wide(y));
  }

  lemma SameUnconfigured(x: Word, y: Word)
    ensures Unconfigured(Wide(x)) == Unconfigured(Wide(y)) <==> Low10(x, y)
  {
    WideLow10(x.bits, y.bits);
  }

  // ------------------------------------------------------------ whole hostnames

  /** The hostnames differ at most in byte i. */
  predicate ApartAt(s: Bytes, t: Bytes, i: nat)
  {
    |s| == |t| && i < |s| && forall j :: 0 <= j < |s| && j != i ==> s[j] == t[j]
  }

  lemma {:induction false} SamePrefix(step: (Word, bv8) -> Word, s: Bytes, t: Bytes, n: nat)
    requires n <= |s| && n <= |t| && forall j :: 0 <= j < n ==> s[j] == t[j]
    ensures Fold(step, s, n) == Fold(step, t, n)
  {
    if n > 0 { SamePrefix(step, s, t, n - 1); }
  }

  /** A relation that equal bytes carry over is decided where the hostnames differ, however long the rest is. */
  lemma {:induction false} ByteDecides(step: (Word, bv8) -> Word, same: (Word, Word) -> bool, s: Bytes, t: Bytes, i: nat, n: nat)
    requires forall h, k, b :: same(step(h, b), step(k, b)) <==> same(h, k)
    requires ApartAt(s, t, i) && i < n <= |s|
    ensures same(Fold(step, s, n), Fold(step, t, n))
            <==> same(step(Fold(step, s, i), s[i]), step(Fold(step, s, i), t[i]))
  {
    if n == i + 1 {
      SamePrefix(step, s, t, i);
    } else {
      ByteDecides(step, same, s, t, i, n - 1);
    }
  }

  lemma HashesApart(s: Bytes, t: Bytes, i: nat)
    requires ApartAt(s, t, i)
    ensures Low5(Fnv(s, |s|), Fnv(t, |t|)) <==> s[i] & 31 == t[i] & 31
    ensures Low10(Fnv(s, |s|), Fnv(t, |t|)) <==> s[i] == t[i]
  {
    forall h, k, b
      ensures Low5(Step(h, b), Step(k, b)) <==> Low5(h, k)
      ensures Low10(Step(h, b), Step(k, b)) <==> Low10(h, k)
    {
      Step5(h, k, b, b);
      Step10(h, k, b);
    }
    ByteDecides(Step, Low5, s, t, i, |s|);
    ByteDecides(Step, Low10, s, t, i, |s|);
    SameState(Fold(Step, s, i), s[i], t[i]);
  }

  predicate Unset(env: Option<bv64>)
  {
    env.Some? ==> env.value != 0 && !Positive(env.value)
  }

  /**
   * Two configured nodes collide exactly when their cfgNode values agree modulo 32 and
   * their hostnames hash alike modulo 32; so values that differ modulo 32 never collide.
   */
  lemma ConfiguredNodesCollide(env: Option<bv64>, cfgA: bv64, cfgB: bv64, a: Bytes, b: Bytes)
    requires Unset(env) && Positive(cfgA) && Positive(cfgB) && a != [] && b != []
    ensures NodeID(env, cfgA, a) == NodeID(env, cfgB, b)
            <==> cfgA & 31 == cfgB & 31 && Low5(Fnv(a, |a|), Fnv(b, |b|))
  {
    SameConfigured(cfgA, cfgB, Fnv(a, |a|), Fnv(b, |b|));
  }

  lemma UnconfiguredNodesCollide(env: Option<bv64>, cfgNode: bv64, a: Bytes, b: Bytes)
    requires Unset(env) && !Positive(cfgNode) && a != [] && b != []
    ensures NodeID(env, cfgNode, a) == NodeID(env, cfgNode, b) <==> Low10(Fnv(a, |a|), Fnv(b, |b|))
  {
    SameUnconfigured(Fnv(a, |a|), Fnv(b, |b|));
  }

  /**
   * Hostnames that differ in one byte: under one positive cfgNode they collide exactly
   * when that byte agrees in its low five bits, and without one they never collide.
   */
  lemma OneByteApart(env: Option<bv64>, cfgNode: bv64, s: Bytes, t: Bytes, i: nat)
    requires Unset(env) && ApartAt(s, t, i)
    ensures Positive(cfgNode) ==> (NodeID(env, cfgNode, s) == NodeID(env, cfgNode, t) <==> s[i] & 31 == t[i] & 31)
    ensures !Positive(cfgNode) ==> (NodeID(env, cfgNode, s) == NodeID(env, cfgNode, t) <==> s[i] == t[i])
  {
    HashesApart(s, t, i);
    if Positive(cfgNode) {
      ConfiguredNodesCollide(env, cfgNode, cfgNode, s, t);
    } else {
      UnconfiguredNodesCollide(env, cfgNode, s, t);
    }
  }

  // ------------------------------------------------------------ the five bits that count

  /** One byte, as the low five bits of the hash see it; the multiplier is 19 modulo 32. */
  function Step32(r: bv8, b: bv8): bv8
  {
    ((r ^ (b & 31)) * 19) & 31
  }

  function Fold32(step: (bv8, bv8) -> bv8, s: Bytes, n: nat): bv8
    requires n <= |s|
  {
    if n == 0 then 5 else step(Fold32(step, s, n - 1), s[n - 1])
  }

  /** The residue modulo 32 of a hostname: it reads five bits of each byte. */
  function Residue(s: Bytes): bv8
  {
    Fold32(Step32, s, |s|)
  }

  predicate Shadows(r: bv8, h: Word)
  {
    h.bits & 31 == r as bv32
  }

  lemma StepShadows(r: bv8, h: Word, b: bv8)
    requires Shadows(r, h)
    ensures Shadows(Step32(r, b), Step(h, b))
  {
  }

  lemma {:induction false} FoldShadows(narrow: (bv8, bv8) -> bv8, step: (Word, bv8) -> Word, s: Bytes, n: nat)
    requires forall r, h, b :: Shadows(r, h) ==> Shadows(narrow(r, b), step(h, b))
    requires Shadows(5, OFFSET_BASIS) && n <= |s|
    ensures Shadows(Fold32(narrow, s, n), Fold(step, s, n))
  {
    if n > 0 { FoldShadows(narrow, step, s, n - 1); }
  }

  lemma ResidueShadows(s: Bytes)
    ensures Shadows(Residue(s), Fnv(s, |s|))
  {
    forall r, h, b | Shadows(r, h) ensures Shadows(Step32(r, b), Step(h, b)) {
      StepShadows(r, h, b);
    }
    FoldShadows(Step32, Step, s, |s|);
  }

  lemma ShadowsTell(q: bv8, r: bv8, h: Word, k: Word)
    requires Shadows(q, h) && Shadows(r, k)
    ensures Low5(h, k) <==> q == r
  {
  }

  /**
   * The comment on NewNode counts on different hostnames giving different ids. Under
   * positive cfgNode values that agree modulo 32 they do exactly when the residues differ.
   */
  lemma HostnamesCollide(env: Option<bv64>, cfgA: bv64, cfgB: bv64, s: Bytes, t: Bytes)
    requires Unset(env) && Positive(cfgA) && Positive(cfgB) && s != [] && t != []
    ensures NodeID(env, cfgA, s) == NodeID(env, cfgB, t) <==> cfgA & 31 == cfgB & 31 && Residue(s) == Residue(t)
  {
    ConfiguredNodesCollide(env, cfgA, cfgB, s, t);
    ResidueShadows(s);
    ResidueShadows(t);
    ShadowsTell(Residue(s), Residue(t), Fnv(s, |s|), Fnv(t, |t|));
  }

  lemma {:induction false} AlikeResidues(step: (bv8, bv8) -> bv8, s: Bytes, t: Bytes, n: nat)
    requires forall r, b: bv8, c: bv8 :: b & 31 == c & 31 ==> step(r, b) == step(r, c)
    requires n <= |s| == |t| && forall i :: 0 <= i < |s| ==> s[i] & 31 == t[i] & 31
    ensures Fold32(step, s, n) == Fold32(step, t, n)
  {
    if n > 0 { AlikeResidues(step, s, t, n - 1); }
  }

  /** So hostnames that agree byte by byte modulo 32 always collide. */
  lemma AlikeHostnamesCollide(env: Option<bv64>, cfgNode: bv64, s: Bytes, t: Bytes)
    requires Unset(env) && Positive(cfgNode) && s != []
    requires |s| == |t| && forall i :: 0 <= i < |s| ==> s[i] & 31 == t[i] & 31
    ensures NodeID(env, cfgNode, s) == NodeID(env, cfgNode, t)
  {
    AlikeResidues(Step32, s, t, |s|);
    HostnamesCollide(env, cfgNode, cfgNode, s, t);
  }

  const LOWER: Bytes := [119, 101, 98]   // "web"
  const UPPER: Bytes := [87, 69, 66]     // "WEB"

  /** Such as two spellings that differ in letter case only. */
  lemma LetterCaseCollides(env: Option<bv64>, cfgNode: bv64)
    requires Unset(env) && Positive(cfgNode)
    ensures LOWER != UPPER && NodeID(env, cfgNode, LOWER) == NodeID(env, cfgNode, UPPER)
  {
    AlikeHostnamesCollide(env, cfgNode, LOWER, UPPER);
  }

  // ------------------------------------------------------------ how many hostnames can differ

  function Values(vals: seq<bv8>): set<bv8>
  {
    set v | v in vals
  }

  lemma {:induction false} DistinctValues(vals: seq<bv8>)
    requires forall i, j :: 0 <= i < j < |vals| ==> vals[i] != vals[j]
    ensures |Values(vals)| == |vals|
  {
    if vals != [] {
      var front, last := vals[..|vals| - 1], vals[|vals| - 1];
      DistinctValues(front);
      assert Values(vals) == Values(front) + {last};
    }
  }

  function Eight(a: bv8, b: bv8, c: bv8, d: bv8, e: bv8, f: bv8, g: bv8, h: bv8): (s: set<bv8>)
    ensures |s| <= 8
  {
    {a, b, c, d, e, f, g, h}
  }

  function FiveBitValues(): set<bv8>
  {
    Eight(0, 1, 2, 3, 4, 5, 6, 7) + Eight(8, 9, 10, 11, 12, 13, 14, 15)
    + Eight(16, 17, 18, 19, 20, 21, 22, 23) + Eight(24, 25, 26, 27, 28, 29, 30, 31)
  }

  lemma FiveBits(r: bv8)
    requires r < 32
    ensures r in FiveBitValues()
  {
  }

  lemma SmallerSet(a: set<bv8>, b: set<bv8>)
    requires a <= b
    ensures |a| <= |b|
  {
    assert b == a + (b - a);
  }

  lemma ResidueSmall(s: Bytes)
    ensures Residue(s) < 32
  {
    if s != [] { StepSmall(Fold32(Step32, s, |s| - 1), s[|s| - 1]); }
  }

  lemma StepSmall(r: bv8, b: bv8)
    ensures Step32(r, b) < 32
  {
  }

  lemma AtMostThirtyTwo(vals: seq<bv8>)
    requires forall i, j :: 0 <= i < j < |vals| ==> vals[i] != vals[j]
    requires forall k :: 0 <= k < |vals| ==> vals[k] < 32
    ensures |vals| <= 32
  {
    DistinctValues(vals);
    forall v | v in Values(vals) ensures v in FiveBitValues() { FiveBits(v); }
    SmallerSet(Values(vals), FiveBitValues());
    UnionOfFour(Eight(0, 1, 2, 3, 4, 5, 6, 7), Eight(8, 9, 10, 11, 12, 13, 14, 15),
                Eight(16, 17, 18, 19, 20, 21, 22, 23), Eight(24, 25, 26, 27, 28, 29, 30, 31));
  }

  lemma UnionCount(a: set<bv8>, b: set<bv8>)
    ensures |a + b| <= |a| + |b|
  {
    assert a + b == a + (b - a);
    SmallerSet(b - a, b);
  }

  lemma UnionOfFour(a: set<bv8>, b: set<bv8>, c: set<bv8>, d: set<bv8>)
    ensures |a + b + c + d| <= |a| + |b| + |c| + |d|
  {
    UnionCount(a, b);
    UnionCount(a + b, c);
    UnionCount(a + b + c, d);
  }

  lemma SameValueTwice(vals: seq<bv8>) returns (i: nat, j: nat)
    requires |vals| > 32 && forall k :: 0 <= k < |vals| ==> vals[k] < 32
    ensures i < j < |vals| && vals[i] == vals[j]
  {
    if forall p, q :: 0 <= p < q < |vals| ==> vals[p] != vals[q] {
      AtMostThirtyTwo(vals);
    }
    i, j :| 0 <= i < j < |vals| && vals[i] == vals[j];
  }

  /** Of any 33 containers with hostnames under one positive cfgNode, two share a node id. */
  lemma ThirtyThreeCollide(env: Option<bv64>, cfgNode: bv64, hosts: seq<Bytes>) returns (i: nat, j: nat)
    requires Unset(env) && Positive(cfgNode) && |hosts| >= 33 && forall k :: 0 <= k < |hosts| ==> hosts[k] != []
    ensures i < j < |hosts| && NodeID(env, cfgNode, hosts[i]) == NodeID(env, cfgNode, hosts[j])
  {
    var vals := seq(|hosts|, k requires 0 <= k < |hosts| => Residue(hosts[k]));
    forall k | 0 <= k < |hosts| ensures vals[k] < 32 { ResidueSmall(hosts[k]); }
    i, j := SameValueTwice(vals);
    HostnamesCollide(env, cfgNode, cfgNode, hosts[i], hosts[j]);
  }

  // ------------------------------------------------------------ the id itself

  lemma FiveAndFive(c: bv64, h: bv64)
    ensures Configured(c, h) >> 5 == c & 31 && Configured(c, h) & 31 == h & 31
  {
  }

  lemma LowTen(v: bv64)
    ensures v & MAX_NODE_BITS == v % 1024
  {
  }

  /** A valid SNOWFLAKE_NODE decides alone. */
  lemma NodeFromEnvironment(env: Option<bv64>, cfgNode: bv64, hostname: Bytes)
    requires !Unset(env)
    ensures NodeID(env, cfgNode, hostname) == env.value % 1024
  {
    LowTen(env.value);
  }

  /** Otherwise a hostname gives the low five bits, below those of a positive cfgNode ... */
  lemma NodeFromConfiguration(env: Option<bv64>, cfgNode: bv64, hostname: Bytes)
    requires Unset(env) && hostname != [] && Positive(cfgNode)
    ensures NodeID(env, cfgNode, hostname) >> 5 == cfgNode & 31
    ensures NodeID(env, cfgNode, hostname) & 31 == Hash(hostname) & 31
  {
    FiveAndFive(cfgNode, Hash(hostname));
  }

  /** ... or all ten bits; without a hostname it is cfgNode's own ten, or 1. */
  lemma NodeFromHostname(env: Option<bv64>, cfgNode: bv64, hostname: Bytes)
    requires Unset(env) && (hostname == [] || !Positive(cfgNode))
    ensures hostname != [] ==> NodeID(env, cfgNode, hostname) == Hash(hostname) % 1024
    ensures hostname == [] ==> NodeID(env, cfgNode, hostname) == if Positive(cfgNode) then cfgNode % 1024 else 1
  {
    if hostname == [] { LowTen(cfgNode); } else { LowTen(Hash(hostname)); }
  }

  const FOOBAR: Bytes := [102, 111, 111, 98, 97, 114]   // "foobar"

  /** Published FNV-1a hashes: of no bytes, of "a" and of "foobar". */
  lemma KnownHashes()
    ensures Fnv([], 0) == Word(0x811c9dc5)
    ensures Fnv([97], 1) == Word(0xe40c292c)
    ensures Fnv(FOOBAR, 6) == Word(0xbf9cf968)
  {
    assert Step(Fnv([97], 0), 97) == Word(0xe40c292c);
    assert Step(Fnv(FOOBAR, 0), 102) == Word(0xe30c2799);
    assert Step(Word(0xe30c2799), 111) == Word(0x6222e842);
    assert Step(Word(0x6222e842), 111) == Word(0xa9f37ed7);
    assert Step(Word(0xa9f37ed7), 98) == Word(0x3f5076ef);
    assert Step(Word(0x3f5076ef), 97) == Word(0x39aaa18a);
    assert Step(Word(0x39aaa18a), 114) == Word(0xbf9cf968);
    assert Fnv(FOOBAR, 1) == Word(0xe30c2799);
    assert Fnv(FOOBAR, 2) == Word(0x6222e842);
    assert Fnv(FOOBAR, 3) == Word(0xa9f37ed7);
    assert Fnv(FOOBAR, 4) == Word(0x3f5076ef);
    assert Fnv(FOOBAR, 5) == Word(0x39aaa18a);
  }
}
