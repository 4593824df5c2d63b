/** The permutation table of Perlin::Generator (Perlin.cpp:6-55): 512
    bytes whose first half is a permutation of 0..255 and whose second half
    repeats the first, so that the corner hashing of the noise kernel never
    has to wrap an index. */
module PerlinTable {
  import opened Bytes

  /** `unsigned int`, the type of a seed. */
  type U32 = n: int | 0 <= n < 0x1_0000_0000

  /** The seeded random engine: engine(seed, k) is the k-th number that
      std::default_random_engine, constructed from `seed`, hands to
      std::shuffle. The engine's algorithm is not part of this model, so it
      is a parameter. */
  type Engine = (U32, nat) -> nat

  /** Every byte value occurs exactly once among the 256 entries. */
  ghost predicate IsBytePermutation(q: seq<Byte>)
  {
    |q| == 256 && forall v :: 0 <= v < 256 ==> multiset(q)[v] == 1
  }

  /** The invariant of a generator's table: 512 entries, the second half a
      copy of the first, the first half a permutation of the byte values. */
  ghost predicate IsTable(p: seq<Byte>)
  {
    |p| == 512 && p[256..] == p[..256] && IsBytePermutation(p[..256])
  }

  /** A sequence without repeated entries holds each value at most once. */
  lemma {:induction false} DistinctCount(s: seq<Byte>, v: int)
    requires forall i, j :: 0 <= i < j < |s| ==> s[i] != s[j]
    ensures multiset(s)[v] <= 1
  {
    if s != [] {
      var t := s[..|s| - 1];
      assert s == t + [s[|s| - 1]];
      DistinctCount(t, v);
      if s[|s| - 1] == v {
        assert v !in t;
      }
    }
  }

  /** A sequence of 256 distinct bytes is a permutation of 0..255: its
      multiset fits inside that of 0..255 and has the same size, so the two
      are equal. */
  lemma DistinctBytesArePermutation(q: seq<Byte>)
    requires |q| == 256
    requires forall i, j :: 0 <= i < j < |q| ==> q[i] != q[j]
    ensures IsBytePermutation(q)
  {
    var m, all := multiset(q), multiset(Iota(256));
    forall x
      ensures m[x] <= all[x]
    {
      DistinctCount(q, x);
      IotaCount(256, x);
    }
    assert all == m + (all - m);
    assert |all - m| == 0;
    forall v | 0 <= v < 256
      ensures m[v] == 1
    {
      DistinctCount(q, v);
      IotaCount(256, v);
      assert (all - m)[v] == 0;
    }
  }

  /** The first n byte values in ascending order: what std::iota writes
      into a vector of n entries. */
  function Iota(n: nat): (r: seq<Byte>)
    requires n <= 256
    ensures |r| == n && forall i :: 0 <= i < n ==> r[i] == i
  {
    seq(n, i requires 0 <= i < n => i)
  }

  /** std::iota into a fresh array of n bytes. */
  method IotaArray(n: nat) returns (a: array<Byte>)
    requires n <= 256
    ensures fresh(a) && a[..] == Iota(n)
  {
    a := new Byte[n];
    for i := 0 to n
      invariant forall k :: 0 <= k < i ==> a[k] == k
    {
      a[i] := i;
    }
  }

  /** Every value below n occurs once in Iota(n), and no other value does. */
  lemma {:induction false} IotaCount(n: nat, v: int)
    requires n <= 256
    ensures multiset(Iota(n))[v] == if 0 <= v < n then 1 else 0
  {
    if n > 0 {
      IotaCount(n - 1, v);
      assert Iota(n) == Iota(n - 1) + [n - 1];
    }
  }

  /** Exchanging two entries keeps the multiset of entries. */
  function Swap(s: seq<Byte>, i: nat, j: nat): (r: seq<Byte>)
    requires i < |s| && j < |s|
    ensures |r| == |s| && multiset(r) == multiset(s)
    ensures r[i] == s[j] && r[j] == s[i]
    ensures forall k :: 0 <= k < |s| && k != i && k != j ==> r[k] == s[k]
  {
    s[i := s[j]][j := s[i]]
  }

  /** The position that step i of the shuffle exchanges with position i:
      a draw from the engine reduced to 0..i. */
  function Draw(seed: U32, engine: Engine, i: nat): (j: nat)
    ensures j <= i
  {
    engine(seed, i) % (i + 1)
  }

  /** The Fisher-Yates shuffle from step i on: step i exchanges entry i
      with entry Draw(seed, engine, i). */
  function ShuffleFrom(s: seq<Byte>, seed: U32, engine: Engine, i: nat): (r: seq<Byte>)
    decreases |s| - i
  {
    if i >= |s| then s else ShuffleFrom(Swap(s, i, Draw(seed, engine, i)), seed, engine, i + 1)
  }

  /** Shuffling only rearranges: the result is a permutation of the input. */
  lemma {:induction false} ShufflePermutes(s: seq<Byte>, seed: U32, engine: Engine, i: nat)
    ensures |ShuffleFrom(s, seed, engine, i)| == |s|
    ensures multiset(ShuffleFrom(s, seed, engine, i)) == multiset(s)
    decreases |s| - i
  {
    if i < |s| {
      ShufflePermutes(Swap(s, i, Draw(seed, engine, i)), seed, engine, i + 1);
    }
  }

  /** std::shuffle(begin, end, engine) in place on an array. */
  method Shuffle(a: array<Byte>, seed: U32, engine: Engine)
    modifies a
    ensures a[..] == ShuffleFrom(old(a[..]), seed, engine, 1)
  {
    var i := 1;
    while i < a.Length
      invariant 1 <= i
      invariant ShuffleFrom(a[..], seed, engine, i) == ShuffleFrom(old(a[..]), seed, engine, 1)
    {
      var j := Draw(seed, engine, i);
      var t := a[i];
      a[i] := a[j];
      a[j] := t;
      i := i + 1;
    }
  }

  /** 0..255 filled in by std::iota and shuffled in place by std::shuffle
      with an engine seeded by `seed`. */
  method ShuffledIota(seed: U32, engine: Engine) returns (q: seq<Byte>)
    ensures q == ShuffleFrom(Iota(256), seed, engine, 1)
  {
    var a := IotaArray(256);
    Shuffle(a, seed, engine);
    q := a[..];
  }

  /** Appending a copy of a permutation of the byte values, as both
      constructors do with `permutation.insert(end, begin, end)`, gives a
      valid table. */
  lemma DuplicatedIsTable(q: seq<Byte>)
    requires IsBytePermutation(q)
    ensures IsTable(q + q)
  {
    assert (q + q)[..256] == q && (q + q)[256..] == q;
  }

  /** Whatever the engine draws, shuffling 0..255 gives a permutation of
      0..255. */
  lemma ShuffledIotaIsPermutation(seed: U32, engine: Engine)
    ensures IsBytePermutation(ShuffleFrom(Iota(256), seed, engine, 1))
  {
    var q := ShuffleFrom(Iota(256), seed, engine, 1);
    ShufflePermutes(Iota(256), seed, engine, 1);
    forall v | 0 <= v < 256
      ensures multiset(q)[v] == 1
    {
      IotaCount(256, v);
    }
  }

  /** The table the seeded constructor builds (Perlin.cpp:40-54): 0..255,
      shuffled, followed by a copy of itself. */
  function SeededTable(seed: U32, engine: Engine): (p: seq<Byte>)
    ensures IsTable(p)
  {
    var q := ShuffleFrom(Iota(256), seed, engine, 1);
    ShuffledIotaIsPermutation(seed, engine);
    DuplicatedIsTable(q);
    q + q
  }
}
