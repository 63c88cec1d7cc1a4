/** Fingerprints of prompts: one keyed hash of the whole prefix at every checkpoint. */
module Fingerprint {
  import opened Prelude
  import opened PrefixIndex
  import opened PrefixInvariant

  /** The keyed 128-bit hash is a parameter. */
  type Hash = Bytes -> nat

  /** An ASCII string as bytes. */
  function Ascii(text: string): Bytes
    requires forall i :: 0 <= i < |text| ==> text[i] as nat < 256
  {
    seq(|text|, i requires 0 <= i < |text| => text[i] as nat)
  }

  function Domain(): Bytes { Ascii("quotamux-prefix-affinity-v1\0") }

  function NamespaceTag(): Bytes { Ascii("namespace\0") }

  /** Little-endian encoding in a fixed number of bytes. */
  function LittleEndian(value: nat, width: nat): (bytes: Bytes)
    ensures |bytes| == width
  {
    if width == 0 then [] else [value % 256] + LittleEndian(value / 256, width - 1)
  }

  /** What is hashed before the prompt; it spells out the length of the namespace. */
  function Header(namespace: Bytes): Bytes { Domain() + LittleEndian(|namespace|, 8) + namespace }

  function NamespaceHash(hash: Hash, namespace: Bytes): nat {
    hash(Domain() + NamespaceTag() + LittleEndian(|namespace|, 8) + namespace)
  }

  // ---------------------------------------------------------------- the path of a prompt

  function KeyFor(hash: Hash, namespace: Bytes, ordinal: nat, prompt: Bytes): PrefixKey {
    PrefixKey(NamespaceHash(hash, namespace), ordinal, |prompt|, hash(Header(namespace) + prompt))
  }

  /** The keys of the first checkpoints, at the multiples of the interval. */
  function FullKeys(hash: Hash, namespace: Bytes, data: Bytes, interval: nat, count: nat): (keys: seq<PrefixKey>)
    requires count * interval <= |data|
    ensures |keys| == count
  {
    if count == 0 then []
    else
      FullKeys(hash, namespace, data, interval, count - 1) + [KeyFor(hash, namespace, count, data[..count * interval])]
  }

  /** How many multiples of the interval a length holds, and what is left over. */
  predicate Splits(length: nat, interval: nat, whole: nat, rest: nat) {
    length == whole * interval + rest && rest < interval
  }

  lemma SplitIsDivision(length: nat, interval: nat, whole: nat, rest: nat)
    requires Splits(length, interval, whole, rest)
    ensures interval > 0 && length / interval == whole && length % interval == rest
  {
    var q, r := length / interval, length % interval;
    assert length == q * interval + r;
    assert (q + 1) * interval == q * interval + interval;
    assert (whole + 1) * interval == whole * interval + interval;
    if q < whole {
      SmallerProduct(q + 1, whole, interval);
    } else if q > whole {
      SmallerProduct(whole + 1, q, interval);
    }
  }

  lemma SmallerProduct(a: nat, b: nat, interval: nat)
    requires a <= b
    ensures a * interval <= b * interval
  {
  }

  lemma DivisionSplits(length: nat, interval: nat)
    requires interval > 0
    ensures Splits(length, interval, length / interval, length % interval)
  {
  }

  /** The checkpoints of a prompt: every multiple of the interval up to the bound, and the whole
    * prompt when it ends between two of them and there is room. */
  function Keys(hash: Hash, namespace: Bytes, data: Bytes, interval: nat, max: nat): seq<PrefixKey>
    requires interval > 0
  {
    DivisionSplits(|data|, interval);
    var count := Min(|data| / interval, max);
    SmallerProduct(count, |data| / interval, interval);
    FullKeys(hash, namespace, data, interval, count)
    + if |data| % interval != 0 && count < max then [KeyFor(hash, namespace, count + 1, data)] else []
  }

  function PathFor(hash: Hash, namespace: Bytes, data: Bytes, interval: nat, max: nat): Path
    requires interval > 0
  {
    Path(NamespaceHash(hash, namespace), Keys(hash, namespace, data, interval, max), |data|,
         hash(Header(namespace) + data))
  }

  lemma {:induction false} FullKeysExtend(hash: Hash, namespace: Bytes, data: Bytes, more: Bytes, interval: nat,
                                          count: nat)
    requires count * interval <= |data|
    ensures count * interval <= |data + more|
    ensures FullKeys(hash, namespace, data + more, interval, count) == FullKeys(hash, namespace, data, interval, count)
  {
    if count > 0 {
      SmallerProduct(count - 1, count, interval);
      FullKeysExtend(hash, namespace, data, more, interval, count - 1);
      assert (data + more)[..count * interval] == data[..count * interval];
    }
  }

  lemma Advance(total: nat, interval: nat, take: nat)
    requires interval > 0 && 0 < take <= interval - total % interval
    ensures take == interval - total % interval ==>
              (total + take) / interval == total / interval + 1 && (total + take) % interval == 0
    ensures take < interval - total % interval ==>
              (total + take) / interval == total / interval && (total + take) % interval == total % interval + take
  {
    DivisionSplits(total, interval);
    var q, r := total / interval, total % interval;
    assert (q + 1) * interval == q * interval + interval;
    if take == interval - r {
      SplitIsDivision(total + take, interval, q + 1, 0);
    } else {
      SplitIsDivision(total + take, interval, q, r + take);
    }
  }

  /** The keys taken so far: the multiples of the interval among the bytes fed so far. */
  ghost predicate Taken(hash: Hash, namespace: Bytes, fed: Bytes, interval: nat, max: nat, keys: seq<PrefixKey>)
    requires interval > 0
  {
    var count := Min(|fed| / interval, max);
    count * interval <= |fed| && keys == FullKeys(hash, namespace, fed, interval, count)
  }

  lemma TakenMore(hash: Hash, namespace: Bytes, fed: Bytes, piece: Bytes, interval: nat, max: nat, keys: seq<PrefixKey>)
    requires interval > 0 && Taken(hash, namespace, fed, interval, max, keys)
    requires 0 < |piece| <= interval - |fed| % interval
    ensures var total := |fed + piece|;
            var count := Min(|fed| / interval, max);
            Taken(hash, namespace, fed + piece, interval, max,
                  if total % interval == 0 && count < max then keys + [KeyFor(hash, namespace, count + 1, fed + piece)]
                  else keys)
  {
    var count := Min(|fed| / interval, max);
    Advance(|fed|, interval, |piece|);
    DivisionSplits(|fed + piece|, interval);
    FullKeysExtend(hash, namespace, fed, piece, interval, count);
    if |fed + piece| % interval == 0 && count < max {
      assert (count + 1) * interval == |fed + piece|;
      assert (fed + piece)[..(count + 1) * interval] == fed + piece;
    }
  }

  lemma TakenAll(hash: Hash, namespace: Bytes, data: Bytes, interval: nat, max: nat, keys: seq<PrefixKey>)
    requires interval > 0 && Taken(hash, namespace, data, interval, max, keys)
    ensures Keys(hash, namespace, data, interval, max)
            == keys + if |data| % interval != 0 && |keys| < max then [KeyFor(hash, namespace, |keys| + 1, data)] else []
  {
  }

  /** Feeds the chunks to one hasher and takes a checkpoint whenever a multiple of the interval
    * is reached: the path depends on the concatenation of the chunks only. */
  method MakePath(hash: Hash, namespace: Bytes, chunks: seq<Bytes>, interval: nat, max: nat) returns (path: Path)
    requires interval > 0 && max > 0
    ensures path == PathFor(hash, namespace, Concat(chunks), interval, max)
    ensures path.totalBytes == |Concat(chunks)|
  {
    hide FullKeys, Keys, KeyFor, NamespaceHash, Header;
    var hasher := Header(namespace);
    var checkpoints: seq<PrefixKey> := [];
    var total := 0;
    ghost var fed: Bytes := [];
    NothingTaken(hash, namespace, interval, max);
    for i := 0 to |chunks|
      invariant fed == Concat(chunks[..i]) && total == |fed| && hasher == Header(namespace) + fed
      invariant Taken(hash, namespace, fed, interval, max, checkpoints)
    {
      ghost var before := fed;
      checkpoints, total, hasher := Feed(hash, namespace, chunks[i], interval, max, fed, checkpoints, total, hasher);
      fed := fed + chunks[i];
      assert chunks[..i + 1][..i] == chunks[..i];
    }
    assert chunks[..|chunks|] == chunks;
    TakenAll(hash, namespace, fed, interval, max, checkpoints);
    if total > 0 && total % interval != 0 && |checkpoints| < max {
      checkpoints := checkpoints + [PrefixKey(NamespaceHash(hash, namespace), |checkpoints| + 1, total, hash(hasher))];
    }
    KeyIs(hash, namespace, |checkpoints|, fed);
    path := Path(NamespaceHash(hash, namespace), checkpoints, total, hash(hasher));
  }

  lemma KeyIs(hash: Hash, namespace: Bytes, ordinal: nat, prompt: Bytes)
    ensures KeyFor(hash, namespace, ordinal, prompt)
            == PrefixKey(NamespaceHash(hash, namespace), ordinal, |prompt|, hash(Header(namespace) + prompt))
  {
  }

  lemma NothingTaken(hash: Hash, namespace: Bytes, interval: nat, max: nat)
    requires interval > 0
    ensures Taken(hash, namespace, [], interval, max, []) && Header(namespace) + [] == Header(namespace)
  {
    SplitIsDivision(0, interval, 0, 0);
  }

  method Feed(hash: Hash, namespace: Bytes, chunk: Bytes, interval: nat, max: nat, ghost fed: Bytes,
              keys: seq<PrefixKey>, before: nat, hashed: Bytes)
    returns (checkpoints: seq<PrefixKey>, total: nat, hasher: Bytes)
    requires interval > 0 && before == |fed| && hashed == Header(namespace) + fed
    requires Taken(hash, namespace, fed, interval, max, keys)
    ensures total == |fed + chunk| && hasher == Header(namespace) + (fed + chunk)
    ensures Taken(hash, namespace, fed + chunk, interval, max, checkpoints)
  {
    hide FullKeys, Header, NamespaceHash, KeyFor, Taken;
    checkpoints, total, hasher := keys, before, hashed;
    var remaining := chunk;
    ghost var done: Bytes := [];
    assert fed + done == fed && done + remaining == chunk;
    while remaining != []
      invariant done + remaining == chunk && total == |fed + done| && hasher == Header(namespace) + (fed + done)
      invariant Taken(hash, namespace, fed + done, interval, max, checkpoints)
      decreases |remaining|
    {
      var untilBoundary := interval - total % interval;
      var take := Min(|remaining|, untilBoundary);
      var piece := remaining[..take];
      hasher := hasher + piece;
      total := total + take;
      TakenMore(hash, namespace, fed + done, piece, interval, max, checkpoints);
      TakenCount(hash, namespace, fed + done, interval, max, checkpoints);
      ghost var grown := fed + done + piece;
      assert fed + (done + piece) == grown;
      assert hasher == Header(namespace) + grown;
      if total % interval == 0 && |checkpoints| < max {
        KeyIs(hash, namespace, |checkpoints| + 1, grown);
        checkpoints := checkpoints + [PrefixKey(NamespaceHash(hash, namespace), |checkpoints| + 1, total,
                                                hash(hasher))];
      }
      done, remaining := done + piece, remaining[take..];
      assert done + remaining == chunk;
    }
    assert done == chunk;
  }

  lemma TakenCount(hash: Hash, namespace: Bytes, fed: Bytes, interval: nat, max: nat, keys: seq<PrefixKey>)
    requires interval > 0 && Taken(hash, namespace, fed, interval, max, keys)
    ensures |keys| == Min(|fed| / interval, max)
  {
  }

  // ---------------------------------------------------------------- shared prefixes

  lemma {:induction false} FullKeysAt(hash: Hash, namespace: Bytes, data: Bytes, interval: nat, count: nat, i: nat)
    requires count * interval <= |data| && i < count
    ensures (i + 1) * interval <= |data|
    ensures FullKeys(hash, namespace, data, interval, count)[i]
            == KeyFor(hash, namespace, i + 1, data[..(i + 1) * interval])
  {
    hide KeyFor;
    SmallerProduct(i + 1, count, interval);
    SmallerProduct(count - 1, count, interval);
    if i < count - 1 {
      FullKeysAt(hash, namespace, data, interval, count - 1, i);
    }
  }

  lemma KeyLength(hash: Hash, namespace: Bytes, ordinal: nat, prompt: Bytes)
    ensures KeyFor(hash, namespace, ordinal, prompt).length == |prompt|
  {
  }

  /** A key of a prompt names a prefix of it: the whole intervals, or the whole prompt. */
  lemma KeysArePrefixes(hash: Hash, namespace: Bytes, data: Bytes, interval: nat, max: nat, i: nat)
    requires interval > 0 && i < |Keys(hash, namespace, data, interval, max)|
    ensures var key := Keys(hash, namespace, data, interval, max)[i];
            key.length <= |data| && key == KeyFor(hash, namespace, i + 1, data[..key.length])
  {
    DivisionSplits(|data|, interval);
    var count := Min(|data| / interval, max);
    SmallerProduct(count, |data| / interval, interval);
    hide KeyFor, FullKeys;
    assert |FullKeys(hash, namespace, data, interval, count)| == count;
    if i < count {
      FullKeysAt(hash, namespace, data, interval, count, i);
      KeyLength(hash, namespace, i + 1, data[..(i + 1) * interval]);
    } else {
      assert data[..|data|] == data;
      KeyLength(hash, namespace, i + 1, data);
    }
  }

  /** Paths number their checkpoints 1, 2, 3, ... from the shallowest to the deepest. */
  lemma OrdinalsCount(hash: Hash, namespace: Bytes, data: Bytes, interval: nat, max: nat)
    requires interval > 0
    ensures var keys := Keys(hash, namespace, data, interval, max);
            OrdinalsAscend(keys) && |keys| <= max && forall i :: 0 <= i < |keys| ==> keys[i].ordinal == i + 1
  {
    var keys := Keys(hash, namespace, data, interval, max);
    forall i | 0 <= i < |keys|
      ensures keys[i].ordinal == i + 1
    {
      KeysArePrefixes(hash, namespace, data, interval, max, i);
    }
  }

  lemma SharedFullKeys(hash: Hash, namespace: Bytes, a: Bytes, b: Bytes, interval: nat, n: nat)
    requires n * interval <= |a| && n * interval <= |b| && a[..n * interval] == b[..n * interval]
    ensures FullKeys(hash, namespace, a, interval, n) == FullKeys(hash, namespace, b, interval, n)
  {
    hide FullKeys;
    var short := a[..n * interval];
    assert a == short + a[n * interval..] && b == short + b[n * interval..];
    FullKeysExtend(hash, namespace, short, a[n * interval..], interval, n);
    FullKeysExtend(hash, namespace, short, b[n * interval..], interval, n);
  }

  lemma ShorterPrefix<T>(a: seq<T>, b: seq<T>, long: nat, short: nat)
    requires short <= long <= |a| && long <= |b| && a[..long] == b[..long]
    ensures a[..short] == b[..short]
  {
    assert a[..long][..short] == a[..short] && b[..long][..short] == b[..short];
  }

  /** Prompts of one namespace that share their first k intervals share their first k keys, up to
    * the bound. */
  lemma SharedPrefixSharesKeys(hash: Hash, namespace: Bytes, a: Bytes, b: Bytes, interval: nat, max: nat, k: nat)
    requires interval > 0 && k * interval <= |a| && k * interval <= |b| && a[..k * interval] == b[..k * interval]
    ensures var n := Min(k, max);
            var x, y := Keys(hash, namespace, a, interval, max), Keys(hash, namespace, b, interval, max);
            n <= |x| && n <= |y| && x[..n] == y[..n]
  {
    hide FullKeys, Keys;
    var n := Min(k, max);
    SmallerProduct(n, k, interval);
    ShorterPrefix(a, b, k * interval, n * interval);
    FirstKeys(hash, namespace, a, interval, max, n);
    FirstKeys(hash, namespace, b, interval, max, n);
    SharedFullKeys(hash, namespace, a, b, interval, n);
  }

  lemma WholeIntervals(length: nat, interval: nat, k: nat)
    requires interval > 0 && k * interval <= length
    ensures k <= length / interval
  {
    DivisionSplits(length, interval);
    var q := length / interval;
    assert (q + 1) * interval == q * interval + interval;
    if q < k {
      SmallerProduct(q + 1, k, interval);
    }
  }

  lemma {:induction false} FullKeysPrefix(hash: Hash, namespace: Bytes, data: Bytes, interval: nat, count: nat, n: nat)
    requires count * interval <= |data| && n <= count
    ensures n * interval <= |data|
    ensures FullKeys(hash, namespace, data, interval, count)[..n] == FullKeys(hash, namespace, data, interval, n)
  {
    hide KeyFor;
    SmallerProduct(n, count, interval);
    if n < count {
      SmallerProduct(count - 1, count, interval);
      FullKeysPrefix(hash, namespace, data, interval, count - 1, n);
    }
  }

  lemma FirstKeys(hash: Hash, namespace: Bytes, data: Bytes, interval: nat, max: nat, n: nat)
    requires interval > 0 && n <= max && n * interval <= |data|
    ensures n <= |Keys(hash, namespace, data, interval, max)|
    ensures Keys(hash, namespace, data, interval, max)[..n] == FullKeys(hash, namespace, data, interval, n)
  {
    hide KeyFor;
    WholeIntervals(|data|, interval, n);
    DivisionSplits(|data|, interval);
    var count := Min(|data| / interval, max);
    SmallerProduct(count, |data| / interval, interval);
    FullKeysPrefix(hash, namespace, data, interval, count, n);
  }

  // ---------------------------------------------------------------- what a key identifies

  /** No two of the inputs have one hash. */
  ghost predicate CollisionFree(hash: Hash, inputs: iset<Bytes>) {
    forall x, y :: x in inputs && y in inputs && hash(x) == hash(y) ==> x == y
  }

  /** What is hashed for the checkpoints of a prompt and for the whole of it. */
  ghost function Prefixes(namespace: Bytes, data: Bytes): iset<Bytes> {
    iset n: nat | n <= |data| :: Header(namespace) + data[..n]
  }

  function Power256(width: nat): nat { if width == 0 then 1 else 256 * Power256(width - 1) }

  lemma {:induction false} LittleEndianInjective(a: nat, b: nat, width: nat)
    requires a < Power256(width) && b < Power256(width) && LittleEndian(a, width) == LittleEndian(b, width)
    ensures a == b
  {
    if width > 0 {
      var x, y := LittleEndian(a, width), LittleEndian(b, width);
      assert x[0] == a % 256 && y[0] == b % 256;
      assert x[1..] == LittleEndian(a / 256, width - 1) && y[1..] == LittleEndian(b / 256, width - 1);
      LittleEndianInjective(a / 256, b / 256, width - 1);
    }
  }

  lemma PowerIsU64()
    ensures Power256(8) == U64_MAX + 1
  {
    assert Power256(4) == 0x1_0000_0000;
    assert Power256(6) == 0x1_0000_0000_0000;
  }

  lemma SplitEqual<T>(a: seq<T>, b: seq<T>, x: seq<T>, y: seq<T>)
    requires |a| == |x| && a + b == x + y
    ensures a == x && b == y
  {
    assert a == (a + b)[..|a|] && x == (x + y)[..|x|];
    assert b == (a + b)[|a|..] && y == (x + y)[|x|..];
  }

  /** The header spells out the namespace: what follows it cannot be mistaken for part of it. */
  lemma HeaderIsUnambiguous(n: Bytes, a: Bytes, m: Bytes, b: Bytes)
    requires |n| <= U64_MAX && |m| <= U64_MAX && Header(n) + a == Header(m) + b
    ensures n == m && a == b
  {
    var x, y := LittleEndian(|n|, 8), LittleEndian(|m|, 8);
    hide LittleEndian;
    assert Header(n) + a == Domain() + (x + (n + a));
    assert Header(m) + b == Domain() + (y + (m + b));
    SplitEqual(Domain(), x + (n + a), Domain(), y + (m + b));
    SplitEqual(x, n + a, y, m + b);
    PowerIsU64();
    LittleEndianInjective(|n|, |m|, 8);
    SplitEqual(n, a, m, b);
  }

  /** Without collisions a key that two prompts share stands for a prefix they share, in the
    * same namespace. */
  lemma SharedKeyIsSharedPrefix(hash: Hash, n: Bytes, a: Bytes, m: Bytes, b: Bytes, interval: nat, max: nat, i: nat,
                                j: nat)
    requires interval > 0 && CollisionFree(hash, Prefixes(n, a) + Prefixes(m, b)) && |n| <= U64_MAX && |m| <= U64_MAX
    requires i < |Keys(hash, n, a, interval, max)| && j < |Keys(hash, m, b, interval, max)|
    requires Keys(hash, n, a, interval, max)[i] == Keys(hash, m, b, interval, max)[j]
    ensures var length := Keys(hash, n, a, interval, max)[i].length;
            n == m && length <= |a| && length <= |b| && a[..length] == b[..length]
  {
    KeysArePrefixes(hash, n, a, interval, max, i);
    KeysArePrefixes(hash, m, b, interval, max, j);
    var length := Keys(hash, n, a, interval, max)[i].length;
    hide Keys, Header;
    assert Header(n) + a[..length] in Prefixes(n, a) && Header(m) + b[..length] in Prefixes(m, b);
    assert hash(Header(n) + a[..length]) == hash(Header(m) + b[..length]);
    HeaderIsUnambiguous(n, a[..length], m, b[..length]);
  }

  // ---------------------------------------------------------------- what a lease id identifies

  function Sized(value: Bytes): Bytes { LittleEndian(|value|, 8) + value }

  /** What is hashed to name a lease: its domain and its path. Digests have 128 bits. */
  function LeaseBytes(domain: CacheDomain, path: Path): Bytes {
    Domain()
    + (Sized(domain.id)
       + (Sized(domain.generation)
          + (LittleEndian(path.namespace, 16)
             + (LittleEndian(path.totalBytes, 8) + LittleEndian(path.finalFingerprint, 16)))))
  }

  function LeaseId(hash: Hash, domain: CacheDomain, path: Path): nat { hash(LeaseBytes(domain, path)) }

  predicate FitsLease(domain: CacheDomain, path: Path) {
    && |domain.id| <= U64_MAX && |domain.generation| <= U64_MAX && path.totalBytes <= U64_MAX
    && path.namespace < Power256(16) && path.finalFingerprint < Power256(16)
  }

  lemma SizedSplits(a: Bytes, x: Bytes, b: Bytes, y: Bytes)
    requires |a| <= U64_MAX && |b| <= U64_MAX && Sized(a) + x == Sized(b) + y
    ensures a == b && x == y
  {
    var m, n := LittleEndian(|a|, 8), LittleEndian(|b|, 8);
    hide LittleEndian;
    assert Sized(a) + x == m + (a + x) && Sized(b) + y == n + (b + y);
    SplitEqual(m, a + x, n, b + y);
    PowerIsU64();
    LittleEndianInjective(|a|, |b|, 8);
    SplitEqual(a, x, b, y);
  }

  lemma NumberSplits(a: nat, x: Bytes, b: nat, y: Bytes, width: nat)
    requires a < Power256(width) && b < Power256(width) && LittleEndian(a, width) + x == LittleEndian(b, width) + y
    ensures a == b && x == y
  {
    SplitEqual(LittleEndian(a, width), x, LittleEndian(b, width), y);
    LittleEndianInjective(a, b, width);
  }

  /** The hashed bytes spell out the domain, the namespace, the length and the whole prompt's hash. */
  lemma LeaseBytesAreUnambiguous(d: CacheDomain, p: Path, e: CacheDomain, q: Path)
    requires FitsLease(d, p) && FitsLease(e, q) && LeaseBytes(d, p) == LeaseBytes(e, q)
    ensures d == e && p.namespace == q.namespace && p.totalBytes == q.totalBytes
    ensures p.finalFingerprint == q.finalFingerprint
  {
    PowerIsU64();
    hide LittleEndian, Sized, Power256, Domain;
    var endP := LittleEndian(p.totalBytes, 8) + LittleEndian(p.finalFingerprint, 16);
    var endQ := LittleEndian(q.totalBytes, 8) + LittleEndian(q.finalFingerprint, 16);
    var restP, restQ := LittleEndian(p.namespace, 16) + endP, LittleEndian(q.namespace, 16) + endQ;
    SplitEqual(Domain(), Sized(d.id) + (Sized(d.generation) + restP), Domain(),
               Sized(e.id) + (Sized(e.generation) + restQ));
    SizedSplits(d.id, Sized(d.generation) + restP, e.id, Sized(e.generation) + restQ);
    SizedSplits(d.generation, restP, e.generation, restQ);
    NumberSplits(p.namespace, endP, q.namespace, endQ, 16);
    NumberSplits(p.totalBytes, LittleEndian(p.finalFingerprint, 16), q.totalBytes,
                 LittleEndian(q.finalFingerprint, 16), 8);
    LittleEndianInjective(p.finalFingerprint, q.finalFingerprint, 16);
  }

  /** Without collisions the hash of a whole prompt names its path. */
  lemma FingerprintNamesPath(hash: Hash, n: Bytes, a: Bytes, m: Bytes, b: Bytes, interval: nat, max: nat)
    requires interval > 0 && CollisionFree(hash, Prefixes(n, a) + Prefixes(m, b)) && |n| <= U64_MAX && |m| <= U64_MAX
    requires PathFor(hash, n, a, interval, max).finalFingerprint == PathFor(hash, m, b, interval, max).finalFingerprint
    ensures n == m && a == b
  {
    hide Keys, Header;
    assert a[..|a|] == a && b[..|b|] == b;
    assert Header(n) + a in Prefixes(n, a) && Header(m) + b in Prefixes(m, b);
    HeaderIsUnambiguous(n, a, m, b);
  }
}
