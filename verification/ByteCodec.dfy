/** The byte codec in plain terms (erasure::rs over erasure::gf256): which byte each shard
    holds, by polynomials over GF(2^8) evaluated at the byte with the shard's number. */
module ByteCodec {
  import opened Fields
  import opened Polynomials
  import opened ReedSolomon
  import opened Gf256
  import opened Validators

  /** Shard r is evaluated at the byte r. */
  lemma PointIsNumber(r: nat)
    requires r < 256
    ensures BYTE_CODEC.point(r) as nat == r
  {
    ByteAtIs(r);
  }

  // Value at x of the polynomial with these coefficients, lowest first.
  function Value(c: seq<Byte>, x: Byte): Byte {
    if c == [] then 0 else c[0] ^ PolyMul(x, Value(c[1..], x), 8)
  }

  lemma {:induction false} ValueIsEval(c: seq<Byte>, x: Byte)
    ensures Eval(BYTES, c, x) == Value(c, x)
  {
    hide Mul, PolyMul;
    if c != [] {
      ValueIsEval(c[1..], x);
      MulIsPolynomialProduct(x, Value(c[1..], x));
    }
  }

  // Byte t of data shard j: the payload is cut into k shards and padded with zeros.
  function DataByte(cfg: Config, payload: seq<Byte>, j: nat, t: nat): Byte {
    if j * cfg.size + t < |payload| then payload[j * cfg.size + t] else 0
  }

  // The polynomial of degree below k whose values at the bytes 0, ..., k - 1 are the bytes
  // at position t of the data shards.
  ghost predicate Fits(cfg: Config, payload: seq<Byte>, t: nat, c: seq<Byte>) {
    |c| == cfg.k && forall x: Byte :: x as nat < cfg.k ==> Value(c, x) == DataByte(cfg, payload, x as nat, t)
  }

  // Byte t of every shard is the value of that polynomial at the shard's number.
  ghost predicate ColumnIs(cfg: Config, payload: seq<Byte>, shards: seq<seq<Byte>>, t: nat)
    requires |shards| == cfg.n && forall r :: 0 <= r < cfg.n ==> |shards[r]| == cfg.size
    requires t < cfg.size
  {
    exists c :: Fits(cfg, payload, t, c) && Gives(cfg, shards, t, c)
  }

  ghost predicate Gives(cfg: Config, shards: seq<seq<Byte>>, t: nat, c: seq<Byte>)
    requires |shards| == cfg.n && forall r :: 0 <= r < cfg.n ==> |shards[r]| == cfg.size
    requires t < cfg.size
  {
    forall x: Byte :: x as nat < cfg.n ==> shards[x as nat][t] == Value(c, x)
  }

  ghost predicate ShardsOf(cfg: Config, payload: seq<Byte>, shards: seq<seq<Byte>>) {
    && |shards| == cfg.n && (forall r :: 0 <= r < cfg.n ==> |shards[r]| == cfg.size)
    && forall t :: 0 <= t < cfg.size ==> ColumnIs(cfg, payload, shards, t)
  }

  lemma {:induction false} ConcatAt(parts: seq<seq<Byte>>, size: nat, j: nat, t: nat)
    requires j < |parts| && t < size && forall i :: 0 <= i < |parts| ==> |parts[i]| == size
    ensures |Concat(parts)| == |parts| * size && j * size + t < |Concat(parts)|
    ensures Concat(parts)[j * size + t] == parts[j][t]
  {
    var m := |parts| - 1;
    ConcatLength(parts, size);
    ConcatLength(parts[..m], size);
    Below(j, |parts|, t, size);
    if j < m {
      ConcatAt(parts[..m], size, j, t);
    }
  }

  lemma Below(j: nat, m: nat, t: nat, size: nat)
    requires j < m && t < size
    ensures j * size + t < m * size
  {
    assert (j + 1) * size <= m * size;
  }

  lemma DataByteIs(cfg: Config, payload: seq<Byte>, shards: seq<seq<Byte>>, j: nat, t: nat)
    requires Shape(shards, cfg.n, cfg.size) && cfg.k <= cfg.n && Carries(BYTE_CODEC, cfg, shards, payload)
    requires j < cfg.k && t < cfg.size
    ensures shards[j][t] == DataByte(cfg, payload, j, t)
  {
    ConcatAt(shards[..cfg.k], cfg.size, j, t);
  }

  lemma ColumnHolds(cfg: Config, payload: seq<Byte>, shards: seq<seq<Byte>>, t: nat)
    requires ValidConfig(BYTE_CODEC, cfg) && t < cfg.size
    requires Codeword(BYTE_CODEC, cfg, shards) && Carries(BYTE_CODEC, cfg, shards, payload)
    ensures ColumnIs(cfg, payload, shards, t)
  {
    hide DataByte, Value, Carries;
    var word := Column(shards, t);
    var c :| |c| == cfg.k && Interpolates(BYTE_CODEC, c, word);
    forall x: Byte | x as nat < cfg.n ensures shards[x as nat][t] == Value(c, x) {
      ByteFromNumber(x);
      ValueIsEval(c, x);
      assert word[x as nat] == Eval(BYTES, c, x);
    }
    forall x: Byte | x as nat < cfg.k ensures Value(c, x) == DataByte(cfg, payload, x as nat, t) {
      DataByteIs(cfg, payload, shards, x as nat, t);
    }
    assert Fits(cfg, payload, t, c) && Gives(cfg, shards, t, c);
  }

  lemma ByteFromNumber(x: Byte)
    ensures x as nat < 256 && BYTE_CODEC.point(x as nat) == x
  {
    ByteRange(x);
    PointIsNumber(x as nat);
    ByteInjective(BYTE_CODEC.point(x as nat), x);
  }

  /** Encoding over bytes: fails exactly on a bad configuration or a payload that is too
      long; shard r at byte t is the value at the byte r of the polynomial of degree below k
      through the data bytes. */
  method EncodeBytes(payload: seq<Byte>, cfg: Config) returns (r: RsResult<seq<seq<Byte>>>)
    ensures r == Err(BadConfig) <==> !(0 < cfg.k < cfg.n <= 256 && cfg.size > 0)
    ensures r == Err(TooLong) <==> 0 < cfg.k < cfg.n <= 256 && cfg.size > 0 && |payload| > cfg.k * cfg.size
    ensures r.Ok? <==> 0 < cfg.k < cfg.n <= 256 && cfg.size > 0 && |payload| <= cfg.k * cfg.size
    ensures r.Ok? ==> ShardsOf(cfg, payload, r.value)
  {
    ByteCodecIsGood();
    r := EncodeShards(BYTE_CODEC, payload, cfg);
    if r.Ok? {
      forall t | 0 <= t < cfg.size ensures ColumnIs(cfg, payload, r.value, t) {
        ColumnHolds(cfg, payload, r.value, t);
      }
    }
  }

  /** That determines the shards. */
  lemma ShardsUnique(cfg: Config, payload: seq<Byte>, a: seq<seq<Byte>>, b: seq<seq<Byte>>)
    requires 0 < cfg.k < cfg.n <= 256 && ShardsOf(cfg, payload, a) && ShardsOf(cfg, payload, b)
    ensures a == b
  {
    forall r | 0 <= r < cfg.n ensures a[r] == b[r] {
      forall t | 0 <= t < cfg.size ensures a[r][t] == b[r][t] {
        SameByte(cfg, payload, a, b, r, t);
      }
    }
  }

  lemma SameByte(cfg: Config, payload: seq<Byte>, a: seq<seq<Byte>>, b: seq<seq<Byte>>, r: nat, t: nat)
    requires 0 < cfg.k < cfg.n <= 256 && ShardsOf(cfg, payload, a) && ShardsOf(cfg, payload, b)
    requires r < cfg.n && t < cfg.size
    ensures a[r][t] == b[r][t]
  {
    hide Value, DataByte;
    assert ColumnIs(cfg, payload, a, t) && ColumnIs(cfg, payload, b, t);
    var c :| Fits(cfg, payload, t, c) && Gives(cfg, a, t, c);
    var d :| Fits(cfg, payload, t, d) && Gives(cfg, b, t, d);
    SameFit(cfg, payload, t, c, d);
    PointIsNumber(r);
    var x := BYTE_CODEC.point(r);
    assert a[x as nat][t] == Value(c, x) && b[x as nat][t] == Value(d, x);
  }

  lemma SameFit(cfg: Config, payload: seq<Byte>, t: nat, c: seq<Byte>, d: seq<Byte>)
    requires 0 < cfg.k < cfg.n <= 256 && Fits(cfg, payload, t, c) && Fits(cfg, payload, t, d)
    ensures c == d
  {
    hide Value, DataByte;
    var rows: seq<nat> := seq(cfg.k, i => i);
    ByteCodecIsGood();
    forall i | 0 <= i < |rows|
      ensures Eval(BYTES, c, BYTE_CODEC.point(rows[i])) == Eval(BYTES, d, BYTE_CODEC.point(rows[i]))
    {
      PointIsNumber(i);
      ValueIsEval(c, BYTE_CODEC.point(i));
      ValueIsEval(d, BYTE_CODEC.point(i));
    }
    SamePolynomial(BYTE_CODEC, c, d, rows);
  }
}
