/** The custody ledger (blob::custody): when a blob becomes locally available, by
    decoding stored shards or by counting them. */
module Custody {
  import opened Validators
  import opened Fields
  import opened ReedSolomon

  datatype Meta = Meta(size: nat, cfg: Config, received: set<nat>)

  // What the blob store answers for a shard of the blob.
  type Store<T> = nat -> Option<seq<T>>

  // The received shards that the store holds.
  function Held<T>(store: Store<T>, received: set<nat>): set<nat> {
    set i | i in received && store(i).Some?
  }

  function CountReady(m: Meta): bool {
    |m.received| >= m.cfg.k
  }

  // Decoding what is held would succeed.
  ghost predicate DecodeReady<T>(C: Codec<T>, m: Meta, store: Store<T>) {
    && ValidConfig(C, m.cfg)
    && |Held(store, m.received)| >= m.cfg.k
    && forall i :: i in Held(store, m.received) ==> i < m.cfg.n && |store(i).value| == m.cfg.size
  }

  // A list of the held shards, each once, in whatever order.
  ghost predicate Lists<T>(store: Store<T>, held: set<nat>, present: seq<Shard<T>>) {
    && IndexSet(present) == held && |present| == |held|
    && forall j :: 0 <= j < |present| ==> store(present[j].index) == Some(present[j].data)
  }

  method CollectShards<T>(store: Store<T>, received: set<nat>) returns (present: seq<Shard<T>>)
    ensures Lists(store, Held(store, received), present)
  {
    present := [];
    var todo := received;
    ghost var done: set<nat> := {};
    while todo != {}
      invariant received == todo + done && todo !! done
      invariant Lists(store, Held(store, done), present)
      decreases todo
    {
      var i :| i in todo;
      ghost var before := present;
      if store(i).Some? {
        present := present + [Shard(i, store(i).value)];
        ListsNext(store, done, i, before);
      } else {
        assert Held(store, done + {i}) == Held(store, done);
      }
      todo, done := todo - {i}, done + {i};
    }
    assert done == received;
  }

  lemma ListsNext<T>(store: Store<T>, done: set<nat>, i: nat, present: seq<Shard<T>>)
    requires i !in done && store(i).Some? && Lists(store, Held(store, done), present)
    ensures Lists(store, Held(store, done + {i}), present + [Shard(i, store(i).value)])
  {
    var next := present + [Shard(i, store(i).value)];
    assert Held(store, done + {i}) == Held(store, done) + {i};
    assert next[|present|].index == i;
    forall x | x in IndexSet(present) ensures x in IndexSet(next) {
      var j :| 0 <= j < |present| && present[j].index == x;
      assert next[j].index == x;
    }
    assert IndexSet(next) == IndexSet(present) + {i};
  }

  lemma ListsWellFormed<T>(C: Codec<T>, cfg: Config, store: Store<T>, held: set<nat>, present: seq<Shard<T>>)
    requires Lists(store, held, present)
    ensures AllWellFormed(cfg, present)
            <==> forall i :: i in held ==> store(i).Some? && i < cfg.n && |store(i).value| == cfg.size
  {
    forall i | i in held ensures exists j :: 0 <= j < |present| && present[j].index == i {}
    if AllWellFormed(cfg, present) {
      forall i | i in held ensures store(i).Some? && i < cfg.n && |store(i).value| == cfg.size {
        var j :| 0 <= j < |present| && present[j].index == i;
        assert WellFormed(cfg, present[j]);
      }
    }
    forall j | 0 <= j < |present| ensures present[j].index in held {
      assert present[j].index in IndexSet(present);
    }
  }

  /** The decode test succeeds exactly when enough held shards are well formed. */
  method ErasureAvailable<T(==, !new)>(C: Codec<T>, m: Meta, store: Store<T>) returns (r: bool)
    requires GoodCodec(C)
    ensures r <==> DecodeReady(C, m, store)
  {
    HeldSize(store, m.received);
    if |m.received| < m.cfg.k {
      return false;
    }
    var present := CollectShards(store, m.received);
    if |present| < m.cfg.k {
      return false;
    }
    hide GoodCodec;
    ListsWellFormed(C, m.cfg, store, Held(store, m.received), present);
    var decoded := DecodeShards(C, present, m.cfg, m.size);
    return decoded.Ok?;
  }

  lemma HeldSize<T>(store: Store<T>, received: set<nat>)
    ensures |Held(store, received)| <= |received|
  {
    SubsetSize(Held(store, received), received);
  }

  // ---------------------------------------------------------------------
  // The ledger
  // ---------------------------------------------------------------------

  function Received(meta: map<nat, Meta>, blob: nat, index: nat): map<nat, Meta>
    requires blob in meta
  {
    meta[blob := meta[blob].(received := meta[blob].received + {index})]
  }

  class CustodyLedger {
    var meta: map<nat, Meta>
    var available: set<nat>

    constructor ()
      ensures meta == map[] && available == {}
    {
      meta, available := map[], {};
    }

    method RegisterErasure(blob: nat, cfg: Config, size: nat)
      modifies this`meta
      ensures meta == old(meta)[blob := Meta(size, cfg, if blob in old(meta) then old(meta)[blob].received else {})]
    {
      if blob in meta {
        meta := meta[blob := meta[blob].(size := size, cfg := cfg)];
      } else {
        meta := meta[blob := Meta(size, cfg, {})];
      }
    }

    // A known blob that is not available yet records the shard.
    method NoteChunk<T(==, !new)>(C: Codec<T>, blob: nat, index: nat, store: Store<T>) returns (newly: bool)
      requires GoodCodec(C)
      modifies this
      ensures blob in old(available) || blob !in old(meta) ==> !newly && meta == old(meta)
      ensures blob !in old(available) && blob in old(meta) ==>
                meta == Received(old(meta), blob, index) && newly == DecodeReady(C, meta[blob], store)
      ensures blob in old(meta) ==>
                && blob in meta && meta[blob].cfg == old(meta)[blob].cfg && meta[blob].size == old(meta)[blob].size
                && Arrival(meta[blob].received, blob in available, newly)
                   == Note(Arrival(old(meta)[blob].received, blob in old(available), false), index,
                           BySlowPath(C, meta[blob].cfg, meta[blob].size, store))
      ensures available == if newly then old(available) + {blob} else old(available)
    {
      newly := false;
      if blob in available || blob !in meta {
        return;
      }
      meta := meta[blob := meta[blob].(received := meta[blob].received + {index})];
      newly := ErasureAvailable(C, meta[blob], store);
      if newly { available := available + {blob}; }
    }

    method NoteChunkPresent(blob: nat, index: nat) returns (newly: bool)
      modifies this
      ensures blob in old(available) || blob !in old(meta) ==> !newly && meta == old(meta)
      ensures blob !in old(available) && blob in old(meta) ==>
                meta == Received(old(meta), blob, index) && newly == CountReady(meta[blob])
      ensures blob in old(meta) ==>
                && blob in meta && meta[blob].cfg == old(meta)[blob].cfg && meta[blob].size == old(meta)[blob].size
                && Arrival(meta[blob].received, blob in available, newly)
                   == Note(Arrival(old(meta)[blob].received, blob in old(available), false), index,
                           ByFastPath(meta[blob].cfg, meta[blob].size))
      ensures available == if newly then old(available) + {blob} else old(available)
    {
      newly := false;
      if blob in available || blob !in meta {
        return;
      }
      meta := meta[blob := meta[blob].(received := meta[blob].received + {index})];
      if |meta[blob].received| >= meta[blob].cfg.k {
        available := available + {blob};
        newly := true;
      }
    }
  }

  // ---------------------------------------------------------------------
  // When the two agree
  // ---------------------------------------------------------------------

  // Every received shard is stored, and is the one of that index.
  ghost predicate GenuineStore<T>(store: Store<T>, shards: seq<seq<T>>, received: set<nat>) {
    forall i :: i in received ==> i < |shards| && store(i) == Some(shards[i])
  }

  /** On genuine shards of a codeword, decoding and counting agree. */
  lemma FastPathAgrees<T(!new)>(C: Codec<T>, m: Meta, store: Store<T>, shards: seq<seq<T>>)
    requires ValidConfig(C, m.cfg) && Codeword(C, m.cfg, shards) && GenuineStore(store, shards, m.received)
    ensures DecodeReady(C, m, store) <==> CountReady(m)
  {
    assert Held(store, m.received) == m.received;
  }

  /** In general, counting runs ahead of decoding exactly when the configuration is
      invalid, too few of the received shards are stored, or one that is stored has
      an index or a length the codec refuses. */
  lemma FastPathRunsAhead<T(!new)>(C: Codec<T>, m: Meta, store: Store<T>)
    ensures DecodeReady(C, m, store) ==> CountReady(m)
    ensures CountReady(m) && !DecodeReady(C, m, store) <==>
              && CountReady(m)
              && (|| !ValidConfig(C, m.cfg)
                  || |Held(store, m.received)| < m.cfg.k
                  || exists i :: i in Held(store, m.received) && (i >= m.cfg.n || |store(i).value| != m.cfg.size))
  {
    HeldSize(store, m.received);
  }

  // ---------------------------------------------------------------------
  // Arrival sequences
  // ---------------------------------------------------------------------

  // One blob's shards arriving, with any test of readiness. The methods above take these
  // steps.
  datatype Arrival = Arrival(received: set<nat>, available: bool, returned: bool)

  // What one call does.
  ghost function Note(a: Arrival, index: nat, ready: set<nat> -> bool): Arrival {
    if a.available then a.(returned := false)
    else
      var got := a.received + {index};
      Arrival(got, ready(got), ready(got))
  }

  ghost function After(xs: seq<nat>, ready: set<nat> -> bool): Arrival {
    if xs == [] then Arrival({}, false, false)
    else Note(After(xs[..|xs| - 1], ready), xs[|xs| - 1], ready)
  }

  /** In any arrival order, with repetitions: a blob is available exactly once k
      different shards have arrived, and the call that returns true is the one that
      brought the k-th, so there is exactly one. */
  lemma {:induction false} TurnsAvailableOnce(xs: seq<nat>, k: nat, ready: set<nat> -> bool)
    requires k > 0 && forall s {:trigger ready(s)} :: s <= Members(xs) ==> (ready(s) <==> |s| >= k)
    ensures var a := After(xs, ready);
            && (a.available <==> |Members(xs)| >= k)
            && (!a.available ==> a.received == Members(xs))
            && (a.returned <==> xs != [] && |Members(xs)| >= k && |Members(xs[..|xs| - 1])| < k)
  {
    if xs != [] {
      var m := |xs| - 1;
      assert Members(xs) == Members(xs[..m]) + {xs[m]};
      TurnsAvailableOnce(xs[..m], k, ready);
      SubsetSize(Members(xs[..m]), Members(xs));
    }
  }

  // The readiness tests of note_chunk and note_chunk_present for one blob.
  ghost function BySlowPath<T(!new)>(C: Codec<T>, cfg: Config, size: nat, store: Store<T>): set<nat> -> bool {
    s => DecodeReady(C, Meta(size, cfg, s), store)
  }

  ghost function ByFastPath(cfg: Config, size: nat): set<nat> -> bool {
    s => CountReady(Meta(size, cfg, s))
  }

  lemma {:induction false} SameReadySameRun(xs: seq<nat>, a: set<nat> -> bool, b: set<nat> -> bool)
    requires forall s {:trigger a(s)} :: s <= Members(xs) ==> a(s) == b(s)
    ensures After(xs, a) == After(xs, b) && After(xs, a).received <= Members(xs)
  {
    if xs != [] {
      var m := |xs| - 1;
      assert Members(xs) == Members(xs[..m]) + {xs[m]};
      SameReadySameRun(xs[..m], a, b);
    }
  }

  /** On genuine shards the two paths go through the same states and return the same
      answers, whatever arrives in whatever order; the k-th different shard, and only
      it, makes the call return true. */
  lemma PathsAgree<T(!new)>(C: Codec<T>, cfg: Config, size: nat, store: Store<T>, shards: seq<seq<T>>, xs: seq<nat>)
    requires ValidConfig(C, cfg) && Codeword(C, cfg, shards) && GenuineStore(store, shards, Members(xs))
    ensures var a := After(xs, BySlowPath(C, cfg, size, store));
            && a == After(xs, ByFastPath(cfg, size))
            && (a.available <==> |Members(xs)| >= cfg.k)
            && (a.returned <==> xs != [] && |Members(xs)| >= cfg.k && |Members(xs[..|xs| - 1])| < cfg.k)
  {
    var slow, fast := BySlowPath(C, cfg, size, store), ByFastPath(cfg, size);
    forall s | s <= Members(xs) ensures slow(s) == fast(s) {
      FastPathAgrees(C, Meta(size, cfg, s), store, shards);
    }
    SameReadySameRun(xs, slow, fast);
    TurnsAvailableOnce(xs, cfg.k, fast);
  }
}
