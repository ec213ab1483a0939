/** Macro checkpoints, votes over them and their quorum certificates
    (macro_fin::checkpoint, messages, macro_qc, aggregation::mode_a_subnet, verify). */
module MacroQcs {
  import opened Validators
  import opened Signatures
  import opened Bitmaps

  datatype Root = OfRing(ring: seq<nat>) | RawRoot(bytes: nat)

  // A checkpoint hash is a constructor applied to what is hashed: injective,
  // and never the zero hash that starts the chain.
  datatype MHash =
    | Zero
    | RawHash(bytes: nat)
    | OfCheckpoint(height: nat, epoch: nat, parent: MHash, root: Root)

  datatype Checkpoint = Checkpoint(height: nat, epoch: nat, parent: MHash, root: Root, hash: MHash)

  function Build(height: nat, epoch: nat, parent: MHash, root: Root): Checkpoint {
    Checkpoint(height, epoch, parent, root, OfCheckpoint(height, epoch, parent, root))
  }

  // The hash is that of the other fields in epoch 0, the one epoch nodes build
  // in. Nothing compares the epoch field itself, so it may differ.
  predicate Sound(cp: Checkpoint) {
    cp.hash == OfCheckpoint(cp.height, 0, cp.parent, cp.root)
  }

  // Exactly what `Build` gives in epoch 0.
  predicate Plain(cp: Checkpoint) {
    Sound(cp) && cp.epoch == 0
  }

  // What is signed.
  datatype Message =
    | CheckpointMsg(cp: Checkpoint)
    | ProposerMsg(proposer: Id, hash: MHash)
    | VoteMsg(source: nat, target: nat, hash: MHash)

  const MACRO_CHECKPOINT: nat := 2
  const MACRO_PROPOSER_SIG: nat := 3
  const MACRO_VOTE: nat := 4

  type MSig = Sig<Message>
  type SigKey = (MHash, Id)
  type SigBook = map<SigKey, MSig>

  function PartialSig(v: Id, cp: Checkpoint): MSig {
    Signed(v, MACRO_CHECKPOINT, CheckpointMsg(cp))
  }

  datatype AggBits = AggBits(sig: Aggregate<Message>, bitmap: seq<bv8>)
  datatype Mode = Mode0Flat | ModeASubnet | ModeBLeaderless
  datatype MacroQc = MacroQc(hash: MHash, mode: Mode, agg: AggBits)
  datatype SubnetAgg = SubnetAgg(subnet: nat, hash: MHash, agg: AggBits)
  datatype BlsPartial = BlsPartial(subnet: nat, validator: Id, hash: MHash, sig: MSig)

  // ---------------------------------------------------------------------
  // Which validators a bitmap names
  // ---------------------------------------------------------------------

  // A missing byte reads as zero.
  predicate TestBit(bytes: seq<bv8>, i: nat) {
    i / 8 < |bytes| && GetBit(bytes, i)
  }

  function Flags(bytes: seq<bv8>, n: nat): set<nat> {
    set i | 0 <= i < n && TestBit(bytes, i)
  }

  // The flagged entries of the set, in set order.
  function Keys(set_: ValidatorSet, flags: set<nat>, k: nat): seq<Id>
    requires k <= |set_|
  {
    if k == 0 then []
    else Keys(set_, flags, k - 1) + if k - 1 in flags then [set_[k - 1]] else []
  }

  function SignerKeys(set_: ValidatorSet, flags: set<nat>): seq<Id> {
    Keys(set_, flags, |set_|)
  }

  // Their stored signatures over `target`, unless one is missing.
  function StoredSigs(set_: ValidatorSet, flags: set<nat>, sigs: SigBook, target: MHash, k: nat): Option<seq<MSig>>
    requires k <= |set_|
  {
    if k == 0 then Some([])
    else match StoredSigs(set_, flags, sigs, target, k - 1)
      case None => None
      case Some(s) =>
        if k - 1 !in flags then Some(s)
        else if (target, set_[k - 1]) in sigs then Some(s + [sigs[(target, set_[k - 1])]])
        else None
  }

  function FlagBytes(flags: set<nat>, n: nat, k: nat): (r: seq<bv8>)
    requires k <= n
    ensures |r| == ByteCount(n)
  {
    if k == 0 then Zeros(n)
    else if k - 1 in flags then SetBit(FlagBytes(flags, n, k - 1), k - 1)
    else FlagBytes(flags, n, k - 1)
  }

  lemma {:induction false} FlagBytesSet(flags: set<nat>, n: nat, k: nat)
    requires k <= n
    ensures Bits(FlagBytes(flags, n, k), n) == set i | i in flags && i < k
  {
    if k == 0 {
      ZerosEmpty(n);
    } else {
      FlagBytesSet(flags, n, k - 1);
      if k - 1 in flags { SetBitSets(FlagBytes(flags, n, k - 1), n, k - 1); }
    }
  }

  lemma FlagsRoundTrip(flags: set<nat>, n: nat)
    requires forall i :: i in flags ==> i < n
    ensures Flags(FlagBytes(flags, n, n), n) == flags
  {
    FlagBytesSet(flags, n, n);
    var bytes := FlagBytes(flags, n, n);
    forall i | 0 <= i < n ensures TestBit(bytes, i) <==> i in flags {
      assert TestBit(bytes, i) <==> i in Bits(bytes, n);
    }
  }

  lemma {:induction false} KeysMeans(set_: ValidatorSet, flags: set<nat>, k: nat)
    requires k <= |set_| && Distinct(set_)
    ensures forall x :: x in Keys(set_, flags, k) <==> exists i :: 0 <= i < k && i in flags && set_[i] == x
    ensures Distinct(Keys(set_, flags, k))
  {
    if k > 0 {
      KeysMeans(set_, flags, k - 1);
      var before := Keys(set_, flags, k - 1);
      forall x ensures x in Keys(set_, flags, k) <==> exists i :: 0 <= i < k && i in flags && set_[i] == x {
        if k - 1 in flags && x == set_[k - 1] {
          assert x in Keys(set_, flags, k);
        }
      }
      assert set_[k - 1] !in before;
    }
  }

  lemma {:induction false} KeysCount(set_: ValidatorSet, flags: set<nat>, k: nat)
    requires k <= |set_|
    ensures |Keys(set_, flags, k)| == |set i | i in flags && i < k|
  {
    var below := set i | i in flags && i < k;
    if k == 0 {
      assert below == {};
    } else {
      KeysCount(set_, flags, k - 1);
      var less := set i | i in flags && i < k - 1;
      if k - 1 in flags { assert below == less + {k - 1}; } else { assert below == less; }
    }
  }

  // ---------------------------------------------------------------------
  // Checks
  // ---------------------------------------------------------------------

  predicate VerifyPartial(set_: ValidatorSet, bp: BlsPartial, cp: Checkpoint) {
    bp.hash == cp.hash && bp.validator in set_
    && Verify(bp.validator, MACRO_CHECKPOINT, CheckpointMsg(cp), bp.sig)
  }

  predicate VerifyMacroQc(set_: ValidatorSet, qc: MacroQc, cp: Checkpoint) {
    var pks := SignerKeys(set_, Flags(qc.agg.bitmap, |set_|));
    qc.hash == cp.hash && pks != [] && VerifyAggregate(pks, MACRO_CHECKPOINT, CheckpointMsg(cp), qc.agg.sig)
  }

  predicate VerifySubnetAgg(set_: ValidatorSet, agg: SubnetAgg, cp: Checkpoint, sigs: SigBook) {
    var flags := Flags(agg.agg.bitmap, |set_|);
    var pks := SignerKeys(set_, flags);
    && (forall i :: 0 <= i < |set_| && i in flags ==>
          (agg.hash, set_[i]) in sigs
          && Verify(set_[i], MACRO_CHECKPOINT, CheckpointMsg(cp), sigs[(agg.hash, set_[i])]))
    && pks != [] && VerifyAggregate(pks, MACRO_CHECKPOINT, CheckpointMsg(cp), agg.agg.sig)
  }

  // ---------------------------------------------------------------------
  // Assembly
  // ---------------------------------------------------------------------

  // Aggregate the stored signatures of the flagged entries.
  function Aggregated(set_: ValidatorSet, flags: set<nat>, sigs: SigBook, target: MHash): Option<AggBits> {
    match StoredSigs(set_, flags, sigs, target, |set_|)
    case None => None
    case Some(s) =>
      match AggregateSigs(s)
      case None => None
      case Some(agg) => Some(AggBits(agg, FlagBytes(flags, |set_|, |set_|)))
  }

  function SignerFlags(set_: ValidatorSet, signers: set<Id>): set<nat> {
    set i | 0 <= i < |set_| && set_[i] in signers
  }

  function Mode0Qc(target: MHash, signers: set<Id>, sigs: SigBook, set_: ValidatorSet, mode: Mode): Option<MacroQc> {
    if set_ == [] || |signers| < QuorumThreshold(|set_|) then None
    else match Aggregated(set_, SignerFlags(set_, signers), sigs, target)
      case None => None
      case Some(agg) => Some(MacroQc(target, mode, agg))
  }

  // The loop shared by the three assemblies.
  method CollectFlagged(set_: ValidatorSet, flags: set<nat>, sigs: SigBook, target: MHash) returns (r: Option<AggBits>)
    ensures r == Aggregated(set_, flags, sigs, target)
  {
    var bitmap := Zeros(|set_|);
    var out: seq<MSig> := [];
    for i := 0 to |set_|
      invariant bitmap == FlagBytes(flags, |set_|, i)
      invariant StoredSigs(set_, flags, sigs, target, i) == Some(out)
    {
      if i in flags {
        bitmap := bitmap[i / 8 := bitmap[i / 8] | Mask(i % 8)];
        if (target, set_[i]) !in sigs {
          StaysMissing(set_, flags, sigs, target, i + 1, |set_|);
          return None;
        }
        out := out + [sigs[(target, set_[i])]];
      }
    }
    match AggregateSigs(out) {
      case None => return None;
      case Some(agg) => return Some(AggBits(agg, bitmap));
    }
  }

  lemma {:induction false} StaysMissing(set_: ValidatorSet, flags: set<nat>, sigs: SigBook, target: MHash, k: nat,
                                        m: nat)
    requires k <= m <= |set_| && StoredSigs(set_, flags, sigs, target, k) == None
    ensures StoredSigs(set_, flags, sigs, target, m) == None
  {
    if k < m { StaysMissing(set_, flags, sigs, target, k, m - 1); }
  }

  method TryFinalizeMode0(target: MHash, signers: set<Id>, sigs: SigBook, set_: ValidatorSet, mode: Mode)
    returns (qc: Option<MacroQc>)
    ensures qc == Mode0Qc(target, signers, sigs, set_, mode)
  {
    if set_ == [] || |signers| < QuorumThreshold(|set_|) {
      return None;
    }
    var agg := CollectFlagged(set_, SignerFlags(set_, signers), sigs, target);
    match agg {
      case None => return None;
      case Some(a) => return Some(MacroQc(target, mode, a));
    }
  }

  // Subnet-local threshold over the members that the assignment puts there.
  function SubnetSize(set_: ValidatorSet, member: Id -> bool): nat {
    if set_ == [] then 0 else SubnetSize(set_[1..], member) + if member(set_[0]) then 1 else 0
  }

  function BuildAggregate(target: MHash, subnet: nat, signers: set<Id>, set_: ValidatorSet, size: nat,
                          sigs: SigBook): Option<SubnetAgg> {
    if size == 0 || |signers| < QuorumThreshold(size) then None
    else match Aggregated(set_, SignerFlags(set_, signers), sigs, target)
      case None => None
      case Some(agg) => Some(SubnetAgg(subnet, target, agg))
  }

  // Everyone named by one of the aggregates.
  function UnionFlags(aggs: map<nat, SubnetAgg>, n: nat): set<nat> {
    set s, i | s in aggs && 0 <= i < n && TestBit(aggs[s].agg.bitmap, i) :: i
  }

  function ModeAQc(target: MHash, aggs: map<nat, SubnetAgg>, set_: ValidatorSet, sigs: SigBook): Option<MacroQc> {
    if set_ == [] || |UnionFlags(aggs, |set_|)| < QuorumThreshold(|set_|) then None
    else match Aggregated(set_, UnionFlags(aggs, |set_|), sigs, target)
      case None => None
      case Some(agg) => Some(MacroQc(target, ModeASubnet, agg))
  }

  method TryBuildAggregate(target: MHash, subnet: nat, signers: set<Id>, set_: ValidatorSet,
                           member: Id -> bool, sigs: SigBook)
    returns (r: Option<SubnetAgg>)
    ensures r == BuildAggregate(target, subnet, signers, set_, SubnetSize(set_, member), sigs)
  {
    var size := 0;
    for i := 0 to |set_|
      invariant size + SubnetSize(set_[i..], member) == SubnetSize(set_, member)
    {
      assert set_[i..][1..] == set_[i + 1..];
      if member(set_[i]) { size := size + 1; }
    }
    assert set_[|set_|..] == [];
    if size == 0 || |signers| < QuorumThreshold(size) {
      return None;
    }
    var agg := CollectFlagged(set_, SignerFlags(set_, signers), sigs, target);
    match agg {
      case None => return None;
      case Some(a) => return Some(SubnetAgg(subnet, target, a));
    }
  }

  // Bits past the last validator are never set.
  ghost predicate NoStrayBits(bytes: seq<bv8>, n: nat) {
    |bytes| == ByteCount(n) && forall i :: n <= i < 8 * |bytes| ==> !GetBit(bytes, i)
  }

  lemma SetBitNoStray(bytes: seq<bv8>, n: nat, i: nat)
    requires NoStrayBits(bytes, n) && i < n
    ensures NoStrayBits(SetBit(bytes, i), n)
  {
    forall j | n <= j < 8 * |bytes| ensures !GetBit(SetBit(bytes, i), j) {
      assert !GetBit(bytes, j);
      MaskHits(bytes[j / 8], i % 8, j % 8);
      assert i == 8 * (i / 8) + i % 8 && j == 8 * (j / 8) + j % 8;
    }
  }

  method UnionBitmaps(aggs: map<nat, SubnetAgg>, n: nat) returns (bitmap: seq<bv8>)
    ensures NoStrayBits(bitmap, n) && Bits(bitmap, n) == UnionFlags(aggs, n)
  {
    bitmap := Zeros(n);
    ZerosEmpty(n);
    var todo := aggs.Keys;
    ghost var done: set<nat> := {};
    while todo != {}
      invariant aggs.Keys == todo + done && todo !! done
      invariant NoStrayBits(bitmap, n)
      invariant Bits(bitmap, n) == set s, i | s in done && 0 <= i < n && TestBit(aggs[s].agg.bitmap, i) :: i
      decreases todo
    {
      var s :| s in todo;
      ghost var before := Bits(bitmap, n);
      bitmap := OrInto(bitmap, aggs[s].agg.bitmap, n);
      todo, done := todo - {s}, done + {s};
    }
  }

  method OrInto(bitmap: seq<bv8>, bytes: seq<bv8>, n: nat) returns (r: seq<bv8>)
    requires NoStrayBits(bitmap, n)
    ensures NoStrayBits(r, n) && Bits(r, n) == Bits(bitmap, n) + Flags(bytes, n)
  {
    r := bitmap;
    for i := 0 to n
      invariant NoStrayBits(r, n)
      invariant Bits(r, n) == Bits(bitmap, n) + set j | 0 <= j < i && TestBit(bytes, j)
    {
      if TestBit(bytes, i) {
        SetBitNoStray(r, n, i);
        SetBitSets(r, n, i);
        r := r[i / 8 := r[i / 8] | Mask(i % 8)];
      }
    }
  }

  lemma SameBitsSameBytes(a: seq<bv8>, flags: set<nat>, n: nat)
    requires NoStrayBits(a, n) && Bits(a, n) == flags
    ensures a == FlagBytes(flags, n, n)
  {
    FlagBytesSet(flags, n, n);
    FlagBytesNoStray(flags, n, n);
    var b := FlagBytes(flags, n, n);
    assert flags == set i | i in flags && i < n;
    forall k | 0 <= k < |a| ensures a[k] == b[k] {
      forall j | 0 <= j < 8 ensures a[k] & Mask(j) != 0 <==> b[k] & Mask(j) != 0 {
        var i := 8 * k + j;
        assert i / 8 == k && i % 8 == j;
        assert a[k] & Mask(j) != 0 <==> GetBit(a, i);
        assert b[k] & Mask(j) != 0 <==> GetBit(b, i);
        if i < n {
          assert i in Bits(a, n) <==> i in Bits(b, n);
        }
      }
      SameMasks(a[k], b[k]);
    }
  }

  lemma {:induction false} FlagBytesNoStray(flags: set<nat>, n: nat, k: nat)
    requires k <= n
    ensures NoStrayBits(FlagBytes(flags, n, k), n)
  {
    if k > 0 {
      FlagBytesNoStray(flags, n, k - 1);
      if k - 1 in flags { SetBitNoStray(FlagBytes(flags, n, k - 1), n, k - 1); }
    }
  }

  lemma SameMasks(x: bv8, y: bv8)
    requires forall j :: 0 <= j < 8 ==> (x & Mask(j) != 0 <==> y & Mask(j) != 0)
    ensures x == y
  {
    assert Mask(0) == 1 && Mask(1) == 2 && Mask(2) == 4 && Mask(3) == 8;
    assert Mask(4) == 16 && Mask(5) == 32 && Mask(6) == 64 && Mask(7) == 128;
  }

  method TryFinalizeModeA(target: MHash, aggs: map<nat, SubnetAgg>, set_: ValidatorSet, sigs: SigBook)
    returns (qc: Option<MacroQc>)
    ensures qc == ModeAQc(target, aggs, set_, sigs)
  {
    if set_ == [] {
      return None;
    }
    var bitmap := UnionBitmaps(aggs, |set_|);
    var count := CountOnes(bitmap);
    CountOnesIsSize(bitmap, |set_|);
    if count < QuorumThreshold(|set_|) {
      return None;
    }
    BitsAreFlags(bitmap, |set_|);
    SameBitsSameBytes(bitmap, UnionFlags(aggs, |set_|), |set_|);
    var out := CollectSigs(bitmap, set_, sigs, target);
    if out == None {
      return None;
    }
    match AggregateSigs(out.value) {
      case None => return None;
      case Some(agg) => return Some(MacroQc(target, ModeASubnet, AggBits(agg, bitmap)));
    }
  }

  lemma BitsAreFlags(bytes: seq<bv8>, n: nat)
    requires |bytes| == ByteCount(n)
    ensures Bits(bytes, n) == Flags(bytes, n)
  {
  }

  method CollectSigs(bitmap: seq<bv8>, set_: ValidatorSet, sigs: SigBook, target: MHash) returns (r: Option<seq<MSig>>)
    ensures r == StoredSigs(set_, Flags(bitmap, |set_|), sigs, target, |set_|)
  {
    ghost var flags := Flags(bitmap, |set_|);
    var out: seq<MSig> := [];
    for i := 0 to |set_|
      invariant StoredSigs(set_, flags, sigs, target, i) == Some(out)
    {
      if TestBit(bitmap, i) {
        if (target, set_[i]) !in sigs {
          StaysMissing(set_, flags, sigs, target, i + 1, |set_|);
          return None;
        }
        out := out + [sigs[(target, set_[i])]];
      }
    }
    return Some(out);
  }

  // ---------------------------------------------------------------------
  // What an assembled certificate is
  // ---------------------------------------------------------------------

  // Every stored signature is the named validator's over a checkpoint with the
  // stored hash.
  ghost predicate SigsOk(set_: ValidatorSet, sigs: SigBook) {
    forall k :: k in sigs ==> k.1 in set_ && exists cp :: Sound(cp) && cp.hash == k.0 && sigs[k] == PartialSig(k.1, cp)
  }

  lemma StoredSigIs(set_: ValidatorSet, sigs: SigBook, hash: MHash, v: Id) returns (cp: Checkpoint)
    requires SigsOk(set_, sigs) && (hash, v) in sigs
    ensures Sound(cp) && cp.hash == hash && sigs[(hash, v)] == PartialSig(v, cp)
  {
    cp :| Sound(cp) && cp.hash == hash && sigs[(hash, v)] == PartialSig(v, cp);
  }

  lemma {:induction false} StoredSigsAre(set_: ValidatorSet, flags: set<nat>, sigs: SigBook, target: MHash, k: nat)
    requires k <= |set_| && StoredSigs(set_, flags, sigs, target, k).Some?
    ensures var s, pks := StoredSigs(set_, flags, sigs, target, k).value, Keys(set_, flags, k);
            |s| == |pks| && forall j :: 0 <= j < |pks| ==> (target, pks[j]) in sigs && s[j] == sigs[(target, pks[j])]
  {
    if k > 0 { StoredSigsAre(set_, flags, sigs, target, k - 1); }
  }

  // The validators whose bits are set.
  ghost function Signers(set_: ValidatorSet, qc: MacroQc): set<Id> {
    Members(SignerKeys(set_, Flags(qc.agg.bitmap, |set_|)))
  }

  // At least `need` validators are named.
  ghost predicate Names(set_: ValidatorSet, qc: MacroQc, need: nat) {
    |Signers(set_, qc)| >= need
  }

  ghost predicate Quorum(set_: ValidatorSet, qc: MacroQc) {
    Names(set_, qc, QuorumThreshold(|set_|))
  }

  // The named validators' stored signatures are all over this checkpoint.
  ghost predicate OverCheckpoint(set_: ValidatorSet, qc: MacroQc, sigs: SigBook, cp: Checkpoint) {
    forall v :: v in Signers(set_, qc) ==> (cp.hash, v) in sigs && sigs[(cp.hash, v)] == PartialSig(v, cp)
  }

  // Each named validator has a verified signature over the hash stored.
  ghost predicate SelfMade(set_: ValidatorSet, qc: MacroQc, hash: MHash, sigs: SigBook) {
    Quorum(set_, qc) && forall v :: v in Signers(set_, qc) ==> (hash, v) in sigs
  }

  /** An aggregate over stored signatures names exactly the flagged validators. */
  lemma AggregatedSigners(set_: ValidatorSet, flags: set<nat>, sigs: SigBook, qc: MacroQc)
    requires Distinct(set_) && forall i :: i in flags ==> i < |set_|
    requires Aggregated(set_, flags, sigs, qc.hash) == Some(qc.agg)
    ensures SignerKeys(set_, Flags(qc.agg.bitmap, |set_|)) == SignerKeys(set_, flags)
    ensures |Signers(set_, qc)| == |flags| && Signers(set_, qc) == Members(SignerKeys(set_, flags))
    ensures forall v :: v in Signers(set_, qc) ==> (qc.hash, v) in sigs
  {
    var pks := SignerKeys(set_, flags);
    StoredSigsAre(set_, flags, sigs, qc.hash, |set_|);
    FlagsRoundTrip(flags, |set_|);
    KeysMeans(set_, flags, |set_|);
    KeysCount(set_, flags, |set_|);
    assert flags == set i | i in flags && i < |set_|;
    DistinctSize(pks);
  }

  // Different signers' signatures are those of all of them over one message
  // exactly when each of them is.
  lemma SameMessage(pks: seq<Id>, s: seq<MSig>, cp: Checkpoint)
    requires Distinct(pks) && |s| == |pks|
    requires forall j :: 0 <= j < |s| ==> s[j].Signed? && s[j].signer == pks[j]
    ensures multiset(s) == multiset(SignAll(pks, MACRO_CHECKPOINT, CheckpointMsg(cp)))
            <==> forall j :: 0 <= j < |s| ==> s[j] == PartialSig(pks[j], cp)
  {
    var all := SignAll(pks, MACRO_CHECKPOINT, CheckpointMsg(cp));
    if multiset(s) == multiset(all) {
      forall j | 0 <= j < |s| ensures s[j] == PartialSig(pks[j], cp) {
        assert s[j] in multiset(s);
        assert s[j] in multiset(all);
        var i :| 0 <= i < |all| && all[i] == s[j];
      }
    } else {
      assert s != all;
    }
  }

  // The stored signatures of the flagged validators, each by its validator.
  lemma StoredBySigners(set_: ValidatorSet, flags: set<nat>, sigs: SigBook, hash: MHash) returns (s: seq<MSig>)
    requires Distinct(set_) && SigsOk(set_, sigs) && (forall i :: i in flags ==> i < |set_|)
    requires StoredSigs(set_, flags, sigs, hash, |set_|).Some?
    ensures StoredSigs(set_, flags, sigs, hash, |set_|) == Some(s)
    ensures var pks := SignerKeys(set_, flags);
            && Distinct(pks) && |s| == |pks|
            && forall j :: 0 <= j < |s| ==>
                 (hash, pks[j]) in sigs && s[j] == sigs[(hash, pks[j])] && s[j].Signed? && s[j].signer == pks[j]
  {
    var pks := SignerKeys(set_, flags);
    s := StoredSigs(set_, flags, sigs, hash, |set_|).value;
    StoredSigsAre(set_, flags, sigs, hash, |set_|);
    KeysMeans(set_, flags, |set_|);
    forall j | 0 <= j < |s| ensures s[j].Signed? && s[j].signer == pks[j] {
      var c := StoredSigIs(set_, sigs, hash, pks[j]);
    }
  }

  lemma OverAll(pks: seq<Id>, sigs: SigBook, s: seq<MSig>, cp: Checkpoint)
    requires |s| == |pks| && forall j :: 0 <= j < |s| ==> (cp.hash, pks[j]) in sigs && s[j] == sigs[(cp.hash, pks[j])]
    ensures (forall j :: 0 <= j < |s| ==> s[j] == PartialSig(pks[j], cp))
            <==> forall v :: v in Members(pks) ==> (cp.hash, v) in sigs && sigs[(cp.hash, v)] == PartialSig(v, cp)
  {
    hide PartialSig;
    if forall v :: v in Members(pks) ==> (cp.hash, v) in sigs && sigs[(cp.hash, v)] == PartialSig(v, cp) {
      forall j | 0 <= j < |s| ensures s[j] == PartialSig(pks[j], cp) { assert pks[j] in Members(pks); }
    }
  }

  /** What a node assembles passes verify_macro_qc exactly when the stored signatures
      of the named validators are over this very checkpoint, epoch included. */
  lemma AggregatedVerifies(set_: ValidatorSet, flags: set<nat>, sigs: SigBook, cp: Checkpoint, qc: MacroQc)
    requires Distinct(set_) && SigsOk(set_, sigs)
    requires forall i :: i in flags ==> i < |set_|
    requires qc.hash == cp.hash && Aggregated(set_, flags, sigs, cp.hash) == Some(qc.agg)
    ensures VerifyMacroQc(set_, qc, cp) <==> OverCheckpoint(set_, qc, sigs, cp)
  {
    hide SigsOk, StoredSigs, SignerKeys, Flags, PartialSig;
    var pks := SignerKeys(set_, flags);
    AggregatedSigners(set_, flags, sigs, qc);
    var s := StoredBySigners(set_, flags, sigs, cp.hash);
    SameMessage(pks, s, cp);
    OverAll(pks, sigs, s, cp);
  }

  lemma FlagsOfSubset(set_: ValidatorSet, signers: set<Id>)
    requires signers <= Members(set_) && Distinct(set_)
    ensures |SignerFlags(set_, signers)| == |signers|
  {
    var flags := SignerFlags(set_, signers);
    KeysMeans(set_, flags, |set_|);
    KeysCount(set_, flags, |set_|);
    assert flags == set i | i in flags && i < |set_|;
    var pks := SignerKeys(set_, flags);
    DistinctSize(pks);
    forall x | x in signers ensures x in Members(pks) {
      var i :| 0 <= i < |set_| && set_[i] == x;
      assert i in flags;
    }
    assert Members(pks) == signers;
  }

  /** A Mode 0 or Mode B certificate has 2f + 1 distinct signers, each with a stored
      verified partial; it passes verify_macro_qc exactly when those are all over the
      checkpoint at hand. */
  lemma Mode0Verifies(cp: Checkpoint, signers: set<Id>, sigs: SigBook, set_: ValidatorSet, mode: Mode)
    requires Distinct(set_) && SigsOk(set_, sigs) && signers <= Members(set_)
    requires Mode0Qc(cp.hash, signers, sigs, set_, mode).Some?
    ensures var qc := Mode0Qc(cp.hash, signers, sigs, set_, mode).value;
            && qc.hash == cp.hash && SelfMade(set_, qc, cp.hash, sigs)
            && (VerifyMacroQc(set_, qc, cp) <==> OverCheckpoint(set_, qc, sigs, cp))
  {
    hide SigsOk, VerifyMacroQc, OverCheckpoint;
    var qc := Mode0Qc(cp.hash, signers, sigs, set_, mode).value;
    FlagsOfSubset(set_, signers);
    AggregatedSigners(set_, SignerFlags(set_, signers), sigs, qc);
    AggregatedVerifies(set_, SignerFlags(set_, signers), sigs, cp, qc);
  }

  /** The same for Mode A: the union of the subnet bitmaps is counted. */
  lemma ModeAVerifies(cp: Checkpoint, aggs: map<nat, SubnetAgg>, sigs: SigBook, set_: ValidatorSet)
    requires Distinct(set_) && SigsOk(set_, sigs)
    requires ModeAQc(cp.hash, aggs, set_, sigs).Some?
    ensures var qc := ModeAQc(cp.hash, aggs, set_, sigs).value;
            && qc.hash == cp.hash && SelfMade(set_, qc, cp.hash, sigs)
            && (VerifyMacroQc(set_, qc, cp) <==> OverCheckpoint(set_, qc, sigs, cp))
  {
    hide SigsOk, VerifyMacroQc, OverCheckpoint;
    var qc := ModeAQc(cp.hash, aggs, set_, sigs).value;
    AggregatedSigners(set_, UnionFlags(aggs, |set_|), sigs, qc);
    AggregatedVerifies(set_, UnionFlags(aggs, |set_|), sigs, cp, qc);
  }

  /** What acceptance by verify_macro_qc means: every flagged validator signed this
      very checkpoint, and there is at least one. */
  lemma VerifiedQcMeans(set_: ValidatorSet, qc: MacroQc, cp: Checkpoint)
    requires Distinct(set_) && VerifyMacroQc(set_, qc, cp)
    ensures Signers(set_, qc) <= Members(set_) && Signers(set_, qc) != {}
    ensures forall v :: v in Signers(set_, qc) <==> PartialSig(v, cp) in qc.agg.sig.parts
  {
    var flags := Flags(qc.agg.bitmap, |set_|);
    var pks := SignerKeys(set_, flags);
    KeysMeans(set_, flags, |set_|);
    AggregateParts(pks, MACRO_CHECKPOINT, CheckpointMsg(cp), qc.agg.sig);
    assert pks[0] in Members(pks);
  }

  // The certificate by the flagged validators' own signatures.
  function Certify(set_: ValidatorSet, flags: set<nat>, cp: Checkpoint): MacroQc {
    MacroQc(cp.hash, Mode0Flat,
            AggBits(Aggregate(multiset(SignAll(SignerKeys(set_, flags), MACRO_CHECKPOINT, CheckpointMsg(cp)))),
                    FlagBytes(flags, |set_|, |set_|)))
  }

  /** Signers are not counted: whatever nonempty group of validators signed, its
      certificate is accepted. */
  lemma AnySignersAccepted(set_: ValidatorSet, flags: set<nat>, cp: Checkpoint)
    requires Distinct(set_) && flags != {} && forall i :: i in flags ==> i < |set_|
    ensures VerifyMacroQc(set_, Certify(set_, flags, cp), cp)
    ensures |Signers(set_, Certify(set_, flags, cp))| == |flags|
    ensures forall v :: v in Signers(set_, Certify(set_, flags, cp)) <==> exists i :: i in flags && set_[i] == v
    ensures forall x :: x in Certify(set_, flags, cp).agg.sig.parts ==>
              x.Signed? && x.signer in Signers(set_, Certify(set_, flags, cp)) && x == PartialSig(x.signer, cp)
  {
    var pks := SignerKeys(set_, flags);
    FlagsRoundTrip(flags, |set_|);
    KeysMeans(set_, flags, |set_|);
    KeysCount(set_, flags, |set_|);
    assert flags == set i | i in flags && i < |set_|;
    DistinctSize(pks);
    var all := SignAll(pks, MACRO_CHECKPOINT, CheckpointMsg(cp));
    assert forall x :: x in multiset(all) ==> x in all;
  }
}
