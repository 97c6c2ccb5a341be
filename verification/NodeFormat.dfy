/** The node's transaction types as bincode lays them out, and the SDK's agreement with them. */
module NodeFormat {
  import opened Bincode
  import opened Options
  import opened Transactions
  import opened Words

  // --- Layouts, in the node's declaration order ---

  function Opt(s: Shape): Shape { Tagged(1, [Unit, s]) }

  function BoolShape(): Shape { Tagged(1, [Unit, Unit]) }

  function VoteShape(): Shape { Tagged(4, [Unit, Unit, Unit]) }

  function RetentionShape(): Shape { Tagged(4, [Num(8), Unit]) }

  function CallShape(): Shape {
    Tagged(4, [Pair(Raw(32), Num(16)), Pair(Raw(32), Vec), Pair(Raw(32), Pair(Vec, Num(16)))])
  }

  function ConsensusVoteShape(): Shape { Pair(Num(8), Pair(Raw(32), Pair(Raw(32), Sized(64)))) }

  function EvidenceShape(): Shape { Pair(ConsensusVoteShape(), ConsensusVoteShape()) }

  // Fields of the payload variants, by declaration position.

  function LayoutFrom0(index: nat): Shape {
    match index
    case 0 => Pair(Raw(32), Num(16))
    case 1 => Pair(Raw(32), Vec)
    case 2 => Pair(Vec, Opt(Raw(32)))
    case 3 => Pair(Vec, Pair(Vec, Pair(Opt(Vec), Opt(Raw(32)))))
    case 4 => Pair(Vec, Pair(Vec, Pair(Opt(Vec), Pair(Opt(Vec), Pair(Opt(Vec), Opt(Raw(32)))))))
    case 5 => Num(16)
    case 6 => Num(16)
    case 7 => Unit
    case 8 => Pair(Raw(32), VoteShape())
    case 9 => Many(CallShape())
    case _ => Unit
  }

  function LayoutFrom10(index: nat): Shape {
    match index
    case 10 => Pair(Raw(32), Vec)
    case 11 => Raw(32)
    case 12 => Raw(32)
    case 13 => Raw(32)
    case 14 => Pair(Vec, Pair(Raw(32), Pair(Raw(32), Num(1))))
    case 15 => Pair(Vec, Num(1))
    case 16 => Pair(Vec, Raw(32))
    case 17 => Pair(Vec, Raw(32))
    case 18 => Opt(Vec)
    case 19 => Vec
    case _ => Unit
  }

  function LayoutFrom20(index: nat): Shape {
    match index
    case 20 => Pair(Raw(32), Pair(Vec, Num(16)))
    case 21 => Pair(RetentionShape(), Pair(Vec, Vec))
    case 22 => Pair(Raw(32), Pair(Num(4), Pair(RetentionShape(), Vec)))
    case 23 => Pair(Raw(32), Pair(Num(4), Num(8)))
    case 24 => Pair(Raw(32), Pair(Num(4), Num(4)))
    case 25 => Pair(Raw(32), Pair(Num(4), Pair(Num(4), Pair(Num(16), Num(8)))))
    case 26 => Pair(Raw(32), Pair(Num(4), Pair(Num(4), Raw(32))))
    case 27 => Pair(Raw(32), Num(4))
    case 28 => Pair(Raw(32), Pair(Num(4), Pair(Num(4), Raw(32))))
    case 29 => Pair(Raw(32), Pair(Num(4), Pair(Num(4), Pair(Raw(32), Pair(Raw(32), Pair(Raw(32), Many(Raw(32))))))))
    case _ => Unit
  }

  function LayoutFrom30(index: nat): Shape {
    match index
    case 30 => Pair(Num(8), Vec)
    case 31 => Pair(Num(8), BoolShape())
    case 32 => Pair(Num(8), Pair(BoolShape(), Raw(64)))
    case 33 => Pair(Num(8), Pair(BoolShape(), Pair(Vec, Pair(Raw(96), Many(Raw(48))))))
    case 34 => Pair(Raw(32), Raw(32))
    case 35 => Pair(Raw(32), Raw(32))
    case 36 => EvidenceShape()
    case 37 => Pair(Vec, Vec)
    case 38 => Pair(Num(8), BoolShape())
    case 39 => Num(8)
    case _ => Unit
  }

  function Layout(index: nat): Shape {
    if index < 10 then LayoutFrom0(index)
    else if index < 20 then LayoutFrom10(index)
    else if index < 30 then LayoutFrom20(index)
    else LayoutFrom30(index)
  }

  const VARIANTS: nat := 40

  function PayloadShape(): Shape { Tagged(4, seq(VARIANTS, (i: nat) => Layout(i))) }

  function AccountsShape(): Shape { Many(Raw(32)) }

  function TransactionShape(): Shape {
    Pair(Num(8), Pair(Raw(32), Pair(PayloadShape(), Pair(AccountsShape(), AccountsShape()))))
  }

  // --- The node's value for each SDK input ---

  /** Position of the variant of the same name in the node's enum. */
  function NodeIndex(p: Payload): nat {
    match p
    case Transfer(_, _) => 0
    case ContractCall(_, _) => 1
    case ContractDeploy(_, _) => 2
    case ContractDeployWithPurpose(_, _, _, _) => 3
    case ContractDeployWithPurposeAndMetadata(_, _, _, _, _, _) => 4
    case Bond(_) => 5
    case Unbond(_) => 6
    case ClaimUnbond => 7
    case QaPoolVote(_, _) => 8
    case Batch(_) => 9
    case ValidatorRegister(_, _) => 10
    case ValidatorDeregister(_) => 11
    case ValidatorUnjail(_) => 12
    case NameCommit(_) => 13
    case NameRegister(_, _, _, _) => 14
    case NameRenew(_, _) => 15
    case NameTransfer(_, _) => 16
    case NameSetTarget(_, _) => 17
    case NameSetPrimary(_) => 18
    case NameRelease(_) => 19
    case ContractCallWithValue(_, _, _) => 20
    case PutBlob(_, _, _) => 21
    case BlobAnnounce(_, _, _, _) => 22
    case RenewMediaBlobPin(_, _, _) => 23
    case PayBlobSample(_, _, _) => 24
    case RegisterBlobSampleOffer(_, _, _, _, _) => 25
    case SettleBlobSampleMatch(_, _, _, _) => 26
    case CancelBlobSampleOffer(_, _) => 27
    case ChallengeBlobSampleServe(_, _, _, _) => 28
    case RespondBlobSampleServe(_, _, _, _, _, _, _) => 29
    case SubmitSlashAppeal(_, _) => 30
    case ResolveSlashAppeal(_, _) => 31
    case ResolveSlashAppealAttested(_, _, _) => 32
    case ResolveSlashAppealBlsAggregate(_, _, _, _, _) => 33
    case GrantBlobDownload(_, _) => 34
    case RevokeBlobDownload(_, _) => 35
    case ReportEquivocation(_) => 36
    case GovernancePropose(_, _) => 37
    case GovernanceVote(_, _) => 38
    case GovernanceAdvanceCooling(_) => 39
  }

  function OptValue(o: Option<Buffer>): Value {
    match o
    case None => Variant(0, Nothing)
    case Some(b) => Variant(1, Blob(b))
  }

  function BoolValue(b: bool): Value { Variant(if b then 1 else 0, Nothing) }

  function VoteValue(v: Vote): Value {
    Variant(match v case Allow => 0 case Reject => 1 case Abstain => 2, Nothing)
  }

  function RetentionValue(r: Retention): Value {
    match r
    case Prunable(ttl) => Variant(0, Int(ttl))
    case Forever => Variant(1, Nothing)
  }

  function CallValue(c: Call): Value {
    match c
    case Transfer(to, amount) => Variant(0, Both(Blob(to), Int(amount)))
    case ContractCall(contract, calldata) => Variant(1, Both(Blob(contract), Blob(calldata)))
    case ContractCallWithValue(contract, calldata, value) =>
      Variant(2, Both(Blob(contract), Both(Blob(calldata), Int(value))))
  }

  function CallValues(cs: seq<Call>): (vs: seq<Value>)
    ensures |vs| == |cs|
  {
    if cs == [] then [] else [CallValue(cs[0])] + CallValues(cs[1..])
  }

  function Blobs(bs: seq<Bytes>): (vs: seq<Value>)
    ensures |vs| == |bs|
  {
    if bs == [] then [] else [Blob(bs[0])] + Blobs(bs[1..])
  }

  /** The two votes the evidence bytes stand for; bytes that are not two votes stand for nothing the node has. */
  function EvidenceValue(evidence: Bytes): Value {
    var r := Decode(EvidenceShape(), evidence);
    if r.Got? && r.rest == [] then r.value else Blob(evidence)
  }

  // --- Typed fields: a layout, a node value, SDK bytes and when the layout can hold the value ---

  datatype Part = Part(shape: Shape, value: Value, bytes: Bytes, ok: bool)

  function Then(a: Part, b: Part): Part {
    Part(Pair(a.shape, b.shape), Both(a.value, b.value), Join(a.bytes, b.bytes), a.ok && b.ok)
  }

  function Join(a: Bytes, b: Bytes): Bytes { a + b }

  predicate FitsU32(n: int) { 0 <= n < 0x1_0000_0000 }

  predicate FitsU64(n: int) { 0 <= n < U64 }

  function U8Field(n: int): Part { Part(Num(1), Int(n), LE(n, 1), 0 <= n < 256) }

  function U32Field(n: int): Part { Part(Num(4), Int(n), LE(n, 4), FitsU32(n)) }

  function U64Field(n: int): Part { Part(Num(8), Int(n), LE(n, 8), FitsU64(n)) }

  function U128Field(n: int): Part { Part(Num(16), Int(n), LE(n, 16), FitsU128(n)) }

  function Fixed(b: Bytes, n: nat): Part { Part(Raw(n), Blob(b), b, |b| == n) }

  function Buf(b: Buffer): Part { Part(Vec, Blob(b), EncodeByteVec(b), true) }

  function OptFixed(o: Option<Buffer>): Part {
    Part(Opt(Raw(32)), OptValue(o), EncodeOptionRaw(o), OptionSized(o, 32))
  }

  function OptBuf(o: Option<Buffer>): Part { Part(Opt(Vec), OptValue(o), EncodeOptionVec(o), true) }

  function Flag(b: bool): Part { Part(BoolShape(), BoolValue(b), EncodeBool(b), true) }

  function Ballot(v: Vote): Part { Part(VoteShape(), VoteValue(v), EncodeVote(v), true) }

  predicate RetentionOk(r: Retention) { r.Prunable? ==> FitsU64(r.ttlBlocks) }

  function Retained(r: Retention): Part {
    Part(RetentionShape(), RetentionValue(r), EncodeRetention(r), RetentionOk(r))
  }

  function FixedList(bs: Buffers, n: nat): Part {
    Part(Many(Raw(n)), List(Blobs(bs)), EncodeFixedList(bs), AllSized(bs, n))
  }

  function CallList(cs: Calls): Part {
    Part(Many(CallShape()), List(CallValues(cs)), LE(|cs|, 8) + EncodeCalls(cs), NodeCalls(cs))
  }

  /** Two 144-byte votes, each with its signature's length field at byte 72. */
  predicate EvidenceOk(e: Bytes) {
    |e| == 288 && e[72..80] == LE(64, 8) && e[216..224] == LE(64, 8)
  }

  function Evidence(e: Bytes): Part { Part(EvidenceShape(), EvidenceValue(e), e, EvidenceOk(e)) }

  function Empty(): Part { Part(Unit, Nothing, [], true) }

  function Fields(p: Payload): Part {
    match p
    case Transfer(to, amount) => Then(Fixed(to, 32), U128Field(amount))
    case ContractCall(contract, calldata) => Then(Fixed(contract, 32), Buf(calldata))
    case ContractDeploy(code, salt) => Then(Buf(code), OptFixed(salt))
    case ContractDeployWithPurpose(code, purpose, hash, salt) =>
      Then(Buf(code), Then(Buf(purpose), Then(OptBuf(hash), OptFixed(salt))))
    case ContractDeployWithPurposeAndMetadata(code, purpose, hash, name, symbol, salt) =>
      Then(Buf(code), Then(Buf(purpose), Then(OptBuf(hash), Then(OptBuf(name), Then(OptBuf(symbol), OptFixed(salt))))))
    case Bond(amount) => U128Field(amount)
    case Unbond(amount) => U128Field(amount)
    case ClaimUnbond => Empty()
    case QaPoolVote(subject, vote) => Then(Fixed(subject, 32), Ballot(vote))
    case Batch(calls) => CallList(calls)
    case ValidatorRegister(nodeId, sig) => Then(Fixed(nodeId, 32), Buf(sig))
    case ValidatorDeregister(nodeId) => Fixed(nodeId, 32)
    case ValidatorUnjail(nodeId) => Fixed(nodeId, 32)
    case NameCommit(commitment) => Fixed(commitment, 32)
    case NameRegister(name, salt, target, years) =>
      Then(Buf(name), Then(Fixed(salt, 32), Then(Fixed(target, 32), U8Field(years))))
    case NameRenew(name, years) => Then(Buf(name), U8Field(years))
    case NameTransfer(name, newOwner) => Then(Buf(name), Fixed(newOwner, 32))
    case NameSetTarget(name, target) => Then(Buf(name), Fixed(target, 32))
    case NameSetPrimary(name) => OptBuf(name)
    case NameRelease(name) => Buf(name)
    case ContractCallWithValue(contract, calldata, value) =>
      Then(Fixed(contract, 32), Then(Buf(calldata), U128Field(value)))
    case PutBlob(retention, contentType, data) => Then(Retained(retention), Then(Buf(contentType), Buf(data)))
    case BlobAnnounce(blobId, size, retention, contentType) =>
      Then(Fixed(blobId, 32), Then(U32Field(size), Then(Retained(retention), Buf(contentType))))
    case RenewMediaBlobPin(blobId, size, extend) => Then(Fixed(blobId, 32), Then(U32Field(size), U64Field(extend)))
    case PayBlobSample(blobId, index, count) => Then(Fixed(blobId, 32), Then(U32Field(index), U32Field(count)))
    case RegisterBlobSampleOffer(blobId, index, count, fee, expires) =>
      Then(Fixed(blobId, 32), Then(U32Field(index), Then(U32Field(count), Then(U128Field(fee), U64Field(expires)))))
    case SettleBlobSampleMatch(blobId, index, count, provider) =>
      Then(Fixed(blobId, 32), Then(U32Field(index), Then(U32Field(count), Fixed(provider, 32))))
    case CancelBlobSampleOffer(blobId, index) => Then(Fixed(blobId, 32), U32Field(index))
    case ChallengeBlobSampleServe(blobId, index, count, provider) =>
      Then(Fixed(blobId, 32), Then(U32Field(index), Then(U32Field(count), Fixed(provider, 32))))
    case RespondBlobSampleServe(blobId, index, count, challenger, hash, root, siblings) =>
      Then(Fixed(blobId, 32), Then(U32Field(index), Then(U32Field(count), Then(Fixed(challenger, 32),
      Then(Fixed(hash, 32), Then(Fixed(root, 32), FixedList(siblings, 32)))))))
    case SubmitSlashAppeal(slashId, appeal) => Then(U64Field(slashId), Buf(appeal))
    case ResolveSlashAppeal(appealId, approved) => Then(U64Field(appealId), Flag(approved))
    case ResolveSlashAppealAttested(appealId, approved, sig) =>
      Then(U64Field(appealId), Then(Flag(approved), Fixed(sig, 64)))
    case ResolveSlashAppealBlsAggregate(appealId, approved, bitset, sig, keys) =>
      Then(U64Field(appealId), Then(Flag(approved), Then(Buf(bitset), Then(Fixed(sig, 96), FixedList(keys, 48)))))
    case GrantBlobDownload(blobId, grantee) => Then(Fixed(blobId, 32), Fixed(grantee, 32))
    case RevokeBlobDownload(blobId, grantee) => Then(Fixed(blobId, 32), Fixed(grantee, 32))
    case ReportEquivocation(evidence) => Evidence(evidence)
    case GovernancePropose(key, value) => Then(Buf(key), Buf(value))
    case GovernanceVote(proposalId, approve) => Then(U64Field(proposalId), Flag(approve))
    case GovernanceAdvanceCooling(proposalId) => U64Field(proposalId)
  }

  function PayloadValue(p: Payload): Value { Variant(NodeIndex(p), Fields(p).value) }

  function TransactionValue(tx: Transaction): Value {
    Both(Int(tx.nonce), Both(Blob(tx.sender),
         Both(PayloadValue(tx.payload), Both(List(Blobs(tx.read)), List(Blobs(tx.write))))))
  }

  // --- What a caller must check beyond what the SDK checks ---

  predicate Canonical(p: Payload) {
    match p
    case Transfer(to, _) => |to| == 32
    case ContractCall(contract, _) => |contract| == 32
    case PutBlob(retention, _, _) => RetentionOk(retention)
    case BlobAnnounce(_, size, retention, _) => FitsU32(size) && RetentionOk(retention)
    case RenewMediaBlobPin(_, size, extend) => FitsU32(size) && FitsU64(extend)
    case PayBlobSample(_, index, count) => FitsU32(index) && FitsU32(count)
    case RegisterBlobSampleOffer(_, index, count, fee, expires) =>
      FitsU32(index) && FitsU32(count) && FitsU128(fee) && FitsU64(expires)
    case SettleBlobSampleMatch(_, index, count, _) => FitsU32(index) && FitsU32(count)
    case CancelBlobSampleOffer(_, index) => FitsU32(index)
    case ChallengeBlobSampleServe(_, index, count, _) => FitsU32(index) && FitsU32(count)
    case RespondBlobSampleServe(_, index, count, _, _, _, _) => FitsU32(index) && FitsU32(count)
    case SubmitSlashAppeal(slashId, _) => FitsU64(slashId)
    case ResolveSlashAppeal(appealId, _) => FitsU64(appealId)
    case ResolveSlashAppealAttested(appealId, _, _) => FitsU64(appealId)
    case ResolveSlashAppealBlsAggregate(appealId, _, _, _, _) => FitsU64(appealId)
    case ReportEquivocation(evidence) => EvidenceOk(evidence)
    case GovernanceVote(proposalId, _) => FitsU64(proposalId)
    case GovernanceAdvanceCooling(proposalId) => FitsU64(proposalId)
    case _ => true
  }

  predicate CanonicalTransaction(tx: Transaction) {
    FitsU64(tx.nonce) && Canonical(tx.payload)
  }

  /** When the layout of each kind of field can hold it. */
  lemma PartsOk()
    ensures forall a: Part, b: Part {:trigger Then(a, b)} :: Then(a, b).ok <==> a.ok && b.ok
    ensures forall n :: U8Field(n).ok <==> 0 <= n < 256
    ensures forall n :: U32Field(n).ok <==> FitsU32(n)
    ensures forall n :: U64Field(n).ok <==> FitsU64(n)
    ensures forall n :: U128Field(n).ok <==> FitsU128(n)
    ensures forall b: Bytes, n: nat :: Fixed(b, n).ok <==> |b| == n
    ensures forall b: Buffer :: Buf(b).ok
    ensures forall o: Option<Buffer> :: OptFixed(o).ok <==> OptionSized(o, 32)
    ensures forall o: Option<Buffer> :: OptBuf(o).ok
    ensures forall b: bool :: Flag(b).ok
    ensures forall v: Vote :: Ballot(v).ok
    ensures forall r: Retention :: Retained(r).ok <==> RetentionOk(r)
    ensures forall bs: Buffers, n: nat :: FixedList(bs, n).ok <==> AllSized(bs, n)
    ensures forall cs: Calls :: CallList(cs).ok <==> NodeCalls(cs)
    ensures forall e: Bytes :: Evidence(e).ok <==> EvidenceOk(e)
    ensures Empty().ok
  {
  }

  // --- Every part is laid out as the node expects ---

  /** The layout holds the value exactly when ok, and then writes exactly these bytes for it. */
  ghost predicate Sound(p: Part) {
    && (Fits(p.shape, p.value) <==> p.ok)
    && (Fits(p.shape, p.value) ==> Encode(p.shape, p.value) == p.bytes)
  }

  lemma ThenIsSound()
    ensures forall a, b {:trigger Then(a, b)} :: Sound(a) && Sound(b) ==> Sound(Then(a, b))
  {
    forall a, b ensures Sound(a) && Sound(b) ==> Sound(Then(a, b)) {
      var s, v := Then(a, b).shape, Then(a, b).value;
      assert Fits(s, v) <==> Fits(a.shape, a.value) && Fits(b.shape, b.value);
      if Fits(s, v) {
        assert Encode(s, v) == Encode(a.shape, a.value) + Encode(b.shape, b.value);
      }
    }
  }

  lemma Powers()
    ensures Pow256(1) == 256 && Pow256(4) == 0x1_0000_0000 && Pow256(8) == U64 && Pow256(16) == U128
    ensures BUFFER_LIMIT < U64 && LIST_LIMIT < U64
  {
    hide Pow256;
    Pow256Of4();
    Pow256Adds(4, 4);
    Pow256Of1();
  }

  lemma NumbersAreSound()
    ensures forall n :: Sound(U8Field(n))
    ensures forall n :: Sound(U32Field(n))
    ensures forall n :: Sound(U64Field(n))
    ensures forall n :: Sound(U128Field(n))
  {
    Powers();
    hide Pow256, LE;
  }

  lemma BuffersAreSound()
    ensures forall b, n: nat :: Sound(Fixed(b, n))
    ensures forall b :: Sound(Buf(b))
    ensures Sound(Empty())
  {
    Powers();
    hide Pow256, LE;
  }

  /** A tagged value is laid out as its tag, then the variant's fields. */
  lemma TagIsSound(w: nat, variants: seq<Shape>, tag: nat, p: Part)
    requires tag < |variants| && tag < Pow256(w) && p.shape == variants[tag] && Sound(p)
    ensures Sound(Part(Tagged(w, variants), Variant(tag, p.value), LE(tag, w) + p.bytes, p.ok))
  {
  }

  lemma TagByte(tag: Byte)
    ensures LE(tag, 1) == [tag]
  {
    assert LE(tag / 256, 0) == [];
  }

  lemma OptionIsSound(o: Option<Buffer>)
    ensures Sound(OptFixed(o)) && Sound(OptBuf(o))
  {
    Powers();
    BuffersAreSound();
    TagByte(0);
    TagByte(1);
    match o
    case None =>
      TagIsSound(1, [Unit, Raw(32)], 0, Empty());
      TagIsSound(1, [Unit, Vec], 0, Empty());
    case Some(b) =>
      TagIsSound(1, [Unit, Raw(32)], 1, Fixed(b, 32));
      TagIsSound(1, [Unit, Vec], 1, Buf(b));
  }

  lemma FlagIsSound(b: bool)
    ensures Sound(Flag(b))
  {
    Powers();
    BuffersAreSound();
    TagByte(if b then 1 else 0);
    hide LE, Pow256;
    TagIsSound(1, [Unit, Unit], if b then 1 else 0, Empty());
  }

  lemma BallotIsSound(v: Vote)
    ensures Sound(Ballot(v))
  {
    Powers();
    BuffersAreSound();
    hide LE, Pow256;
    TagIsSound(4, [Unit, Unit, Unit], VoteValue(v).tag, Empty());
    assert LE(VoteValue(v).tag, 4) + [] == LE(VoteValue(v).tag, 4);
  }

  lemma RetentionIsSound(r: Retention)
    ensures Sound(Retained(r))
  {
    Powers();
    BuffersAreSound();
    NumbersAreSound();
    hide LE, Pow256;
    match r
    case Prunable(ttl) =>
      TagIsSound(4, [Num(8), Unit], 0, U64Field(ttl));
    case Forever =>
      TagIsSound(4, [Num(8), Unit], 1, Empty());
      assert LE(1, 4) + [] == LE(1, 4);
  }

  lemma {:induction false} BlobsAreSound(bs: seq<Bytes>, n: nat)
    ensures FitsAll(Raw(n), Blobs(bs)) <==> AllSized(bs, n)
    ensures AllSized(bs, n) ==> EncodeAll(Raw(n), Blobs(bs)) == Concat(bs)
  {
    if bs != [] {
      BlobsAreSound(bs[1..], n);
      assert Blobs(bs)[0] == Blob(bs[0]) && Blobs(bs)[1..] == Blobs(bs[1..]);
      assert AllSized(bs, n) <==> |bs[0]| == n && AllSized(bs[1..], n);
    }
  }

  lemma ListIsSound(bs: Buffers, n: nat)
    ensures Sound(FixedList(bs, n))
  {
    Powers();
    BlobsAreSound(bs, n);
    hide Pow256, LE, FitsAll, EncodeAll, AllSized, Concat;
  }

  lemma CallIsSound(c: Call)
    ensures Sound(Part(CallShape(), CallValue(c), EncodeCall(c), NodeCall(c)))
  {
    Powers();
    NumbersAreSound();
    BuffersAreSound();
    ThenIsSound();
    hide Sound, LE, Pow256;
    match c
    case Transfer(to, amount) =>
      TagIsSound(4, CallShape().variants, 0, Then(Fixed(to, 32), U128Field(amount)));
    case ContractCall(contract, calldata) =>
      TagIsSound(4, CallShape().variants, 1, Then(Fixed(contract, 32), Buf(calldata)));
    case ContractCallWithValue(contract, calldata, value) =>
      TagIsSound(4, CallShape().variants, 2, Then(Fixed(contract, 32), Then(Buf(calldata), U128Field(value))));
  }

  lemma {:induction false} CallsAreSound(cs: seq<Call>)
    ensures FitsAll(CallShape(), CallValues(cs)) <==> NodeCalls(cs)
    ensures NodeCalls(cs) ==> EncodeAll(CallShape(), CallValues(cs)) == EncodeCalls(cs)
  {
    hide EncodeCall, CallShape, NodeCall;
    if cs != [] {
      CallIsSound(cs[0]);
      CallsAreSound(cs[1..]);
      assert CallValues(cs)[0] == CallValue(cs[0]) && CallValues(cs)[1..] == CallValues(cs[1..]);
      assert NodeCalls(cs) <==> NodeCall(cs[0]) && NodeCalls(cs[1..]);
    }
  }

  lemma CallListIsSound(cs: Calls)
    ensures Sound(CallList(cs))
  {
    Powers();
    CallsAreSound(cs);
    hide Pow256, LE, FitsAll, EncodeAll, EncodeCalls, NodeCalls, CallShape;
  }

  // --- Equivocation evidence ---

  function VotePart(b: Bytes): Part
    requires |b| == 144
  {
    Then(U64Field(Number(b[..8])), Then(Fixed(b[8..40], 32), Then(Fixed(b[40..72], 32), SignaturePart(b[80..]))))
  }

  function SignaturePart(sig: Bytes): Part { Part(Sized(64), Blob(sig), LE(64, 8) + sig, |sig| == 64) }

  lemma SignatureIsSound(sig: Bytes)
    ensures Sound(SignaturePart(sig))
  {
    Powers();
    hide Pow256, LE;
  }

  lemma VoteIsSound(b: Bytes)
    requires |b| == 144 && b[72..80] == LE(64, 8)
    ensures VotePart(b).ok && Sound(VotePart(b)) && VotePart(b).bytes == b && VotePart(b).shape == ConsensusVoteShape()
  {
    NumbersAreSound();
    BuffersAreSound();
    ThenIsSound();
    SignatureIsSound(b[80..]);
    LEOfNumber(b[..8]);
    Powers();
    hide Sound, LE, Pow256, Number;
    VoteFields(b);
  }

  lemma CutAt(b: Bytes, i: nat, j: nat)
    requires i <= j <= |b|
    ensures b[i..] == b[i..j] + b[j..]
  {
  }

  lemma VoteFields(b: Bytes)
    requires |b| == 144
    ensures b == b[..8] + (b[8..40] + (b[40..72] + (b[72..80] + b[80..])))
  {
    assert b == b[..8] + b[8..];
    CutAt(b, 8, 40);
    CutAt(b, 40, 72);
    CutAt(b, 72, 80);
  }

  lemma SplitVotes(e: Bytes)
    requires |e| == 288
    ensures var a, b := e[..144], e[144..]; e == a + b && a[72..80] == e[72..80] && b[72..80] == e[216..224]
  {
    var b := e[144..];
    forall i | 0 <= i < 8 ensures b[72..80][i] == e[216..224][i] {
      assert b[72 + i] == e[216 + i];
    }
  }

  /** Evidence bytes that pass the check are the encoding of two votes. */
  lemma EvidenceDecodes(e: Bytes)
    requires EvidenceOk(e)
    ensures var v := EvidenceValue(e); Fits(EvidenceShape(), v) && Encode(EvidenceShape(), v) == e
  {
    hide LE;
    var a, b := e[..144], e[144..];
    SplitVotes(e);
    VoteIsSound(a);
    VoteIsSound(b);
    TwoVotesDecode(VotePart(a), VotePart(b));
  }

  lemma TwoVotesDecode(a: Part, b: Part)
    requires Sound(a) && Sound(b) && a.ok && b.ok && a.shape == b.shape == ConsensusVoteShape()
    ensures var s, e := EvidenceShape(), a.bytes + b.bytes;
            var v := EvidenceValue(e);
            Fits(s, v) && Encode(s, v) == e
  {
    hide ConsensusVoteShape, Decode;
    var v, e := Both(a.value, b.value), a.bytes + b.bytes;
    assert Fits(EvidenceShape(), v) && Encode(EvidenceShape(), v) == e == e + [];
    RoundTrip(EvidenceShape(), v, []);
  }

  lemma VoteBytes(v: Value)
    requires Fits(ConsensusVoteShape(), v)
    ensures var b := Encode(ConsensusVoteShape(), v); |b| == 144 && b[72..80] == LE(64, 8)
  {
    hide LE, Pow256;
    var hash, voter, sig := v.second.first, v.second.second.first, v.second.second.second;
    var s2 := Pair(Raw(32), Sized(64));
    var s1 := Pair(Raw(32), s2);
    assert Fits(s1, v.second) && Fits(s2, v.second.second) && Fits(Sized(64), sig);
    assert Encode(ConsensusVoteShape(), v) == Encode(Num(8), v.first) + Encode(s1, v.second);
    assert Encode(s1, v.second) == hash.bytes + Encode(s2, v.second.second);
    assert Encode(s2, v.second.second) == voter.bytes + (LE(64, 8) + sig.bytes);
  }

  /** Evidence bytes that stand for two votes pass the check. */
  lemma EvidenceFits(e: Bytes)
    requires Fits(EvidenceShape(), EvidenceValue(e))
    ensures EvidenceOk(e)
  {
    hide ConsensusVoteShape, LE, Decode;
    DecodeIsSound(EvidenceShape(), e);
    var v := EvidenceValue(e);
    VoteBytes(v.first);
    VoteBytes(v.second);
    assert e == Encode(EvidenceShape(), v) == Encode(ConsensusVoteShape(), v.first) + Encode(ConsensusVoteShape(), v.second);
    TwoVotes(Encode(ConsensusVoteShape(), v.first), Encode(ConsensusVoteShape(), v.second));
  }

  lemma TwoVotes(a: Bytes, b: Bytes)
    requires |a| == |b| == 144 && a[72..80] == b[72..80] == LE(64, 8)
    ensures EvidenceOk(a + b)
  {
    hide LE;
    assert (a + b)[72..80] == a[72..80] && (a + b)[216..224] == b[72..80];
  }

  lemma EvidenceIsSound(e: Bytes)
    ensures Sound(Evidence(e))
  {
    if EvidenceOk(e) {
      EvidenceDecodes(e);
    } else if Fits(EvidenceShape(), EvidenceValue(e)) {
      EvidenceFits(e);
    }
  }

  // --- Payloads and transactions ---

  lemma EveryPartIsSound()
    ensures forall o :: Sound(OptFixed(o))
    ensures forall o :: Sound(OptBuf(o))
    ensures forall b :: Sound(Flag(b))
    ensures forall v :: Sound(Ballot(v))
    ensures forall r :: Sound(Retained(r))
    ensures forall bs, n: nat :: Sound(FixedList(bs, n))
    ensures forall cs :: Sound(CallList(cs))
    ensures forall e :: Sound(Evidence(e))
  {
    forall o: Option<Buffer> { OptionIsSound(o); }
    forall b { FlagIsSound(b); }
    forall v { BallotIsSound(v); }
    forall r { RetentionIsSound(r); }
    forall bs: Buffers, n: nat { ListIsSound(bs, n); }
    forall cs: Calls { CallListIsSound(cs); }
    forall e: Bytes { EvidenceIsSound(e); }
    hide Sound;
  }

  lemma FieldsAreSound(p: Payload)
    ensures Sound(Fields(p))
  {
    NumbersAreSound();
    BuffersAreSound();
    EveryPartIsSound();
    ThenIsSound();
    hide Sound, Then, U8Field, U32Field, U64Field, U128Field, Fixed, Buf, OptFixed, OptBuf, Flag, Ballot, Retained;
    hide FixedList, CallList, Evidence, Empty;
  }

  lemma SameDiscriminant(p: Payload)
    ensures Discriminant(p) == NodeIndex(p) < VARIANTS
  {
  }

  // The SDK writes, field for field, what the node declares at the same position.

  lemma SameLayoutFrom0(p: Payload)
    requires 0 <= NodeIndex(p) < 10
    ensures Fields(p).shape == Layout(NodeIndex(p))
  {
    hide Join, Blobs, CallValues, EvidenceValue, OptValue, BoolValue, VoteValue, RetentionValue, LE, EncodeCalls;
    hide EncodeOptionRaw, EncodeOptionVec, EncodeRetention, EncodeVote, EncodeBool, EncodeFixedList, EncodeByteVec;
    hide AllSized, NodeCalls, EvidenceOk, RetentionOk, OptionSized, FitsU32, FitsU64, FitsU128;
    hide Opt, BoolShape, VoteShape, RetentionShape, CallShape, EvidenceShape;
  }

  lemma SameLayoutFrom10(p: Payload)
    requires 10 <= NodeIndex(p) < 20
    ensures Fields(p).shape == Layout(NodeIndex(p))
  {
    hide Join, Blobs, CallValues, EvidenceValue, OptValue, BoolValue, VoteValue, RetentionValue, LE, EncodeCalls;
    hide EncodeOptionRaw, EncodeOptionVec, EncodeRetention, EncodeVote, EncodeBool, EncodeFixedList, EncodeByteVec;
    hide AllSized, NodeCalls, EvidenceOk, RetentionOk, OptionSized, FitsU32, FitsU64, FitsU128;
    hide Opt, BoolShape, VoteShape, RetentionShape, CallShape, EvidenceShape;
  }

  lemma SameLayoutFrom20(p: Payload)
    requires 20 <= NodeIndex(p) < 25
    ensures Fields(p).shape == Layout(NodeIndex(p))
  {
    hide Join, Blobs, CallValues, EvidenceValue, OptValue, BoolValue, VoteValue, RetentionValue, LE, EncodeCalls;
    hide EncodeOptionRaw, EncodeOptionVec, EncodeRetention, EncodeVote, EncodeBool, EncodeFixedList, EncodeByteVec;
    hide AllSized, NodeCalls, EvidenceOk, RetentionOk, OptionSized, FitsU32, FitsU64, FitsU128;
    hide Opt, BoolShape, VoteShape, RetentionShape, CallShape, EvidenceShape;
  }

  lemma SameLayoutFrom25(p: Payload)
    requires 25 <= NodeIndex(p) < 30
    ensures Fields(p).shape == Layout(NodeIndex(p))
  {
    hide Join, Blobs, CallValues, EvidenceValue, OptValue, BoolValue, VoteValue, RetentionValue, LE, EncodeCalls;
    hide EncodeOptionRaw, EncodeOptionVec, EncodeRetention, EncodeVote, EncodeBool, EncodeFixedList, EncodeByteVec;
    hide AllSized, NodeCalls, EvidenceOk, RetentionOk, OptionSized, FitsU32, FitsU64, FitsU128;
    hide Opt, BoolShape, VoteShape, RetentionShape, CallShape, EvidenceShape;
  }

  lemma SameLayoutFrom30(p: Payload)
    requires 30 <= NodeIndex(p) < 40
    ensures Fields(p).shape == Layout(NodeIndex(p))
  {
    hide Join, Blobs, CallValues, EvidenceValue, OptValue, BoolValue, VoteValue, RetentionValue, LE, EncodeCalls;
    hide EncodeOptionRaw, EncodeOptionVec, EncodeRetention, EncodeVote, EncodeBool, EncodeFixedList, EncodeByteVec;
    hide AllSized, NodeCalls, EvidenceOk, RetentionOk, OptionSized, FitsU32, FitsU64, FitsU128;
    hide Opt, BoolShape, VoteShape, RetentionShape, CallShape, EvidenceShape;
  }

  lemma SameLayout(p: Payload)
    ensures Fields(p).shape == Layout(NodeIndex(p))
  {
    var k := NodeIndex(p);
    SameDiscriminant(p);
    hide Fields, Layout, NodeIndex;
    if k < 10 { SameLayoutFrom0(p); } else if k < 20 { SameLayoutFrom10(p); }
    else if k < 25 { SameLayoutFrom20(p); } else if k < 30 { SameLayoutFrom25(p); }
    else { SameLayoutFrom30(p); }
  }

  lemma SameBytesFrom0(p: Payload)
    requires 0 <= NodeIndex(p) < 20
    ensures Fields(p).bytes == FieldBytes(p)
  {
    hide Blobs, CallValues, EvidenceValue, OptValue, BoolValue, VoteValue, RetentionValue, LE, EncodeCalls;
    hide EncodeOptionRaw, EncodeOptionVec, EncodeRetention, EncodeVote, EncodeBool, EncodeFixedList, EncodeByteVec;
    hide AllSized, NodeCalls, EvidenceOk, RetentionOk, OptionSized, FitsU32, FitsU64, FitsU128;
    hide Opt, BoolShape, VoteShape, RetentionShape, CallShape, EvidenceShape;
  }

  lemma SameBytesFrom20(p: Payload)
    requires 20 <= NodeIndex(p) < 40
    ensures Fields(p).bytes == FieldBytes(p)
  {
    hide Blobs, CallValues, EvidenceValue, OptValue, BoolValue, VoteValue, RetentionValue, LE, EncodeCalls;
    hide EncodeOptionRaw, EncodeOptionVec, EncodeRetention, EncodeVote, EncodeBool, EncodeFixedList, EncodeByteVec;
    hide AllSized, NodeCalls, EvidenceOk, RetentionOk, OptionSized, FitsU32, FitsU64, FitsU128;
    hide Opt, BoolShape, VoteShape, RetentionShape, CallShape, EvidenceShape;
  }

  lemma AcceptedBatch(cs: Calls)
    requires BatchError(cs) == None && forall i :: 0 <= i < |cs| ==> CallAccepted(cs[i])
    ensures NodeCalls(cs)
  {
    forall i | 0 <= i < |cs| ensures NodeCall(cs[i]) {
      BatchAmountsFit(cs, i);
      hide BatchError;
    }
  }

  lemma AcceptedFieldsFitFrom0(p: Payload)
    requires Accepted(p) && 0 <= NodeIndex(p) < 20
    ensures Fields(p).ok <==> Canonical(p)
  {
    if p.Batch? {
      AcceptedBatch(p.calls);
    }
    PartsOk();
    hide BatchError, CallAccepted, NodeCalls, Total, TotalCalldata, EvidenceOk, AllSized, OptionSized, FitsU128;
    hide Then, U8Field, U32Field, U64Field, U128Field, Fixed, Buf, OptFixed, OptBuf, Flag, Ballot, Retained;
    hide FixedList, CallList, Evidence, Empty;
  }

  lemma AcceptedFieldsFitFrom20(p: Payload)
    requires Accepted(p) && 20 <= NodeIndex(p) < 40
    ensures Fields(p).ok <==> Canonical(p)
  {
    PartsOk();
    hide BatchError, CallAccepted, NodeCalls, Total, TotalCalldata, EvidenceOk, AllSized, OptionSized, FitsU128;
    hide Then, U8Field, U32Field, U64Field, U128Field, Fixed, Buf, OptFixed, OptBuf, Flag, Ballot, Retained;
    hide FixedList, CallList, Evidence, Empty;
  }

  // --- Which payloads the SDK takes ---

  /** What the SDK asks of a payload beyond what the node's types say. */
  predicate SdkRules(p: Payload) {
    match p
    case Batch(calls) => 1 <= |calls| <= 16 && Total(calls) < U128 && TotalCalldata(calls) <= 65_536
    case NameRegister(_, _, _, years) => 1 <= years <= 10
    case NameRenew(_, years) => 1 <= years <= 10
    case ValidatorRegister(_, signature) => |signature| == 64
    case _ => true
  }

  const ZERO_ID: Buffer := LE(0, 32)

  /** Two votes of zeros, with the length fields of their signatures. */
  const ZERO_EVIDENCE: Buffer := (LE(0, 72) + (LE(64, 8) + LE(0, 64))) + (LE(0, 72) + (LE(64, 8) + LE(0, 64)))

  /** The payload with every field the SDK writes without looking at it set to zero. */
  function Checked(p: Payload): Payload {
    match p
    case Transfer(_, amount) => Payload.Transfer(ZERO_ID, amount)
    case ContractCall(_, calldata) => Payload.ContractCall(ZERO_ID, calldata)
    case PutBlob(_, contentType, data) => PutBlob(Forever, contentType, data)
    case BlobAnnounce(id, _, _, contentType) => BlobAnnounce(id, 0, Forever, contentType)
    case RenewMediaBlobPin(id, _, _) => RenewMediaBlobPin(id, 0, 0)
    case PayBlobSample(id, _, _) => PayBlobSample(id, 0, 0)
    case RegisterBlobSampleOffer(id, _, _, _, _) => RegisterBlobSampleOffer(id, 0, 0, 0, 0)
    case SettleBlobSampleMatch(id, _, _, provider) => SettleBlobSampleMatch(id, 0, 0, provider)
    case CancelBlobSampleOffer(id, _) => CancelBlobSampleOffer(id, 0)
    case ChallengeBlobSampleServe(id, _, _, provider) => ChallengeBlobSampleServe(id, 0, 0, provider)
    case RespondBlobSampleServe(id, _, _, challenger, hash, root, siblings) =>
      RespondBlobSampleServe(id, 0, 0, challenger, hash, root, siblings)
    case SubmitSlashAppeal(_, appeal) => SubmitSlashAppeal(0, appeal)
    case ResolveSlashAppeal(_, approved) => ResolveSlashAppeal(0, approved)
    case ResolveSlashAppealAttested(_, approved, signature) => ResolveSlashAppealAttested(0, approved, signature)
    case ResolveSlashAppealBlsAggregate(_, approved, bitset, signature, keys) =>
      ResolveSlashAppealBlsAggregate(0, approved, bitset, signature, keys)
    case ReportEquivocation(_) => ReportEquivocation(ZERO_EVIDENCE)
    case GovernanceVote(_, approve) => GovernanceVote(0, approve)
    case GovernanceAdvanceCooling(_) => GovernanceAdvanceCooling(0)
    case _ => p
  }

  lemma ZeroEvidenceOk()
    ensures EvidenceOk(ZERO_EVIDENCE)
  {
    hide LE;
    var half := LE(0, 72) + (LE(64, 8) + LE(0, 64));
    assert half[72..80] == LE(64, 8);
    assert ZERO_EVIDENCE[72..80] == half[72..80] && ZERO_EVIDENCE[216..224] == half[72..80];
  }

  /** The SDK takes exactly the batches that the node can hold and its rules allow. */
  lemma BatchAcceptedIff(cs: Calls)
    ensures BatchError(cs) == None && (forall i :: 0 <= i < |cs| ==> CallAccepted(cs[i])) <==>
            NodeCalls(cs) && 1 <= |cs| <= 16 && Total(cs) < U128 && TotalCalldata(cs) <= 65_536
  {
    if BatchError(cs) == None && forall i :: 0 <= i < |cs| ==> CallAccepted(cs[i]) {
      AcceptedBatch(cs);
    }
    if NodeCalls(cs) {
      NodeCallsHaveNoProblem(cs);
    }
  }

  lemma AcceptedIffFrom0(p: Payload)
    requires 0 <= NodeIndex(p) < 5
    ensures Accepted(p) <==> SdkRules(p) && Fields(Checked(p)).ok
    ensures Fields(p).ok ==> Fields(Checked(p)).ok
  {
    PartsOk();
    hide BatchError, CallAccepted, NodeCalls, Total, TotalCalldata, EvidenceOk, AllSized, OptionSized, FitsU128;
    hide Then, U8Field, U32Field, U64Field, U128Field, Fixed, Buf, OptFixed, OptBuf, Flag, Ballot, Retained;
    hide FixedList, CallList, Evidence, Empty;
  }

  lemma AcceptedIffFrom5(p: Payload)
    requires 5 <= NodeIndex(p) < 10
    ensures Accepted(p) <==> SdkRules(p) && Fields(Checked(p)).ok
    ensures Fields(p).ok ==> Fields(Checked(p)).ok
  {
    if p.Batch? { BatchAcceptedIff(p.calls); }
    PartsOk();
    hide BatchError, CallAccepted, NodeCalls, Total, TotalCalldata, EvidenceOk, AllSized, OptionSized, FitsU128;
    hide Then, U8Field, U32Field, U64Field, U128Field, Fixed, Buf, OptFixed, OptBuf, Flag, Ballot, Retained;
    hide FixedList, CallList, Evidence, Empty;
  }

  lemma AcceptedIffFrom10(p: Payload)
    requires 10 <= NodeIndex(p) < 15
    ensures Accepted(p) <==> SdkRules(p) && Fields(Checked(p)).ok
    ensures Fields(p).ok ==> Fields(Checked(p)).ok
  {
    PartsOk();
    hide BatchError, CallAccepted, NodeCalls, Total, TotalCalldata, EvidenceOk, AllSized, OptionSized, FitsU128;
    hide Then, U8Field, U32Field, U64Field, U128Field, Fixed, Buf, OptFixed, OptBuf, Flag, Ballot, Retained;
    hide FixedList, CallList, Evidence, Empty;
  }

  lemma AcceptedIffFrom15(p: Payload)
    requires 15 <= NodeIndex(p) < 20
    ensures Accepted(p) <==> SdkRules(p) && Fields(Checked(p)).ok
    ensures Fields(p).ok ==> Fields(Checked(p)).ok
  {
    PartsOk();
    hide BatchError, CallAccepted, NodeCalls, Total, TotalCalldata, EvidenceOk, AllSized, OptionSized, FitsU128;
    hide Then, U8Field, U32Field, U64Field, U128Field, Fixed, Buf, OptFixed, OptBuf, Flag, Ballot, Retained;
    hide FixedList, CallList, Evidence, Empty;
  }

  lemma SmallFits()
    ensures FitsU128(0) && FitsU64(0) && FitsU32(0)
  {
  }

  lemma AcceptedIffFrom20(p: Payload)
    requires 20 <= NodeIndex(p) < 25
    ensures Accepted(p) <==> SdkRules(p) && Fields(Checked(p)).ok
    ensures Fields(p).ok ==> Fields(Checked(p)).ok
  {
    SmallFits();
    PartsOk();
    hide BatchError, CallAccepted, NodeCalls, Total, TotalCalldata, EvidenceOk, AllSized, OptionSized, FitsU128;
    hide Then, U8Field, U32Field, U64Field, U128Field, Fixed, Buf, OptFixed, OptBuf, Flag, Ballot, Retained;
    hide FixedList, CallList, Evidence, Empty;
  }

  lemma AcceptedIffFrom25(p: Payload)
    requires 25 <= NodeIndex(p) < 30
    ensures Accepted(p) <==> SdkRules(p) && Fields(Checked(p)).ok
    ensures Fields(p).ok ==> Fields(Checked(p)).ok
  {
    SmallFits();
    PartsOk();
    hide BatchError, CallAccepted, NodeCalls, Total, TotalCalldata, EvidenceOk, AllSized, OptionSized, FitsU128;
    hide Then, U8Field, U32Field, U64Field, U128Field, Fixed, Buf, OptFixed, OptBuf, Flag, Ballot, Retained;
    hide FixedList, CallList, Evidence, Empty;
  }

  lemma AcceptedIffFrom30(p: Payload)
    requires 30 <= NodeIndex(p) < 35
    ensures Accepted(p) <==> SdkRules(p) && Fields(Checked(p)).ok
    ensures Fields(p).ok ==> Fields(Checked(p)).ok
  {
    PartsOk();
    hide BatchError, CallAccepted, NodeCalls, Total, TotalCalldata, EvidenceOk, AllSized, OptionSized, FitsU128;
    hide Then, U8Field, U32Field, U64Field, U128Field, Fixed, Buf, OptFixed, OptBuf, Flag, Ballot, Retained;
    hide FixedList, CallList, Evidence, Empty;
  }

  lemma AcceptedIffFrom35(p: Payload)
    requires 35 <= NodeIndex(p) < 40
    ensures Accepted(p) <==> SdkRules(p) && Fields(Checked(p)).ok
    ensures Fields(p).ok ==> Fields(Checked(p)).ok
  {
    ZeroEvidenceOk();
    PartsOk();
    hide BatchError, CallAccepted, NodeCalls, Total, TotalCalldata, EvidenceOk, AllSized, OptionSized, FitsU128;
    hide Then, U8Field, U32Field, U64Field, U128Field, Fixed, Buf, OptFixed, OptBuf, Flag, Ballot, Retained;
    hide FixedList, CallList, Evidence, Empty;
  }

  /** The SDK takes a payload exactly when its rules allow it and the node can hold every field the SDK looks at. */
  lemma AcceptedIff(p: Payload)
    ensures Accepted(p) <==> SdkRules(p) && Fields(Checked(p)).ok
    ensures Fields(p).ok ==> Fields(Checked(p)).ok
  {
    var k := NodeIndex(p);
    SameDiscriminant(p);
    hide Fields, Checked, NodeIndex, Accepted, SdkRules;
    if k < 5 { AcceptedIffFrom0(p); } else if k < 10 { AcceptedIffFrom5(p); }
    else if k < 15 { AcceptedIffFrom10(p); } else if k < 20 { AcceptedIffFrom15(p); }
    else if k < 25 { AcceptedIffFrom20(p); } else if k < 30 { AcceptedIffFrom25(p); }
    else if k < 35 { AcceptedIffFrom30(p); } else { AcceptedIffFrom35(p); }
  }

  /**
   The SDK's bytes are the node's encoding. The SDK takes a payload exactly when its
   rules allow it and the node can hold every field the SDK looks at, and what it
   takes the node can hold exactly when canonical.
   */
  lemma FieldsMatch(p: Payload)
    ensures Fields(p).bytes == FieldBytes(p)
    ensures Accepted(p) <==> SdkRules(p) && Fields(Checked(p)).ok
    ensures Fields(p).ok ==> Fields(Checked(p)).ok
    ensures Accepted(p) ==> (Fields(p).ok <==> Canonical(p))
  {
    var k := NodeIndex(p);
    SameDiscriminant(p);
    hide Fields, FieldBytes, NodeIndex, Accepted, Canonical, Checked, SdkRules;
    AcceptedIff(p);
    if k < 20 {
      SameBytesFrom0(p);
      if Accepted(p) { AcceptedFieldsFitFrom0(p); }
    } else {
      SameBytesFrom20(p);
      if Accepted(p) { AcceptedFieldsFitFrom20(p); }
    }
  }
}
