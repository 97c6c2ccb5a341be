/** Transactions as the SDK takes them, and the bytes it writes for them. */
module Transactions {
  import opened Bincode
  import opened Options
  import opened Words

  // --- Inputs; strings stand for their UTF-8 bytes ---

  const BUFFER_LIMIT := 0x20_0000_0000_0000
  const LIST_LIMIT := 0x1_0000_0000

  type Buffer = b: Bytes | |b| < BUFFER_LIMIT
  type Buffers = bs: seq<Buffer> | |bs| < LIST_LIMIT

  datatype Retention = Prunable(ttlBlocks: int) | Forever

  datatype Vote = Allow | Reject | Abstain

  datatype Call =
    | Transfer(to: Buffer, amount: int)
    | ContractCall(contract: Buffer, calldata: Buffer)
    | ContractCallWithValue(contract: Buffer, calldata: Buffer, value: int)

  type Calls = cs: seq<Call> | |cs| < LIST_LIMIT

  datatype Payload =
    | Transfer(to: Buffer, amount: int)
    | ContractCall(contract: Buffer, calldata: Buffer)
    | ContractDeploy(bytecode: Buffer, create2Salt: Option<Buffer>)
    | ContractDeployWithPurpose(bytecode: Buffer, purpose: Buffer, descriptionHash: Option<Buffer>,
                                create2Salt: Option<Buffer>)
    | ContractDeployWithPurposeAndMetadata(bytecode: Buffer, purpose: Buffer, descriptionHash: Option<Buffer>,
                                           assetName: Option<Buffer>, assetSymbol: Option<Buffer>,
                                           create2Salt: Option<Buffer>)
    | Bond(amount: int)
    | Unbond(amount: int)
    | ClaimUnbond
    | QaPoolVote(subject: Buffer, vote: Vote)
    | Batch(calls: Calls)
    | ValidatorRegister(nodeId: Buffer, nodeSignature: Buffer)
    | ValidatorDeregister(nodeId: Buffer)
    | ValidatorUnjail(nodeId: Buffer)
    | NameCommit(commitment: Buffer)
    | NameRegister(name: Buffer, salt: Buffer, target: Buffer, years: int)
    | NameRenew(name: Buffer, years: int)
    | NameTransfer(name: Buffer, newOwner: Buffer)
    | NameSetTarget(name: Buffer, target: Buffer)
    | NameSetPrimary(primary: Option<Buffer>)
    | NameRelease(name: Buffer)
    | ContractCallWithValue(contract: Buffer, calldata: Buffer, value: int)
    | PutBlob(retention: Retention, contentType: Buffer, data: Buffer)
    | BlobAnnounce(blobId: Buffer, size: int, retention: Retention, contentType: Buffer)
    | RenewMediaBlobPin(blobId: Buffer, size: int, extendBlocks: int)
    | PayBlobSample(blobId: Buffer, chunkIndex: int, chunkCount: int)
    | RegisterBlobSampleOffer(blobId: Buffer, chunkIndex: int, chunkCount: int, askFee: int, expiresAtHeight: int)
    | SettleBlobSampleMatch(blobId: Buffer, chunkIndex: int, chunkCount: int, provider: Buffer)
    | CancelBlobSampleOffer(blobId: Buffer, chunkIndex: int)
    | ChallengeBlobSampleServe(blobId: Buffer, chunkIndex: int, chunkCount: int, provider: Buffer)
    | RespondBlobSampleServe(blobId: Buffer, chunkIndex: int, chunkCount: int, challenger: Buffer,
                             chunkHash: Buffer, chunksRoot: Buffer, siblings: Buffers)
    | SubmitSlashAppeal(slashId: int, appeal: Buffer)
    | ResolveSlashAppeal(appealId: int, approved: bool)
    | ResolveSlashAppealAttested(appealId: int, approved: bool, ballotSignature: Buffer)
    | ResolveSlashAppealBlsAggregate(appealId: int, approved: bool, signerBitset: Buffer,
                                     aggregateSignature: Buffer, signerPubkeys: Buffers)
    | GrantBlobDownload(blobId: Buffer, grantee: Buffer)
    | RevokeBlobDownload(blobId: Buffer, grantee: Buffer)
    | ReportEquivocation(evidence: Buffer)
    | GovernancePropose(targetKey: Buffer, targetValue: Buffer)
    | GovernanceVote(proposalId: int, approve: bool)
    | GovernanceAdvanceCooling(proposalId: int)

  datatype Transaction = Transaction(nonce: int, sender: Buffer, payload: Payload, read: Buffers, write: Buffers)

  // --- Batch validation ---

  const MAX_BATCH_CALLS := 16
  const MAX_BATCH_CALLDATA := 65536

  datatype BatchProblem =
    | NoCalls
    | TooManyCalls(got: nat)
    | NegativeAmount
    | ValueOutOfRange
    | TotalOverflow
    | CalldataTooLarge(got: nat)

  predicate FitsU128(n: int) { 0 <= n < U128 }

  function Moved(c: Call): int {
    match c
    case Transfer(_, amount) => amount
    case ContractCall(_, _) => 0
    case ContractCallWithValue(_, _, value) => value
  }

  function CalldataSize(c: Call): nat {
    if c.Transfer? then 0 else |c.calldata|
  }

  function Total(cs: seq<Call>): int {
    if cs == [] then 0 else Total(cs[..|cs| - 1]) + Moved(cs[|cs| - 1])
  }

  function TotalCalldata(cs: seq<Call>): nat {
    if cs == [] then 0 else TotalCalldata(cs[..|cs| - 1]) + CalldataSize(cs[|cs| - 1])
  }

  /** What is wrong with one call on its own. */
  function CallProblem(c: Call): Option<BatchProblem> {
    match c
    case Transfer(_, amount) => if amount < 0 then Some(NegativeAmount) else None
    case ContractCall(_, _) => None
    case ContractCallWithValue(_, _, value) => if FitsU128(value) then None else Some(ValueOutOfRange)
  }

  /** The first call that is wrong on its own. */
  function FirstProblem(cs: seq<Call>): Option<BatchProblem> {
    if cs == [] then None
    else match FirstProblem(cs[..|cs| - 1])
         case Some(e) => Some(e)
         case None => CallProblem(cs[|cs| - 1])
  }

  /** Why a batch is refused, or None. */
  function BatchError(cs: seq<Call>): Option<BatchProblem> {
    if |cs| == 0 then Some(NoCalls)
    else if |cs| > MAX_BATCH_CALLS then Some(TooManyCalls(|cs|))
    else if FirstProblem(cs).Some? then FirstProblem(cs)
    else if Total(cs) >= U128 then Some(TotalOverflow)
    else if TotalCalldata(cs) > MAX_BATCH_CALLDATA then Some(CalldataTooLarge(TotalCalldata(cs)))
    else None
  }

  /** The SDK's single pass over the calls. */
  method ValidateBatchCalls(cs: Calls) returns (r: Option<BatchProblem>)
    ensures r == BatchError(cs)
  {
    if |cs| == 0 { return Some(NoCalls); }
    if |cs| > MAX_BATCH_CALLS { return Some(TooManyCalls(|cs|)); }
    var calldata, total := 0, 0;
    for i := 0 to |cs|
      invariant FirstProblem(cs[..i]) == None
      invariant total == Total(cs[..i]) && calldata == TotalCalldata(cs[..i])
    {
      assert cs[..i + 1][..i] == cs[..i];
      var c := cs[i];
      if c.Transfer? {
        if c.amount < 0 {
          ProblemPersists(cs, i + 1);
          return Some(NegativeAmount);
        }
        total := total + c.amount;
      } else {
        calldata := calldata + |c.calldata|;
        if c.ContractCallWithValue? {
          if !FitsU128(c.value) {
            ProblemPersists(cs, i + 1);
            return Some(ValueOutOfRange);
          }
          total := total + c.value;
        }
      }
    }
    assert cs[..|cs|] == cs;
    if total >= U128 { return Some(TotalOverflow); }
    if calldata > MAX_BATCH_CALLDATA { return Some(CalldataTooLarge(calldata)); }
    return None;
  }

  lemma {:induction false} ProblemPersists(cs: seq<Call>, k: nat)
    requires k <= |cs| && FirstProblem(cs[..k]).Some?
    ensures FirstProblem(cs) == FirstProblem(cs[..k])
    decreases |cs|
  {
    if k == |cs| {
      assert cs[..k] == cs;
    } else {
      assert cs[..|cs| - 1][..k] == cs[..k];
      ProblemPersists(cs[..|cs| - 1], k);
    }
  }

  /** Calls as the node holds them: 32-byte accounts and unsigned 128-bit amounts. */
  predicate NodeCall(c: Call) {
    match c
    case Transfer(to, amount) => |to| == 32 && FitsU128(amount)
    case ContractCall(contract, _) => |contract| == 32
    case ContractCallWithValue(contract, _, value) => |contract| == 32 && FitsU128(value)
  }

  predicate NodeCalls(cs: seq<Call>) {
    forall i :: 0 <= i < |cs| ==> NodeCall(cs[i])
  }

  /** The node's pass: checked 128-bit addition that stops at the first overflow. */
  method NodeValidateBatchCalls(cs: Calls) returns (r: Option<BatchProblem>)
    requires NodeCalls(cs)
    ensures r == BatchError(cs)
  {
    NodeCallsHaveNoProblem(cs);
    if |cs| == 0 { return Some(NoCalls); }
    if |cs| > MAX_BATCH_CALLS { return Some(TooManyCalls(|cs|)); }
    var calldata, total := 0, 0;
    for i := 0 to |cs|
      invariant total == Total(cs[..i]) < U128 && calldata == TotalCalldata(cs[..i])
    {
      assert cs[..i + 1][..i] == cs[..i];
      if total + Moved(cs[i]) >= U128 {
        TotalOnlyGrows(cs, i + 1);
        return Some(TotalOverflow);
      }
      total := total + Moved(cs[i]);
      calldata := calldata + CalldataSize(cs[i]);
    }
    assert cs[..|cs|] == cs;
    if calldata > MAX_BATCH_CALLDATA { return Some(CalldataTooLarge(calldata)); }
    return None;
  }

  lemma {:induction false} NodeCallsHaveNoProblem(cs: seq<Call>)
    requires NodeCalls(cs)
    ensures FirstProblem(cs) == None
  {
    if cs != [] {
      NodeCallsHaveNoProblem(cs[..|cs| - 1]);
    }
  }

  lemma {:induction false} TotalOnlyGrows(cs: seq<Call>, k: nat)
    requires k <= |cs| && FirstProblem(cs) == None
    ensures 0 <= Total(cs[..k]) <= Total(cs)
    decreases |cs|
  {
    if cs == [] {
      assert cs[..k] == [];
    } else if k == |cs| {
      assert cs[..k] == cs;
      TotalOnlyGrows(cs[..|cs| - 1], |cs| - 1);
      assert cs[..|cs| - 1][..|cs| - 1] == cs[..|cs| - 1];
    } else {
      assert cs[..|cs| - 1][..k] == cs[..k];
      TotalOnlyGrows(cs[..|cs| - 1], k);
    }
  }

  /** Passing the batch check is enough for every amount to fit its 16 bytes, one by one. */
  lemma BatchAmountsFit(cs: seq<Call>, i: nat)
    requires BatchError(cs) == None && i < |cs|
    ensures FitsU128(Moved(cs[i]))
  {
    TotalOnlyGrows(cs, i + 1);
    assert cs[..i + 1][..i] == cs[..i];
    ProblemFreePrefix(cs, i + 1);
    TotalOnlyGrows(cs[..i + 1], i);
  }

  lemma {:induction false} ProblemFreePrefix(cs: seq<Call>, k: nat)
    requires k <= |cs| && FirstProblem(cs) == None
    ensures FirstProblem(cs[..k]) == None
  {
    if FirstProblem(cs[..k]).Some? {
      ProblemPersists(cs, k);
    }
  }

  // --- The SDK's writers ---

  function EncodeByteVec(b: Bytes): Bytes { LE(|b|, 8) + b }

  function Concat(parts: seq<Bytes>): Bytes {
    if parts == [] then [] else parts[0] + Concat(parts[1..])
  }

  predicate AllSized(parts: seq<Bytes>, n: nat) {
    forall i :: 0 <= i < |parts| ==> |parts[i]| == n
  }

  function EncodeFixedList(parts: seq<Bytes>): Bytes { LE(|parts|, 8) + Concat(parts) }

  function EncodeOptionRaw(o: Option<Buffer>): Bytes {
    match o
    case None => [0]
    case Some(b) => [1] + b
  }

  function EncodeOptionVec(o: Option<Buffer>): Bytes {
    match o
    case None => [0]
    case Some(b) => [1] + EncodeByteVec(b)
  }

  predicate OptionSized(o: Option<Buffer>, n: nat) {
    o.Some? ==> |o.value| == n
  }

  function EncodeBool(b: bool): Bytes { [if b then 1 else 0] }

  function EncodeRetention(r: Retention): Bytes {
    match r
    case Forever => LE(1, 4)
    case Prunable(ttl) => LE(0, 4) + LE(ttl, 8)
  }

  function EncodeVote(v: Vote): Bytes {
    LE(if v.Allow? then 0 else if v.Reject? then 1 else 2, 4)
  }

  predicate CallAccepted(c: Call) {
    match c
    case Transfer(to, _) => |to| == 32
    case ContractCall(contract, _) => |contract| == 32
    case ContractCallWithValue(contract, _, value) => |contract| == 32 && FitsU128(value)
  }

  function EncodeCall(c: Call): Bytes {
    match c
    case Transfer(to, amount) => LE(0, 4) + (to + LE(amount, 16))
    case ContractCall(contract, calldata) => LE(1, 4) + (contract + EncodeByteVec(calldata))
    case ContractCallWithValue(contract, calldata, value) =>
      LE(2, 4) + (contract + (EncodeByteVec(calldata) + LE(value, 16)))
  }

  function EncodeCalls(cs: seq<Call>): Bytes {
    if cs == [] then [] else EncodeCall(cs[0]) + EncodeCalls(cs[1..])
  }

  function Discriminant(p: Payload): nat {
    match p
    case Transfer(_, _) => 0
    case ContractCall(_, _) => 1
    case ContractDeploy(_, _) => 2
    case ContractDeployWithPurpose(_, _, _, _) => 3
    case ContractDeployWithPurposeAndMetadata(_, _, _, _, _, _) => 4
    case Bond(_) => 5
    case Unbond(_) => 6
    case ClaimUnbond => 7
    case QaPoolVote(_, _) => 8
    case Batch(_) => 9
    case ValidatorRegister(_, _) => 10
    case ValidatorDeregister(_) => 11
    case ValidatorUnjail(_) => 12
    case NameCommit(_) => 13
    case NameRegister(_, _, _, _) => 14
    case NameRenew(_, _) => 15
    case NameTransfer(_, _) => 16
    case NameSetTarget(_, _) => 17
    case NameSetPrimary(_) => 18
    case NameRelease(_) => 19
    case ContractCallWithValue(_, _, _) => 20
    case PutBlob(_, _, _) => 21
    case BlobAnnounce(_, _, _, _) => 22
    case RenewMediaBlobPin(_, _, _) => 23
    case PayBlobSample(_, _, _) => 24
    case RegisterBlobSampleOffer(_, _, _, _, _) => 25
    case SettleBlobSampleMatch(_, _, _, _) => 26
    case CancelBlobSampleOffer(_, _) => 27
    case ChallengeBlobSampleServe(_, _, _, _) => 28
    case RespondBlobSampleServe(_, _, _, _, _, _, _) => 29
    case SubmitSlashAppeal(_, _) => 30
    case ResolveSlashAppeal(_, _) => 31
    case ResolveSlashAppealAttested(_, _, _) => 32
    case ResolveSlashAppealBlsAggregate(_, _, _, _, _) => 33
    case GrantBlobDownload(_, _) => 34
    case RevokeBlobDownload(_, _) => 35
    case ReportEquivocation(_) => 36
    case GovernancePropose(_, _) => 37
    case GovernanceVote(_, _) => 38
    case GovernanceAdvanceCooling(_) => 39
  }

  /** The payloads the SDK encodes without throwing. */
  predicate Accepted(p: Payload) {
    match p
    case Transfer(_, amount) => FitsU128(amount)
    case ContractCall(_, _) => true
    case ContractDeploy(_, salt) => OptionSized(salt, 32)
    case ContractDeployWithPurpose(_, _, _, salt) => OptionSized(salt, 32)
    case ContractDeployWithPurposeAndMetadata(_, _, _, _, _, salt) => OptionSized(salt, 32)
    case Bond(amount) => FitsU128(amount)
    case Unbond(amount) => FitsU128(amount)
    case ClaimUnbond => true
    case QaPoolVote(subject, _) => |subject| == 32
    case Batch(calls) => BatchError(calls) == None && forall i :: 0 <= i < |calls| ==> CallAccepted(calls[i])
    case ValidatorRegister(nodeId, sig) => |nodeId| == 32 && |sig| == 64
    case ValidatorDeregister(nodeId) => |nodeId| == 32
    case ValidatorUnjail(nodeId) => |nodeId| == 32
    case NameCommit(commitment) => |commitment| == 32
    case NameRegister(_, salt, target, years) => |salt| == 32 && |target| == 32 && 1 <= years <= 10
    case NameRenew(_, years) => 1 <= years <= 10
    case NameTransfer(_, newOwner) => |newOwner| == 32
    case NameSetTarget(_, target) => |target| == 32
    case NameSetPrimary(_) => true
    case NameRelease(_) => true
    case ContractCallWithValue(contract, _, value) => FitsU128(value) && |contract| == 32
    case PutBlob(_, _, _) => true
    case BlobAnnounce(blobId, _, _, _) => |blobId| == 32
    case RenewMediaBlobPin(blobId, _, _) => |blobId| == 32
    case PayBlobSample(blobId, _, _) => |blobId| == 32
    case RegisterBlobSampleOffer(blobId, _, _, _, _) => |blobId| == 32
    case SettleBlobSampleMatch(blobId, _, _, provider) => |blobId| == 32 && |provider| == 32
    case CancelBlobSampleOffer(blobId, _) => |blobId| == 32
    case ChallengeBlobSampleServe(blobId, _, _, provider) => |blobId| == 32 && |provider| == 32
    case RespondBlobSampleServe(blobId, _, _, challenger, hash, root, siblings) =>
      |blobId| == 32 && |challenger| == 32 && |hash| == 32 && |root| == 32 && AllSized(siblings, 32)
    case SubmitSlashAppeal(_, _) => true
    case ResolveSlashAppeal(_, _) => true
    case ResolveSlashAppealAttested(_, _, sig) => |sig| == 64
    case ResolveSlashAppealBlsAggregate(_, _, _, sig, keys) => |sig| == 96 && AllSized(keys, 48)
    case GrantBlobDownload(blobId, grantee) => |blobId| == 32 && |grantee| == 32
    case RevokeBlobDownload(blobId, grantee) => |blobId| == 32 && |grantee| == 32
    case ReportEquivocation(_) => true
    case GovernancePropose(_, _) => true
    case GovernanceVote(_, _) => true
    case GovernanceAdvanceCooling(_) => true
  }

  /** What the SDK writes after the discriminant. */
  function FieldBytes(p: Payload): Bytes {
    match p
    case Transfer(to, amount) => to + LE(amount, 16)
    case ContractCall(contract, calldata) => contract + EncodeByteVec(calldata)
    case ContractDeploy(code, salt) => EncodeByteVec(code) + EncodeOptionRaw(salt)
    case ContractDeployWithPurpose(code, purpose, hash, salt) =>
      EncodeByteVec(code) + (EncodeByteVec(purpose) + (EncodeOptionVec(hash) + EncodeOptionRaw(salt)))
    case ContractDeployWithPurposeAndMetadata(code, purpose, hash, name, symbol, salt) =>
      EncodeByteVec(code) + (EncodeByteVec(purpose) + (EncodeOptionVec(hash)
      + (EncodeOptionVec(name) + (EncodeOptionVec(symbol) + EncodeOptionRaw(salt)))))
    case Bond(amount) => LE(amount, 16)
    case Unbond(amount) => LE(amount, 16)
    case ClaimUnbond => []
    case QaPoolVote(subject, vote) => subject + EncodeVote(vote)
    case Batch(calls) => LE(|calls|, 8) + EncodeCalls(calls)
    case ValidatorRegister(nodeId, sig) => nodeId + EncodeByteVec(sig)
    case ValidatorDeregister(nodeId) => nodeId
    case ValidatorUnjail(nodeId) => nodeId
    case NameCommit(commitment) => commitment
    case NameRegister(name, salt, target, years) => EncodeByteVec(name) + (salt + (target + LE(years, 1)))
    case NameRenew(name, years) => EncodeByteVec(name) + LE(years, 1)
    case NameTransfer(name, newOwner) => EncodeByteVec(name) + newOwner
    case NameSetTarget(name, target) => EncodeByteVec(name) + target
    case NameSetPrimary(name) => EncodeOptionVec(name)
    case NameRelease(name) => EncodeByteVec(name)
    case ContractCallWithValue(contract, calldata, value) => contract + (EncodeByteVec(calldata) + LE(value, 16))
    case PutBlob(retention, contentType, data) =>
      EncodeRetention(retention) + (EncodeByteVec(contentType) + EncodeByteVec(data))
    case BlobAnnounce(blobId, size, retention, contentType) =>
      blobId + (LE(size, 4) + (EncodeRetention(retention) + EncodeByteVec(contentType)))
    case RenewMediaBlobPin(blobId, size, extend) => blobId + (LE(size, 4) + LE(extend, 8))
    case PayBlobSample(blobId, index, count) => blobId + (LE(index, 4) + LE(count, 4))
    case RegisterBlobSampleOffer(blobId, index, count, fee, expires) =>
      blobId + (LE(index, 4) + (LE(count, 4) + (LE(fee, 16) + LE(expires, 8))))
    case SettleBlobSampleMatch(blobId, index, count, provider) => blobId + (LE(index, 4) + (LE(count, 4) + provider))
    case CancelBlobSampleOffer(blobId, index) => blobId + LE(index, 4)
    case ChallengeBlobSampleServe(blobId, index, count, provider) =>
      blobId + (LE(index, 4) + (LE(count, 4) + provider))
    case RespondBlobSampleServe(blobId, index, count, challenger, hash, root, siblings) =>
      blobId + (LE(index, 4) + (LE(count, 4) + (challenger + (hash + (root + EncodeFixedList(siblings))))))
    case SubmitSlashAppeal(slashId, appeal) => LE(slashId, 8) + EncodeByteVec(appeal)
    case ResolveSlashAppeal(appealId, approved) => LE(appealId, 8) + EncodeBool(approved)
    case ResolveSlashAppealAttested(appealId, approved, sig) => LE(appealId, 8) + (EncodeBool(approved) + sig)
    case ResolveSlashAppealBlsAggregate(appealId, approved, bitset, sig, keys) =>
      LE(appealId, 8) + (EncodeBool(approved) + (EncodeByteVec(bitset) + (sig + EncodeFixedList(keys))))
    case GrantBlobDownload(blobId, grantee) => blobId + grantee
    case RevokeBlobDownload(blobId, grantee) => blobId + grantee
    case ReportEquivocation(evidence) => evidence
    case GovernancePropose(key, value) => EncodeByteVec(key) + EncodeByteVec(value)
    case GovernanceVote(proposalId, approve) => LE(proposalId, 8) + EncodeBool(approve)
    case GovernanceAdvanceCooling(proposalId) => LE(proposalId, 8)
  }

  function EncodePayload(p: Payload): Option<Bytes> {
    if Accepted(p) then Some(LE(Discriminant(p), 4) + FieldBytes(p)) else None
  }

  function EncodeAccessList(read: Buffers, write: Buffers): Option<Bytes> {
    if AllSized(read, 32) && AllSized(write, 32) then Some(EncodeFixedList(read) + EncodeFixedList(write)) else None
  }

  /** Nonce, sender, payload and access list; the signing preimages use it without the sender check. */
  function EncodeBody(tx: Transaction): Option<Bytes> {
    match (EncodePayload(tx.payload), EncodeAccessList(tx.read, tx.write))
    case (Some(p), Some(a)) => Some(LE(tx.nonce, 8) + (tx.sender + (p + a)))
    case _ => None
  }

  function EncodeTransaction(tx: Transaction): Option<Bytes> {
    if |tx.sender| == 32 then EncodeBody(tx) else None
  }

  // --- The writers that fill buffers ---

  lemma LEStep(n: int, w: nat)
    ensures LE(n, w + 1) == [n % 256] + LE(n / 256, w)
  {
  }

  method WriteU128Le(n: int) returns (b: array<Byte>)
    ensures fresh(b) && b[..] == LE(n, 16)
  {
    hide LE;
    b := new Byte[16];
    var x := n;
    for i := 0 to 16
      invariant b[..i] + LE(x, 16 - i) == LE(n, 16)
    {
      ghost var before, tail := b[..i], LE(x / 256, 15 - i);
      LEStep(x, 15 - i);
      b[i] := x % 256;
      assert b[..i + 1] == before + [x % 256];
      assert before + ([x % 256] + tail) == (before + [x % 256]) + tail;
      x := x / 256;
    }
    assert b[..] == b[..16] == b[..16] + LE(x, 0);
  }

  function Length(parts: seq<Bytes>): nat {
    if parts == [] then 0 else |parts[0]| + Length(parts[1..])
  }

  /** Sizes the result first, then copies every part to its offset. */
  method ConcatBytes(parts: seq<Bytes>) returns (out: array<Byte>)
    ensures fresh(out) && out[..] == Concat(parts)
  {
    var n := 0;
    for i := 0 to |parts|
      invariant n + Length(parts[i..]) == Length(parts)
    {
      n := n + |parts[i]|;
      assert parts[i..][1..] == parts[i + 1..];
    }
    ConcatLength(parts);
    out := new Byte[n];
    var o := 0;
    for i := 0 to |parts|
      invariant 0 <= o && o + Length(parts[i..]) == n
      invariant out[..o] + Concat(parts[i..]) == Concat(parts)
    {
      var p := parts[i];
      assert parts[i..][1..] == parts[i + 1..];
      ghost var before := out[..o];
      forall k | 0 <= k < |p| {
        out[o + k] := p[k];
      }
      assert out[..o + |p|] == before + p;
      assert before + (p + Concat(parts[i + 1..])) == (before + p) + Concat(parts[i + 1..]);
      o := o + |p|;
    }
    assert out[..] == out[..o] + [];
  }

  lemma ConcatStep(parts: seq<Bytes>)
    requires parts != []
    ensures Concat(parts) == parts[0] + Concat(parts[1..])
  {
  }

  lemma {:induction false} ConcatLength(parts: seq<Bytes>)
    ensures |Concat(parts)| == Length(parts)
  {
    if parts != [] {
      ConcatLength(parts[1..]);
    }
  }

  /** Collects the parts of an account list, throwing on the first id that is not 32 bytes. */
  method EncodeVecAccountIds(ids: Buffers) returns (r: Option<Bytes>)
    ensures r == if AllSized(ids, 32) then Some(EncodeFixedList(ids)) else None
  {
    hide LE, Concat;
    var parts: seq<Bytes> := [LE(|ids|, 8)];
    for i := 0 to |ids|
      invariant AllSized(ids[..i], 32)
      invariant parts == [LE(|ids|, 8)] + ids[..i]
    {
      if |ids[i]| != 32 { return None; }
      parts := parts + [ids[i]];
    }
    assert ids[..|ids|] == ids && parts[1..] == ids;
    ConcatStep(parts);
    var out := ConcatBytes(parts);
    r := Some(out[..]);
  }
}
