/** The SDK's transaction bytes, read by the node. */
module TransactionCodec {
  import opened Bincode
  import opened NodeFormat
  import opened Options
  import opened Transactions
  import opened Words

  // --- Encoded transactions are the node's encoding ---

  lemma VariantAt(index: nat)
    requires index < VARIANTS
    ensures |PayloadShape().variants| == VARIANTS && PayloadShape().variants[index] == Layout(index)
  {
  }

  /** Whatever the SDK thinks of a payload, its bytes are the node's encoding of it when the node can hold it. */
  lemma PayloadPartIsSound(p: Payload)
    ensures Sound(Part(PayloadShape(), PayloadValue(p), LE(Discriminant(p), 4) + FieldBytes(p), Fields(p).ok))
  {
    FieldsAreSound(p);
    FieldsMatch(p);
    SameLayout(p);
    SameDiscriminant(p);
    Powers();
    hide Fields, FieldBytes, Layout, Discriminant, NodeIndex, LE, Pow256;
    VariantAt(NodeIndex(p));
    TagIsSound(4, PayloadShape().variants, NodeIndex(p), Fields(p));
  }

  lemma PayloadIsSound(p: Payload)
    requires Accepted(p)
    ensures Sound(Part(PayloadShape(), PayloadValue(p), LE(Discriminant(p), 4) + FieldBytes(p), Canonical(p)))
  {
    PayloadPartIsSound(p);
    FieldsMatch(p);
  }

  function TransactionPart(tx: Transaction, payload: Part): Part {
    Then(U64Field(tx.nonce), Then(Fixed(tx.sender, 32), Then(payload, Then(FixedList(tx.read, 32), FixedList(tx.write, 32)))))
  }

  lemma BodyIsSound(tx: Transaction)
    requires EncodeBody(tx).Some?
    ensures Sound(Part(TransactionShape(), TransactionValue(tx), EncodeBody(tx).value,
                       CanonicalTransaction(tx) && |tx.sender| == 32))
  {
    PayloadIsSound(tx.payload);
    var payload := Part(PayloadShape(), PayloadValue(tx.payload), EncodePayload(tx.payload).value, Canonical(tx.payload));
    NumbersAreSound();
    BuffersAreSound();
    EveryPartIsSound();
    ThenIsSound();
    hide Sound, PayloadShape, PayloadValue, EncodePayload, Canonical, Blobs, LE, EncodeFixedList, AllSized;
    var whole := TransactionPart(tx, payload);
    assert Sound(whole);
    assert whole == Part(TransactionShape(), TransactionValue(tx), EncodeBody(tx).value,
                         CanonicalTransaction(tx) && |tx.sender| == 32);
  }

  // --- Which transactions the SDK encodes ---

  /** Exactly which transactions the node's types hold. */
  lemma TransactionFitsIff(tx: Transaction)
    ensures Fits(TransactionShape(), TransactionValue(tx)) <==>
            FitsU64(tx.nonce) && |tx.sender| == 32 && Fields(tx.payload).ok && AllSized(tx.read, 32) && AllSized(tx.write, 32)
  {
    PayloadPartIsSound(tx.payload);
    var bytes, ok := LE(Discriminant(tx.payload), 4) + FieldBytes(tx.payload), Fields(tx.payload).ok;
    var payload := Part(PayloadShape(), PayloadValue(tx.payload), bytes, ok);
    NumbersAreSound();
    BuffersAreSound();
    EveryPartIsSound();
    ThenIsSound();
    hide Sound, PayloadShape, PayloadValue, Fields, Blobs, LE, EncodeFixedList, AllSized, FieldBytes, Discriminant;
    var whole := TransactionPart(tx, payload);
    assert Sound(whole);
    assert whole.shape == TransactionShape() && whole.value == TransactionValue(tx);
    SoundFits(whole);
  }

  lemma SoundFits(p: Part)
    requires Sound(p)
    ensures Fits(p.shape, p.value) <==> p.ok
  {
  }

  /**
   The SDK encodes a transaction exactly when its rules allow the payload and the
   node can hold the transaction, the nonce and the fields it writes unchecked
   aside. The signing preimages leave the sender aside too.
   */
  lemma EncodesIff(tx: Transaction)
    ensures EncodeTransaction(tx).Some? <==>
            SdkRules(tx.payload) && Fits(TransactionShape(), TransactionValue(tx.(nonce := 0, payload := Checked(tx.payload))))
    ensures EncodeBody(tx).Some? <==>
            SdkRules(tx.payload) &&
            Fits(TransactionShape(), TransactionValue(tx.(nonce := 0, sender := ZERO_ID, payload := Checked(tx.payload))))
  {
    SmallFits();
    hide Fields, Checked, Accepted, SdkRules, TransactionShape, TransactionValue, AllSized, LE, Discriminant, FieldBytes, EncodeFixedList, Fits;
    FieldsMatch(tx.payload);
    TransactionFitsIff(tx.(nonce := 0, payload := Checked(tx.payload)));
    TransactionFitsIff(tx.(nonce := 0, sender := ZERO_ID, payload := Checked(tx.payload)));
  }

  /** Of the transactions the node can hold, it encodes exactly those its rules allow. */
  lemma EncodesWhatFits(tx: Transaction)
    requires Fits(TransactionShape(), TransactionValue(tx))
    ensures EncodeTransaction(tx).Some? <==> SdkRules(tx.payload)
    ensures SdkRules(tx.payload) ==>
              Decode(TransactionShape(), EncodeTransaction(tx).value) == Got(TransactionValue(tx), [])
  {
    hide *;
    TransactionFitsIff(tx);
    FieldsMatch(tx.payload);
    AcceptedEncodes(tx);
    if SdkRules(tx.payload) {
      BodyIsSound(tx);
      EncodedFits(tx);
    }
  }

  lemma AcceptedEncodes(tx: Transaction)
    requires |tx.sender| == 32 && AllSized(tx.read, 32) && AllSized(tx.write, 32)
    ensures EncodeTransaction(tx).Some? <==> Accepted(tx.payload)
    ensures EncodeTransaction(tx).Some? ==> EncodeBody(tx) == EncodeTransaction(tx)
  {
    hide Accepted, FieldBytes, LE, Discriminant, EncodeFixedList;
  }

  lemma EncodedFits(tx: Transaction)
    requires EncodeTransaction(tx).Some? && EncodeBody(tx) == EncodeTransaction(tx)
    requires Sound(Part(TransactionShape(), TransactionValue(tx), EncodeBody(tx).value, CanonicalTransaction(tx) && |tx.sender| == 32))
    requires Fits(TransactionShape(), TransactionValue(tx))
    ensures Decode(TransactionShape(), EncodeTransaction(tx).value) == Got(TransactionValue(tx), [])
  {
    hide TransactionShape, TransactionValue, EncodeBody, CanonicalTransaction, EncodeTransaction, Fits, Encode, Decode;
    var bs := EncodeTransaction(tx).value;
    assert bs + [] == bs;
    RoundTrip(TransactionShape(), TransactionValue(tx), []);
  }

  /**
   The SDK encodes a transaction and the node reads it back, and not a byte more,
   exactly when the node can hold it and the SDK's rules allow it. Of those the SDK
   encodes, these are the canonical ones.
   */
  lemma NodeReadsBackIff(tx: Transaction, rest: Bytes)
    ensures EncodeTransaction(tx).Some? && Decode(TransactionShape(), EncodeTransaction(tx).value + rest) == Got(TransactionValue(tx), rest)
            <==> Fits(TransactionShape(), TransactionValue(tx)) && SdkRules(tx.payload)
    ensures EncodeTransaction(tx).Some? ==>
            (Decode(TransactionShape(), EncodeTransaction(tx).value + rest) == Got(TransactionValue(tx), rest)
             <==> CanonicalTransaction(tx))
  {
    hide *;
    if EncodeTransaction(tx).Some? {
      ReadsBackIffCanonical(tx, rest);
      EncodedRules(tx);
    }
    if Fits(TransactionShape(), TransactionValue(tx)) && SdkRules(tx.payload) {
      EncodesWhatFits(tx);
    }
  }

  lemma ReadsBackIffCanonical(tx: Transaction, rest: Bytes)
    requires EncodeTransaction(tx).Some?
    ensures Decode(TransactionShape(), EncodeTransaction(tx).value + rest) == Got(TransactionValue(tx), rest)
            <==> CanonicalTransaction(tx)
    ensures CanonicalTransaction(tx) <==> Fits(TransactionShape(), TransactionValue(tx))
  {
    BodyIsSound(tx);
    hide TransactionShape, TransactionValue, EncodeBody, CanonicalTransaction, Decode;
    DecodesBackIff(TransactionShape(), TransactionValue(tx), EncodeTransaction(tx).value, rest);
  }

  lemma EncodedRules(tx: Transaction)
    requires EncodeTransaction(tx).Some?
    ensures SdkRules(tx.payload)
  {
    hide Accepted, SdkRules, Fields, Checked, FieldBytes, LE, Discriminant, EncodeFixedList, AllSized;
    FieldsMatch(tx.payload);
  }

  // --- From the node's value back to the transaction ---

  function First(v: Value): Value { if v.Both? then v.first else Nothing }

  function Second(v: Value): Value { if v.Both? then v.second else Nothing }

  function IntOf(v: Value): int { if v.Int? then v.n else 0 }

  function BufOf(v: Value): Buffer { if v.Blob? && |v.bytes| < BUFFER_LIMIT then v.bytes else [] }

  function OptOf(v: Value): Option<Buffer> { if v.Variant? && v.tag == 1 then Some(BufOf(v.body)) else None }

  function BoolOf(v: Value): bool { v.Variant? && v.tag == 1 }

  function VoteOf(v: Value): Vote {
    if v.Variant? && v.tag == 0 then Allow else if v.Variant? && v.tag == 1 then Reject else Abstain
  }

  function RetentionOf(v: Value): Retention { if v.Variant? && v.tag == 0 then Prunable(IntOf(v.body)) else Forever }

  function EachBuf(vs: seq<Value>): (bs: seq<Buffer>)
    ensures |bs| == |vs|
  {
    if vs == [] then [] else [BufOf(vs[0])] + EachBuf(vs[1..])
  }

  function BufsOf(v: Value): Buffers { if v.List? && |v.items| < LIST_LIMIT then EachBuf(v.items) else [] }

  function CallOf(v: Value): Call {
    var body := if v.Variant? then v.body else Nothing;
    if v.Variant? && v.tag == 0 then Call.Transfer(BufOf(First(body)), IntOf(Second(body)))
    else if v.Variant? && v.tag == 1 then Call.ContractCall(BufOf(First(body)), BufOf(Second(body)))
    else Call.ContractCallWithValue(BufOf(First(body)), BufOf(First(Second(body))), IntOf(Second(Second(body))))
  }

  function EachCall(vs: seq<Value>): (cs: seq<Call>)
    ensures |cs| == |vs|
  {
    if vs == [] then [] else [CallOf(vs[0])] + EachCall(vs[1..])
  }

  function CallsOf(v: Value): Calls { if v.List? && |v.items| < LIST_LIMIT then EachCall(v.items) else [] }

  function EvidenceOf(v: Value): Buffer {
    if Fits(EvidenceShape(), v) then BufOf(Blob(Encode(EvidenceShape(), v))) else []
  }

  function PayloadFrom0(index: nat, v: Value): Payload {
    match index
    case 0 => Payload.Transfer(BufOf(First(v)), IntOf(Second(v)))
    case 1 => Payload.ContractCall(BufOf(First(v)), BufOf(Second(v)))
    case 2 => ContractDeploy(BufOf(First(v)), OptOf(Second(v)))
    case 3 =>
      var w := Second(v);
      ContractDeployWithPurpose(BufOf(First(v)), BufOf(First(w)), OptOf(First(Second(w))), OptOf(Second(Second(w))))
    case 4 =>
      var w := Second(v);
      var x := Second(w);
      var y := Second(x);
      ContractDeployWithPurposeAndMetadata(BufOf(First(v)), BufOf(First(w)), OptOf(First(x)),
                                           OptOf(First(y)), OptOf(First(Second(y))), OptOf(Second(Second(y))))
    case 5 => Bond(IntOf(v))
    case 6 => Unbond(IntOf(v))
    case 7 => ClaimUnbond
    case 8 => QaPoolVote(BufOf(First(v)), VoteOf(Second(v)))
    case _ => Batch(CallsOf(v))
  }

  function PayloadFrom10(index: nat, v: Value): Payload {
    match index
    case 10 => ValidatorRegister(BufOf(First(v)), BufOf(Second(v)))
    case 11 => ValidatorDeregister(BufOf(v))
    case 12 => ValidatorUnjail(BufOf(v))
    case 13 => NameCommit(BufOf(v))
    case 14 =>
      var w := Second(v);
      NameRegister(BufOf(First(v)), BufOf(First(w)), BufOf(First(Second(w))), IntOf(Second(Second(w))))
    case 15 => NameRenew(BufOf(First(v)), IntOf(Second(v)))
    case 16 => NameTransfer(BufOf(First(v)), BufOf(Second(v)))
    case 17 => NameSetTarget(BufOf(First(v)), BufOf(Second(v)))
    case 18 => NameSetPrimary(OptOf(v))
    case _ => NameRelease(BufOf(v))
  }

  function PayloadFrom20(index: nat, v: Value): Payload {
    var w := Second(v);
    match index
    case 20 => Payload.ContractCallWithValue(BufOf(First(v)), BufOf(First(w)), IntOf(Second(w)))
    case 21 => PutBlob(RetentionOf(First(v)), BufOf(First(w)), BufOf(Second(w)))
    case 22 => BlobAnnounce(BufOf(First(v)), IntOf(First(w)), RetentionOf(First(Second(w))), BufOf(Second(Second(w))))
    case 23 => RenewMediaBlobPin(BufOf(First(v)), IntOf(First(w)), IntOf(Second(w)))
    case _ => PayBlobSample(BufOf(First(v)), IntOf(First(w)), IntOf(Second(w)))
  }

  function PayloadFrom25(index: nat, v: Value): Payload {
    if index == 27 then CancelBlobSampleOffer(BufOf(First(v)), IntOf(Second(v)))
    else
      var id, chunk, count, x :=
        BufOf(First(v)), IntOf(First(Second(v))), IntOf(First(Second(Second(v)))), Second(Second(Second(v)));
      match index
      case 25 => RegisterBlobSampleOffer(id, chunk, count, IntOf(First(x)), IntOf(Second(x)))
      case 26 => SettleBlobSampleMatch(id, chunk, count, BufOf(x))
      case 28 => ChallengeBlobSampleServe(id, chunk, count, BufOf(x))
      case _ =>
        var y := Second(x);
        RespondBlobSampleServe(id, chunk, count, BufOf(First(x)), BufOf(First(y)), BufOf(First(Second(y))),
                               BufsOf(Second(Second(y))))
  }

  function PayloadFrom30(index: nat, v: Value): Payload {
    match index
    case 30 => SubmitSlashAppeal(IntOf(First(v)), BufOf(Second(v)))
    case 31 => ResolveSlashAppeal(IntOf(First(v)), BoolOf(Second(v)))
    case 32 => ResolveSlashAppealAttested(IntOf(First(v)), BoolOf(First(Second(v))), BufOf(Second(Second(v))))
    case 33 =>
      var w := Second(Second(v));
      ResolveSlashAppealBlsAggregate(IntOf(First(v)), BoolOf(First(Second(v))), BufOf(First(w)),
                                     BufOf(First(Second(w))), BufsOf(Second(Second(w))))
    case 34 => GrantBlobDownload(BufOf(First(v)), BufOf(Second(v)))
    case 35 => RevokeBlobDownload(BufOf(First(v)), BufOf(Second(v)))
    case 36 => ReportEquivocation(EvidenceOf(v))
    case 37 => GovernancePropose(BufOf(First(v)), BufOf(Second(v)))
    case 38 => GovernanceVote(IntOf(First(v)), BoolOf(Second(v)))
    case _ => GovernanceAdvanceCooling(IntOf(v))
  }

  function PayloadOf(index: nat, v: Value): Payload {
    if index < 10 then PayloadFrom0(index, v)
    else if index < 20 then PayloadFrom10(index, v)
    else if index < 25 then PayloadFrom20(index, v)
    else if index < 30 then PayloadFrom25(index, v)
    else PayloadFrom30(index, v)
  }

  lemma LeavesComeBack()
    ensures forall u, v :: First(Both(u, v)) == u
    ensures forall u, v :: Second(Both(u, v)) == v
    ensures forall n :: IntOf(Int(n)) == n
    ensures forall b: Buffer :: BufOf(Blob(b)) == b
    ensures forall o :: OptOf(OptValue(o)) == o
    ensures forall b :: BoolOf(BoolValue(b)) == b
    ensures forall v :: VoteOf(VoteValue(v)) == v
    ensures forall r :: RetentionOf(RetentionValue(r)) == r
  {
  }

  lemma {:induction false} BufsComeBack(bs: seq<Buffer>)
    ensures EachBuf(Blobs(bs)) == bs
  {
    if bs != [] {
      BufsComeBack(bs[1..]);
      assert Blobs(bs)[0] == Blob(bs[0]) && Blobs(bs)[1..] == Blobs(bs[1..]);
      assert bs == [bs[0]] + bs[1..];
    }
  }

  lemma CallComesBack(c: Call)
    ensures CallOf(CallValue(c)) == c
  {
  }

  lemma {:induction false} CallsComeBack(cs: seq<Call>)
    ensures EachCall(CallValues(cs)) == cs
  {
    hide CallOf, CallValue;
    if cs != [] {
      CallComesBack(cs[0]);
      CallsComeBack(cs[1..]);
      assert CallValues(cs)[0] == CallValue(cs[0]) && CallValues(cs)[1..] == CallValues(cs[1..]);
      assert cs == [cs[0]] + cs[1..];
    }
  }

  lemma ListsComeBack()
    ensures forall bs: Buffers :: BufsOf(List(Blobs(bs))) == bs
    ensures forall cs: Calls :: CallsOf(List(CallValues(cs))) == cs
    ensures forall e: Buffer :: EvidenceOk(e) ==> EvidenceOf(EvidenceValue(e)) == e
  {
    forall bs: Buffers { BufsComeBack(bs); }
    forall cs: Calls { CallsComeBack(cs); }
    forall e: Buffer | EvidenceOk(e) ensures EvidenceOf(EvidenceValue(e)) == e {
      EvidenceDecodes(e);
    }
  }

  lemma PayloadComesBackFrom0(p: Payload)
    requires NodeIndex(p) < 5
    ensures PayloadOf(NodeIndex(p), Fields(p).value) == p
  {
    LeavesComeBack();
    ListsComeBack();
    hide First, Second, IntOf, BufOf, OptOf, BoolOf, VoteOf, RetentionOf, BufsOf, CallsOf, EvidenceOf;
    hide Join, Blobs, CallValues, EvidenceValue, OptValue, BoolValue, VoteValue, RetentionValue, LE, EncodeCalls;
    hide EncodeOptionRaw, EncodeOptionVec, EncodeRetention, EncodeVote, EncodeBool, EncodeFixedList, EncodeByteVec;
    hide AllSized, NodeCalls, EvidenceOk, RetentionOk, OptionSized, FitsU32, FitsU64, FitsU128;
    hide Opt, BoolShape, VoteShape, RetentionShape, CallShape, EvidenceShape;
  }

  lemma PayloadComesBackFrom5(p: Payload)
    requires 5 <= NodeIndex(p) < 10
    ensures PayloadOf(NodeIndex(p), Fields(p).value) == p
  {
    LeavesComeBack();
    ListsComeBack();
    hide First, Second, IntOf, BufOf, OptOf, BoolOf, VoteOf, RetentionOf, BufsOf, CallsOf, EvidenceOf;
    hide Join, Blobs, CallValues, EvidenceValue, OptValue, BoolValue, VoteValue, RetentionValue, LE, EncodeCalls;
    hide EncodeOptionRaw, EncodeOptionVec, EncodeRetention, EncodeVote, EncodeBool, EncodeFixedList, EncodeByteVec;
    hide AllSized, NodeCalls, EvidenceOk, RetentionOk, OptionSized, FitsU32, FitsU64, FitsU128;
    hide Opt, BoolShape, VoteShape, RetentionShape, CallShape, EvidenceShape;
  }

  lemma PayloadComesBackFrom10(p: Payload)
    requires 10 <= NodeIndex(p) < 20
    ensures PayloadOf(NodeIndex(p), Fields(p).value) == p
  {
    LeavesComeBack();
    ListsComeBack();
    hide First, Second, IntOf, BufOf, OptOf, BoolOf, VoteOf, RetentionOf, BufsOf, CallsOf, EvidenceOf;
    hide Join, Blobs, CallValues, EvidenceValue, OptValue, BoolValue, VoteValue, RetentionValue, LE, EncodeCalls;
    hide EncodeOptionRaw, EncodeOptionVec, EncodeRetention, EncodeVote, EncodeBool, EncodeFixedList, EncodeByteVec;
    hide AllSized, NodeCalls, EvidenceOk, RetentionOk, OptionSized, FitsU32, FitsU64, FitsU128;
    hide Opt, BoolShape, VoteShape, RetentionShape, CallShape, EvidenceShape;
  }

  lemma PayloadComesBackFrom20(p: Payload)
    requires 20 <= NodeIndex(p) < 25
    ensures PayloadOf(NodeIndex(p), Fields(p).value) == p
  {
    LeavesComeBack();
    ListsComeBack();
    hide First, Second, IntOf, BufOf, OptOf, BoolOf, VoteOf, RetentionOf, BufsOf, CallsOf, EvidenceOf;
    hide Join, Blobs, CallValues, EvidenceValue, OptValue, BoolValue, VoteValue, RetentionValue, LE, EncodeCalls;
    hide EncodeOptionRaw, EncodeOptionVec, EncodeRetention, EncodeVote, EncodeBool, EncodeFixedList, EncodeByteVec;
    hide AllSized, NodeCalls, EvidenceOk, RetentionOk, OptionSized, FitsU32, FitsU64, FitsU128;
    hide Opt, BoolShape, VoteShape, RetentionShape, CallShape, EvidenceShape;
  }

  lemma PayloadComesBackFrom25(p: Payload)
    requires 25 <= NodeIndex(p) < 30
    ensures PayloadOf(NodeIndex(p), Fields(p).value) == p
  {
    LeavesComeBack();
    ListsComeBack();
    hide First, Second, IntOf, BufOf, OptOf, BoolOf, VoteOf, RetentionOf, BufsOf, CallsOf, EvidenceOf;
    hide Join, Blobs, CallValues, EvidenceValue, OptValue, BoolValue, VoteValue, RetentionValue, LE, EncodeCalls;
    hide EncodeOptionRaw, EncodeOptionVec, EncodeRetention, EncodeVote, EncodeBool, EncodeFixedList, EncodeByteVec;
    hide AllSized, NodeCalls, EvidenceOk, RetentionOk, OptionSized, FitsU32, FitsU64, FitsU128;
    hide Opt, BoolShape, VoteShape, RetentionShape, CallShape, EvidenceShape;
  }

  lemma PayloadComesBackFrom30(p: Payload)
    requires 30 <= NodeIndex(p) < 33
    ensures PayloadOf(NodeIndex(p), Fields(p).value) == p
  {
    LeavesComeBack();
    ListsComeBack();
    hide First, Second, IntOf, BufOf, OptOf, BoolOf, VoteOf, RetentionOf, BufsOf, CallsOf, EvidenceOf;
    hide Join, Blobs, CallValues, EvidenceValue, OptValue, BoolValue, VoteValue, RetentionValue, LE, EncodeCalls;
    hide EncodeOptionRaw, EncodeOptionVec, EncodeRetention, EncodeVote, EncodeBool, EncodeFixedList, EncodeByteVec;
    hide AllSized, NodeCalls, EvidenceOk, RetentionOk, OptionSized, FitsU32, FitsU64, FitsU128;
    hide Opt, BoolShape, VoteShape, RetentionShape, CallShape, EvidenceShape;
  }

  lemma PayloadComesBackFrom33(p: Payload)
    requires 33 <= NodeIndex(p) < 36
    ensures PayloadOf(NodeIndex(p), Fields(p).value) == p
  {
    LeavesComeBack();
    ListsComeBack();
    hide First, Second, IntOf, BufOf, OptOf, BoolOf, VoteOf, RetentionOf, BufsOf, CallsOf, EvidenceOf;
    hide Join, Blobs, CallValues, EvidenceValue, OptValue, BoolValue, VoteValue, RetentionValue, LE, EncodeCalls;
    hide EncodeOptionRaw, EncodeOptionVec, EncodeRetention, EncodeVote, EncodeBool, EncodeFixedList, EncodeByteVec;
    hide AllSized, NodeCalls, EvidenceOk, RetentionOk, OptionSized, FitsU32, FitsU64, FitsU128;
    hide Opt, BoolShape, VoteShape, RetentionShape, CallShape, EvidenceShape;
  }

  lemma PayloadComesBackFrom36(p: Payload)
    requires Canonical(p) && 36 <= NodeIndex(p) < 40
    ensures PayloadOf(NodeIndex(p), Fields(p).value) == p
  {
    LeavesComeBack();
    ListsComeBack();
    hide First, Second, IntOf, BufOf, OptOf, BoolOf, VoteOf, RetentionOf, BufsOf, CallsOf, EvidenceOf;
    hide Join, Blobs, CallValues, EvidenceValue, OptValue, BoolValue, VoteValue, RetentionValue, LE, EncodeCalls;
    hide EncodeOptionRaw, EncodeOptionVec, EncodeRetention, EncodeVote, EncodeBool, EncodeFixedList, EncodeByteVec;
    hide AllSized, NodeCalls, EvidenceOk, RetentionOk, OptionSized, FitsU32, FitsU64, FitsU128;
    hide Opt, BoolShape, VoteShape, RetentionShape, CallShape, EvidenceShape;
  }

  /** A canonical payload is recovered from the node's value of it. */
  lemma PayloadComesBack(p: Payload)
    requires Canonical(p)
    ensures PayloadOf(NodeIndex(p), Fields(p).value) == p
  {
    var k := NodeIndex(p);
    SameDiscriminant(p);
    hide Fields, PayloadOf, NodeIndex, Canonical;
    if k < 5 { PayloadComesBackFrom0(p); } else if k < 10 { PayloadComesBackFrom5(p); }
    else if k < 20 { PayloadComesBackFrom10(p); }
    else if k < 25 { PayloadComesBackFrom20(p); } else if k < 30 { PayloadComesBackFrom25(p); }
    else if k < 33 { PayloadComesBackFrom30(p); } else if k < 36 { PayloadComesBackFrom33(p); }
    else { PayloadComesBackFrom36(p); }
  }

  function TransactionOf(v: Value): Option<Transaction> {
    var payload, lists := First(Second(Second(v))), Second(Second(Second(v)));
    if payload.Variant? && payload.tag >= 0
    then Some(Transaction(IntOf(First(v)), BufOf(First(Second(v))), PayloadOf(payload.tag, payload.body),
                          BufsOf(First(lists)), BufsOf(Second(lists))))
    else None
  }

  /** Reads one transaction off the front of the bytes. */
  function DecodeTransaction(bs: Bytes): Read<Option<Transaction>> {
    match Decode(TransactionShape(), bs)
    case Fail => Fail
    case Got(v, rest) => Got(TransactionOf(v), rest)
  }

  lemma TransactionComesBack(tx: Transaction)
    requires Canonical(tx.payload)
    ensures TransactionOf(TransactionValue(tx)) == Some(tx)
  {
    PayloadComesBack(tx.payload);
    LeavesComeBack();
    ListsComeBack();
    hide IntOf, BufOf, BufsOf, Blobs, PayloadOf, NodeIndex, Fields, Canonical, EvidenceOk, EvidenceOf, EvidenceValue;
  }

  /** Decoding inverts the SDK's encoding of every canonical transaction, whatever follows it. */
  lemma DecodeInvertsEncode(tx: Transaction, rest: Bytes)
    requires EncodeTransaction(tx).Some? && CanonicalTransaction(tx)
    ensures DecodeTransaction(EncodeTransaction(tx).value + rest) == Got(Some(tx), rest)
  {
    NodeReadsBackIff(tx, rest);
    TransactionComesBack(tx);
    hide EncodeTransaction, Decode, TransactionOf, TransactionValue, Canonical;
  }

  /** No encoding of a canonical transaction is a prefix of, or equal to, that of another. */
  lemma EncodingIsPrefixFree(a: Transaction, b: Transaction, rest: Bytes, rest': Bytes)
    requires EncodeTransaction(a).Some? && EncodeTransaction(b).Some?
    requires CanonicalTransaction(a) && CanonicalTransaction(b)
    requires EncodeTransaction(a).value + rest == EncodeTransaction(b).value + rest'
    ensures a == b && rest == rest'
  {
    DecodeInvertsEncode(a, rest);
    DecodeInvertsEncode(b, rest');
    hide *;
  }

  // --- Inputs the SDK encodes but the node cannot hold ---

  /** Two nonces are written alike exactly when they agree modulo 2^64, so a wider one stands for another. */
  lemma NoncesCollideIff(tx: Transaction, nonce: int)
    requires EncodeTransaction(tx).Some?
    ensures EncodeTransaction(tx.(nonce := nonce)) == EncodeTransaction(tx) <==> nonce % U64 == tx.nonce % U64
  {
    Powers();
    SameBytesIffCongruent(tx.nonce, nonce, 8);
    hide EncodePayload, EncodeAccessList, LE, Pow256;
    var a, b := EncodeTransaction(tx.(nonce := nonce)).value, EncodeTransaction(tx).value;
    assert a[..8] == LE(nonce, 8) && b[..8] == LE(tx.nonce, 8);
  }
}
