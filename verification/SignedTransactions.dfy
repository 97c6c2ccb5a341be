/** Signed transactions on the wire, the signing preimages, and the parser that recovers the signed body. */
module SignedTransactions {
  import opened Bincode
  import opened NodeFormat
  import opened Options
  import opened TransactionCodec
  import opened Transactions
  import opened Words

  // --- The wire format ---

  function EncodeSignature(sig: Buffer): Option<Bytes> {
    if |sig| == 64 then Some(LE(64, 8) + sig) else None
  }

  /** Body, signature, and the priority tip unless it is zero. */
  function EncodeSigned(tx: Transaction, sig: Buffer, tip: int): Option<Bytes> {
    match (EncodeTransaction(tx), EncodeSignature(sig))
    case (Some(body), Some(s)) => Some((body + s) + if tip == 0 then [] else LE(tip, 16))
    case _ => None
  }

  datatype Signed = Signed(tx: Value, sig: Bytes, tip: int)

  function LegacyShape(): Shape { Pair(TransactionShape(), Sized(64)) }

  function SignedShape(): Shape { Pair(TransactionShape(), Pair(Sized(64), Num(16))) }

  /** The node tries the tipped layout, then the untipped one; both tolerate trailing bytes. */
  function FromBincode(bs: Bytes): Option<Signed> {
    match Decode(SignedShape(), bs)
    case Got(Both(tx, Both(Blob(sig), Int(tip))), _) => Some(Signed(tx, sig, tip))
    case _ =>
      match Decode(LegacyShape(), bs)
      case Got(Both(tx, Blob(sig)), _) => Some(Signed(tx, sig, 0))
      case _ => None
  }

  lemma SignedTailReadsBack(sig: Buffer, tip: int)
    requires |sig| == 64 && FitsU128(tip)
    ensures Decode(Sized(64), (LE(64, 8) + sig) + LE(tip, 16)) == Got(Blob(sig), LE(tip, 16))
    ensures Decode(Sized(64), LE(64, 8) + sig) == Got(Blob(sig), [])
    ensures Decode(Pair(Sized(64), Num(16)), (LE(64, 8) + sig) + LE(tip, 16)) == Got(Both(Blob(sig), Int(tip)), [])
    ensures Decode(Pair(Sized(64), Num(16)), LE(64, 8) + sig) == Fail
  {
    Powers();
    hide LE, Pow256, Number;
    var s := LE(64, 8) + sig;
    assert Fits(Sized(64), Blob(sig)) && Encode(Sized(64), Blob(sig)) == s == s + [];
    RoundTrip(Sized(64), Blob(sig), LE(tip, 16));
    RoundTrip(Sized(64), Blob(sig), []);
    assert Fits(Num(16), Int(tip)) && Encode(Num(16), Int(tip)) == LE(tip, 16) == LE(tip, 16) + [];
    RoundTrip(Num(16), Int(tip), []);
  }

  lemma SentIff(tx: Transaction, sig: Buffer, tip: int)
    ensures EncodeSigned(tx, sig, tip).Some? <==> EncodeTransaction(tx).Some? && |sig| == 64
  {
    hide EncodeTransaction, LE;
  }

  lemma WireParts(tx: Transaction, sig: Buffer, tip: int)
    requires EncodeSigned(tx, sig, tip).Some?
    ensures EncodeTransaction(tx).Some? && |sig| == 64
    ensures EncodeSigned(tx, sig, tip).value ==
            (EncodeTransaction(tx).value + (LE(64, 8) + sig)) + if tip == 0 then [] else LE(tip, 16)
  {
    hide EncodeTransaction, LE;
  }

  lemma PairReads(a: Shape, b: Shape, bs: Bytes, v: Value, mid: Bytes)
    requires Decode(a, bs) == Got(v, mid)
    ensures Decode(Pair(a, b), bs) == match Decode(b, mid)
                                      case Fail => Fail
                                      case Got(w, rest) => Got(Both(v, w), rest)
  {
  }

  lemma FromBincodeReads(bs: Bytes, tx: Value, sig: Buffer, rest: Bytes, tip: int)
    requires |sig| == 64 && FitsU128(tip) && rest == if tip == 0 then [] else LE(tip, 16)
    requires Decode(TransactionShape(), bs) == Got(tx, (LE(64, 8) + sig) + rest)
    ensures FromBincode(bs) == Some(Signed(tx, sig, tip))
  {
    SignedTailReadsBack(sig, tip);
    hide TransactionShape, LE, Decode;
    var s := LE(64, 8) + sig;
    assert s + [] == s;
    PairReads(TransactionShape(), Pair(Sized(64), Num(16)), bs, tx, s + rest);
    PairReads(TransactionShape(), Sized(64), bs, tx, s + rest);
  }

  /** The SDK sends every transaction it encodes with a 64-byte signature, and the node recovers transaction, signature and tip. */
  lemma NodeReadsSigned(tx: Transaction, sig: Buffer, tip: int)
    requires EncodeTransaction(tx).Some? && |sig| == 64 && CanonicalTransaction(tx) && FitsU128(tip)
    ensures EncodeSigned(tx, sig, tip).Some?
    ensures FromBincode(EncodeSigned(tx, sig, tip).value) == Some(Signed(TransactionValue(tx), sig, tip))
  {
    hide *;
    SentIff(tx, sig, tip);
    WireParts(tx, sig, tip);
    var body, s := EncodeTransaction(tx).value, LE(64, 8) + sig;
    var rest := if tip == 0 then [] else LE(tip, 16);
    Regroup(body, s, rest);
    NodeReadsBackIff(tx, s + rest);
    FromBincodeReads((body + s) + rest, TransactionValue(tx), sig, rest, tip);
  }

  // --- Recovering the body from the tail of the bytes ---

  const SIGNATURE_TRAIL := 72
  const TIP_BYTES := 16

  /** The bytes before `at`, when a signature length of 64 is written there. */
  function TryOffset(bs: Bytes, at: int): Option<Bytes>
    requires at + 8 <= |bs|
  {
    if at < 1 then None
    else if Number(bs[at..at + 8]) != 64 then None
    else Some(bs[..at])
  }

  /** The bytes whose hash is the transaction id. */
  function SignedBody(bs: Bytes): Option<Bytes> {
    if |bs| < SIGNATURE_TRAIL + 1 then None
    else
      var tipped := if |bs| >= SIGNATURE_TRAIL + TIP_BYTES + 1
                    then TryOffset(bs, |bs| - SIGNATURE_TRAIL - TIP_BYTES) else None;
      if tipped.Some? then tipped else TryOffset(bs, |bs| - SIGNATURE_TRAIL)
  }

  lemma LengthFieldIff(b: Bytes)
    requires |b| == 8
    ensures Number(b) == 64 <==> b == LE(64, 8)
  {
    LEOfNumber(b);
    Powers();
    NumberOfSmallLE(64, 8);
  }

  /** On any bytes the parser cuts 88 bytes off the end if a length of 64 starts there, else 72 likewise, else it throws. */
  lemma ParserCuts(bs: Bytes)
    ensures var n := |bs|;
            SignedBody(bs) ==
            if n >= 89 && bs[n - 88..n - 80] == LE(64, 8) then Some(bs[..n - 88])
            else if n >= 73 && bs[n - 72..n - 64] == LE(64, 8) then Some(bs[..n - 72])
            else None
  {
    hide LE, Number;
    var n := |bs|;
    if n >= 89 { LengthFieldIff(bs[n - 88..n - 80]); }
    if n >= 73 { LengthFieldIff(bs[n - 72..n - 64]); }
  }

  lemma BodyLength(tx: Transaction)
    requires EncodeTransaction(tx).Some?
    ensures |EncodeTransaction(tx).value| >= 60
  {
    hide LE, FieldBytes, Concat, Accepted, AllSized, Discriminant;
  }

  lemma FindsTipped(body: Bytes, sig: Bytes, tip: Bytes)
    requires |body| >= 1 && |sig| == 64 && |tip| == 16
    ensures SignedBody((body + (LE(64, 8) + sig)) + tip) == Some(body)
  {
    hide LE, Number;
    var bs, n := (body + (LE(64, 8) + sig)) + tip, |body|;
    assert bs[n..n + 8] == LE(64, 8) && bs[..n] == body;
    LengthFieldIff(bs[n..n + 8]);
  }

  /** Every tipped transaction: the parser finds exactly the encoded body. */
  lemma TippedBodyIsFound(tx: Transaction, sig: Buffer, tip: int)
    requires EncodeSigned(tx, sig, tip).Some? && tip != 0
    ensures SignedBody(EncodeSigned(tx, sig, tip).value) == EncodeTransaction(tx)
  {
    hide *;
    WireParts(tx, sig, tip);
    BodyLength(tx);
    FindsTipped(EncodeTransaction(tx).value, sig, LE(tip, 16));
  }

  /** The 8 bytes that start 16 before the body's end. */
  function Tail(body: Bytes): Bytes
    requires |body| >= 16
  {
    body[|body| - 16..|body| - 8]
  }

  lemma FindsUntippedIff(body: Bytes, sig: Bytes)
    requires |body| >= 17 && |sig| == 64
    ensures SignedBody((body + (LE(64, 8) + sig)) + []) ==
            Some(if Tail(body) == LE(64, 8) then body[..|body| - 16] else body)
  {
    hide LE, Number;
    var bs, n := (body + (LE(64, 8) + sig)) + [], |body|;
    assert bs[n..n + 8] == LE(64, 8) && bs[..n] == body;
    assert bs[n - 16..n - 8] == Tail(body) && bs[..n - 16] == body[..n - 16];
    LengthFieldIff(bs[n..n + 8]);
    LengthFieldIff(bs[n - 16..n - 8]);
  }

  /** The access list puts a signature length of 64 where the parser looks for a tipped layout. */
  predicate LooksTipped(tx: Transaction)
    requires AllSized(tx.read, 32) && AllSized(tx.write, 32)
  {
    if tx.write != [] then tx.write[|tx.write| - 1][16..24] == LE(64, 8)
    else tx.read != [] && tx.read[|tx.read| - 1][24..] == LE(64, 8)
  }

  lemma {:induction false} ConcatEndsWithLast(parts: seq<Bytes>)
    requires parts != []
    ensures var last := parts[|parts| - 1];
            |Concat(parts)| >= |last| && Concat(parts)[|Concat(parts)| - |last|..] == last
  {
    if |parts| == 1 {
      assert parts[1..] == [];
    } else {
      ConcatEndsWithLast(parts[1..]);
    }
  }

  lemma ZeroBytes()
    ensures LE(0, 8) == [0, 0, 0, 0, 0, 0, 0, 0]
    ensures LE(64, 8) == [64, 0, 0, 0, 0, 0, 0, 0]
  {
  }

  lemma LastAccount(ids: seq<Bytes>)
    requires AllSized(ids, 32)
    ensures var e := EncodeFixedList(ids);
            if ids == [] then e == LE(0, 8) else |e| >= 40 && e[|e| - 32..] == ids[|ids| - 1]
  {
    hide LE;
    if ids != [] {
      ConcatEndsWithLast(ids);
      SuffixOfSuffix(LE(|ids|, 8), Concat(ids), 32);
    }
  }

  lemma SuffixOfSuffix(a: Bytes, b: Bytes, n: nat)
    requires n <= |b|
    ensures (a + b)[|a + b| - n..] == b[|b| - n..]
  {
  }

  lemma TailOfSuffix(a: Bytes, b: Bytes)
    requires |b| >= 40
    ensures Tail(a + b) == b[|b| - 32..][16..24]
  {
  }

  lemma TailBeforeLastEight(a: Bytes, b: Bytes, c: Bytes)
    requires |b| >= 8 && |c| == 8
    ensures Tail(a + (b + c)) == b[|b| - 8..]
    ensures |b| >= 32 ==> Tail(a + (b + c)) == b[|b| - 32..][24..]
  {
  }

  lemma AccessListTail(front: Bytes, read: seq<Bytes>, write: seq<Bytes>)
    requires AllSized(read, 32) && AllSized(write, 32)
    ensures var body := front + (EncodeFixedList(read) + EncodeFixedList(write));
            && |body| >= 16
            && Tail(body) == if write != [] then write[|write| - 1][16..24]
                             else if read != [] then read[|read| - 1][24..]
                             else LE(0, 8)
  {
    LastAccount(read);
    LastAccount(write);
    hide LE, EncodeFixedList, Concat, AllSized;
    var r, w := EncodeFixedList(read), EncodeFixedList(write);
    if write != [] {
      Regroup(front, r, w);
      TailOfSuffix(front + r, w);
    } else {
      TailBeforeLastEight(front, r, w);
    }
  }

  lemma TransactionTail(tx: Transaction)
    requires EncodeTransaction(tx).Some?
    ensures AllSized(tx.read, 32) && AllSized(tx.write, 32) && |EncodeTransaction(tx).value| >= 60
    ensures Tail(EncodeTransaction(tx).value) == LE(64, 8) <==> LooksTipped(tx)
  {
    hide *;
    BodyLength(tx);
    var head := BodyHead(tx);
    AccessListTail(head, tx.read, tx.write);
    TailDecides(tx, Tail(EncodeTransaction(tx).value));
  }

  lemma TailDecides(tx: Transaction, tail: Bytes)
    requires AllSized(tx.read, 32) && AllSized(tx.write, 32)
    requires tail == if tx.write != [] then tx.write[|tx.write| - 1][16..24]
                     else if tx.read != [] then tx.read[|tx.read| - 1][24..]
                     else LE(0, 8)
    ensures tail == LE(64, 8) <==> LooksTipped(tx)
  {
    hide LE;
    ZeroIsNot64();
  }

  lemma ZeroIsNot64()
    ensures LE(0, 8) != LE(64, 8)
  {
    ZeroBytes();
  }

  /** Everything before the access list. */
  lemma BodyHead(tx: Transaction) returns (head: Bytes)
    requires EncodeTransaction(tx).Some?
    ensures AllSized(tx.read, 32) && AllSized(tx.write, 32)
    ensures EncodeTransaction(tx).value == head + (EncodeFixedList(tx.read) + EncodeFixedList(tx.write))
  {
    hide LE, EncodePayload, EncodeFixedList, Concat, AllSized;
    head := LE(tx.nonce, 8) + (tx.sender + EncodePayload(tx.payload).value);
  }

  /**
   * An untipped transaction: the parser finds the body exactly when the access list does not look
   * like the tipped layout; otherwise it stops 16 bytes short.
   */
  lemma UntippedBodyIsFoundIff(tx: Transaction, sig: Buffer)
    requires EncodeSigned(tx, sig, 0).Some?
    ensures AllSized(tx.read, 32) && AllSized(tx.write, 32) && |EncodeTransaction(tx).value| >= 60
    ensures SignedBody(EncodeSigned(tx, sig, 0).value) == EncodeTransaction(tx) <==> !LooksTipped(tx)
    ensures LooksTipped(tx) ==>
            var body := EncodeTransaction(tx).value;
            SignedBody(EncodeSigned(tx, sig, 0).value) == Some(body[..|body| - 16])
  {
    hide *;
    WireParts(tx, sig, 0);
    TransactionTail(tx);
    FindsUntippedIff(EncodeTransaction(tx).value, sig);
  }

  /** A claim whose access list ends in such an account: the id is taken of too few bytes. */
  lemma MisreadExample(id: Buffer, sig: Buffer)
    requires |id| == 32 && id[16..24] == LE(64, 8) && |sig| == 64
    ensures var tx := Transaction(0, id, ClaimUnbond, [], [id]);
            && EncodeSigned(tx, sig, 0).Some?
            && SignedBody(EncodeSigned(tx, sig, 0).value) != EncodeTransaction(tx)
  {
    var tx := Transaction(0, id, ClaimUnbond, [], [id]);
    UntippedBodyIsFoundIff(tx, sig);
  }

  // --- Signing preimages ---

  /** ASCII "BOING_TX_V2". */
  const DOMAIN_V2: Bytes := [66, 79, 73, 78, 71, 95, 84, 88, 95, 86, 50]

  /** ASCII "BOING_TX_PRIORITY". */
  const DOMAIN_PRIORITY: Bytes := [66, 79, 73, 78, 71, 95, 84, 88, 95, 80, 82, 73, 79, 82, 73, 84, 89]

  /** What the first signature format hashes: the body alone. */
  function PreimageV1(tx: Transaction): Option<Bytes> { EncodeBody(tx) }

  /** What a wallet hashes and signs: domain, chain id, body, and a non-zero tip. */
  function Preimage(tx: Transaction, chain: int, tip: int): Option<Bytes> {
    match EncodeBody(tx)
    case None => None
    case Some(body) =>
      if tip == 0 then Some(DOMAIN_V2 + (LE(chain, 8) + body))
      else Some(DOMAIN_PRIORITY + (LE(chain, 8) + (body + LE(tip, 16))))
  }

  /** A transaction, chain and tip the node can hold. */
  predicate Signable(tx: Transaction, chain: int, tip: int) {
    EncodeTransaction(tx).Some? && CanonicalTransaction(tx) && FitsU64(chain) && FitsU128(tip)
  }

  // What the node hashes: the tag's letters, the chain id, the transaction, and last a non-zero tip.

  function Ascii(s: string): Bytes { seq(|s|, i requires 0 <= i < |s| => s[i] as int % 256) }

  function UntippedShape(): Shape { Pair(Raw(11), Pair(Num(8), TransactionShape())) }

  function TippedShape(): Shape { Pair(Raw(17), Pair(Num(8), Pair(TransactionShape(), Num(16)))) }

  lemma DomainsAreText()
    ensures DOMAIN_V2 == Ascii("BOING_TX_V2") && DOMAIN_PRIORITY == Ascii("BOING_TX_PRIORITY")
  {
  }

  lemma SignableBody(tx: Transaction, chain: int, tip: int)
    requires Signable(tx, chain, tip)
    ensures EncodeBody(tx).Some? && Fits(TransactionShape(), TransactionValue(tx))
    ensures Encode(TransactionShape(), TransactionValue(tx)) == EncodeBody(tx).value
  {
    hide EncodeBody, TransactionShape, TransactionValue, CanonicalTransaction, Fits, Encode;
    BodyIsSound(tx);
  }

  lemma PairHolds(a: Shape, b: Shape, v: Value, w: Value)
    requires Fits(a, v) && Fits(b, w)
    ensures Fits(Pair(a, b), Both(v, w)) && Encode(Pair(a, b), Both(v, w)) == Encode(a, v) + Encode(b, w)
  {
  }

  lemma LeafHolds(b: Bytes, chain: int, tip: int)
    requires FitsU64(chain) && FitsU128(tip)
    ensures Fits(Raw(|b|), Blob(b)) && Encode(Raw(|b|), Blob(b)) == b
    ensures Fits(Num(8), Int(chain)) && Encode(Num(8), Int(chain)) == LE(chain, 8)
    ensures Fits(Num(16), Int(tip)) && Encode(Num(16), Int(tip)) == LE(tip, 16)
  {
    Powers();
    hide Pow256, LE;
  }

  lemma ReadsAll(s: Shape, v: Value)
    requires Fits(s, v)
    ensures Decode(s, Encode(s, v)) == Got(v, [])
  {
    hide Fits, Encode, Decode;
    RoundTrip(s, v, []);
    assert Encode(s, v) + [] == Encode(s, v);
  }

  /** A wallet that signs without a tip hashes what the node hashes: "BOING_TX_V2", the chain id and the transaction. */
  lemma NodeHashesUntipped(tx: Transaction, chain: int)
    requires Signable(tx, chain, 0)
    ensures Preimage(tx, chain, 0).Some?
    ensures Decode(UntippedShape(), Preimage(tx, chain, 0).value) ==
            Got(Both(Blob(Ascii("BOING_TX_V2")), Both(Int(chain), TransactionValue(tx))), [])
  {
    hide LE, EncodeBody, TransactionShape, TransactionValue, Ascii, Fits, Encode, Decode, EncodeTransaction, CanonicalTransaction;
    SignableBody(tx, chain, 0);
    DomainsAreText();
    LeafHolds(DOMAIN_V2, chain, 0);
    var v := TransactionValue(tx);
    PairHolds(Num(8), TransactionShape(), Int(chain), v);
    PairHolds(Raw(11), Pair(Num(8), TransactionShape()), Blob(DOMAIN_V2), Both(Int(chain), v));
    ReadsAll(UntippedShape(), Both(Blob(DOMAIN_V2), Both(Int(chain), v)));
  }

  /** With a tip: "BOING_TX_PRIORITY", the chain id, the transaction and then the tip. */
  lemma NodeHashesTipped(tx: Transaction, chain: int, tip: int)
    requires Signable(tx, chain, tip) && tip != 0
    ensures Preimage(tx, chain, tip).Some?
    ensures Decode(TippedShape(), Preimage(tx, chain, tip).value) ==
            Got(Both(Blob(Ascii("BOING_TX_PRIORITY")), Both(Int(chain), Both(TransactionValue(tx), Int(tip)))), [])
  {
    hide LE, EncodeBody, TransactionShape, TransactionValue, Ascii, Fits, Encode, Decode, EncodeTransaction, CanonicalTransaction;
    SignableBody(tx, chain, tip);
    DomainsAreText();
    LeafHolds(DOMAIN_PRIORITY, chain, tip);
    var v, s := TransactionValue(tx), Pair(TransactionShape(), Num(16));
    PairHolds(TransactionShape(), Num(16), v, Int(tip));
    PairHolds(Num(8), s, Int(chain), Both(v, Int(tip)));
    PairHolds(Raw(17), Pair(Num(8), s), Blob(DOMAIN_PRIORITY), Both(Int(chain), Both(v, Int(tip))));
    ReadsAll(TippedShape(), Both(Blob(DOMAIN_PRIORITY), Both(Int(chain), Both(v, Int(tip)))));
  }

  lemma SplitFront(a: Bytes, b: Bytes, x: Bytes, y: Bytes)
    requires |a| == |b| && a + x == b + y
    ensures a == b && x == y
  {
    assert (a + x)[..|a|] == a && (b + y)[..|b|] == b;
    assert (a + x)[|a|..] == x && (b + y)[|b|..] == y;
  }

  lemma SameNumber(m: int, n: int, w: nat)
    requires 0 <= m < Pow256(w) && 0 <= n < Pow256(w) && LE(m, w) == LE(n, w)
    ensures m == n
  {
    NumberOfSmallLE(m, w);
    NumberOfSmallLE(n, w);
  }

  /** The tip decides the domain, and the two domains differ at their tenth byte. */
  lemma DomainsDiffer(x: Bytes, y: Bytes)
    ensures DOMAIN_V2 + x != DOMAIN_PRIORITY + y
  {
    assert (DOMAIN_V2 + x)[9] == 86 && (DOMAIN_PRIORITY + y)[9] == 80;
  }

  lemma UntippedPreimagesSeparate(a: Transaction, b: Transaction, chain: int, chain': int)
    requires Signable(a, chain, 0) && Signable(b, chain', 0) && Preimage(a, chain, 0) == Preimage(b, chain', 0)
    ensures a == b && chain == chain'
  {
    hide CanonicalTransaction, LE, EncodeBody, Pow256;
    var x, y := EncodeBody(a).value, EncodeBody(b).value;
    SplitFront(DOMAIN_V2, DOMAIN_V2, LE(chain, 8) + x, LE(chain', 8) + y);
    SplitFront(LE(chain, 8), LE(chain', 8), x, y);
    Powers();
    SameNumber(chain, chain', 8);
    assert x + [] == x && y + [] == y;
    EncodingIsPrefixFree(a, b, [], []);
  }

  lemma TippedPreimagesSeparate(a: Transaction, b: Transaction, chain: int, chain': int, tip: int, tip': int)
    requires Signable(a, chain, tip) && Signable(b, chain', tip') && tip != 0 && tip' != 0
    requires Preimage(a, chain, tip) == Preimage(b, chain', tip')
    ensures a == b && chain == chain' && tip == tip'
  {
    hide CanonicalTransaction, LE, EncodeBody, Pow256;
    var x, y := EncodeBody(a).value, EncodeBody(b).value;
    SplitFront(DOMAIN_PRIORITY, DOMAIN_PRIORITY, LE(chain, 8) + (x + LE(tip, 16)), LE(chain', 8) + (y + LE(tip', 16)));
    SplitFront(LE(chain, 8), LE(chain', 8), x + LE(tip, 16), y + LE(tip', 16));
    Powers();
    SameNumber(chain, chain', 8);
    EncodingIsPrefixFree(a, b, LE(tip, 16), LE(tip', 16));
    SameNumber(tip, tip', 16);
  }

  /** A signature binds the chain, the transaction and the tip: equal preimages come from equal inputs. */
  lemma PreimagesSeparate(a: Transaction, b: Transaction, chain: int, chain': int, tip: int, tip': int)
    requires Signable(a, chain, tip) && Signable(b, chain', tip')
    requires Preimage(a, chain, tip) == Preimage(b, chain', tip')
    ensures a == b && chain == chain' && tip == tip'
  {
    if tip == 0 && tip' == 0 {
      UntippedPreimagesSeparate(a, b, chain, chain');
    } else if tip != 0 && tip' != 0 {
      TippedPreimagesSeparate(a, b, chain, chain', tip, tip');
    } else {
      hide EncodeBody, LE;
      var x, y := EncodeBody(a).value, EncodeBody(b).value;
      if tip == 0 {
        DomainsDiffer(LE(chain, 8) + x, LE(chain', 8) + (y + LE(tip', 16)));
      } else {
        DomainsDiffer(LE(chain', 8) + y, LE(chain, 8) + (x + LE(tip, 16)));
      }
    }
  }

  /** "BOING_TX", with which both domains start, read as a little-endian nonce. */
  const DOMAIN_NONCE: nat := Number(DOMAIN_V2[..8])

  lemma {:induction false} TopByteBounds(bs: Bytes)
    requires bs != []
    ensures Number(bs) >= bs[|bs| - 1] * Pow256(|bs| - 1)
  {
    if |bs| > 1 {
      TopByteBounds(bs[1..]);
      var top, p := bs[|bs| - 1], Pow256(|bs| - 2);
      assert 256 * (top * p) == top * (256 * p);
    }
  }

  /** A first-format preimage equals a chain-bound one only for the one nonce that spells the domain, above 2^56. */
  lemma FormatsSeparate(a: Transaction, b: Transaction, chain: int, tip: int)
    requires PreimageV1(a).Some? && FitsU64(a.nonce) && PreimageV1(a) == Preimage(b, chain, tip)
    ensures a.nonce == DOMAIN_NONCE >= Pow256(7)
  {
    hide LE, EncodePayload, EncodeAccessList, Number, Pow256;
    var x, d := PreimageV1(a).value, DOMAIN_V2[..8];
    assert d == DOMAIN_PRIORITY[..8];
    assert x[..8] == LE(a.nonce, 8);
    assert x[..8] == d;
    Powers();
    LEOfNumber(d);
    SameNumber(a.nonce, Number(d), 8);
    TopByteBounds(d);
    assert 88 * Pow256(7) >= Pow256(7);
  }

  // The nonce that spells the domain does meet a chain-bound preimage: a deploy whose sender and
  // code spell the rest of a claim's preimage, for any choice of the 13 and 7 bytes left open.

  function MeetingDeploy(p: Bytes, m: Bytes): Transaction
    requires |p| == 13 && |m| == 7
  {
    Transaction(DOMAIN_NONCE, [95, 86, 50] + (LE(0, 8) + (LE(0, 8) + p)), ContractDeploy(m + [7, 0, 0], None), [], [])
  }

  function MeetingClaim(p: Bytes, m: Bytes): Transaction
    requires |p| == 13 && |m| == 7
  {
    Transaction(0, p + (LE(2, 4) + (LE(10, 8) + m)), ClaimUnbond, [], [])
  }

  lemma SmallLE()
    ensures LE(7, 4) == [7, 0, 0, 0] && LE(0, 8) + [] == LE(0, 8)
    ensures LE(DOMAIN_NONCE, 8) == DOMAIN_V2[..8]
  {
    LEOfNumber(DOMAIN_V2[..8]);
  }

  lemma MeetingBytes(d: Bytes, e: Bytes, z: Bytes, p: Bytes, two: Bytes, ten: Bytes, m: Bytes, end: Bytes)
    ensures d + ((e + (z + (z + p))) + ((two + ((ten + (m + [7, 0, 0])) + [0])) + end))
            == (d + e) + (z + (z + ((p + (two + (ten + m))) + ([7, 0, 0, 0] + end))))
  {
    var s := [7, 0, 0, 0] + end;
    assert ((ten + (m + [7, 0, 0])) + [0]) + end == ten + (m + s);
    assert (two + ((ten + (m + [7, 0, 0])) + [0])) + end == two + (ten + (m + s));
    assert (p + (two + (ten + m))) + s == p + (two + (ten + (m + s)));
    var t := two + (ten + (m + s));
    assert (e + (z + (z + p))) + t == e + (z + (z + (p + t)));
    assert (d + e) + (z + (z + (p + t))) == d + (e + (z + (z + (p + t))));
  }

  lemma DeployBody(p: Bytes, m: Bytes)
    requires |p| == 13 && |m| == 7
    ensures var a, z := MeetingDeploy(p, m), LE(0, 8);
            EncodeBody(a) == Some(LE(DOMAIN_NONCE, 8) + (a.sender + ((LE(2, 4) + ((LE(10, 8) + (m + [7, 0, 0])) + [0])) + (z + z))))
  {
    SmallLE();
    hide LE, Number, Pow256;
    assert EncodeFixedList([]) == LE(0, 8);
    assert FieldBytes(MeetingDeploy(p, m).payload) == (LE(10, 8) + (m + [7, 0, 0])) + [0];
  }

  lemma ClaimBody(p: Bytes, m: Bytes)
    requires |p| == 13 && |m| == 7
    ensures var b, z := MeetingClaim(p, m), LE(0, 8);
            EncodeBody(b) == Some(z + (b.sender + ([7, 0, 0, 0] + (z + z))))
  {
    SmallLE();
    hide LE, Number, Pow256;
    assert EncodeFixedList([]) == LE(0, 8);
    assert LE(7, 4) + FieldBytes(ClaimUnbond) == LE(7, 4);
  }

  lemma MeetingIsSignable(p: Bytes, m: Bytes)
    requires |p| == 13 && |m| == 7
    ensures Signable(MeetingDeploy(p, m), 0, 0) && Signable(MeetingClaim(p, m), 0, 0)
  {
    DeployBody(p, m);
    ClaimBody(p, m);
    LEOfNumber(DOMAIN_V2[..8]);
    Powers();
    hide LE, Number, Pow256, EncodeBody;
  }

  lemma FormatsMeet(p: Bytes, m: Bytes)
    requires |p| == 13 && |m| == 7
    ensures Signable(MeetingDeploy(p, m), 0, 0) && Signable(MeetingClaim(p, m), 0, 0)
    ensures PreimageV1(MeetingDeploy(p, m)) == Preimage(MeetingClaim(p, m), 0, 0)
  {
    MeetingIsSignable(p, m);
    SmallLE();
    DeployBody(p, m);
    ClaimBody(p, m);
    hide LE, Number, Pow256, EncodeBody, Signable;
    var z := LE(0, 8);
    assert DOMAIN_V2 == DOMAIN_V2[..8] + [95, 86, 50];
    MeetingBytes(DOMAIN_V2[..8], [95, 86, 50], z, p, LE(2, 4), LE(10, 8), m, z + z);
  }

  ghost predicate Meets(a: Transaction, b: Transaction, chain: int, tip: int) {
    PreimageV1(a).Some? && PreimageV1(a) == Preimage(b, chain, tip)
  }

  /** A nonce is shared by a first-format preimage and a chain-bound one exactly when it spells the domain. */
  lemma FormatsMeetIff(nonce: int)
    requires FitsU64(nonce)
    ensures (exists a: Transaction, b, chain, tip :: a.nonce == nonce && Meets(a, b, chain, tip)) <==> nonce == DOMAIN_NONCE
  {
    if a: Transaction, b, chain, tip :| a.nonce == nonce && Meets(a, b, chain, tip) {
      FormatsSeparate(a, b, chain, tip);
    }
    if nonce == DOMAIN_NONCE {
      var p, m := LE(0, 13), LE(0, 7);
      FormatsMeet(p, m);
      assert MeetingDeploy(p, m).nonce == nonce && Meets(MeetingDeploy(p, m), MeetingClaim(p, m), 0, 0);
    }
  }
}
