/**
 * Signing a payment end to end, and what the signed data and the blob say: byte for byte, and by
 * looking single fields up in what a decoder of the ledger's format recovers.
 */
module XahauSign {
  import opened Common
  import Numerals
  import opened Decimals
  import opened Letters58
  import Base58
  import opened XahauTx

  // ---- the bytes ------------------------------------------------------------------------------------------

  /** A field in front of the public key: its code and a number. */
  function Leading(p: Payment): seq<byte>
    requires p.sequence < 0x1_0000_0000 && p.lastLedgerSequence < 0x1_0000_0000 && p.networkId < 0x1_0000_0000
    requires NativeText(p.amountDrops) && NativeText(p.feeDrops)
  {
    [0x12, 0, 0] + (if p.hasNetworkId then [0x21] + BytesOf32(p.networkId) else [])
    + ([0x24] + BytesOf32(p.sequence)) + ([0x20, 27] + BytesOf32(p.lastLedgerSequence))
    + ([0x61] + NativeBytes(NatOf(p.amountDrops))) + ([0x68] + NativeBytes(NatOf(p.feeDrops)))
  }

  /** Behind the "STX" prefix: the numbers, the public key, the sender's account, the receiver's. */
  function Layout(p: Payment, publicKey: seq<byte>, from: seq<byte>, to: seq<byte>): seq<byte>
    requires p.sequence < 0x1_0000_0000 && p.lastLedgerSequence < 0x1_0000_0000 && p.networkId < 0x1_0000_0000
    requires NativeText(p.amountDrops) && NativeText(p.feeDrops)
  {
    Leading(p) + ([0x73, 33] + publicKey) + ([0x81, 20] + from) + ([0x83, 20] + to)
  }

  lemma One(f: Field)
    requires Canonical(f)
    ensures EncodeFields([f]) == EncodeField(f)
  {
    assert [f][1..] == [];
  }

  lemma Pair(f: Field, g: Field)
    requires Canonical(f) && Canonical(g)
    ensures EncodeFields([f, g]) == EncodeField(f) + EncodeField(g)
  {
    One(g);
    assert [f, g][1..] == [g];
  }

  lemma LeadingBytes(p: Payment)
    requires p.sequence <= UINT32_MAX && p.lastLedgerSequence <= UINT32_MAX && p.networkId <= UINT32_MAX
    requires NativeText(p.amountDrops) && NativeText(p.feeDrops)
    ensures EncodeFields(LeadingFields(p)) == Leading(p)
    ensures |Leading(p)| == KeyOffset(p) == if p.hasNetworkId then 37 else 32
  {
    var first, network := [Field(UINT16, 2, [0, 0])], if p.hasNetworkId then [Field(UINT32, 1, BytesOf32(p.networkId))] else [];
    var last, sequence := Field(UINT32, 27, BytesOf32(p.lastLedgerSequence)), Field(UINT32, 4, BytesOf32(p.sequence));
    var amount, fee := Field(AMOUNT, 1, NativeBytes(NatOf(p.amountDrops))), Field(AMOUNT, 8, NativeBytes(NatOf(p.feeDrops)));
    One(first[0]);
    if p.hasNetworkId {
      One(network[0]);
    }
    Pair(sequence, last);
    Pair(amount, fee);
    JoinFour(first, network, [sequence, last], [amount, fee]);
    assert LeadingFields(p) == first + network + [sequence, last] + [amount, fee];
    assert EncodeField(first[0]) == [0x12, 0, 0];
    Codes(BytesOf32(p.networkId), sequence, last, amount, fee);
    Associate(EncodeFields(first + network), EncodeField(sequence), EncodeField(last));
    Associate(EncodeFields(first + network) + EncodeField(sequence) + EncodeField(last), EncodeField(amount), EncodeField(fee));
  }

  lemma JoinFour(a: seq<Field>, b: seq<Field>, c: seq<Field>, d: seq<Field>)
    requires AllCanonical(a) && AllCanonical(b) && AllCanonical(c) && AllCanonical(d)
    ensures EncodeFields(a + b) == EncodeFields(a) + EncodeFields(b)
    ensures EncodeFields(a + b + c + d) == EncodeFields(a) + EncodeFields(b) + EncodeFields(c) + EncodeFields(d)
  {
    EncodeAppend(a, b);
    EncodeAppend(a + b, c);
    EncodeAppend(a + b + c, d);
  }

  lemma Codes(network: seq<byte>, sequence: Field, last: Field, amount: Field, fee: Field)
    requires |network| == |sequence.data| == |last.data| == 4 && |amount.data| == |fee.data| == 8
    requires sequence == Field(UINT32, 4, sequence.data) && last == Field(UINT32, 27, last.data)
    requires amount == Field(AMOUNT, 1, amount.data) && fee == Field(AMOUNT, 8, fee.data)
    ensures EncodeField(Field(UINT32, 1, network)) == [0x21] + network
    ensures EncodeField(sequence) == [0x24] + sequence.data && EncodeField(last) == [0x20, 27] + last.data
    ensures EncodeField(amount) == [0x61] + amount.data && EncodeField(fee) == [0x68] + fee.data
  {
  }

  /** What is signed, byte for byte. */
  lemma SigningLayout(a: Alphabet, p: Payment, publicKey: seq<byte>, hash: Base58.Hash)
    requires Buildable(a, p, hash) && |publicKey| == PUBLIC_KEY_BYTES
    ensures SigningBytes(a, p, publicKey, hash)
         == Layout(p, publicKey, AccountId(a, p.account, hash), AccountId(a, p.destination, hash))
  {
    var key, from, to := KeyField(publicKey), AccountId(a, p.account, hash), AccountId(a, p.destination, hash);
    LeadingBytes(p);
    JoinField(LeadingFields(p), key, AccountFields(a, p, hash));
    AccountBytes(publicKey, from, to);
    Associate(Leading(p) + EncodeField(key), [0x81, 20] + from, [0x83, 20] + to);
  }

  lemma AccountBytes(publicKey: seq<byte>, from: seq<byte>, to: seq<byte>)
    requires |publicKey| == PUBLIC_KEY_BYTES && |from| == |to| == ACCOUNT_ID_BYTES
    ensures EncodeField(KeyField(publicKey)) == [0x73, 33] + publicKey
    ensures EncodeFields([Field(ACCOUNT_ID, 1, from), Field(ACCOUNT_ID, 3, to)]) == ([0x81, 20] + from) + ([0x83, 20] + to)
  {
    Pair(Field(ACCOUNT_ID, 1, from), Field(ACCOUNT_ID, 3, to));
  }

  // ---- single fields -----------------------------------------------------------------------------------------

  /** The content of the field of that type and index. */
  function Lookup(fs: seq<Field>, kind: nat, index: nat): Option<seq<byte>> {
    if fs == [] then None
    else if fs[0].kind == kind && fs[0].index == index then Some(fs[0].data)
    else Lookup(fs[1..], kind, index)
  }

  predicate Different(f: Field, g: Field) {
    f.kind != g.kind || f.index != g.index
  }

  lemma {:induction false} LookupAt(fs: seq<Field>, i: nat)
    requires i < |fs| && forall j :: 0 <= j < i ==> Different(fs[j], fs[i])
    ensures Lookup(fs, fs[i].kind, fs[i].index) == Some(fs[i].data)
  {
    if i > 0 {
      assert Different(fs[0], fs[i]);
      assert forall j :: 0 <= j < i - 1 ==> fs[1..][j] == fs[j + 1];
      LookupAt(fs[1..], i - 1);
    }
  }

  lemma {:induction false} LookupNone(fs: seq<Field>, kind: nat, index: nat)
    requires forall j :: 0 <= j < |fs| ==> fs[j].kind != kind || fs[j].index != index
    ensures Lookup(fs, kind, index) == None
  {
    if fs != [] {
      LookupNone(fs[1..], kind, index);
    }
  }

  predicate Worth(content: Option<seq<byte>>, value: nat) {
    content.Some? && Numerals.BigEndian(content.value, 256) == value
  }

  /** The account whose address this is. */
  predicate IsAccount(a: Alphabet, content: Option<seq<byte>>, address: string, hash: Base58.Hash) {
    content.Some? && |content.value| == 20 && Base58.CheckedText(a, [0] + content.value, hash) == address
  }

  /** A list of fields says of the payment what the ledger's format has them say, and nothing else. */
  ghost predicate Says(fs: seq<Field>, a: Alphabet, p: Payment, publicKey: seq<byte>, hash: Base58.Hash, signature: Option<seq<byte>>)
    requires AllDigits(p.amountDrops) && AllDigits(p.feeDrops)
  {
    && Worth(Lookup(fs, 1, 2), 0)
    && (if p.hasNetworkId then Worth(Lookup(fs, 2, 1), p.networkId) else Lookup(fs, 2, 1) == None)
    && Worth(Lookup(fs, 2, 4), p.sequence)
    && Worth(Lookup(fs, 2, 27), p.lastLedgerSequence)
    && Worth(Lookup(fs, 6, 1), NatOf(p.amountDrops) + 0x4000_0000_0000_0000)
    && Worth(Lookup(fs, 6, 8), NatOf(p.feeDrops) + 0x4000_0000_0000_0000)
    && Lookup(fs, 7, 3) == Some(publicKey)
    && Lookup(fs, 7, 4) == signature
    && IsAccount(a, Lookup(fs, 8, 1), p.account, hash)
    && IsAccount(a, Lookup(fs, 8, 3), p.destination, hash)
    && |fs| == 8 + (if p.hasNetworkId then 1 else 0) + (if signature.Some? then 1 else 0)
  }

  /** The fields of a payment by place: numbers, amounts, key, signature if there is one, accounts. */
  function Listed(p: Payment, network: seq<byte>, sequence: seq<byte>, last: seq<byte>, amount: seq<byte>, fee: seq<byte>,
                  publicKey: seq<byte>, signature: Option<seq<byte>>, from: seq<byte>, to: seq<byte>): seq<Field> {
    [Field(1, 2, [0, 0])] + (if p.hasNetworkId then [Field(2, 1, network)] else [])
    + [Field(2, 4, sequence), Field(2, 27, last), Field(6, 1, amount), Field(6, 8, fee), Field(7, 3, publicKey)]
    + (if signature.Some? then [Field(7, 4, signature.value)] else [])
    + [Field(8, 1, from), Field(8, 3, to)]
  }

  /** Ascending fields are different from each other. */
  lemma AllDifferent(fs: seq<Field>)
    requires Ascending(fs) && forall i :: 0 <= i < |fs| ==> fs[i].index < 256
    ensures forall i, j :: 0 <= j < i < |fs| ==> Different(fs[j], fs[i])
  {
    forall i, j | 0 <= j < i < |fs| ensures Different(fs[j], fs[i]) {
      Rising(fs, j, i);
    }
  }

  lemma {:induction false} Rising(fs: seq<Field>, j: nat, i: nat)
    requires Ascending(fs) && j < i < |fs|
    ensures fs[j].kind * 65536 + fs[j].index < fs[i].kind * 65536 + fs[i].index
  {
    if j + 1 < i {
      Rising(fs, j, i - 1);
    }
    assert fs[i - 1].kind * 65536 + fs[i - 1].index < fs[i - 1 + 1].kind * 65536 + fs[i - 1 + 1].index;
  }

  lemma ListedNumbers(p: Payment, network: seq<byte>, sequence: seq<byte>, last: seq<byte>, amount: seq<byte>, fee: seq<byte>,
                      publicKey: seq<byte>, signature: Option<seq<byte>>, from: seq<byte>, to: seq<byte>)
    ensures
      var fs := Listed(p, network, sequence, last, amount, fee, publicKey, signature, from, to);
      && Lookup(fs, 1, 2) == Some([0, 0]) && Lookup(fs, 2, 1) == (if p.hasNetworkId then Some(network) else None)
      && Lookup(fs, 2, 4) == Some(sequence) && Lookup(fs, 2, 27) == Some(last)
      && Lookup(fs, 6, 1) == Some(amount) && Lookup(fs, 6, 8) == Some(fee)
  {
    var fs := Listed(p, network, sequence, last, amount, fee, publicKey, signature, from, to);
    var n := if p.hasNetworkId then 1 else 0;
    AllDifferent(fs);
    LookupAt(fs, 0);
    LookupAt(fs, 1 + n);
    LookupAt(fs, 2 + n);
    LookupAt(fs, 3 + n);
    LookupAt(fs, 4 + n);
    if p.hasNetworkId {
      LookupAt(fs, 1);
    } else {
      LookupNone(fs, 2, 1);
    }
  }

  lemma ListedKeys(p: Payment, network: seq<byte>, sequence: seq<byte>, last: seq<byte>, amount: seq<byte>, fee: seq<byte>,
                   publicKey: seq<byte>, signature: Option<seq<byte>>, from: seq<byte>, to: seq<byte>)
    ensures
      var fs := Listed(p, network, sequence, last, amount, fee, publicKey, signature, from, to);
      && Lookup(fs, 7, 3) == Some(publicKey) && Lookup(fs, 7, 4) == signature
      && Lookup(fs, 8, 1) == Some(from) && Lookup(fs, 8, 3) == Some(to)
  {
    var fs := Listed(p, network, sequence, last, amount, fee, publicKey, signature, from, to);
    var n, m := if p.hasNetworkId then 1 else 0, |fs|;
    AllDifferent(fs);
    LookupAt(fs, 5 + n);
    LookupAt(fs, m - 2);
    LookupAt(fs, m - 1);
    if signature.Some? {
      LookupAt(fs, 6 + n);
    } else {
      LookupNone(fs, 7, 4);
    }
  }

  lemma ListSays(a: Alphabet, p: Payment, publicKey: seq<byte>, hash: Base58.Hash, signature: Option<seq<byte>>)
    requires Buildable(a, p, hash)
    ensures
      var from, to := AccountId(a, p.account, hash), AccountId(a, p.destination, hash);
      var fs := Listed(p, BytesOf32(p.networkId), BytesOf32(p.sequence), BytesOf32(p.lastLedgerSequence),
                       NativeBytes(NatOf(p.amountDrops)), NativeBytes(NatOf(p.feeDrops)), publicKey, signature, from, to);
      Says(fs, a, p, publicKey, hash, signature)
  {
    ListedNumbers(p, BytesOf32(p.networkId), BytesOf32(p.sequence), BytesOf32(p.lastLedgerSequence),
                  NativeBytes(NatOf(p.amountDrops)), NativeBytes(NatOf(p.feeDrops)), publicKey, signature,
                  AccountId(a, p.account, hash), AccountId(a, p.destination, hash));
    ListedKeys(p, BytesOf32(p.networkId), BytesOf32(p.sequence), BytesOf32(p.lastLedgerSequence),
               NativeBytes(NatOf(p.amountDrops)), NativeBytes(NatOf(p.feeDrops)), publicKey, signature,
               AccountId(a, p.account, hash), AccountId(a, p.destination, hash));
    NumbersDecode(NatOf(p.amountDrops), p.networkId);
    NumbersDecode(NatOf(p.feeDrops), p.sequence);
    NumbersDecode(NatOf(p.feeDrops), p.lastLedgerSequence);
    ZeroBytes();
    AddressOfAccountId(a, p.account, hash);
    AddressOfAccountId(a, p.destination, hash);
  }

  lemma ZeroBytes()
    ensures Numerals.BigEndian([0, 0], 256) == 0
  {
    assert [0, 0][..1] == [0] && [0][..0] == [];
  }

  lemma ListedIs(p: Payment, publicKey: seq<byte>, signature: Option<seq<byte>>, from: seq<byte>, to: seq<byte>)
    requires p.sequence <= UINT32_MAX && p.lastLedgerSequence <= UINT32_MAX && p.networkId <= UINT32_MAX
    requires NativeText(p.amountDrops) && NativeText(p.feeDrops)
    ensures Listed(p, BytesOf32(p.networkId), BytesOf32(p.sequence), BytesOf32(p.lastLedgerSequence),
                   NativeBytes(NatOf(p.amountDrops)), NativeBytes(NatOf(p.feeDrops)), publicKey, signature, from, to)
         == LeadingFields(p)
            + ([KeyField(publicKey)] + if signature.Some? then [SignatureField(signature.value)] else [])
            + [Field(ACCOUNT_ID, 1, from), Field(ACCOUNT_ID, 3, to)]
  {
  }

  lemma SigningSays(a: Alphabet, p: Payment, publicKey: seq<byte>, hash: Base58.Hash)
    requires Buildable(a, p, hash) && |publicKey| == PUBLIC_KEY_BYTES
    ensures DecodeFields(SigningBytes(a, p, publicKey, hash)).Some?
    ensures Says(DecodeFields(SigningBytes(a, p, publicKey, hash)).value, a, p, publicKey, hash, None)
  {
    ListSays(a, p, publicKey, hash, None);
    ListedIs(p, publicKey, None, AccountId(a, p.account, hash), AccountId(a, p.destination, hash));
    assert [KeyField(publicKey)] + [] == [KeyField(publicKey)];
    DecodeEncoded(SigningFields(a, p, publicKey, hash));
  }

  lemma BlobSays(a: Alphabet, p: Payment, publicKey: seq<byte>, hash: Base58.Hash, signature: seq<byte>)
    requires Buildable(a, p, hash) && |publicKey| == PUBLIC_KEY_BYTES && |signature| == SIGNATURE_BYTES
    ensures Says(BlobFields(a, p, publicKey, signature, hash), a, p, publicKey, hash, Some(signature))
  {
    ListSays(a, p, publicKey, hash, Some(signature));
    ListedIs(p, publicKey, Some(signature), AccountId(a, p.account, hash), AccountId(a, p.destination, hash));
    assert [KeyField(publicKey)] + [SignatureField(signature)] == [KeyField(publicKey), SignatureField(signature)];
  }

  // ---- the whole operation -------------------------------------------------------------------------------------

  /** An amount of drops as the ledger takes it. */
  predicate DropsDigits(text: string) {
    text != "" && (forall i :: 0 <= i < |text| ==> '0' <= text[i] <= '9') && NatOf(text) < 0x4000_0000_0000_0000
  }

  /** Some twenty bytes have this address. */
  ghost predicate Addresses(a: Alphabet, address: string, hash: Base58.Hash) {
    exists id: seq<byte> :: |id| == 20 && Base58.CheckedText(a, [0] + id, hash) == address
  }

  lemma AddressesExactly(a: Alphabet, address: string, hash: Base58.Hash)
    ensures AccountStatus(a, address, hash) == Ok <==> Addresses(a, address, hash)
  {
    if AccountStatus(a, address, hash) == Ok {
      AddressOfAccountId(a, address, hash);
      assert |AccountId(a, address, hash)| == 20;
    }
    if id: seq<byte> :| |id| == 20 && Base58.CheckedText(a, [0] + id, hash) == address {
      AddressAccepted(a, id, hash);
    }
  }

  lemma BuildsExactly(a: Alphabet, p: Payment, hash: Base58.Hash)
    ensures BuildStatus(a, p, hash) == Ok <==>
      && p.sequence < 0x1_0000_0000 && p.lastLedgerSequence < 0x1_0000_0000
      && DropsDigits(p.amountDrops) && DropsDigits(p.feeDrops)
      && Addresses(a, p.account, hash) && Addresses(a, p.destination, hash)
  {
    AddressesExactly(a, p.account, hash);
    AddressesExactly(a, p.destination, hash);
  }

  /** Builds the signing data and hands it out as the bytes to sign. */
  method Prepare(a: Alphabet, p: Payment, publicKey: seq<byte>, hash: Base58.Hash)
    returns (status: Status, signing: Writer, signed: seq<byte>)
    requires |publicKey| == PUBLIC_KEY_BYTES && p.networkId <= UINT32_MAX
    ensures fresh(signing) && fresh(signing.bytes) && signing.Valid()
    ensures status == BuildStatus(a, p, hash)
    ensures status == Ok ==>
      && Buildable(a, p, hash) && signed == signing.Content() == SIGNING_PREFIX + SigningBytes(a, p, publicKey, hash)
      && |SigningBytes(a, p, publicKey, hash)| <= 150
  {
    status, signing := BuildSigningData(a, p, publicKey, hash);
    signed := signing.bytes[..signing.length];
  }

  /** Builds the signing data, signs it and splices the signature in. */
  method Assemble(a: Alphabet, p: Payment, publicKey: seq<byte>, hash: Base58.Hash, sign: seq<byte> -> seq<byte>)
    returns (status: Status, signed: seq<byte>, blob: seq<byte>)
    requires |publicKey| == PUBLIC_KEY_BYTES && p.networkId <= UINT32_MAX
    requires forall data :: |sign(data)| == SIGNATURE_BYTES
    ensures status == BuildStatus(a, p, hash)
    ensures status == Ok ==> Buildable(a, p, hash) && signed == SIGNING_PREFIX + SigningBytes(a, p, publicKey, hash)
    ensures status == Ok && NoPairBefore(SigningBytes(a, p, publicKey, hash), KeyOffset(p)) ==>
      && DecodeFields(blob) == Some(BlobFields(a, p, publicKey, sign(signed), hash))
      && Ascending(BlobFields(a, p, publicKey, sign(signed), hash))
  {
    var signing, out;
    blob := [];
    status, signing, signed := Prepare(a, p, publicKey, hash);
    if status != Ok {
      return;
    }
    ghost var bytes := SigningBytes(a, p, publicKey, hash);
    assert signing.Content()[|SIGNING_PREFIX|..] == bytes;
    SpliceExact(a, p, publicKey, hash);
    var signature := sign(signed);
    status, out := BuildSignedBlob(signing, signature);
    blob := out.bytes[..out.length];
    if NoPairBefore(bytes, KeyOffset(p)) {
      BlobDecodes(a, p, publicKey, signature, hash, blob);
    }
  }

  /**
   * Signs and builds in one go; `sign` is the signature scheme. A payment is built exactly when its
   * numbers fit, its amounts are drops and both addresses are those of accounts. The signature commits
   * to the prefix and every field; with no pair 0x73 0x21 in front of the key the blob holds the same
   * fields in canonical order, with the signature among them.
   */
  method SignPayment(a: Alphabet, p: Payment, publicKey: seq<byte>, hash: Base58.Hash, sign: seq<byte> -> seq<byte>)
    returns (status: Status, signed: seq<byte>, blob: seq<byte>)
    requires |publicKey| == 33 && p.networkId < 0x1_0000_0000
    requires forall data :: |sign(data)| == SIGNATURE_BYTES
    ensures status == BuildStatus(a, p, hash)
    ensures status == Ok <==>
      && p.sequence < 0x1_0000_0000 && p.lastLedgerSequence < 0x1_0000_0000
      && DropsDigits(p.amountDrops) && DropsDigits(p.feeDrops)
      && Addresses(a, p.account, hash) && Addresses(a, p.destination, hash)
    ensures status == Ok ==>
      && AllDigits(p.amountDrops) && AllDigits(p.feeDrops)
      && [0x53, 0x54, 0x58, 0x00] <= signed
      && DecodeFields(signed[4..]).Some? && Says(DecodeFields(signed[4..]).value, a, p, publicKey, hash, None)
    ensures status == Ok && NoPairBefore(signed[4..], if p.hasNetworkId then 37 else 32) ==>
      && DecodeFields(blob).Some? && Ascending(DecodeFields(blob).value)
      && Says(DecodeFields(blob).value, a, p, publicKey, hash, Some(sign(signed)))
  {
    BuildsExactly(a, p, hash);
    status, signed, blob := Assemble(a, p, publicKey, hash, sign);
    if status == Ok {
      ghost var bytes := SigningBytes(a, p, publicKey, hash);
      assert signed[4..] == bytes;
      SigningSays(a, p, publicKey, hash);
      LeadingBytes(p);
      if NoPairBefore(bytes, KeyOffset(p)) {
        BlobSays(a, p, publicKey, hash, sign(signed));
      }
    }
  }
}
