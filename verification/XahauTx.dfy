/**
 * The ledger payment builder: canonical binary fields, the data a signature commits to, and the
 * blob with the signature spliced in behind the public key.
 */
module XahauTx {
  import opened Common
  import Numerals
  import opened Decimals
  import opened Letters58
  import Base58
  import Amounts

  const BLOB_MAX := 512
  const SIGNING_PREFIX: seq<byte> := [0x53, 0x54, 0x58, 0x00]
  const ACCOUNT_VERSION: byte := 0
  const ACCOUNT_ID_BYTES := 20
  const PUBLIC_KEY_BYTES := 33
  const SIGNATURE_BYTES := 64
  const UINT32_MAX := 0xFFFF_FFFF

  const UINT16 := 1
  const UINT32 := 2
  const AMOUNT := 6
  const BLOB := 7
  const ACCOUNT_ID := 8

  // ---- fields and their decoder -------------------------------------------------------------------

  /** One serialized field: its type, its index within the type, its content. */
  datatype Field = Field(kind: nat, index: nat, data: seq<byte>)

  /** Size of the content where the type fixes it. */
  function FixedSize(kind: nat): Option<nat> {
    if kind == UINT16 then Some(2)
    else if kind == UINT32 then Some(4)
    else if kind == AMOUNT then Some(8)
    else None
  }

  predicate HasLength(kind: nat) {
    kind == BLOB || kind == ACCOUNT_ID
  }

  predicate Canonical(f: Field) {
    && (FixedSize(f.kind).Some? || HasLength(f.kind))
    && 1 <= f.index < 256
    && (if HasLength(f.kind) then |f.data| < 192 else |f.data| == FixedSize(f.kind).value)
  }

  function FieldCode(kind: nat, index: nat): seq<byte>
    requires kind < 16 && index < 256
  {
    if index < 16 then [kind * 16 + index] else [kind * 16, index]
  }

  function EncodeField(f: Field): seq<byte>
    requires Canonical(f)
  {
    FieldCode(f.kind, f.index) + (if HasLength(f.kind) then [|f.data|] else []) + f.data
  }

  function EncodeFields(fs: seq<Field>): seq<byte>
    requires forall i :: 0 <= i < |fs| ==> Canonical(fs[i])
  {
    if fs == [] then [] else EncodeField(fs[0]) + EncodeFields(fs[1..])
  }

  /** Reads the field code; nothing for codes the ledger does not use. */
  function DecodeCode(bytes: seq<byte>): Option<(nat, nat, seq<byte>)> {
    if bytes == [] then None
    else
      var kind, low := bytes[0] / 16, bytes[0] % 16;
      if low != 0 then Some((kind, low, bytes[1..]))
      else if |bytes| < 2 || bytes[1] < 16 then None
      else Some((kind, bytes[1], bytes[2..]))
  }

  function DecodeField(bytes: seq<byte>): (r: Option<(Field, seq<byte>)>)
    ensures r.Some? ==> |r.value.1| < |bytes|
  {
    var code := DecodeCode(bytes);
    if code == None then None
    else
      var (kind, index, rest) := code.value;
      if HasLength(kind) then
        if rest == [] || rest[0] >= 192 || |rest| < 1 + rest[0] then None
        else Some((Field(kind, index, rest[1..1 + rest[0]]), rest[1 + rest[0]..]))
      else if FixedSize(kind) == None || |rest| < FixedSize(kind).value then None
      else Some((Field(kind, index, rest[..FixedSize(kind).value]), rest[FixedSize(kind).value..]))
  }

  function DecodeFields(bytes: seq<byte>): Option<seq<Field>>
    decreases |bytes|
  {
    if bytes == [] then Some([])
    else
      var first := DecodeField(bytes);
      if first == None then None
      else
        var rest := DecodeFields(first.value.1);
        if rest == None then None else Some([first.value.0] + rest.value)
  }

  lemma DecodeEncodedField(f: Field, rest: seq<byte>)
    requires Canonical(f)
    ensures DecodeField(EncodeField(f) + rest) == Some((f, rest))
  {
    var content := (if HasLength(f.kind) then [|f.data| as byte] else []) + f.data + rest;
    assert EncodeField(f) + rest == FieldCode(f.kind, f.index) + content;
    DecodeEncodedCode(f.kind, f.index, content);
    if HasLength(f.kind) {
      assert content[1..1 + |f.data|] == f.data && content[1 + |f.data|..] == rest;
    } else {
      assert content[..|f.data|] == f.data && content[|f.data|..] == rest;
    }
  }

  lemma DecodeEncodedCode(kind: nat, index: nat, rest: seq<byte>)
    requires 1 <= kind < 16 && 1 <= index < 256
    ensures DecodeCode(FieldCode(kind, index) + rest) == Some((kind, index, rest))
  {
    var bytes := FieldCode(kind, index) + rest;
    if index < 16 {
      assert bytes[1..] == rest;
    } else {
      assert bytes[2..] == rest;
    }
  }

  /** The decoder recovers every list of canonical fields. */
  lemma {:induction false} DecodeEncoded(fs: seq<Field>)
    requires forall i :: 0 <= i < |fs| ==> Canonical(fs[i])
    ensures DecodeFields(EncodeFields(fs)) == Some(fs)
  {
    if fs != [] {
      DecodeEncoded(fs[1..]);
      DecodeEncodedField(fs[0], EncodeFields(fs[1..]));
      assert [fs[0]] + fs[1..] == fs;
    }
  }

  lemma {:induction false} EncodeAppend(a: seq<Field>, b: seq<Field>)
    requires forall i :: 0 <= i < |a| ==> Canonical(a[i])
    requires forall i :: 0 <= i < |b| ==> Canonical(b[i])
    ensures EncodeFields(a + b) == EncodeFields(a) + EncodeFields(b)
  {
    if a == [] {
      assert a + b == b;
    } else {
      EncodeAppend(a[1..], b);
      assert (a + b)[1..] == a[1..] + b;
    }
  }

  /** The canonical order: type first, index within the type. */
  predicate Ascending(fs: seq<Field>) {
    forall i :: 0 <= i < |fs| - 1 ==> fs[i].kind * 65536 + fs[i].index < fs[i + 1].kind * 65536 + fs[i + 1].index
  }

  // ---- the payment's fields ---------------------------------------------------------------------------

  datatype Payment = Payment(
    account: string, destination: string, amountDrops: string, feeDrops: string,
    sequence: nat, lastLedgerSequence: nat, hasNetworkId: bool, networkId: nat)

  function BytesOf32(value: nat): seq<byte>
    requires value <= UINT32_MAX
  {
    [value / 0x100_0000, value / 0x1_0000 % 256, value / 0x100 % 256, value % 256]
  }

  /** Eight big-endian bytes with bit 62 set. */
  function NativeBytes(drops: nat): seq<byte>
    requires drops < Amounts.NATIVE_LIMIT
  {
    var encoded := drops + Amounts.NATIVE_LIMIT;
    [encoded / 0x100_0000_0000_0000 % 256, encoded / 0x1_0000_0000_0000 % 256,
     encoded / 0x100_0000_0000 % 256, encoded / 0x1_0000_0000 % 256,
     encoded / 0x100_0000 % 256, encoded / 0x1_0000 % 256, encoded / 0x100 % 256, encoded % 256]
  }

  predicate NativeText(text: string) {
    text != "" && AllDigits(text) && NatOf(text) < Amounts.NATIVE_LIMIT
  }

  /** The account id behind an address: a checked text of the version byte and twenty bytes. */
  function AccountStatus(a: Alphabet, address: string, hash: Base58.Hash): Status {
    var status := Base58.CheckDecodeStatus(a, address, Base58.DECODED_MAX, hash);
    if status != Ok then status
    else
      var decoded := Base58.Payload(Base58.DecodedText(a, address), hash).value;
      if |decoded| != 1 + ACCOUNT_ID_BYTES || decoded[0] != ACCOUNT_VERSION then Encoding else Ok
  }

  function AccountId(a: Alphabet, address: string, hash: Base58.Hash): (id: seq<byte>)
    requires AccountStatus(a, address, hash) == Ok
    ensures |id| == ACCOUNT_ID_BYTES
  {
    Base58.Payload(Base58.DecodedText(a, address), hash).value[1..]
  }

  /** The account id determines the address it came from. */
  lemma AddressOfAccountId(a: Alphabet, address: string, hash: Base58.Hash)
    requires AccountStatus(a, address, hash) == Ok
    ensures Base58.CheckedText(a, [ACCOUNT_VERSION] + AccountId(a, address, hash), hash) == address
  {
    Base58.CheckReencode(a, address, Base58.DECODED_MAX, hash);
    var decoded := Base58.Payload(Base58.DecodedText(a, address), hash).value;
    assert decoded == [ACCOUNT_VERSION] + decoded[1..];
  }

  predicate Buildable(a: Alphabet, p: Payment, hash: Base58.Hash) {
    && p.sequence <= UINT32_MAX && p.lastLedgerSequence <= UINT32_MAX && p.networkId <= UINT32_MAX
    && NativeText(p.amountDrops) && NativeText(p.feeDrops)
    && AccountStatus(a, p.account, hash) == Ok && AccountStatus(a, p.destination, hash) == Ok
  }

  /** The fields before the public key. */
  function LeadingFields(p: Payment): (fs: seq<Field>)
    requires p.sequence <= UINT32_MAX && p.lastLedgerSequence <= UINT32_MAX && p.networkId <= UINT32_MAX
    requires NativeText(p.amountDrops) && NativeText(p.feeDrops)
    ensures forall i :: 0 <= i < |fs| ==> Canonical(fs[i])
  {
    [Field(UINT16, 2, [0, 0])]
    + (if p.hasNetworkId then [Field(UINT32, 1, BytesOf32(p.networkId))] else [])
    + [Field(UINT32, 4, BytesOf32(p.sequence)), Field(UINT32, 27, BytesOf32(p.lastLedgerSequence)),
       Field(AMOUNT, 1, NativeBytes(NatOf(p.amountDrops))),
       Field(AMOUNT, 8, NativeBytes(NatOf(p.feeDrops)))]
  }

  function KeyField(publicKey: seq<byte>): Field {
    Field(BLOB, 3, publicKey)
  }

  function SignatureField(signature: seq<byte>): Field {
    Field(BLOB, 4, signature)
  }

  function AccountFields(a: Alphabet, p: Payment, hash: Base58.Hash): (fs: seq<Field>)
    requires AccountStatus(a, p.account, hash) == Ok && AccountStatus(a, p.destination, hash) == Ok
    ensures forall i :: 0 <= i < |fs| ==> Canonical(fs[i])
  {
    [Field(ACCOUNT_ID, 1, AccountId(a, p.account, hash)), Field(ACCOUNT_ID, 3, AccountId(a, p.destination, hash))]
  }

  /** What the signature commits to. */
  function SigningFields(a: Alphabet, p: Payment, publicKey: seq<byte>, hash: Base58.Hash): (fs: seq<Field>)
    requires Buildable(a, p, hash) && |publicKey| == PUBLIC_KEY_BYTES
    ensures forall i :: 0 <= i < |fs| ==> Canonical(fs[i])
  {
    LeadingFields(p) + [KeyField(publicKey)] + AccountFields(a, p, hash)
  }

  /** What the ledger receives. */
  function BlobFields(a: Alphabet, p: Payment, publicKey: seq<byte>, signature: seq<byte>, hash: Base58.Hash)
    : (fs: seq<Field>)
    requires Buildable(a, p, hash) && |publicKey| == PUBLIC_KEY_BYTES && |signature| == SIGNATURE_BYTES
    ensures forall i :: 0 <= i < |fs| ==> Canonical(fs[i])
  {
    LeadingFields(p) + [KeyField(publicKey), SignatureField(signature)] + AccountFields(a, p, hash)
  }

  /** Both lists are in canonical order, the signature directly behind the public key. */
  lemma FieldsAscending(a: Alphabet, p: Payment, publicKey: seq<byte>, signature: seq<byte>, hash: Base58.Hash)
    requires Buildable(a, p, hash) && |publicKey| == PUBLIC_KEY_BYTES && |signature| == SIGNATURE_BYTES
    ensures Ascending(SigningFields(a, p, publicKey, hash))
    ensures Ascending(BlobFields(a, p, publicKey, signature, hash))
  {
    var tail, key := AccountFields(a, p, hash), KeyField(publicKey);
    LeadingAscending(p);
    AscendingJoin(LeadingFields(p), [key] + tail);
    AscendingJoin(LeadingFields(p), [key, SignatureField(signature)] + tail);
    assert LeadingFields(p) + [key] + tail == LeadingFields(p) + ([key] + tail);
    assert LeadingFields(p) + [key, SignatureField(signature)] + tail
        == LeadingFields(p) + ([key, SignatureField(signature)] + tail);
  }

  lemma LeadingAscending(p: Payment)
    requires p.sequence <= UINT32_MAX && p.lastLedgerSequence <= UINT32_MAX && p.networkId <= UINT32_MAX
    requires NativeText(p.amountDrops) && NativeText(p.feeDrops)
    ensures Ascending(LeadingFields(p))
    ensures var last := LeadingFields(p)[|LeadingFields(p)| - 1]; last.kind == AMOUNT && last.index == 8
  {
    if p.hasNetworkId {
    } else {
    }
  }

  lemma EncodeOne(f: Field)
    requires Canonical(f)
    ensures EncodeFields([f]) == EncodeField(f)
  {
    assert [f][1..] == [];
  }

  lemma AscendingJoin(x: seq<Field>, y: seq<Field>)
    requires x != [] && y != [] && Ascending(x) && Ascending(y)
    requires x[|x| - 1].kind * 65536 + x[|x| - 1].index < y[0].kind * 65536 + y[0].index
    ensures Ascending(x + y)
  {
  }

  /** The amount bytes decode to the drops with bit 62 set, and sequence bytes to the number. */
  lemma NumbersDecode(drops: nat, value: nat)
    requires drops < Amounts.NATIVE_LIMIT && value <= UINT32_MAX
    ensures Numerals.BigEndian(NativeBytes(drops), 256) == drops + Amounts.NATIVE_LIMIT
    ensures Numerals.BigEndian(BytesOf32(value), 256) == value
  {
    Value4(BytesOf32(value));
    Shifts(value);
    var b, encoded := NativeBytes(drops), drops + Amounts.NATIVE_LIMIT;
    Value4(b[..4]);
    Value8(b);
    Shifts(encoded);
  }

  /**
   * From the amount a user typed to the bytes on the ledger: the converted text is accepted and its
   * bytes stand for the amount with bit 62 set if and only if the amount is below 2^62 drops. A
   * larger one is refused, or has wrapped around and stands for something else.
   */
  lemma AmountOnLedger(amount: string, size: nat)
    requires Amounts.DropsStatus(amount, size) == Ok
    ensures
      var text, drops := Amounts.DropsText(amount), Amounts.TimesMillion(amount);
      NativeText(text) && Numerals.BigEndian(NativeBytes(NatOf(text)), 256) == drops + Amounts.NATIVE_LIMIT
      <==> drops < Amounts.NATIVE_LIMIT
  {
    OnLedger(Amounts.DropsText(amount), Amounts.TimesMillion(amount));
  }

  lemma OnLedger(text: string, drops: nat)
    requires text != "" && AllDigits(text) && NatOf(text) == drops % 0x1_0000_0000_0000_0000
    ensures NativeText(text) && Numerals.BigEndian(NativeBytes(NatOf(text)), 256) == drops + Amounts.NATIVE_LIMIT
       <==> drops < Amounts.NATIVE_LIMIT
  {
    var n := NatOf(text);
    if n < Amounts.NATIVE_LIMIT {
      NumbersDecode(n, 0);
    }
  }

  /** Each further byte of a number below 2^64, most significant first. */
  lemma Shifts(e: nat)
    ensures e / 0x1_0000_0000_0000 == e / 0x100_0000_0000_0000 * 256 + e / 0x1_0000_0000_0000 % 256
    ensures e / 0x100_0000_0000 == e / 0x1_0000_0000_0000 * 256 + e / 0x100_0000_0000 % 256
    ensures e / 0x1_0000_0000 == e / 0x100_0000_0000 * 256 + e / 0x1_0000_0000 % 256
    ensures e / 0x100_0000 == e / 0x1_0000_0000 * 256 + e / 0x100_0000 % 256
    ensures e / 0x1_0000 == e / 0x100_0000 * 256 + e / 0x1_0000 % 256
    ensures e / 0x100 == e / 0x1_0000 * 256 + e / 0x100 % 256
    ensures e == e / 0x100 * 256 + e % 256
  {
    var high := e / 0x1_0000_0000;
    LowShifts(e);
    LowShifts(high);
    assert e / 0x100_0000_0000 == high / 0x100;
    assert e / 0x1_0000_0000_0000 == high / 0x1_0000;
    assert e / 0x100_0000_0000_0000 == high / 0x100_0000;
  }

  lemma LowShifts(e: nat)
    ensures e / 0x100_0000 == e / 0x1_0000_0000 * 256 + e / 0x100_0000 % 256
    ensures e / 0x1_0000 == e / 0x100_0000 * 256 + e / 0x1_0000 % 256
    ensures e / 0x100 == e / 0x1_0000 * 256 + e / 0x100 % 256
    ensures e == e / 0x100 * 256 + e % 256
  {
    assert e / 0x1_0000 == e / 0x100 / 256;
    assert e / 0x100_0000 == e / 0x1_0000 / 256;
    assert e / 0x1_0000_0000 == e / 0x100_0000 / 256;
  }

  lemma Value4(b: seq<nat>)
    requires |b| == 4
    ensures Numerals.BigEndian(b, 256) == ((b[0] * 256 + b[1]) * 256 + b[2]) * 256 + b[3]
  {
    assert b == [b[0], b[1], b[2], b[3]];
    assert b[..3][..2][..1] == [b[0]] && b[..3][..2] == [b[0], b[1]] && b[..3] == [b[0], b[1], b[2]];
    assert [b[0]][..0] == [];
    assert Numerals.BigEndian([b[0]], 256) == b[0];
    assert Numerals.BigEndian([b[0], b[1]], 256) == b[0] * 256 + b[1];
  }

  lemma Value8(b: seq<nat>)
    requires |b| == 8
    ensures Numerals.BigEndian(b, 256)
         == (((Numerals.BigEndian(b[..4], 256) * 256 + b[4]) * 256 + b[5]) * 256 + b[6]) * 256 + b[7]
  {
    assert b[..7][..6] == b[..6] && b[..6][..5] == b[..5] && b[..5][..4] == b[..4];
    var v5 := Numerals.BigEndian(b[..5], 256);
    var v6 := Numerals.BigEndian(b[..6], 256);
    assert v5 == Numerals.BigEndian(b[..4], 256) * 256 + b[4];
    assert v6 == v5 * 256 + b[5];
    assert Numerals.BigEndian(b[..7], 256) == v6 * 256 + b[6];
  }

  // ---- the writer ---------------------------------------------------------------------------------------

  class Writer {
    var bytes: array<byte>
    var length: nat
    var overflow: bool

    ghost predicate Valid()
      reads this, bytes
    {
      bytes.Length == BLOB_MAX && length <= BLOB_MAX
    }

    function Content(): (s: seq<byte>)
      reads this, bytes
      requires length <= bytes.Length
      ensures |s| == length
    {
      bytes[..length]
    }

    /** `data` was appended, or it did not fit and the writer is marked; a marked writer stays marked. */
    ghost predicate Appended(before: seq<byte>, wasOverflow: bool, data: seq<byte>)
      reads this, bytes
    {
      && Valid()
      && overflow == (wasOverflow || |before| + |data| > BLOB_MAX)
      && (!overflow ==> Content() == before + data)
    }

    /** The writer holds the signing prefix and these fields, in at most `size` bytes behind it. */
    ghost predicate Holds(fs: seq<Field>, size: nat)
      reads this, bytes
    {
      && Valid() && !overflow
      && (forall i :: 0 <= i < |fs| ==> Canonical(fs[i]))
      && Content() == SIGNING_PREFIX + EncodeFields(fs)
      && |EncodeFields(fs)| <= size
    }

    /** Appending one field to them. */
    lemma Grown(fs: seq<Field>, size: nat, f: Field)
      requires (forall i :: 0 <= i < |fs| ==> Canonical(fs[i])) && Canonical(f)
      requires |EncodeFields(fs)| <= size && 4 + size + 3 + |f.data| <= BLOB_MAX
      requires Appended(SIGNING_PREFIX + EncodeFields(fs), false, EncodeField(f))
      ensures Holds(fs + [f], size + 3 + |f.data|)
    {
      EncodeAppend(fs, [f]);
      EncodeOne(f);
      Associate(SIGNING_PREFIX, EncodeFields(fs), EncodeField(f));
    }

    constructor ()
      ensures Valid() && fresh(bytes) && Content() == [] && !overflow
    {
      bytes := new byte[BLOB_MAX](_ => 0);
      length, overflow := 0, false;
    }

    method WriteBytes(data: seq<byte>)
      requires Valid()
      modifies this`length, this`overflow, bytes
      ensures Appended(old(Content()), old(overflow), data)
    {
      if overflow || length + |data| > bytes.Length {
        overflow := true;
        return;
      }
      forall i | 0 <= i < |data| {
        bytes[length + i] := data[i];
      }
      length := length + |data|;
    }

    method WriteByte(value: byte)
      requires Valid()
      modifies this`length, this`overflow, bytes
      ensures Appended(old(Content()), old(overflow), [value])
    {
      WriteBytes([value]);
    }

    method WriteFieldCode(kind: nat, index: nat)
      requires Valid() && kind < 16 && index < 256
      modifies this`length, this`overflow, bytes
      ensures Appended(old(Content()), old(overflow), FieldCode(kind, index))
    {
      if index < 16 {
        WriteByte(kind * 16 + index);
        return;
      }
      WriteByte(kind * 16);
      WriteByte(index);
    }

    method WriteUint16(index: nat, value: nat)
      requires Valid() && 1 <= index < 256 && value < 0x1_0000
      modifies this`length, this`overflow, bytes
      ensures Appended(old(Content()), old(overflow), EncodeField(Field(UINT16, index, [value / 256, value % 256])))
    {
      WriteFieldCode(UINT16, index);
      WriteByte(value / 256);
      WriteByte(value % 256);
    }

    method WriteUint32(index: nat, value: nat)
      requires Valid() && 1 <= index < 256 && value <= UINT32_MAX
      modifies this`length, this`overflow, bytes
      ensures Appended(old(Content()), old(overflow), EncodeField(Field(UINT32, index, BytesOf32(value))))
    {
      WriteFieldCode(UINT32, index);
      WriteByte(value / 0x100_0000);
      WriteByte(value / 0x1_0000 % 256);
      WriteByte(value / 0x100 % 256);
      WriteByte(value % 256);
    }

    /** A length byte and the content; the payment's contents are all shorter than 192. */
    method WriteVl(kind: nat, index: nat, data: seq<byte>)
      requires Valid() && HasLength(kind) && 1 <= index < 256 && |data| < 192
      modifies this`length, this`overflow, bytes
      ensures Appended(old(Content()), old(overflow), EncodeField(Field(kind, index, data)))
    {
      WriteFieldCode(kind, index);
      WriteByte(|data|);
      WriteBytes(data);
    }

    /** Rejects anything but a plain decimal below 2^62; a rejected amount writes nothing. */
    method WriteNativeAmount(index: nat, text: string) returns (status: Status)
      requires Valid() && 1 <= index < 256
      modifies this`length, this`overflow, bytes
      ensures status == if NativeText(text) then Ok else InvalidArg
      ensures status == Ok ==>
        Appended(old(Content()), old(overflow), EncodeField(Field(AMOUNT, index, NativeBytes(NatOf(text)))))
      ensures status != Ok ==> Valid() && Content() == old(Content()) && overflow == old(overflow)
    {
      var ok, drops := Amounts.ReadDrops(text);
      if !ok {
        return InvalidArg;
      }
      // The marker bit is clear in the drops, so setting it adds it.
      var encoded: nat := drops + Amounts.NATIVE_LIMIT;
      WriteFieldCode(AMOUNT, index);
      ghost var data, code, was := NativeBytes(drops), Content(), overflow;
      var shift := 0x100_0000_0000_0000;
      for i := 0 to 8
        invariant Valid() && shift == [0x100_0000_0000_0000, 0x1_0000_0000_0000, 0x100_0000_0000, 0x1_0000_0000,
                                       0x100_0000, 0x1_0000, 0x100, 1, 0][i]
        invariant Appended(code, was, data[..i])
      {
        assert encoded / shift % 256 == data[i];
        assert data[..i + 1] == data[..i] + [data[i]];
        WriteByte(encoded / shift % 256);
        shift := shift / 256;
      }
      assert data[..8] == data;
      return Ok;
    }

    method WriteAccountId(a: Alphabet, index: nat, address: string, hash: Base58.Hash) returns (status: Status)
      requires Valid() && 1 <= index < 256
      modifies this`length, this`overflow, bytes
      ensures status == AccountStatus(a, address, hash)
      ensures status == Ok ==>
        Appended(old(Content()), old(overflow), EncodeField(Field(ACCOUNT_ID, index, AccountId(a, address, hash))))
      ensures status != Ok ==> Valid() && Content() == old(Content()) && overflow == old(overflow)
    {
      var id;
      status, id := ToAccountId(a, address, hash);
      if status != Ok {
        return;
      }
      WriteVl(ACCOUNT_ID, index, id);
    }
  }

  method ToAccountId(a: Alphabet, address: string, hash: Base58.Hash) returns (status: Status, id: seq<byte>)
    ensures status == AccountStatus(a, address, hash)
    ensures status == Ok ==> id == AccountId(a, address, hash)
  {
    id := [];
    var decoded := new byte[Base58.DECODED_MAX](_ => 0);
    var decodedLen;
    status, decodedLen := Base58.CheckDecode(a, address, decoded, hash);
    if status != Ok {
      return;
    }
    var content := decoded[..decodedLen];
    if decodedLen != 1 + ACCOUNT_ID_BYTES || content[0] != ACCOUNT_VERSION {
      return Encoding, [];
    }
    return Ok, content[1..];
  }

  // ---- building and splicing ------------------------------------------------------------------------------

  /** What building answers. */
  function BuildStatus(a: Alphabet, p: Payment, hash: Base58.Hash): Status {
    if p.sequence > UINT32_MAX || p.lastLedgerSequence > UINT32_MAX then InvalidArg
    else if !NativeText(p.amountDrops) || !NativeText(p.feeDrops) then InvalidArg
    else if AccountStatus(a, p.account, hash) != Ok then AccountStatus(a, p.account, hash)
    else AccountStatus(a, p.destination, hash)
  }

  method BuildSigningData(a: Alphabet, p: Payment, publicKey: seq<byte>, hash: Base58.Hash)
    returns (status: Status, writer: Writer)
    requires |publicKey| == PUBLIC_KEY_BYTES && p.networkId <= UINT32_MAX
    ensures fresh(writer) && fresh(writer.bytes) && writer.Valid()
    ensures status == BuildStatus(a, p, hash)
    ensures status == Ok ==> Buildable(a, p, hash) && writer.Holds(SigningFields(a, p, publicKey, hash), 150)
  {
    writer := new Writer();
    status := WriteLeading(p, writer);
    if status != Ok {
      return;
    }
    status := WriteTrailing(a, p, publicKey, hash, writer, LeadingFields(p));
    if status != Ok {
      return;
    }
    status := if writer.overflow then BufferTooSmall else Ok;
  }

  /** The prefix and the fields up to the fee. */
  method WriteLeading(p: Payment, writer: Writer) returns (status: Status)
    requires writer.Valid() && writer.Content() == [] && !writer.overflow && p.networkId <= UINT32_MAX
    modifies writer, writer.bytes
    ensures writer.Valid() && writer.bytes == old(writer.bytes)
    ensures status == if p.sequence > UINT32_MAX || p.lastLedgerSequence > UINT32_MAX
                         || !NativeText(p.amountDrops) || !NativeText(p.feeDrops) then InvalidArg else Ok
    ensures status == Ok ==> writer.Holds(LeadingFields(p), 48)
  {
    status := WriteNumbers(p, writer);
    if status != Ok {
      return;
    }
    status := writer.WriteNativeAmount(1, p.amountDrops);
    if status != Ok {
      return;
    }
    ghost var fs, amount := NumberFields(p), Field(AMOUNT, 1, NativeBytes(NatOf(p.amountDrops)));
    writer.Grown(fs, 26, amount);
    status := writer.WriteNativeAmount(8, p.feeDrops);
    if status != Ok {
      return;
    }
    writer.Grown(fs + [amount], 37, Field(AMOUNT, 8, NativeBytes(NatOf(p.feeDrops))));
    assert LeadingFields(p) == fs + [amount] + [Field(AMOUNT, 8, NativeBytes(NatOf(p.feeDrops)))];
  }

  function NumberFields(p: Payment): (fs: seq<Field>)
    requires p.sequence <= UINT32_MAX && p.lastLedgerSequence <= UINT32_MAX && p.networkId <= UINT32_MAX
  {
    [Field(UINT16, 2, [0, 0])]
    + (if p.hasNetworkId then [Field(UINT32, 1, BytesOf32(p.networkId))] else [])
    + [Field(UINT32, 4, BytesOf32(p.sequence))] + [Field(UINT32, 27, BytesOf32(p.lastLedgerSequence))]
  }

  /** The prefix and the fields that are plain numbers. */
  method WriteNumbers(p: Payment, writer: Writer) returns (status: Status)
    requires writer.Valid() && writer.Content() == [] && !writer.overflow && p.networkId <= UINT32_MAX
    modifies writer, writer.bytes
    ensures writer.Valid() && writer.bytes == old(writer.bytes)
    ensures status == if p.sequence > UINT32_MAX || p.lastLedgerSequence > UINT32_MAX then InvalidArg else Ok
    ensures status == Ok ==> writer.Holds(NumberFields(p), 26)
  {
    writer.WriteBytes(SIGNING_PREFIX);
    assert SIGNING_PREFIX + [] == SIGNING_PREFIX;
    writer.WriteUint16(2, 0);
    ghost var fs := [Field(UINT16, 2, [0, 0])];
    assert [] + fs == fs;
    writer.Grown([], 0, fs[0]);
    if p.hasNetworkId {
      writer.WriteUint32(1, p.networkId);
      writer.Grown(fs, 5, Field(UINT32, 1, BytesOf32(p.networkId)));
      fs := fs + [Field(UINT32, 1, BytesOf32(p.networkId))];
    }
    if p.sequence > UINT32_MAX || p.lastLedgerSequence > UINT32_MAX {
      return InvalidArg;
    }
    writer.WriteUint32(4, p.sequence);
    writer.Grown(fs, 12, Field(UINT32, 4, BytesOf32(p.sequence)));
    fs := fs + [Field(UINT32, 4, BytesOf32(p.sequence))];
    writer.WriteUint32(27, p.lastLedgerSequence);
    writer.Grown(fs, 19, Field(UINT32, 27, BytesOf32(p.lastLedgerSequence)));
    assert NumberFields(p) == fs + [Field(UINT32, 27, BytesOf32(p.lastLedgerSequence))];
    status := Ok;
  }

  /** The public key and both accounts. */
  method WriteTrailing(a: Alphabet, p: Payment, publicKey: seq<byte>, hash: Base58.Hash, writer: Writer, ghost fs: seq<Field>)
    returns (status: Status)
    requires |publicKey| == PUBLIC_KEY_BYTES && writer.Holds(fs, 48)
    modifies writer, writer.bytes
    ensures writer.Valid() && writer.bytes == old(writer.bytes)
    ensures status == if AccountStatus(a, p.account, hash) != Ok then AccountStatus(a, p.account, hash)
                      else AccountStatus(a, p.destination, hash)
    ensures status == Ok ==> writer.Holds(fs + [KeyField(publicKey)] + AccountFields(a, p, hash), 150)
  {
    writer.WriteVl(BLOB, 3, publicKey);
    ghost var key := KeyField(publicKey);
    writer.Grown(fs, 48, key);
    status := WriteAccount(a, 1, p.account, hash, writer, fs + [key], 84);
    if status != Ok {
      return;
    }
    ghost var account := Field(ACCOUNT_ID, 1, AccountId(a, p.account, hash));
    status := WriteAccount(a, 3, p.destination, hash, writer, fs + [key] + [account], 107);
    if status == Ok {
      ghost var destination := Field(ACCOUNT_ID, 3, AccountId(a, p.destination, hash));
      OneByOne(fs + [key], account, destination);
    }
  }

  lemma OneByOne(fs: seq<Field>, f: Field, g: Field)
    ensures fs + [f] + [g] == fs + [f, g]
  {
  }

  /** One account field behind the fields the writer holds. */
  method WriteAccount(a: Alphabet, index: nat, address: string, hash: Base58.Hash, writer: Writer,
                      ghost fs: seq<Field>, ghost size: nat)
    returns (status: Status)
    requires 1 <= index < 256 && writer.Holds(fs, size) && size <= 400
    modifies writer, writer.bytes
    ensures writer.Valid() && writer.bytes == old(writer.bytes)
    ensures status == AccountStatus(a, address, hash)
    ensures status == Ok ==> writer.Holds(fs + [Field(ACCOUNT_ID, index, AccountId(a, address, hash))], size + 23)
  {
    status := writer.WriteAccountId(a, index, address, hash);
    if status == Ok {
      writer.Grown(fs, size, Field(ACCOUNT_ID, index, AccountId(a, address, hash)));
    }
  }

  /** First place that looks like a 33-byte public key field: its code, its length, enough bytes. */
  function FindKey(bytes: seq<byte>, from: nat): Option<nat>
    decreases |bytes| - from
  {
    if from + 3 >= |bytes| then None
    else if bytes[from] == 0x73 && bytes[from + 1] == PUBLIC_KEY_BYTES && from + 2 + PUBLIC_KEY_BYTES <= |bytes|
    then Some(from)
    else FindKey(bytes, from + 1)
  }

  /** Inserts the signature behind the public key; `signing` holds the data that was signed. */
  method BuildSignedBlob(signing: Writer, signature: seq<byte>) returns (status: Status, out: Writer)
    requires signing.Valid() && |signature| == SIGNATURE_BYTES && signing.length >= |SIGNING_PREFIX|
    ensures fresh(out) && out.Valid()
    ensures
      var bytes := signing.Content()[|SIGNING_PREFIX|..];
      var key := FindKey(bytes, 0);
      && (key == None ==> status == Protocol)
      && (key.Some? && |bytes| + 66 > BLOB_MAX ==> status == BufferTooSmall)
      && (key.Some? && |bytes| + 66 <= BLOB_MAX ==>
            status == Ok && key.value + 35 <= |bytes|
            && out.Content() == bytes[..key.value + 35] + EncodeField(SignatureField(signature)) + bytes[key.value + 35..])
  {
    out := new Writer();
    var bytes := signing.bytes[|SIGNING_PREFIX|..signing.length];
    assert bytes == signing.Content()[|SIGNING_PREFIX|..];
    var length := |bytes|;
    var split := 0;
    var found := false;
    while split + 3 < length
      invariant !found && FindKey(bytes, split) == FindKey(bytes, 0)
    {
      if bytes[split] == 0x73 {
        var keyLength := if bytes[split + 1] < 192 then bytes[split + 1] else 0;
        if keyLength == PUBLIC_KEY_BYTES && split + 2 + keyLength <= length {
          split := split + 2 + keyLength;
          found := true;
          break;
        }
      }
      split := split + 1;
    }
    if !found {
      return Protocol, out;
    }
    out.WriteBytes(bytes[..split]);
    out.WriteVl(BLOB, 4, signature);
    out.WriteBytes(bytes[split..]);
    status := if out.overflow then BufferTooSmall else Ok;
  }

  // ---- when the splice is right -----------------------------------------------------------------------------

  /** Two adjacent bytes that read as the start of a public key field. */
  predicate PairAt(bytes: seq<byte>, k: nat) {
    k + 1 < |bytes| && bytes[k] == 0x73 && bytes[k + 1] == PUBLIC_KEY_BYTES
  }

  predicate NoPairBefore(bytes: seq<byte>, end: nat) {
    forall k :: 0 <= k < end ==> !PairAt(bytes, k)
  }

  /** The scan stops at the first pair, so at the key field exactly when no earlier bytes form the pair. */
  lemma {:induction false} FindsFirstPair(bytes: seq<byte>, from: nat, at: nat)
    requires from <= at && PairAt(bytes, at) && at + 2 + PUBLIC_KEY_BYTES <= |bytes|
    ensures FindKey(bytes, from) == Some(at) <==> forall k :: from <= k < at ==> !PairAt(bytes, k)
    ensures FindKey(bytes, from).Some? && from <= FindKey(bytes, from).value <= at
    decreases at - from
  {
    if from < at && !PairAt(bytes, from) {
      FindsFirstPair(bytes, from + 1, at);
    }
  }

  /** The signing data is the prefix and these bytes; the key field begins behind the leading fields. */
  function SigningBytes(a: Alphabet, p: Payment, publicKey: seq<byte>, hash: Base58.Hash): seq<byte>
    requires Buildable(a, p, hash) && |publicKey| == PUBLIC_KEY_BYTES
  {
    EncodeFields(SigningFields(a, p, publicKey, hash))
  }

  function KeyOffset(p: Payment): nat
    requires p.sequence <= UINT32_MAX && p.lastLedgerSequence <= UINT32_MAX && p.networkId <= UINT32_MAX
    requires NativeText(p.amountDrops) && NativeText(p.feeDrops)
  {
    |EncodeFields(LeadingFields(p))|
  }

  predicate AllCanonical(fs: seq<Field>) {
    forall i :: 0 <= i < |fs| ==> Canonical(fs[i])
  }

  lemma JoinField(x: seq<Field>, f: Field, y: seq<Field>)
    requires AllCanonical(x) && Canonical(f) && AllCanonical(y)
    ensures EncodeFields(x + [f] + y) == EncodeFields(x) + EncodeField(f) + EncodeFields(y)
  {
    EncodeSnoc(x, f);
    EncodeAppend(x + [f], y);
  }

  lemma SigningParts(a: Alphabet, p: Payment, publicKey: seq<byte>, hash: Base58.Hash)
    requires Buildable(a, p, hash) && |publicKey| == PUBLIC_KEY_BYTES
    ensures
      var bytes := SigningBytes(a, p, publicKey, hash);
      && |bytes| >= KeyOffset(p) + 35 && PairAt(bytes, KeyOffset(p))
      && bytes[..KeyOffset(p)] == EncodeFields(LeadingFields(p))
  {
    KeyInside(LeadingFields(p), publicKey, AccountFields(a, p, hash));
  }

  lemma KeyInside(x: seq<Field>, publicKey: seq<byte>, y: seq<Field>)
    requires AllCanonical(x) && |publicKey| == PUBLIC_KEY_BYTES && AllCanonical(y)
    ensures
      var bytes, at := EncodeFields(x + [KeyField(publicKey)] + y), |EncodeFields(x)|;
      |bytes| >= at + 35 && PairAt(bytes, at) && bytes[..at] == EncodeFields(x)
  {
    var key := KeyField(publicKey);
    JoinField(x, key, y);
    assert EncodeField(key) == [0x73, PUBLIC_KEY_BYTES] + publicKey;
  }

  /**
   * The signature lands behind the public key exactly when no two adjacent bytes of the fields
   * before the key are 0x73 0x21; otherwise it lands earlier, inside other fields.
   */
  lemma SpliceExact(a: Alphabet, p: Payment, publicKey: seq<byte>, hash: Base58.Hash)
    requires Buildable(a, p, hash) && |publicKey| == PUBLIC_KEY_BYTES
    ensures
      var bytes := SigningBytes(a, p, publicKey, hash);
      && FindKey(bytes, 0).Some? && FindKey(bytes, 0).value <= KeyOffset(p)
      && (FindKey(bytes, 0) == Some(KeyOffset(p)) <==> NoPairBefore(bytes, KeyOffset(p)))
  {
    var bytes, at := SigningBytes(a, p, publicKey, hash), KeyOffset(p);
    SigningParts(a, p, publicKey, hash);
    FindsFirstPair(bytes, 0, at);
  }

  /** Inserting a field's bytes behind another field inserts the field. */
  lemma InsertField(x: seq<Field>, f: Field, g: Field, y: seq<Field>, blob: seq<byte>)
    requires AllCanonical(x) && Canonical(f) && Canonical(g) && AllCanonical(y)
    requires
      var bytes, cut := EncodeFields(x + [f] + y), |EncodeFields(x)| + |EncodeField(f)|;
      cut <= |bytes| && blob == bytes[..cut] + EncodeField(g) + bytes[cut..]
    ensures AllCanonical(x + [f, g] + y) && blob == EncodeFields(x + [f, g] + y)
  {
    JoinField(x, f, y);
    JoinPair(x, f, g, y);
    SpliceSeq(EncodeFields(x) + EncodeField(f), EncodeFields(y), EncodeField(g));
  }

  lemma JoinPair(x: seq<Field>, f: Field, g: Field, y: seq<Field>)
    requires AllCanonical(x) && Canonical(f) && Canonical(g) && AllCanonical(y)
    ensures AllCanonical(x + [f, g] + y)
    ensures EncodeFields(x + [f, g] + y) == EncodeFields(x) + EncodeField(f) + EncodeField(g) + EncodeFields(y)
  {
    var front := x + [f];
    assert front + [g] + y == x + [f, g] + y;
    EncodeSnoc(x, f);
    JoinField(front, g, y);
  }

  lemma EncodeSnoc(x: seq<Field>, f: Field)
    requires AllCanonical(x) && Canonical(f)
    ensures AllCanonical(x + [f]) && EncodeFields(x + [f]) == EncodeFields(x) + EncodeField(f)
  {
    EncodeAppend(x, [f]);
    EncodeOne(f);
  }

  lemma SpliceSeq(head: seq<byte>, tail: seq<byte>, middle: seq<byte>)
    ensures (head + tail)[..|head|] + middle + (head + tail)[|head|..] == head + middle + tail
  {
  }

  /** Then the blob is the canonical list with the signature in its place, and the decoder recovers it. */
  lemma BlobDecodes(a: Alphabet, p: Payment, publicKey: seq<byte>, signature: seq<byte>, hash: Base58.Hash, blob: seq<byte>)
    requires Buildable(a, p, hash) && |publicKey| == PUBLIC_KEY_BYTES && |signature| == SIGNATURE_BYTES
    requires NoPairBefore(SigningBytes(a, p, publicKey, hash), KeyOffset(p))
    requires
      var bytes, at := SigningBytes(a, p, publicKey, hash), FindKey(SigningBytes(a, p, publicKey, hash), 0);
      at.Some? && at.value + 35 <= |bytes|
      && blob == bytes[..at.value + 35] + EncodeField(SignatureField(signature)) + bytes[at.value + 35..]
    ensures DecodeFields(blob) == Some(BlobFields(a, p, publicKey, signature, hash))
    ensures Ascending(BlobFields(a, p, publicKey, signature, hash))
  {
    SpliceExact(a, p, publicKey, hash);
    var lead, key, tail := LeadingFields(p), KeyField(publicKey), AccountFields(a, p, hash);
    assert |EncodeField(key)| == 35;
    InsertField(lead, key, SignatureField(signature), tail, blob);
    DecodeEncoded(BlobFields(a, p, publicKey, signature, hash));
    FieldsAscending(a, p, publicKey, signature, hash);
  }

  /** A typed amount below 2^62 drops is what the decoder finds in the blob of the payment made of it. */
  lemma AmountInBlob(a: Alphabet, p: Payment, publicKey: seq<byte>, signature: seq<byte>, hash: Base58.Hash, blob: seq<byte>,
                     amount: string, size: nat)
    requires Buildable(a, p, hash) && |publicKey| == PUBLIC_KEY_BYTES && |signature| == SIGNATURE_BYTES
    requires DecodeFields(blob) == Some(BlobFields(a, p, publicKey, signature, hash))
    requires Amounts.DropsStatus(amount, size) == Ok && p.amountDrops == Amounts.DropsText(amount)
    requires Amounts.TimesMillion(amount) < Amounts.NATIVE_LIMIT
    ensures
      var fields, i := DecodeFields(blob).value, if p.hasNetworkId then 4 else 3;
      && i < |fields| && fields[i].kind == AMOUNT && fields[i].index == 1
      && Numerals.BigEndian(fields[i].data, 256) == Amounts.TimesMillion(amount) + Amounts.NATIVE_LIMIT
  {
    AmountOnLedger(amount, size);
    var lead, i := LeadingFields(p), if p.hasNetworkId then 4 else 3;
    assert lead[i] == Field(AMOUNT, 1, NativeBytes(NatOf(p.amountDrops)));
    assert BlobFields(a, p, publicKey, signature, hash)[i] == lead[i];
  }

  /** A sequence number that forms the pair: the signature is spliced in before the public key. */
  lemma PairMisplaces(a: Alphabet, p: Payment, publicKey: seq<byte>, hash: Base58.Hash)
    requires Buildable(a, p, hash) && |publicKey| == PUBLIC_KEY_BYTES
    requires !p.hasNetworkId && p.sequence == 0x7321_0000
    ensures FindKey(SigningBytes(a, p, publicKey, hash), 0) != Some(KeyOffset(p))
  {
    SigningParts(a, p, publicKey, hash);
    SpliceExact(a, p, publicKey, hash);
    PairInSequence(LeadingFields(p));
    var bytes, at := SigningBytes(a, p, publicKey, hash), KeyOffset(p);
    assert bytes[4] == bytes[..at][4] && bytes[5] == bytes[..at][5];
    assert PairAt(bytes, 4);
  }

  /** The checked text of the version byte and an account id is an address of that account. */
  lemma AddressAccepted(a: Alphabet, id: seq<byte>, hash: Base58.Hash)
    requires |id| == ACCOUNT_ID_BYTES
    ensures
      var address := Base58.CheckedText(a, [ACCOUNT_VERSION] + id, hash);
      AccountStatus(a, address, hash) == Ok && AccountId(a, address, hash) == id
  {
    var payload := [ACCOUNT_VERSION] + id;
    Base58.CheckRoundTrip(a, payload, Base58.DECODED_MAX, hash);
    assert payload[1..] == id;
  }

  /** Between any two accounts there is a payment whose signature lands in the wrong place. */
  lemma SpliceExample(a: Alphabet, from: seq<byte>, to: seq<byte>, publicKey: seq<byte>, hash: Base58.Hash) returns (p: Payment)
    requires |from| == ACCOUNT_ID_BYTES && |to| == ACCOUNT_ID_BYTES && |publicKey| == PUBLIC_KEY_BYTES
    ensures Buildable(a, p, hash) && AccountId(a, p.account, hash) == from && AccountId(a, p.destination, hash) == to
    ensures FindKey(SigningBytes(a, p, publicKey, hash), 0) != Some(KeyOffset(p))
  {
    AddressAccepted(a, from, hash);
    AddressAccepted(a, to, hash);
    assert "1"[..0] == "" && NatOf("1") == 1;
    p := Payment(Base58.CheckedText(a, [ACCOUNT_VERSION] + from, hash), Base58.CheckedText(a, [ACCOUNT_VERSION] + to, hash),
                 "1", "1", 0x7321_0000, 0, false, 0);
    PairMisplaces(a, p, publicKey, hash);
  }

  lemma PairInSequence(fs: seq<Field>)
    requires AllCanonical(fs) && |fs| >= 2
    requires fs[0] == Field(UINT16, 2, [0, 0]) && fs[1] == Field(UINT32, 4, BytesOf32(0x7321_0000))
    ensures |EncodeFields(fs)| >= 8 && PairAt(EncodeFields(fs), 4)
  {
    var rest := fs[1..];
    assert EncodeField(fs[0]) == [0x12, 0, 0] && EncodeField(rest[0]) == [0x24, 0x73, 0x21, 0, 0];
    assert EncodeFields(rest) == EncodeField(rest[0]) + EncodeFields(rest[1..]);
  }
}
