/**
  The RLP forms of headers, bodies, blocks, transactions and receipts. Each record is mapped to
  the list of fields its encoder writes; the maps lose nothing, so a decoded field list stands
  for exactly one record.
 */
module EthRlp {
  import opened Prelude
  import opened Types
  import opened RlpItems
  import opened RlpTypes

  // ---------------------------------------------------------------- headers and blocks

  const HEADER: Ty := TStruct(
    [H256, H256, ADDRESS, H256, H256, H256, TFixed(256), TU256, U64, U64, U64, U64, TBytes, H256, TFixed(8)],
    [U64, H256, U64, U64, H256])

  const WITHDRAWAL: Ty := TStruct([U64, U64, ADDRESS, U64], [])

  const BODY: Ty := TStruct([TVec(TTransaction), TVec(HEADER)], [TVec(WITHDRAWAL)])

  const BLOCK: Ty := TStruct([HEADER, TVec(TTransaction), TVec(HEADER)], [TVec(WITHDRAWAL)])

  function Optional(o: Option<nat>): Value {
    if o.Some? then Num(o.value) else Absent
  }

  function HeaderValue(h: BlockHeader): Value {
    Struct(
      [Num(h.parentHash), Num(h.ommersHash), Num(h.coinbase), Num(h.stateRoot), Num(h.transactionsRoot),
       Num(h.receiptsRoot), Num(h.logsBloom), Num(h.difficulty), Num(h.number), Num(h.gasLimit), Num(h.gasUsed),
       Num(h.timestamp), Blob(h.extraData), Num(h.prevRandao), Num(h.nonce)],
      [Optional(h.baseFeePerGas), Optional(h.withdrawalsRoot), Optional(h.blobGasUsed), Optional(h.excessBlobGas),
       Optional(h.parentBeaconBlockRoot)])
  }

  lemma HeaderValueIsInjective(a: BlockHeader, b: BlockHeader)
    requires HeaderValue(a) == HeaderValue(b)
    ensures a == b
  {
  }

  /**
    Which optional fields may be missing. A missing number must not be followed by another
    number, nor a missing hash by another hash, before something of the other kind intervenes.
   */
  predicate OptionalFieldsReadable(h: BlockHeader) {
    && (h.baseFeePerGas.None? ==> h.withdrawalsRoot.Some? || (h.blobGasUsed.None? && h.excessBlobGas.None?))
    && (h.withdrawalsRoot.None? && h.blobGasUsed.None? && h.excessBlobGas.None? ==> h.parentBeaconBlockRoot.None?)
    && (h.blobGasUsed.None? ==> h.excessBlobGas.None?)
  }

  lemma ReadableIsUnambiguous(h: BlockHeader)
    ensures OptionalFieldsReadable(h) <==> Unambiguous(HEADER.optional, HeaderValue(h).optionals)
  {
    FiveOptions(HEADER.optional, HeaderValue(h).optionals);
  }

  /** Unambiguity spelled out for the header's five optional types. */
  lemma FiveOptions(t: seq<Ty>, v: seq<Value>)
    requires |t| == |v| == 5 && t[0] == t[2] == t[3] == U64 && t[1] == t[4] == H256
    ensures Unambiguous(t, v) <==>
            && (v[0].Absent? ==> !v[1].Absent? || (v[2].Absent? && v[3].Absent?))
            && (v[1].Absent? && v[2].Absent? && v[3].Absent? ==> v[4].Absent?)
            && (v[2].Absent? ==> v[3].Absent?)
  {
    assert t[5..] == [] && v[5..] == [] && t[0..] == t && v[0..] == v;
    UnambiguousFrom(t, v, 4);
    UnambiguousFrom(t, v, 3);
    UnambiguousFrom(t, v, 2);
    UnambiguousFrom(t, v, 1);
    UnambiguousFrom(t, v, 0);
  }

  lemma UnambiguousFrom(tys: seq<Ty>, vs: seq<Value>, i: nat)
    requires i < |tys| == |vs|
    ensures Unambiguous(tys[i..], vs[i..]) <==>
            && Unambiguous(tys[i + 1..], vs[i + 1..])
            && (vs[i].Absent? ==>
                  var next := i + FirstPresent(vs[i..]);
                  next < |vs| ==> Distinguishable(tys[i], tys[next]))
    ensures FirstPresent(vs[i..]) == if vs[i].Absent? then 1 + FirstPresent(vs[i + 1..]) else 0
  {
  }

  /**
    A header survives encoding and decoding, in front of any other bytes, exactly when its
    missing optional fields are readable.
   */
  lemma BlockHeaderRoundTrip(h: BlockHeader, rest: Bytes)
    requires HasType(HEADER, HeaderValue(h))
    requires |Encode(HEADER, HeaderValue(h))| < U64_BOUND
    ensures Decode(HEADER, Encode(HEADER, HeaderValue(h)) + rest) == Ok((HeaderValue(h), rest)) <==>
            OptionalFieldsReadable(h)
  {
    var v := HeaderValue(h);
    ReadableIsUnambiguous(h);
    HeaderRecoverable(h);
    if OptionalFieldsReadable(h) {
      RoundTrip(HEADER, v, rest);
    } else {
      AmbiguousStructIsMisread(HEADER, v, rest);
    }
  }

  /** The usual headers: the present optional fields are the first ones. */
  lemma PrefixIsReadable(h: BlockHeader)
    requires h.withdrawalsRoot.Some? ==> h.baseFeePerGas.Some?
    requires h.blobGasUsed.Some? ==> h.withdrawalsRoot.Some?
    requires h.excessBlobGas.Some? ==> h.blobGasUsed.Some?
    requires h.parentBeaconBlockRoot.Some? ==> h.excessBlobGas.Some?
    ensures OptionalFieldsReadable(h)
  {
  }

  /** The header a reader sees when base fee and withdrawals root are missing but blob gas is there. */
  function Shifted(h: BlockHeader): BlockHeader {
    h.(baseFeePerGas := h.blobGasUsed, blobGasUsed := h.excessBlobGas, excessBlobGas := None)
  }

  /** Such a header is misread: its bytes are those of the shifted one, and decode to it. */
  lemma MissingFieldsAreMisread(h: BlockHeader, rest: Bytes)
    requires HasType(HEADER, HeaderValue(h)) && HasType(HEADER, HeaderValue(Shifted(h)))
    requires |Encode(HEADER, HeaderValue(h))| < U64_BOUND
    requires h.baseFeePerGas.None? && h.withdrawalsRoot.None? && h.blobGasUsed.Some?
    requires h.excessBlobGas.Some? || h.parentBeaconBlockRoot.None?
    ensures Encode(HEADER, HeaderValue(h)) == Encode(HEADER, HeaderValue(Shifted(h)))
    ensures Decode(HEADER, Encode(HEADER, HeaderValue(h)) + rest) == Ok((HeaderValue(Shifted(h)), rest))
    ensures Shifted(h) != h
  {
    SameOptions(HEADER.optional, HeaderValue(h).optionals, HeaderValue(Shifted(h)).optionals);
    BlockHeaderRoundTrip(Shifted(h), rest);
  }

  /** Two numbers moved one number field up leave the same bytes behind. */
  lemma SameOptions(t: seq<Ty>, v: seq<Value>, w: seq<Value>)
    requires |t| == |v| == |w| == 5 && t[0] == t[2] == t[3] == U64
    requires OptionsHaveTypes(t, v) && OptionsHaveTypes(t, w)
    requires v[0].Absent? && v[1].Absent? && w == [v[2], v[1], v[3], Absent, v[4]]
    ensures EncodeOptions(t, v) == EncodeOptions(t, w)
  {
    FourThenRest(t, v);
    FourThenRest(t, w);
    assert v[4..] == w[4..];
    var tail := EncodeOptions(t[4..], v[4..]);
    assert [] + tail == tail && [] + (OptionBytes(t, v, 3) + tail) == OptionBytes(t, v, 3) + tail;
  }

  function OptionBytes(t: seq<Ty>, v: seq<Value>, i: nat): Bytes
    requires i < |t| == |v| && OptionsHaveTypes(t, v)
  {
    if v[i].Absent? then [] else Encode(t[i], v[i])
  }

  lemma FourThenRest(t: seq<Ty>, v: seq<Value>)
    requires |t| == |v| >= 4 && OptionsHaveTypes(t, v)
    ensures OptionsHaveTypes(t[4..], v[4..])
    ensures EncodeOptions(t, v)
         == OptionBytes(t, v, 0)
          + (OptionBytes(t, v, 1) + (OptionBytes(t, v, 2) + (OptionBytes(t, v, 3) + EncodeOptions(t[4..], v[4..]))))
  {
    assert t[0..] == t && v[0..] == v;
    OptionsFrom(t, v, 0);
    OptionsFrom(t, v, 1);
    OptionsFrom(t, v, 2);
    OptionsFrom(t, v, 3);
  }

  lemma OptionsFrom(t: seq<Ty>, v: seq<Value>, i: nat)
    requires i < |t| == |v| && OptionsHaveTypes(t, v)
    ensures OptionsHaveTypes(t[i..], v[i..]) && OptionsHaveTypes(t[i + 1..], v[i + 1..])
    ensures EncodeOptions(t[i..], v[i..]) == OptionBytes(t, v, i) + EncodeOptions(t[i + 1..], v[i + 1..])
  {
    assert t[i..][1..] == t[i + 1..] && v[i..][1..] == v[i + 1..];
  }

  lemma AmbiguousStructIsMisread(ty: Ty, v: Value, rest: Bytes)
    requires ty.TStruct? && HasType(ty, v) && |Encode(ty, v)| < U64_BOUND
    requires FieldsRecoverable(ty.fields, v.values) && OptionsRecoverable(ty.optional, v.optionals)
    requires (forall i :: 0 <= i < |ty.optional| ==> ty.optional[i] == U64 || ty.optional[i] == H256)
             && !Unambiguous(ty.optional, v.optionals)
    ensures Decode(ty, Encode(ty, v) + rest) != Ok((v, rest))
  {
    var tail := EncodeOptions(ty.optional, v.optionals);
    ListItemRoundTrip(EncodeFields(ty.fields, v.values) + tail, rest);
    FieldsRoundTrip(ty.fields, v.values, tail);
    AmbiguousIsMisread(ty.optional, v.optionals);
  }

  /** So the hashed bytes tell headers with readable fields apart. */
  lemma HeaderEncodingIsInjective(a: BlockHeader, b: BlockHeader)
    requires HasType(HEADER, HeaderValue(a)) && HasType(HEADER, HeaderValue(b))
    requires OptionalFieldsReadable(a) && OptionalFieldsReadable(b) && |Encode(HEADER, HeaderValue(a))| < U64_BOUND
    ensures Encode(HEADER, HeaderValue(a)) == Encode(HEADER, HeaderValue(b)) ==> a == b
  {
    if Encode(HEADER, HeaderValue(a)) == Encode(HEADER, HeaderValue(b)) {
      BlockHeaderRoundTrip(a, []);
      BlockHeaderRoundTrip(b, []);
      HeaderValueIsInjective(a, b);
    }
  }

  lemma HeaderRecoverable(h: BlockHeader)
    requires HasType(HEADER, HeaderValue(h))
    ensures FieldsRecoverable(HEADER.fields, HeaderValue(h).values)
    ensures OptionsRecoverable(HEADER.optional, HeaderValue(h).optionals)
    ensures Unambiguous(HEADER.optional, HeaderValue(h).optionals) ==> Recoverable(HEADER, HeaderValue(h))
  {
  }

  // ---------------------------------------------------------------- types that always round-trip

  /** Built from numbers, hashes, byte strings, vectors and structs without optional fields. */
  predicate Plain(ty: Ty) {
    match ty
    case TVec(elem) => Plain(elem)
    case TTuple(fields) => forall i :: 0 <= i < |fields| ==> Plain(fields[i])
    case TStruct(fields, optional) => optional == [] && forall i :: 0 <= i < |fields| ==> Plain(fields[i])
    case TTransaction => false
    case _ => true
  }

  lemma {:induction false} PlainIsRecoverable(ty: Ty, v: Value)
    requires Plain(ty) && HasType(ty, v)
    ensures Recoverable(ty, v)
    decreases v
  {
    match ty
    case TVec(elem) =>
      forall i | 0 <= i < |v.items| ensures Recoverable(elem, v.items[i]) {
        PlainIsRecoverable(elem, v.items[i]);
      }
    case TTuple(fields) =>
      forall i | 0 <= i < |v.items| ensures Recoverable(fields[i], v.items[i]) {
        PlainIsRecoverable(fields[i], v.items[i]);
      }
    case TStruct(fields, optional) =>
      forall i | 0 <= i < |v.values| ensures Recoverable(fields[i], v.values[i]) {
        PlainIsRecoverable(fields[i], v.values[i]);
      }
    case _ =>
  }

  lemma TransactionTyIsPlain(tag: TxType)
    ensures Plain(TransactionTy(tag))
  {
    assert Plain(TTuple([ADDRESS, TVec(H256)]));
    assert Plain(ACCESS_LIST);
  }

  // ---------------------------------------------------------------- transactions

  function Hashes(hs: seq<Hash>): Value {
    List(seq(|hs|, i requires 0 <= i < |hs| => Num(hs[i])))
  }

  function AccessListValue(accesses: AccessList): Value {
    List(seq(|accesses|, i requires 0 <= i < |accesses| => List([Num(accesses[i].0), Hashes(accesses[i].1)])))
  }

  /** The fields of a transaction in encoding order. */
  function BodyValue(tx: Transaction): Value {
    match tx
    case LegacyTransaction(nonce, gasPrice, gas, kind, value, data, v, r, s) =>
      Struct([Num(nonce), Num(gasPrice), Num(gas), KindV(kind), Num(value), Blob(data), Num(v), Num(r), Num(s)], [])
    case EIP2930Transaction(chain, nonce, gasPrice, gas, kind, value, data, accesses, parity, r, s) =>
      Struct([Num(chain), Num(nonce), Num(gasPrice), Num(gas), KindV(kind), Num(value), Blob(data),
              AccessListValue(accesses), Bool(parity), Num(r), Num(s)], [])
    case EIP1559Transaction(chain, nonce, tip, fee, gas, kind, value, data, accesses, parity, r, s) =>
      Struct([Num(chain), Num(nonce), Num(tip), Num(fee), Num(gas), KindV(kind), Num(value), Blob(data),
              AccessListValue(accesses), Bool(parity), Num(r), Num(s)], [])
    case EIP4844Transaction(chain, nonce, tip, fee, gas, to, value, data, accesses, blobFee, blobs, parity, r, s) =>
      Struct([Num(chain), Num(nonce), Num(tip), Num(fee), Num(gas), Num(to), Num(value), Blob(data),
              AccessListValue(accesses), Num(blobFee), Hashes(blobs), Bool(parity), Num(r), Num(s)], [])
    case PrivilegedL2Transaction(chain, nonce, tip, fee, gas, kind, value, data, accesses, privileged, parity, r, s) =>
      Struct([Num(chain), Num(nonce), Num(tip), Num(fee), Num(gas), KindV(kind), Num(value), Blob(data),
              AccessListValue(accesses), PrivilegedV(privileged), Bool(parity), Num(r), Num(s)], [])
  }

  function TransactionValue(tx: Transaction): Value {
    Tagged(TypeOf(tx), BodyValue(tx))
  }

  /** Every field is within the width its Rust type gives it. */
  predicate TransactionFits(tx: Transaction) {
    HasType(TransactionTy(TypeOf(tx)), BodyValue(tx))
  }

  lemma HashesAreInjective(a: seq<Hash>, b: seq<Hash>)
    requires Hashes(a) == Hashes(b)
    ensures a == b
  {
    assert |a| == |Hashes(a).items| == |b|;
    forall i | 0 <= i < |a| ensures a[i] == b[i] {
      assert Hashes(a).items[i] == Hashes(b).items[i];
    }
  }

  lemma AccessListIsInjective(a: AccessList, b: AccessList)
    requires AccessListValue(a) == AccessListValue(b)
    ensures a == b
  {
    assert |a| == |AccessListValue(a).items| == |b|;
    forall i | 0 <= i < |a| ensures a[i] == b[i] {
      var u, v := AccessListValue(a).items[i], AccessListValue(b).items[i];
      assert u.items[0] == v.items[0] && u.items[1] == v.items[1];
      HashesAreInjective(a[i].1, b[i].1);
    }
  }

  lemma TransactionValueIsInjective(a: Transaction, b: Transaction)
    requires TransactionValue(a) == TransactionValue(b)
    ensures a == b
  {
    var u, v := BodyValue(a).values, BodyValue(b).values;
    assert |u| == |v| && forall i :: 0 <= i < |u| ==> u[i] == v[i];
    if !a.LegacyTransaction? {
      AccessListIsInjective(a.accessList, b.accessList);
    }
    if a.EIP4844Transaction? {
      HashesAreInjective(a.blobVersionedHashes, b.blobVersionedHashes);
    }
  }

  function EncodeCanonical(tx: Transaction): Bytes
    requires TransactionFits(tx)
  {
    Canonical(TypeOf(tx), BodyValue(tx))
  }

  /** Decoding that must consume its whole input. */
  function DecodeWhole(ty: Ty, data: Bytes): Result<Value, DecodeError> {
    var r := Decode(ty, data);
    if r.Err? then Err(r.error) else if r.value.1 != [] then Err(InvalidLength) else Ok(r.value.0)
  }

  /** The type byte, if there is one, and the fields after it. */
  function OpenTagged(data: Bytes): Result<(TxType, Bytes), DecodeError> {
    if data != [] && data[0] < 0x7f then
      var tag := TagFromByte(data[0]);
      if tag.None? then Err(Custom) else Ok((tag.value, data[1..]))
    else Ok((Legacy, data))
  }

  /** What is written in front of a transaction's or receipt's fields. */
  function TagPrefix(tag: TxType): Bytes {
    if tag.Legacy? then [] else [TagByte(tag)]
  }

  lemma TaggedOpens(tag: TxType, fields: Bytes)
    requires fields != [] && fields[0] >= 0xc0
    ensures OpenTagged(TagPrefix(tag) + fields) == Ok((tag, fields))
  {
    var data := TagPrefix(tag) + fields;
    if tag.Legacy? {
      assert data == fields;
    } else {
      assert data[1..] == fields;
      assert TagFromByte(data[0]) == Some(tag);
    }
  }

  function DecodeCanonical(data: Bytes): Result<Value, DecodeError> {
    var inner := OpenTagged(data);
    if inner.Err? then Err(inner.error)
    else
      var body := DecodeWhole(TransactionTy(inner.value.0), inner.value.1);
      if body.Err? then Err(body.error) else Ok(Tagged(inner.value.0, body.value))
  }

  lemma BodyRoundTrip(tx: Transaction, rest: Bytes)
    requires TransactionFits(tx) && |EncodeCanonical(tx)| < U64_BOUND
    ensures Decode(TransactionTy(TypeOf(tx)), Encode(TransactionTy(TypeOf(tx)), BodyValue(tx)) + rest) ==
            Ok((BodyValue(tx), rest))
  {
    var ty, v := TransactionTy(TypeOf(tx)), BodyValue(tx);
    TransactionTyIsPlain(TypeOf(tx));
    PlainIsRecoverable(ty, v);
    RoundTrip(ty, v, rest);
  }

  /** Every transaction of every type survives its canonical form. */
  lemma CanonicalRoundTrip(tx: Transaction)
    requires TransactionFits(tx) && |EncodeCanonical(tx)| < U64_BOUND
    ensures DecodeCanonical(EncodeCanonical(tx)) == Ok(TransactionValue(tx))
  {
    var fields := Encode(TransactionTy(TypeOf(tx)), BodyValue(tx));
    BodyRoundTrip(tx, []);
    assert fields + [] == fields;
    assert EncodeCanonical(tx) == TagPrefix(TypeOf(tx)) + fields;
    TaggedOpens(TypeOf(tx), fields);
  }

  /**
    The network form survives, in front of any other bytes, exactly when the transaction is a
    legacy one or its canonical form is long enough for a long byte-string prefix.
   */
  lemma NetworkRoundTrip(tx: Transaction, rest: Bytes)
    requires TransactionFits(tx) && |EncodeCanonical(tx)| < U64_BOUND
    ensures DecodeEnvelope(Encode(TTransaction, TransactionValue(tx)) + rest) == Ok((TransactionValue(tx), rest))
            <==> tx.LegacyTransaction? || |EncodeCanonical(tx)| >= 56
  {
    var fields := Encode(TransactionTy(TypeOf(tx)), BodyValue(tx));
    BodyRoundTrip(tx, rest);
    if tx.LegacyTransaction? {
      assert OpenEnvelope(fields + rest) == Ok((Legacy, fields + rest));
    } else if |EncodeCanonical(tx)| >= 56 {
      EnvelopeOpens(TypeOf(tx), fields, rest);
    } else {
      ShortTransactionIsLost(tx, rest);
    }
  }

  lemma ShortTransactionIsLost(tx: Transaction, rest: Bytes)
    requires TransactionFits(tx) && !tx.LegacyTransaction? && |EncodeCanonical(tx)| < 56
    ensures DecodeEnvelope(Encode(TTransaction, TransactionValue(tx)) + rest) == Err(UnexpectedString)
  {
    ShortEnvelopeFails(EncodeCanonical(tx), rest);
  }

  lemma {:induction false} OneByteFields(tys: seq<Ty>, vs: seq<Value>)
    requires HaveTypes(tys, vs)
    requires forall i :: 0 <= i < |vs| ==> |Encode(tys[i], vs[i])| == 1
    ensures |EncodeFields(tys, vs)| == |vs|
    decreases vs
  {
    if vs != [] {
      OneByteFields(tys[1..], vs[1..]);
    }
  }

  const EMPTY_TYPED: Transaction := EIP2930Transaction(0, 0, 0, 0, Create, 0, [], [], false, 0, 0)

  lemma EmptyTypedFieldIsOneByte(i: nat)
    requires i < 11
    ensures var (ty, v) := (TransactionTy(EIP2930).fields[i], BodyValue(EMPTY_TYPED).values[i]);
            HasType(ty, v) && |Encode(ty, v)| == 1
  {
    var ty, v := TransactionTy(EIP2930).fields[i], BodyValue(EMPTY_TYPED).values[i];
    assert i == 7 ==> v == List([]);
    EmptyIsOneByte(ty, v);
  }

  lemma EmptyIsOneByte(ty: Ty, v: Value)
    requires || ((ty == U64 || ty == TU256) && v == Num(0)) || (ty == TKind && v == KindV(Create))
             || (ty == TBytes && v == Blob([]))
             || (ty == ACCESS_LIST && v == List([])) || (ty == TBool && v == Bool(false))
    ensures HasType(ty, v) && |Encode(ty, v)| == 1
  {
    ZeroIsMinimal(32);
  }

  lemma ShortStructLength(tys: seq<Ty>, vs: seq<Value>)
    requires HaveTypes(tys, vs) && |EncodeFields(tys, vs)| < 56
    ensures HasType(TStruct(tys, []), Struct(vs, []))
    ensures |Encode(TStruct(tys, []), Struct(vs, []))| == 1 + |EncodeFields(tys, vs)|
  {
  }

  lemma EmptyTypedIsShort()
    ensures TransactionFits(EMPTY_TYPED) && |EncodeCanonical(EMPTY_TYPED)| == 13
  {
    var tys, vs := TransactionTy(EIP2930).fields, BodyValue(EMPTY_TYPED).values;
    forall i | 0 <= i < 11 ensures HasType(tys[i], vs[i]) && |Encode(tys[i], vs[i])| == 1 {
      EmptyTypedFieldIsOneByte(i);
    }
    OneByteFields(tys, vs);
    ShortStructLength(tys, vs);
  }

  /** An unsigned transaction with nothing in it is short, and its network form is not read back. */
  lemma EmptyTypedTransactionIsLost(rest: Bytes)
    ensures TransactionFits(EMPTY_TYPED)
    ensures DecodeEnvelope(Encode(TTransaction, TransactionValue(EMPTY_TYPED)) + rest) == Err(UnexpectedString)
  {
    EmptyTypedIsShort();
    ShortTransactionIsLost(EMPTY_TYPED, rest);
  }

  lemma ZeroIsMinimal(width: nat)
    ensures MinimalBE(0, width) == []
  {
    FixedOfZero(width);
    StripPadding(width, []);
    assert Zeros(width) + [] == Zeros(width);
  }

  // ---------------------------------------------------------------- blocks

  datatype WithdrawalRecord = WithdrawalRecord(index: nat, validatorIndex: nat, address: Address, amount: nat)

  datatype Block = Block(
    header: BlockHeader,
    transactions: seq<Transaction>,
    ommers: seq<BlockHeader>,
    withdrawals: Option<seq<WithdrawalRecord>>)

  function WithdrawalValue(w: WithdrawalRecord): Value {
    Struct([Num(w.index), Num(w.validatorIndex), Num(w.address), Num(w.amount)], [])
  }

  function Transactions(txs: seq<Transaction>): Value {
    List(seq(|txs|, i requires 0 <= i < |txs| => TransactionValue(txs[i])))
  }

  function Headers(hs: seq<BlockHeader>): Value {
    List(seq(|hs|, i requires 0 <= i < |hs| => HeaderValue(hs[i])))
  }

  function Withdrawals(ws: Option<seq<WithdrawalRecord>>): Value {
    if ws.None? then Absent
    else List(seq(|ws.value|, i requires 0 <= i < |ws.value| => WithdrawalValue(ws.value[i])))
  }

  function BodyOf(b: Block): Value {
    Struct([Transactions(b.transactions), Headers(b.ommers)], [Withdrawals(b.withdrawals)])
  }

  function BlockValue(b: Block): Value {
    Struct([HeaderValue(b.header), Transactions(b.transactions), Headers(b.ommers)], [Withdrawals(b.withdrawals)])
  }

  /** What the parts of a block have to satisfy for the whole to be read back. */
  predicate PartsReadable(transactions: seq<Transaction>, ommers: seq<BlockHeader>) {
    && (forall i :: 0 <= i < |transactions| ==>
          && TransactionFits(transactions[i])
          && (transactions[i].LegacyTransaction? || |EncodeCanonical(transactions[i])| >= 56))
    && (forall i :: 0 <= i < |ommers| ==> OptionalFieldsReadable(ommers[i]))
  }

  lemma PartsAreRecoverable(b: Block)
    requires HasType(TVec(TTransaction), Transactions(b.transactions)) && HasType(TVec(HEADER), Headers(b.ommers))
    requires PartsReadable(b.transactions, b.ommers)
    ensures Recoverable(TVec(TTransaction), Transactions(b.transactions))
    ensures Recoverable(TVec(HEADER), Headers(b.ommers))
  {
    var txs, hs := Transactions(b.transactions).items, Headers(b.ommers).items;
    forall i | 0 <= i < |txs| ensures Recoverable(TTransaction, txs[i]) {
      TransactionTyIsPlain(TypeOf(b.transactions[i]));
      PlainIsRecoverable(TransactionTy(TypeOf(b.transactions[i])), BodyValue(b.transactions[i]));
    }
    forall i | 0 <= i < |hs| ensures Recoverable(HEADER, hs[i]) {
      assert HasType(HEADER, hs[i]);
      ReadableIsUnambiguous(b.ommers[i]);
      HeaderRecoverable(b.ommers[i]);
    }
  }

  lemma WithdrawalsRecoverable(ws: Option<seq<WithdrawalRecord>>)
    requires ws.Some? ==> HasType(TVec(WITHDRAWAL), Withdrawals(ws))
    ensures ws.Some? ==> Recoverable(TVec(WITHDRAWAL), Withdrawals(ws))
  {
    if ws.Some? {
      PlainIsRecoverable(TVec(WITHDRAWAL), Withdrawals(ws));
    }
  }

  /** A body round-trips, with or without withdrawals, whenever its parts do. */
  lemma BlockBodyRoundTrip(b: Block, rest: Bytes)
    requires HasType(BODY, BodyOf(b)) && |Encode(BODY, BodyOf(b))| < U64_BOUND
    requires PartsReadable(b.transactions, b.ommers)
    ensures Decode(BODY, Encode(BODY, BodyOf(b)) + rest) == Ok((BodyOf(b), rest))
  {
    var v := BodyOf(b);
    assert HasType(BODY.fields[0], v.values[0]) && HasType(BODY.fields[1], v.values[1]);
    assert v.optionals[0].Absent? || HasType(BODY.optional[0], v.optionals[0]);
    PartsAreRecoverable(b);
    WithdrawalsRecoverable(b.withdrawals);
    LastOptionIsReadable(BODY.optional[0], v.optionals[0]);
    RoundTrip(BODY, v, rest);
  }

  /** A whole block round-trips whenever its header and parts do. */
  lemma BlockRoundTrip(b: Block, rest: Bytes)
    requires HasType(BLOCK, BlockValue(b)) && |Encode(BLOCK, BlockValue(b))| < U64_BOUND
    requires OptionalFieldsReadable(b.header) && PartsReadable(b.transactions, b.ommers)
    ensures Decode(BLOCK, Encode(BLOCK, BlockValue(b)) + rest) == Ok((BlockValue(b), rest))
  {
    BlockIsRecoverable(b);
    RoundTrip(BLOCK, BlockValue(b), rest);
  }

  lemma BlockIsRecoverable(b: Block)
    requires HasType(BLOCK, BlockValue(b))
    requires OptionalFieldsReadable(b.header) && PartsReadable(b.transactions, b.ommers)
    ensures Recoverable(BLOCK, BlockValue(b))
  {
    var v := BlockValue(b);
    PartsHaveTypes(HEADER, TVec(TTransaction), TVec(HEADER), TVec(WITHDRAWAL), v.values[0], v.values[1], v.values[2],
                   v.optionals[0]);
    ReadableIsUnambiguous(b.header);
    HeaderRecoverable(b.header);
    PartsAreRecoverable(b);
    WithdrawalsRecoverable(b.withdrawals);
    RecoverableFromParts(HEADER, TVec(TTransaction), TVec(HEADER), TVec(WITHDRAWAL), v.values[0], v.values[1],
                         v.values[2], v.optionals[0]);
  }

  lemma PartsHaveTypes(t0: Ty, t1: Ty, t2: Ty, o: Ty, v0: Value, v1: Value, v2: Value, w: Value)
    requires HasType(TStruct([t0, t1, t2], [o]), Struct([v0, v1, v2], [w]))
    ensures HasType(t0, v0) && HasType(t1, v1) && HasType(t2, v2) && (w.Absent? || HasType(o, w))
  {
    var ts, vs := [t0, t1, t2], [v0, v1, v2];
    assert HasType(ts[0], vs[0]) && HasType(ts[1], vs[1]) && HasType(ts[2], vs[2]);
    assert [w][0].Absent? || HasType([o][0], [w][0]);
  }

  lemma RecoverableFromParts(t0: Ty, t1: Ty, t2: Ty, o: Ty, v0: Value, v1: Value, v2: Value, w: Value)
    requires HasType(TStruct([t0, t1, t2], [o]), Struct([v0, v1, v2], [w]))
    requires HasType(t0, v0) && HasType(t1, v1) && HasType(t2, v2) && (w.Absent? || HasType(o, w))
    requires Recoverable(t0, v0) && Recoverable(t1, v1) && Recoverable(t2, v2) && (w.Absent? || Recoverable(o, w))
    ensures Recoverable(TStruct([t0, t1, t2], [o]), Struct([v0, v1, v2], [w]))
  {
  }

  lemma LastOptionIsReadable(ty: Ty, v: Value)
    ensures Unambiguous([ty], [v])
  {
    assert [v][1..] == [] && [ty][1..] == [];
    assert Unambiguous([], []);
  }

  // ---------------------------------------------------------------- receipts

  const LOG: Ty := TStruct([ADDRESS, TVec(H256), TBytes], [])

  const RECEIPT: Ty := TStruct([TBool, U64, TFixed(256), TVec(LOG)], [])

  function LogValue(l: Log): Value {
    Struct([Num(l.address), Hashes(l.topics), Blob(l.data)], [])
  }

  function ReceiptValue(r: Receipt): Value {
    Struct([Bool(r.succeeded), Num(r.cumulativeGasUsed), Num(r.bloom),
            List(seq(|r.logs|, i requires 0 <= i < |r.logs| => LogValue(r.logs[i])))], [])
  }

  function EncodeInner(r: Receipt): Bytes
    requires HasType(RECEIPT, ReceiptValue(r))
  {
    TagPrefix(r.txType) + Encode(RECEIPT, ReceiptValue(r))
  }

  /** Bytes after the receipt's list are ignored. */
  function DecodeInner(data: Bytes): Result<(TxType, Value), DecodeError> {
    var inner := OpenTagged(data);
    if inner.Err? then Err(inner.error)
    else
      var fields := Decode(RECEIPT, inner.value.1);
      if fields.Err? then Err(fields.error) else Ok((inner.value.0, fields.value.0))
  }

  function EncodeReceipt(r: Receipt): Bytes
    requires HasType(RECEIPT, ReceiptValue(r))
  {
    if r.txType.Legacy? then EncodeInner(r) else EncodeBytes(EncodeInner(r))
  }

  function DecodeReceipt(data: Bytes): Result<((TxType, Value), Bytes), DecodeError> {
    var envelope := OpenEnvelope(data);
    if envelope.Err? then Err(envelope.error)
    else
      var fields := Decode(RECEIPT, envelope.value.1);
      if fields.Err? then Err(fields.error) else Ok(((envelope.value.0, fields.value.0), fields.value.1))
  }

  lemma ReceiptIsDetermined(a: Receipt, b: Receipt)
    requires a.txType == b.txType && ReceiptValue(a) == ReceiptValue(b)
    ensures a == b
  {
    var u, v := ReceiptValue(a).values, ReceiptValue(b).values;
    assert u[0] == v[0] && u[1] == v[1] && u[2] == v[2] && u[3] == v[3];
    assert |a.logs| == |u[3].items| == |b.logs|;
    forall i | 0 <= i < |a.logs| ensures a.logs[i] == b.logs[i] {
      var x, y := u[3].items[i], v[3].items[i];
      assert x.values[0] == y.values[0] && x.values[1] == y.values[1] && x.values[2] == y.values[2];
      HashesAreInjective(a.logs[i].topics, b.logs[i].topics);
    }
  }

  lemma {:induction false} FieldIsInside(tys: seq<Ty>, vs: seq<Value>, i: nat)
    requires HaveTypes(tys, vs) && i < |vs|
    ensures |EncodeFields(tys, vs)| >= |Encode(tys[i], vs[i])|
    decreases i
  {
    if i > 0 {
      FieldIsInside(tys[1..], vs[1..], i - 1);
    }
  }

  lemma ReceiptFieldsRoundTrip(r: Receipt, rest: Bytes)
    requires HasType(RECEIPT, ReceiptValue(r)) && |EncodeInner(r)| < U64_BOUND
    ensures Decode(RECEIPT, Encode(RECEIPT, ReceiptValue(r)) + rest) == Ok((ReceiptValue(r), rest))
    ensures |Encode(RECEIPT, ReceiptValue(r))| >= 256
  {
    assert Plain(LOG);
    PlainIsRecoverable(RECEIPT, ReceiptValue(r));
    RoundTrip(RECEIPT, ReceiptValue(r), rest);
    FieldIsInside(RECEIPT.fields, ReceiptValue(r).values, 2);
  }

  /** Receipts of every type survive the consensus form. */
  lemma InnerReceiptRoundTrip(r: Receipt, rest: Bytes)
    requires HasType(RECEIPT, ReceiptValue(r)) && |EncodeInner(r)| < U64_BOUND
    ensures DecodeInner(EncodeInner(r) + rest) == Ok((r.txType, ReceiptValue(r)))
  {
    var fields := Encode(RECEIPT, ReceiptValue(r));
    ReceiptFieldsRoundTrip(r, rest);
    ConcatIsAssociative(TagPrefix(r.txType), fields, rest);
    TaggedOpens(r.txType, fields + rest);
  }

  /** And the network form, unconditionally: the bloom filter alone forces the long prefix. */
  lemma ReceiptRoundTrip(r: Receipt, rest: Bytes)
    requires HasType(RECEIPT, ReceiptValue(r)) && |EncodeInner(r)| < U64_BOUND
    ensures DecodeReceipt(EncodeReceipt(r) + rest) == Ok(((r.txType, ReceiptValue(r)), rest))
  {
    var fields := Encode(RECEIPT, ReceiptValue(r));
    ReceiptFieldsRoundTrip(r, rest);
    if r.txType.Legacy? {
      assert EncodeInner(r) == fields;
      assert OpenEnvelope(fields + rest) == Ok((Legacy, fields + rest));
    } else {
      EnvelopeOpens(r.txType, fields, rest);
    }
  }
}
