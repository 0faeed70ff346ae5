/**
  The encodable types. `Ty` has one constructor for each shape an encoder and decoder exist
  for; `Encode` and `Decode` follow those pairs type by type, and one induction over values
  gives the round trip for every type built from them.
 */
module RlpTypes {
  import opened Prelude
  import opened Types
  import opened RlpItems

  datatype Ty =
    | TBool
    | TU8
    | TUint(width: nat)
    | TU256
    | TFixed(size: nat)
    | TBytes
    | TKind
    | TPrivileged
    | TVec(elem: Ty)
    | TTuple(fields: seq<Ty>)
    | TStruct(fields: seq<Ty>, optional: seq<Ty>)
    | TTransaction

  datatype Value =
    | Num(n: nat)
    | Bool(b: bool)
    | Blob(bytes: Bytes)
    | KindV(kind: TxKind)
    | PrivilegedV(privileged: PrivilegedTxType)
    | List(items: seq<Value>)
    | Struct(values: seq<Value>, optionals: seq<Value>)
    | Absent
    | Tagged(tag: TxType, body: Value)

  const U64: Ty := TUint(8)
  const H256: Ty := TFixed(32)
  const ADDRESS: Ty := TFixed(20)
  const ACCESS_LIST: Ty := TVec(TTuple([ADDRESS, TVec(H256)]))

  /** The fields of each transaction type, in encoding order. */
  function TransactionTy(tag: TxType): Ty {
    match tag
    case Legacy => TStruct([U64, U64, U64, TKind, TU256, TBytes, TU256, TU256, TU256], [])
    case EIP2930 => TStruct([U64, U64, U64, U64, TKind, TU256, TBytes, ACCESS_LIST, TBool, TU256, TU256], [])
    case EIP1559 => TStruct([U64, U64, U64, U64, U64, TKind, TU256, TBytes, ACCESS_LIST, TBool, TU256, TU256], [])
    case EIP4844 =>
      TStruct([U64, U64, U64, U64, U64, ADDRESS, TU256, TBytes, ACCESS_LIST, TU256, TVec(H256), TBool, TU256, TU256],
              [])
    case Privileged =>
      TStruct([U64, U64, U64, U64, U64, TKind, TU256, TBytes, ACCESS_LIST, TPrivileged, TBool, TU256, TU256], [])
  }

  function TagByte(tag: TxType): Byte {
    match tag
    case Legacy => 0x00
    case EIP2930 => 0x01
    case EIP1559 => 0x02
    case EIP4844 => 0x03
    case Privileged => 0x7e
  }

  function TagFromByte(b: Byte): (t: Option<TxType>)
    ensures t.Some? ==> TagByte(t.value) == b
  {
    if b == 0x00 then Some(Legacy)
    else if b == 0x01 then Some(EIP2930)
    else if b == 0x02 then Some(EIP1559)
    else if b == 0x03 then Some(EIP4844)
    else if b == 0x7e then Some(Privileged)
    else None
  }

  // ---------------------------------------------------------------- typing

  predicate HasType(ty: Ty, v: Value)
    decreases v, 1
  {
    match ty
    case TBool => v.Bool?
    case TU8 => v.Num? && v.n < 256
    case TUint(width) => v.Num? && width < 56 && v.n < Pow256(width)
    case TU256 => v.Num? && v.n < Pow256(32)
    case TFixed(size) => v.Num? && v.n < Pow256(size)
    case TBytes => v.Blob?
    case TKind => v.KindV? && (v.kind.Call? ==> v.kind.to < Pow256(20))
    case TPrivileged => v.PrivilegedV?
    case TVec(elem) => v.List? && AllHaveType(elem, v.items)
    case TTuple(fields) => v.List? && HaveTypes(fields, v.items)
    case TStruct(fields, optional) =>
      v.Struct? && HaveTypes(fields, v.values) && OptionsHaveTypes(optional, v.optionals)
    case TTransaction => v.Tagged? && HasType(TransactionTy(v.tag), v.body)
  }

  predicate AllHaveType(elem: Ty, vs: seq<Value>)
    decreases vs, 0
  {
    forall i :: 0 <= i < |vs| ==> HasType(elem, vs[i])
  }

  predicate HaveTypes(tys: seq<Ty>, vs: seq<Value>)
    decreases vs, 0
  {
    |tys| == |vs| && forall i :: 0 <= i < |vs| ==> HasType(tys[i], vs[i])
  }

  predicate OptionsHaveTypes(tys: seq<Ty>, vs: seq<Value>)
    decreases vs, 0
  {
    |tys| == |vs| && forall i :: 0 <= i < |vs| ==> vs[i].Absent? || HasType(tys[i], vs[i])
  }

  // ---------------------------------------------------------------- encoding

  /** The integer encoder; its single-byte case leaves zero to the empty string. */
  function EncodeUint(n: nat, width: nat): (e: Bytes)
    requires width < 56
    ensures e != []
  {
    if n == 0 then [RLP_NULL]
    else if n <= 0x7f then [n]
    else [RLP_NULL + |MinimalBE(n, width)|] + MinimalBE(n, width)
  }

  function Encode(ty: Ty, v: Value): (e: Bytes)
    requires HasType(ty, v)
    ensures e != []
    ensures ty.TVec? || ty.TTuple? || ty.TStruct? ==> e[0] >= 0xc0
    decreases v, 1
  {
    match ty
    case TBool => [if v.b then 0x01 else RLP_NULL]
    case TU8 => EncodeUint(v.n, 1)
    case TUint(width) => EncodeUint(v.n, width)
    case TU256 => EncodeBytes(MinimalBE(v.n, 32))
    case TFixed(size) => EncodeBytes(FixedBE(v.n, size))
    case TBytes => EncodeBytes(v.bytes)
    case TKind => (match v.kind case Call(to) => EncodeBytes(FixedBE(to, 20)) case Create => [RLP_NULL])
    case TPrivileged => [if v.privileged.Deposit? then 0x01 else 0x02]
    case TVec(elem) => if v.items == [] then [0xc0] else EncodeList(EncodeAll(elem, v.items))
    case TTuple(fields) => EncodeList(EncodeFields(fields, v.items))
    case TStruct(fields, optional) => EncodeList(EncodeFields(fields, v.values) + EncodeOptions(optional, v.optionals))
    case TTransaction =>
      if v.tag.Legacy? then Encode(TransactionTy(Legacy), v.body) else EncodeBytes(Canonical(v.tag, v.body))
  }

  /** `type || rlp(fields)`; a legacy transaction carries no type byte (EIP-2718). */
  function Canonical(tag: TxType, body: Value): (e: Bytes)
    requires HasType(TransactionTy(tag), body)
    ensures |e| >= 2 || tag.Legacy?
    decreases body, 2
  {
    (if tag.Legacy? then [] else [TagByte(tag)]) + Encode(TransactionTy(tag), body)
  }

  function EncodeAll(elem: Ty, vs: seq<Value>): Bytes
    requires AllHaveType(elem, vs)
    decreases vs, 0
  {
    if vs == [] then [] else Encode(elem, vs[0]) + EncodeAll(elem, vs[1..])
  }

  function EncodeFields(tys: seq<Ty>, vs: seq<Value>): Bytes
    requires HaveTypes(tys, vs)
    decreases vs, 0
  {
    if vs == [] then [] else Encode(tys[0], vs[0]) + EncodeFields(tys[1..], vs[1..])
  }

  /** Absent fields leave no trace. */
  function EncodeOptions(tys: seq<Ty>, vs: seq<Value>): Bytes
    requires OptionsHaveTypes(tys, vs)
    decreases vs, 0
  {
    if vs == [] then []
    else (if vs[0].Absent? then [] else Encode(tys[0], vs[0])) + EncodeOptions(tys[1..], vs[1..])
  }

  // ---------------------------------------------------------------- decoding

  type Decoded = Result<(Value, Bytes), DecodeError>

  function DecodeBool(data: Bytes): (r: Decoded)
    ensures r.Ok? ==> |r.value.1| < |data|
  {
    if data == [] then Err(InvalidLength)
    else if data[0] == RLP_NULL then Ok((Bool(false), data[1..]))
    else if data[0] == 0x01 then Ok((Bool(true), data[1..]))
    else Err(MalformedBoolean)
  }

  function DecodeU8(data: Bytes): (r: Decoded)
    ensures r.Ok? ==> |r.value.1| < |data| && r.value.0.Num? && r.value.0.n < 256
  {
    if data == [] then Err(InvalidLength)
    else if data[0] <= 0x7f then Ok((Num(data[0]), data[1..]))
    else if data[0] == RLP_NULL then Ok((Num(0), data[1..]))
    else if |data| >= 2 && data[0] == RLP_NULL + 1 then Ok((Num(data[1]), data[2..]))
    else Err(MalformedData)
  }

  function DecodeUint(data: Bytes, width: nat): (r: Decoded)
    ensures r.Ok? ==> |r.value.1| < |data|
  {
    var bytes := DecodeBytes(data);
    if bytes.Err? then Err(bytes.error)
    else
      var padded := StaticLeftPad(bytes.value.0, width);
      if padded.Err? then Err(padded.error) else Ok((Num(FromBE(padded.value)), bytes.value.1))
  }

  function DecodeFixed(data: Bytes, size: nat): (r: Decoded)
    ensures r.Ok? ==> |r.value.1| < |data|
  {
    var bytes := DecodeBytes(data);
    if bytes.Err? then Err(bytes.error)
    else if |bytes.value.0| != size then Err(InvalidLength)
    else Ok((Num(FromBE(bytes.value.0)), bytes.value.1))
  }

  function DecodeKind(data: Bytes): (r: Decoded)
    ensures r.Ok? ==> |r.value.1| < |data|
  {
    if data == [] then Err(InvalidLength)
    else if data[0] == RLP_NULL then Ok((KindV(Create), data[1..]))
    else
      var to := DecodeFixed(data, 20);
      if to.Err? then Err(to.error) else Ok((KindV(Call(to.value.0.n)), to.value.1))
  }

  function DecodePrivileged(data: Bytes): (r: Decoded)
    ensures r.Ok? ==> |r.value.1| < |data|
  {
    var tag := DecodeU8(data);
    if tag.Err? then Err(tag.error)
    else if tag.value.0.n == 1 then Ok((PrivilegedV(Deposit), tag.value.1))
    else if tag.value.0.n == 2 then Ok((PrivilegedV(Withdrawal), tag.value.1))
    else Err(Custom)
  }

  function Decode(ty: Ty, data: Bytes): (r: Decoded)
    ensures r.Ok? ==> |r.value.1| < |data|
    decreases |data|, if ty.TTransaction? then 1 else 0, 0
  {
    match ty
    case TBool => DecodeBool(data)
    case TU8 => DecodeU8(data)
    case TUint(width) => DecodeUint(data, width)
    case TU256 => DecodeUint(data, 32)
    case TFixed(size) => DecodeFixed(data, size)
    case TBytes =>
      var bytes := DecodeBytes(data);
      if bytes.Err? then Err(bytes.error) else Ok((Blob(bytes.value.0), bytes.value.1))
    case TKind => DecodeKind(data)
    case TPrivileged => DecodePrivileged(data)
    case TVec(elem) =>
      if data == [] then Err(InvalidLength)
      else if data[0] == RLP_EMPTY_LIST then Ok((List([]), data[1..]))
      else
        var item := DecodeItem(data);
        if item.Err? then Err(item.error)
        else if !item.value.0 then Err(MalformedData)
        else
          var items := DecodeAll(elem, item.value.1);
          if items.Err? then Err(items.error) else Ok((List(items.value), item.value.2))
    case TTuple(fields) =>
      if data == [] then Err(InvalidLength)
      else
        var item := DecodeItem(data);
        if item.Err? then Err(item.error)
        else if !item.value.0 then Err(MalformedData)
        else
          var values := DecodeFields(fields, item.value.1);
          if values.Err? then Err(values.error)
          else if values.value.1 != [] then Err(MalformedData)
          else Ok((List(values.value.0), item.value.2))
    case TStruct(fields, optional) =>
      var item := DecodeItem(data);
      if item.Err? then Err(item.error)
      else if !item.value.0 then Err(UnexpectedString)
      else
        var values := DecodeFields(fields, item.value.1);
        if values.Err? then Err(Custom)
        else
          var (optionals, left) := DecodeOptions(optional, values.value.1);
          if left != [] then Err(MalformedData) else Ok((Struct(values.value.0, optionals), item.value.2))
    case TTransaction => DecodeEnvelope(data)
  }

  /**
    The network form: a typed transaction is recognised by a long byte-string prefix, whose
    length bytes are skipped, not read. The result is the type and where its fields start.
   */
  function OpenEnvelope(data: Bytes): (r: Result<(TxType, Bytes), DecodeError>)
    ensures r.Ok? ==> |r.value.1| <= |data|
  {
    if data == [] then Err(MalformedData)
    else if IsEncodedAsBytes(data) then
      var offset := data[0] - 0xb8 + 1;
      if |data| < offset + 1 then Err(InvalidLength)
      else
        var payload := data[offset + 1..];
        if payload == [] then Err(InvalidLength)
        else
          var tag := TagFromByte(payload[0]);
          if tag.None? then Err(Custom) else Ok((tag.value, payload[1..]))
    else Ok((Legacy, data))
  }

  function DecodeEnvelope(data: Bytes): (r: Decoded)
    ensures r.Ok? ==> |r.value.1| < |data|
    decreases |data|, 0, 1
  {
    var envelope := OpenEnvelope(data);
    if envelope.Err? then Err(envelope.error)
    else
      var (tag, fields) := envelope.value;
      var body := Decode(TransactionTy(tag), fields);
      if body.Err? then Err(body.error) else Ok((Tagged(tag, body.value.0), body.value.1))
  }

  function DecodeAll(elem: Ty, data: Bytes): Result<seq<Value>, DecodeError>
    decreases |data|, 2, 0
  {
    if data == [] then Ok([])
    else
      var head := Decode(elem, data);
      if head.Err? then Err(head.error)
      else
        var tail := DecodeAll(elem, head.value.1);
        if tail.Err? then Err(tail.error) else Ok([head.value.0] + tail.value)
  }

  function DecodeFields(tys: seq<Ty>, data: Bytes): (r: Result<(seq<Value>, Bytes), DecodeError>)
    ensures r.Ok? ==> |r.value.1| <= |data|
    decreases |data|, 2, |tys|
  {
    if tys == [] then Ok(([], data))
    else
      var head := Decode(tys[0], data);
      if head.Err? then Err(head.error)
      else
        var tail := DecodeFields(tys[1..], head.value.1);
        if tail.Err? then Err(tail.error) else Ok(([head.value.0] + tail.value.0, tail.value.1))
  }

  /** A field that does not decode, for whatever reason, is taken to be absent. */
  function DecodeOptions(tys: seq<Ty>, data: Bytes): (r: (seq<Value>, Bytes))
    ensures |r.0| == |tys|
    decreases |data|, 2, |tys|
  {
    if tys == [] then ([], data)
    else
      var head := Decode(tys[0], data);
      var (value, left) := if head.Ok? then head.value else (Absent, data);
      var tail := DecodeOptions(tys[1..], left);
      ([value] + tail.0, tail.1)
  }

  // ---------------------------------------------------------------- leaves round-trip

  lemma MinimalSmall(n: nat, width: nat)
    requires 0 < n < 256 && width > 0
    ensures MinimalBE(n, width) == [n]
    decreases width
  {
    FixedOfSmall(n, width);
    StripPadding(width - 1, [n]);
  }

  lemma {:induction false} FixedOfSmall(n: nat, width: nat)
    requires n < 256 && width > 0
    ensures FixedBE(n, width) == Zeros(width - 1) + [n]
  {
    FixedOfZero(width - 1);
  }

  lemma {:induction false} FixedOfZero(width: nat)
    ensures FixedBE(0, width) == Zeros(width)
  {
    if width > 0 {
      FixedOfZero(width - 1);
      ZerosSnoc(width - 1);
    }
  }

  lemma {:induction false} ZerosSnoc(n: nat)
    ensures Zeros(n) + [0] == Zeros(n + 1)
  {
    if n > 0 {
      ZerosSnoc(n - 1);
      assert Zeros(n) + [0] == [0] + (Zeros(n - 1) + [0]);
    }
  }

  lemma {:induction false} StripPadding(n: nat, bs: Bytes)
    requires bs == [] || bs[0] != 0
    ensures StripZeros(Zeros(n) + bs) == bs
  {
    if n == 0 {
      assert [] + bs == bs;
    } else {
      StripPadding(n - 1, bs);
      assert (Zeros(n) + bs)[1..] == Zeros(n - 1) + bs;
    }
  }

  lemma LargeIsNotSingle(n: nat, width: nat)
    requires 256 <= n < Pow256(width)
    ensures |MinimalBE(n, width)| != 1
  {
    var bs := MinimalBE(n, width);
    StripKeepsValue(FixedBE(n, width));
    FixedRoundTrip(n, width);
    FromBEBound(bs);
    assert Pow256(1) == 256;
  }

  /** The integer encoder produces the same bytes as encoding the minimal byte string. */
  lemma UintIsMinimalBytes(n: nat, width: nat)
    requires n < Pow256(width) && 0 < width < 56
    ensures EncodeUint(n, width) == EncodeBytes(MinimalBE(n, width))
  {
    if n == 0 {
      FixedOfZero(width);
      StripPadding(width, []);
      assert Zeros(width) + [] == Zeros(width);
    } else if n < 256 {
      MinimalSmall(n, width);
    } else {
      LargeIsNotSingle(n, width);
    }
  }

  lemma UintRoundTrip(n: nat, width: nat, rest: Bytes)
    requires n < Pow256(width) && width < 56
    ensures DecodeUint(EncodeUint(n, width) + rest, width) == Ok((Num(n), rest))
  {
    if width == 0 {
      assert EncodeUint(n, width) + rest == EncodeBytes([]) + rest;
      BytesItemRoundTrip([], rest);
    } else {
      UintIsMinimalBytes(n, width);
      BytesItemRoundTrip(MinimalBE(n, width), rest);
      MinimalPads(n, width);
    }
  }

  lemma U8RoundTrip(n: nat, rest: Bytes)
    requires n < 256
    ensures DecodeU8(EncodeUint(n, 1) + rest) == Ok((Num(n), rest))
  {
  }

  lemma FixedItemRoundTrip(n: nat, size: nat, rest: Bytes)
    requires n < Pow256(size) && |EncodeBytes(FixedBE(n, size))| < U64_BOUND
    ensures DecodeFixed(EncodeBytes(FixedBE(n, size)) + rest, size) == Ok((Num(n), rest))
  {
    BytesItemRoundTrip(FixedBE(n, size), rest);
    FixedRoundTrip(n, size);
  }

  lemma KindRoundTrip(kind: TxKind, rest: Bytes)
    requires HasType(TKind, KindV(kind))
    ensures DecodeKind(Encode(TKind, KindV(kind)) + rest) == Ok((KindV(kind), rest))
  {
    var data := Encode(TKind, KindV(kind)) + rest;
    if kind.Call? {
      FixedItemRoundTrip(kind.to, 20, rest);
      assert data[0] == RLP_NULL + 20;
    } else {
      assert data[1..] == rest;
    }
  }

  // ---------------------------------------------------------------- values round-trip

  /** Two types whose encodings the other one's decoder always refuses. */
  predicate Distinguishable(a: Ty, b: Ty) {
    (a == U64 && b == H256) || (a == H256 && b == U64)
  }

  function FirstPresent(vs: seq<Value>): (i: nat)
    ensures i <= |vs|
    ensures i < |vs| ==> !vs[i].Absent?
    ensures forall k :: 0 <= k < i ==> vs[k].Absent?
  {
    if vs == [] || !vs[0].Absent? then 0 else 1 + FirstPresent(vs[1..])
  }

  /** No absent field is followed by a present one that would decode in its place. */
  predicate Unambiguous(tys: seq<Ty>, vs: seq<Value>)
    requires |tys| == |vs|
  {
    vs == [] ||
    (&& Unambiguous(tys[1..], vs[1..])
     && (vs[0].Absent? ==>
           var next := FirstPresent(vs);
           next < |vs| ==> Distinguishable(tys[0], tys[next])))
  }

  /** The conditions under which decoding inverts encoding, at every level of a value. */
  predicate Recoverable(ty: Ty, v: Value)
    requires HasType(ty, v)
    decreases v, 1
  {
    match ty
    case TVec(elem) => AllRecoverable(elem, v.items)
    case TTuple(fields) => FieldsRecoverable(fields, v.items)
    case TStruct(fields, optional) =>
      FieldsRecoverable(fields, v.values) && OptionsRecoverable(optional, v.optionals)
        && Unambiguous(optional, v.optionals)
    case TTransaction =>
      Recoverable(TransactionTy(v.tag), v.body) && (v.tag.Legacy? || |Canonical(v.tag, v.body)| >= 56)
    case _ => true
  }

  predicate AllRecoverable(elem: Ty, vs: seq<Value>)
    requires AllHaveType(elem, vs)
    decreases vs, 0
  {
    forall i :: 0 <= i < |vs| ==> Recoverable(elem, vs[i])
  }

  predicate FieldsRecoverable(tys: seq<Ty>, vs: seq<Value>)
    requires HaveTypes(tys, vs)
    decreases vs, 0
  {
    forall i :: 0 <= i < |vs| ==> Recoverable(tys[i], vs[i])
  }

  predicate OptionsRecoverable(tys: seq<Ty>, vs: seq<Value>)
    requires OptionsHaveTypes(tys, vs)
    decreases vs, 0
  {
    forall i :: 0 <= i < |vs| ==> vs[i].Absent? || Recoverable(tys[i], vs[i])
  }

  lemma {:induction false} RoundTrip(ty: Ty, v: Value, rest: Bytes)
    requires HasType(ty, v) && Recoverable(ty, v)
    requires |Encode(ty, v)| < U64_BOUND
    ensures Decode(ty, Encode(ty, v) + rest) == Ok((v, rest))
    decreases v, 1
  {
    var data := Encode(ty, v) + rest;
    match ty
    case TBool => assert data[1..] == rest;
    case TU8 => U8RoundTrip(v.n, rest);
    case TUint(width) => UintRoundTrip(v.n, width, rest);
    case TU256 =>
      BytesItemRoundTrip(MinimalBE(v.n, 32), rest);
      MinimalPads(v.n, 32);
    case TFixed(size) => FixedItemRoundTrip(v.n, size, rest);
    case TBytes => BytesItemRoundTrip(v.bytes, rest);
    case TKind => KindRoundTrip(v.kind, rest);
    case TPrivileged => assert data[1..] == rest;
    case TVec(elem) => VecRoundTrip(elem, v.items, rest);
    case TTuple(fields) =>
      var payload := EncodeFields(fields, v.items);
      ListItemRoundTrip(payload, rest);
      FieldsRoundTrip(fields, v.items, []);
      assert payload + [] == payload;
    case TStruct(fields, optional) =>
      var tail := EncodeOptions(optional, v.optionals);
      ListItemRoundTrip(EncodeFields(fields, v.values) + tail, rest);
      FieldsRoundTrip(fields, v.values, tail);
      OptionsRoundTrip(optional, v.optionals);
    case TTransaction =>
      if v.tag.Legacy? {
        RoundTrip(TransactionTy(Legacy), v.body, rest);
      } else {
        RoundTrip(TransactionTy(v.tag), v.body, rest);
        EnvelopeOpens(v.tag, Encode(TransactionTy(v.tag), v.body), rest);
      }
  }

  lemma {:induction false} VecRoundTrip(elem: Ty, vs: seq<Value>, rest: Bytes)
    requires AllHaveType(elem, vs) && AllRecoverable(elem, vs)
    requires |Encode(TVec(elem), List(vs))| < U64_BOUND
    ensures Decode(TVec(elem), Encode(TVec(elem), List(vs)) + rest) == Ok((List(vs), rest))
    decreases vs, 2
  {
    var data := Encode(TVec(elem), List(vs)) + rest;
    if vs == [] {
      assert data[1..] == rest;
    } else {
      var payload := EncodeAll(elem, vs);
      ListItemRoundTrip(payload, rest);
      AllRoundTrip(elem, vs);
      assert payload != [];
      assert data[0] != RLP_EMPTY_LIST by { LengthNonzero(|payload|); }
    }
  }

  lemma LengthNonzero(n: nat)
    requires n > 0
    ensures EncodeLength(n)[0] != RLP_EMPTY_LIST
  {
  }

  lemma {:induction false} AllHead(elem: Ty, vs: seq<Value>)
    requires AllHaveType(elem, vs) && AllRecoverable(elem, vs) && vs != []
    requires |EncodeAll(elem, vs)| < U64_BOUND
    ensures Decode(elem, EncodeAll(elem, vs)) == Ok((vs[0], EncodeAll(elem, vs[1..])))
    ensures EncodeAll(elem, vs) != [] && |EncodeAll(elem, vs[1..])| <= |EncodeAll(elem, vs)|
    decreases vs, 0
  {
    RoundTrip(elem, vs[0], EncodeAll(elem, vs[1..]));
  }

  lemma {:induction false} AllRoundTrip(elem: Ty, vs: seq<Value>)
    requires AllHaveType(elem, vs) && AllRecoverable(elem, vs)
    requires |EncodeAll(elem, vs)| < U64_BOUND
    ensures DecodeAll(elem, EncodeAll(elem, vs)) == Ok(vs)
    decreases vs, 1
  {
    if vs != [] {
      AllHead(elem, vs);
      AllRoundTrip(elem, vs[1..]);
      assert vs == [vs[0]] + vs[1..];
    }
  }

  lemma ConcatIsAssociative(a: Bytes, b: Bytes, c: Bytes)
    ensures a + b + c == a + (b + c)
  {
  }

  lemma {:induction false} FieldsHead(tys: seq<Ty>, vs: seq<Value>, tail: Bytes)
    requires HaveTypes(tys, vs) && FieldsRecoverable(tys, vs) && vs != []
    requires |EncodeFields(tys, vs)| < U64_BOUND
    ensures Decode(tys[0], EncodeFields(tys, vs) + tail) == Ok((vs[0], EncodeFields(tys[1..], vs[1..]) + tail))
    decreases vs, 0
  {
    RoundTrip(tys[0], vs[0], EncodeFields(tys[1..], vs[1..]) + tail);
    ConcatIsAssociative(Encode(tys[0], vs[0]), EncodeFields(tys[1..], vs[1..]), tail);
  }

  lemma {:induction false} FieldsRoundTrip(tys: seq<Ty>, vs: seq<Value>, tail: Bytes)
    requires HaveTypes(tys, vs) && FieldsRecoverable(tys, vs)
    requires |EncodeFields(tys, vs)| < U64_BOUND
    ensures DecodeFields(tys, EncodeFields(tys, vs) + tail) == Ok((vs, tail))
    decreases vs, 1
  {
    if vs == [] {
      assert [] + tail == tail;
    } else {
      FieldsHead(tys, vs, tail);
      FieldsRoundTrip(tys[1..], vs[1..], tail);
      assert vs == [vs[0]] + vs[1..];
    }
  }

  /** A number never decodes as a hash, and a hash never as a 64-bit number. */
  lemma DistinguishableRefuses(a: Ty, b: Ty, v: Value, rest: Bytes)
    requires Distinguishable(a, b) && HasType(b, v)
    ensures Decode(a, Encode(b, v) + rest).Err?
  {
  }

  lemma {:induction false} OptionsStartWithFirstPresent(tys: seq<Ty>, vs: seq<Value>) returns (tail: Bytes)
    requires OptionsHaveTypes(tys, vs)
    ensures var i := FirstPresent(vs);
            if i == |vs| then EncodeOptions(tys, vs) == []
            else HasType(tys[i], vs[i]) && EncodeOptions(tys, vs) == Encode(tys[i], vs[i]) + tail
    decreases vs
  {
    tail := [];
    if vs != [] {
      if vs[0].Absent? {
        tail := OptionsStartWithFirstPresent(tys[1..], vs[1..]);
        assert EncodeOptions(tys, vs) == EncodeOptions(tys[1..], vs[1..]);
      } else {
        tail := EncodeOptions(tys[1..], vs[1..]);
      }
    }
  }

  lemma AbsentIsSkipped(tys: seq<Ty>, vs: seq<Value>)
    requires OptionsHaveTypes(tys, vs) && vs != [] && vs[0].Absent?
    requires FirstPresent(vs) < |vs| ==> Distinguishable(tys[0], tys[FirstPresent(vs)])
    ensures Decode(tys[0], EncodeOptions(tys, vs)).Err?
  {
    var tail := OptionsStartWithFirstPresent(tys, vs);
    var next := FirstPresent(vs);
    if next < |vs| {
      DistinguishableRefuses(tys[0], tys[next], vs[next], tail);
    } else {
      EmptyRefused(tys[0]);
    }
  }

  lemma {:induction false} OptionsRoundTrip(tys: seq<Ty>, vs: seq<Value>)
    requires OptionsHaveTypes(tys, vs) && OptionsRecoverable(tys, vs) && Unambiguous(tys, vs)
    requires |EncodeOptions(tys, vs)| < U64_BOUND
    ensures DecodeOptions(tys, EncodeOptions(tys, vs)) == (vs, [])
    decreases vs, 0
  {
    if vs != [] {
      var data, more := EncodeOptions(tys, vs), EncodeOptions(tys[1..], vs[1..]);
      OptionsRoundTrip(tys[1..], vs[1..]);
      if vs[0].Absent? {
        assert data == more;
        AbsentIsSkipped(tys, vs);
      } else {
        RoundTrip(tys[0], vs[0], more);
      }
      assert vs == [vs[0]] + vs[1..];
    }
  }

  lemma EmptyRefused(ty: Ty)
    ensures Decode(ty, []).Err?
  {
  }

  lemma EnvelopeOpens(tag: TxType, fields: Bytes, rest: Bytes)
    requires 56 <= 1 + |fields| < U64_BOUND
    ensures OpenEnvelope(EncodeBytes([TagByte(tag)] + fields) + rest) == Ok((tag, fields + rest))
  {
    var canonical := [TagByte(tag)] + fields;
    var data, l := EncodeBytes(canonical) + rest, LengthBytes(|canonical|);
    LengthRoundTrip(|canonical|);
    assert data[|l| + 1..] == canonical + rest;
    assert (canonical + rest)[1..] == fields + rest;
    assert TagFromByte(canonical[0]) == Some(tag);
  }

  /** The envelope of a short typed transaction is taken for a legacy one and refused. */
  lemma ShortEnvelopeFails(canonical: Bytes, rest: Bytes)
    requires 2 <= |canonical| < 56
    ensures DecodeEnvelope(EncodeBytes(canonical) + rest) == Err(UnexpectedString)
  {
  }

  /** An absent field followed by a present one of the same type takes that field's value. */
  lemma TakenInPlace(tys: seq<Ty>, vs: seq<Value>)
    requires OptionsHaveTypes(tys, vs) && vs != [] && vs[0].Absent?
    requires tys[0] == U64 || tys[0] == H256
    requires FirstPresent(vs) < |vs| && tys[FirstPresent(vs)] == tys[0]
    requires |EncodeOptions(tys, vs)| < U64_BOUND
    ensures DecodeOptions(tys, EncodeOptions(tys, vs)).0 != vs
  {
    var next := FirstPresent(vs);
    var tail := OptionsStartWithFirstPresent(tys, vs);
    RoundTrip(tys[next], vs[next], tail);
    assert DecodeOptions(tys, EncodeOptions(tys, vs)).0[0] == vs[next];
  }

  lemma MisreadTail(tys: seq<Ty>, vs: seq<Value>, data: Bytes, left: Bytes)
    requires |tys| == |vs| > 0
    requires Decode(tys[0], data).Err? || !vs[0].Absent? ==> DecodeOptions(tys[1..], left).0 != vs[1..]
    requires if vs[0].Absent? then left == data else Decode(tys[0], data) == Ok((vs[0], left))
    requires tys[0] == U64 || tys[0] == H256
    ensures DecodeOptions(tys, data).0 != vs
  {
  }

  /** For numbers and hashes the condition is exact: an ambiguous list never decodes to itself. */
  lemma {:induction false} AmbiguousIsMisread(tys: seq<Ty>, vs: seq<Value>)
    requires OptionsHaveTypes(tys, vs) && !Unambiguous(tys, vs)
    requires forall i :: 0 <= i < |tys| ==> tys[i] == U64 || tys[i] == H256
    requires |EncodeOptions(tys, vs)| < U64_BOUND
    ensures DecodeOptions(tys, EncodeOptions(tys, vs)).0 != vs
    decreases vs
  {
    if Unambiguous(tys[1..], vs[1..]) {
      TakenInPlace(tys, vs);
    } else {
      var data, more := EncodeOptions(tys, vs), EncodeOptions(tys[1..], vs[1..]);
      AmbiguousIsMisread(tys[1..], vs[1..]);
      if !vs[0].Absent? {
        RoundTrip(tys[0], vs[0], more);
      } else {
        assert data == more;
      }
      MisreadTail(tys, vs, data, more);
    }
  }
}
