/**
  The encoders as they run: appending to a caller's buffer, scanning for the first non-zero
  length byte, summing lengths before writing elements; and the vector decoder's loop. Each is
  proved to produce what `Encode` and `Decode` specify.
 */
module RlpBuffer {
  import opened Prelude
  import opened Types
  import opened RlpItems
  import opened RlpTypes

  /** Drops the leading zeros of a fixed-width number, as the length and integer encoders do. */
  method SignificantBytes(bytes: Bytes) returns (r: Bytes)
    ensures r == StripZeros(bytes)
  {
    var start := 0;
    while start < |bytes| && bytes[start] == 0
      invariant start <= |bytes|
      invariant StripZeros(bytes) == StripZeros(bytes[start..])
    {
      assert bytes[start..][1..] == bytes[start + 1..];
      start := start + 1;
    }
    r := bytes[start..];
  }

  class Buffer {
    var bytes: Bytes

    constructor ()
      ensures bytes == []
    {
      bytes := [];
    }

    method PutU8(b: Byte)
      modifies this
      ensures bytes == old(bytes) + [b]
    {
      bytes := bytes + [b];
    }

    method PutSlice(bs: Bytes)
      modifies this
      ensures bytes == old(bytes) + bs
    {
      bytes := bytes + bs;
    }

    method PutUint(n: nat, width: nat)
      requires width < 56
      modifies this
      ensures bytes == old(bytes) + EncodeUint(n, width)
    {
      if n == 0 {
        PutU8(RLP_NULL);
      } else if n <= 0x7f {
        PutU8(n);
      } else {
        var significant := SignificantBytes(FixedBE(n, width));
        ConcatIsAssociative(bytes, [RLP_NULL + |significant|], significant);
        PutU8(RLP_NULL + |significant|);
        PutSlice(significant);
      }
    }

    method PutBytes(bs: Bytes)
      modifies this
      ensures bytes == old(bytes) + EncodeBytes(bs)
    {
      if |bs| == 1 && bs[0] < RLP_NULL {
        PutU8(bs[0]);
      } else {
        ghost var before, prefix: Bytes := bytes, [];
        if |bs| < 56 {
          PutU8(RLP_NULL + |bs|);
          prefix := [RLP_NULL + |bs|];
        } else {
          var significant := SignificantBytes(FixedBE(|bs|, 8));
          ConcatIsAssociative(bytes, [0xb7 + |significant|], significant);
          PutU8(0xb7 + |significant|);
          PutSlice(significant);
          prefix := [0xb7 + |significant|] + significant;
        }
        ConcatIsAssociative(before, prefix, bs);
        PutSlice(bs);
      }
    }

    method PutLength(n: nat)
      modifies this
      ensures bytes == old(bytes) + EncodeLength(n)
    {
      if n < 56 {
        PutU8(RLP_EMPTY_LIST + n);
      } else {
        var significant := SignificantBytes(FixedBE(n, 8));
        PutU8(0xf7 + |significant|);
        PutSlice(significant);
      }
    }

    /** One loop adds up the element lengths for the prefix, a second one writes the elements. */
    method PutVec(elem: Ty, items: seq<Value>)
      requires AllHaveType(elem, items)
      modifies this
      ensures bytes == old(bytes) + Encode(TVec(elem), List(items))
    {
      if items == [] {
        PutU8(0xc0);
        return;
      }
      var totalLen := 0;
      for i := 0 to |items|
        invariant totalLen + |EncodeAll(elem, items[i..])| == |EncodeAll(elem, items)| && bytes == old(bytes)
      {
        EncodeAllAt(elem, items, i);
        totalLen := totalLen + |Encode(elem, items[i])|;
      }
      PutLength(totalLen);
      ghost var whole := bytes + EncodeAll(elem, items);
      for i := 0 to |items|
        invariant bytes + EncodeAll(elem, items[i..]) == whole
      {
        EncodeAllAt(elem, items, i);
        ConcatIsAssociative(bytes, Encode(elem, items[i]), EncodeAll(elem, items[i + 1..]));
        PutSlice(Encode(elem, items[i]));
      }
      assert EncodeAll(elem, items[|items|..]) == [] && bytes + [] == bytes;
      assert totalLen == |EncodeAll(elem, items)|;
      assert bytes == old(bytes) + EncodeLength(totalLen) + EncodeAll(elem, items);
      ConcatIsAssociative(old(bytes), EncodeLength(totalLen), EncodeAll(elem, items));
      assert Encode(TVec(elem), List(items)) == EncodeList(EncodeAll(elem, items));
    }
  }

  lemma EncodeAllAt(elem: Ty, items: seq<Value>, i: nat)
    requires AllHaveType(elem, items) && i < |items|
    ensures EncodeAll(elem, items[i..]) == Encode(elem, items[i]) + EncodeAll(elem, items[i + 1..])
  {
  }

  lemma EncodeFieldsAt(tys: seq<Ty>, vs: seq<Value>, i: nat)
    requires HaveTypes(tys, vs) && i < |vs|
    ensures EncodeFields(tys[i..], vs[i..]) == Encode(tys[i], vs[i]) + EncodeFields(tys[i + 1..], vs[i + 1..])
  {
  }

  lemma EncodeOptionsAt(tys: seq<Ty>, vs: seq<Value>, i: nat)
    requires OptionsHaveTypes(tys, vs) && i < |vs|
    ensures EncodeOptions(tys[i..], vs[i..]) ==
            (if vs[i].Absent? then [] else Encode(tys[i], vs[i])) + EncodeOptions(tys[i + 1..], vs[i + 1..])
  {
  }

  /** The struct helper: fields gather in a temporary buffer, `Finish` writes the length and then the fields. */
  class Encoder {
    const buf: Buffer
    var temp: Bytes

    constructor (buf: Buffer)
      ensures this.buf == buf && temp == []
    {
      this.buf := buf;
      temp := [];
    }

    method EncodeField(ty: Ty, v: Value)
      requires HasType(ty, v)
      modifies this
      ensures temp == old(temp) + Encode(ty, v)
    {
      temp := temp + Encode(ty, v);
    }

    method EncodeOptionalField(ty: Ty, v: Value)
      requires v.Absent? || HasType(ty, v)
      modifies this
      ensures temp == old(temp) + if v.Absent? then [] else Encode(ty, v)
    {
      if !v.Absent? {
        temp := temp + Encode(ty, v);
      }
    }

    method EncodeFieldList(tys: seq<Ty>, vs: seq<Value>)
      requires HaveTypes(tys, vs)
      modifies this
      ensures temp == old(temp) + EncodeFields(tys, vs)
    {
      for i := 0 to |vs|
        invariant temp + EncodeFields(tys[i..], vs[i..]) == old(temp) + EncodeFields(tys, vs)
      {
        EncodeFieldsAt(tys, vs, i);
        ConcatIsAssociative(temp, Encode(tys[i], vs[i]), EncodeFields(tys[i + 1..], vs[i + 1..]));
        EncodeField(tys[i], vs[i]);
      }
      assert temp + [] == temp;
    }

    method EncodeOptionalFieldList(tys: seq<Ty>, vs: seq<Value>)
      requires OptionsHaveTypes(tys, vs)
      modifies this
      ensures temp == old(temp) + EncodeOptions(tys, vs)
    {
      for i := 0 to |vs|
        invariant temp + EncodeOptions(tys[i..], vs[i..]) == old(temp) + EncodeOptions(tys, vs)
      {
        EncodeOptionsAt(tys, vs, i);
        ConcatIsAssociative(
          temp, if vs[i].Absent? then [] else Encode(tys[i], vs[i]), EncodeOptions(tys[i + 1..], vs[i + 1..]));
        EncodeOptionalField(tys[i], vs[i]);
      }
      assert temp + [] == temp;
    }

    method Finish()
      modifies buf
      ensures buf.bytes == old(buf.bytes) + EncodeList(temp)
    {
      buf.PutLength(|temp|);
      buf.PutSlice(temp);
    }
  }

  /** A struct written field by field through the helper is the struct's encoding. */
  method EncodeStruct(buf: Buffer, fields: seq<Ty>, values: seq<Value>, optional: seq<Ty>, optionals: seq<Value>)
    requires HaveTypes(fields, values) && OptionsHaveTypes(optional, optionals)
    modifies buf
    ensures buf.bytes == old(buf.bytes) + Encode(TStruct(fields, optional), Struct(values, optionals))
  {
    var encoder := new Encoder(buf);
    encoder.EncodeFieldList(fields, values);
    assert [] + EncodeFields(fields, values) == EncodeFields(fields, values);
    encoder.EncodeOptionalFieldList(optional, optionals);
    encoder.Finish();
  }

  /** What has been decoded, continued by what is left, is the whole result. */
  ghost predicate Continues(done: seq<Value>, rest: Result<seq<Value>, DecodeError>,
                            all: Result<seq<Value>, DecodeError>) {
    match rest
    case Ok(tail) => all.Ok? && all.value == done + tail
    case Err(e) => all == Err(e)
  }

  lemma StepContinues(done: seq<Value>, v: Value, rest: Result<seq<Value>, DecodeError>,
                      all: Result<seq<Value>, DecodeError>)
    ensures Continues(done + [v], rest, all) <==> Continues(done, if rest.Err? then rest else Ok([v] + rest.value), all)
  {
  }

  /** The vector decoder's loop: elements are taken off the payload until nothing is left. */
  method DecodeElements(elem: Ty, payload: Bytes) returns (r: Result<seq<Value>, DecodeError>)
    ensures r == DecodeAll(elem, payload)
  {
    var result: seq<Value>, current := [], payload;
    ghost var all := DecodeAll(elem, payload);
    while current != []
      invariant Continues(result, DecodeAll(elem, current), all)
      decreases |current|
    {
      var next := Decode(elem, current);
      if next.Err? {
        return Err(next.error);
      }
      StepContinues(result, next.value.0, DecodeAll(elem, next.value.1), all);
      result := result + [next.value.0];
      current := next.value.1;
    }
    assert result + [] == result;
    r := Ok(result);
  }

  method DecodeVec(elem: Ty, rlp: Bytes) returns (r: Decoded)
    ensures r == Decode(TVec(elem), rlp)
  {
    if rlp == [] {
      return Err(InvalidLength);
    }
    if rlp[0] == RLP_EMPTY_LIST {
      return Ok((List([]), rlp[1..]));
    }
    var item := DecodeItem(rlp);
    if item.Err? {
      return Err(item.error);
    }
    if !item.value.0 {
      return Err(MalformedData);
    }
    var items := DecodeElements(elem, item.value.1);
    r := if items.Err? then Err(items.error) else Ok((List(items.value), item.value.2));
  }
}
