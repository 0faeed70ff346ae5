/**
  RLP at the byte level: length prefixes, big-endian numbers, the two item splitters, and the
  round trip for arbitrarily nested trees of byte strings and lists (Appendix B of the Ethereum
  Yellow Paper).
 */
module RlpItems {
  import opened Prelude
  import opened Types

  const RLP_NULL: Byte := 0x80
  const RLP_EMPTY_LIST: Byte := 0xC0

  datatype DecodeError =
    | InvalidLength
    | MalformedData
    | MalformedBoolean
    | UnexpectedList
    | UnexpectedString
    | Custom
    /** Not an error value of the decoder: adding up the announced length overflows a machine word. */
    | LengthOverflow

  // ---------------------------------------------------------------- big-endian numbers

  function Pow256(n: nat): (p: nat)
    ensures p > 0
  {
    if n == 0 then 1 else 256 * Pow256(n - 1)
  }

  /** The low `width` bytes of `n`, most significant first (`to_be_bytes`). */
  function FixedBE(n: nat, width: nat): (bs: Bytes)
    ensures |bs| == width
  {
    if width == 0 then [] else FixedBE(n / 256, width - 1) + [n % 256]
  }

  function FromBE(bs: Bytes): nat {
    if bs == [] then 0 else FromBE(bs[..|bs| - 1]) * 256 + bs[|bs| - 1]
  }

  /** The bytes from the first non-zero one on. */
  function StripZeros(bs: Bytes): (r: Bytes)
    ensures |r| <= |bs|
    ensures r != [] ==> r[0] != 0
  {
    if bs != [] && bs[0] == 0 then StripZeros(bs[1..]) else bs
  }

  function MinimalBE(n: nat, width: nat): Bytes {
    StripZeros(FixedBE(n, width))
  }

  lemma {:induction false} FixedRoundTrip(n: nat, width: nat)
    requires n < Pow256(width)
    ensures FromBE(FixedBE(n, width)) == n
  {
    if width > 0 {
      FixedRoundTrip(n / 256, width - 1);
      var bs := FixedBE(n, width);
      assert bs[..|bs| - 1] == FixedBE(n / 256, width - 1);
    }
  }

  lemma {:induction false} FromBEBound(bs: Bytes)
    ensures FromBE(bs) < Pow256(|bs|)
  {
    if bs != [] {
      FromBEBound(bs[..|bs| - 1]);
    }
  }

  lemma {:induction false} LeadingZero(bs: Bytes)
    ensures FromBE([0] + bs) == FromBE(bs)
  {
    if bs != [] {
      LeadingZero(bs[..|bs| - 1]);
      assert ([0] + bs)[..|bs|] == [0] + bs[..|bs| - 1];
    }
  }

  lemma {:induction false} StripKeepsValue(bs: Bytes)
    ensures FromBE(StripZeros(bs)) == FromBE(bs)
  {
    if bs != [] && bs[0] == 0 {
      LeadingZero(bs[1..]);
      assert bs == [0] + bs[1..];
      StripKeepsValue(bs[1..]);
    }
  }

  function Zeros(n: nat): (z: Bytes)
    ensures |z| == n
  {
    if n == 0 then [] else [0] + Zeros(n - 1)
  }

  lemma {:induction false} PaddingKeepsValue(n: nat, bs: Bytes)
    ensures FromBE(Zeros(n) + bs) == FromBE(bs)
  {
    if n == 0 {
      assert [] + bs == bs;
    } else {
      PaddingKeepsValue(n - 1, bs);
      LeadingZero(Zeros(n - 1) + bs);
      assert Zeros(n) + bs == [0] + (Zeros(n - 1) + bs);
    }
  }

  /** Left padding refuses a leading zero and anything longer than the target. */
  function StaticLeftPad(data: Bytes, size: nat): Result<Bytes, DecodeError> {
    if data == [] then Ok(Zeros(size))
    else if data[0] == 0 then Err(MalformedData)
    else if |data| > size then Err(InvalidLength)
    else Ok(Zeros(size - |data|) + data)
  }

  lemma MinimalPads(n: nat, width: nat)
    requires n < Pow256(width)
    ensures StaticLeftPad(MinimalBE(n, width), width).Ok?
    ensures FromBE(StaticLeftPad(MinimalBE(n, width), width).value) == n
    ensures n > 0 ==> MinimalBE(n, width) != []
  {
    var bs := MinimalBE(n, width);
    FixedRoundTrip(n, width);
    StripKeepsValue(FixedBE(n, width));
    PaddingKeepsValue(width - |bs|, bs);
    assert Zeros(width) + [] == Zeros(width);
  }

  // ---------------------------------------------------------------- encoding

  function LengthBytes(n: nat): (bs: Bytes)
    ensures |bs| <= 8
  {
    MinimalBE(n, 8)
  }

  function EncodeBytes(bs: Bytes): (e: Bytes)
    ensures e != []
    ensures |e| >= |bs|
    ensures |bs| >= 56 ==> 0xb7 <= e[0] <= 0xbf
  {
    if |bs| == 1 && bs[0] < RLP_NULL then [bs[0]]
    else if |bs| < 56 then [RLP_NULL + |bs|] + bs
    else [0xb7 + |LengthBytes(|bs|)|] + LengthBytes(|bs|) + bs
  }

  function EncodeLength(n: nat): (e: Bytes)
    ensures e != [] && e[0] >= 0xc0
  {
    if n < 56 then [RLP_EMPTY_LIST + n] else [0xf7 + |LengthBytes(n)|] + LengthBytes(n)
  }

  function EncodeList(payload: Bytes): (e: Bytes)
    ensures |e| > |payload| && e[0] >= 0xc0
  {
    EncodeLength(|payload|) + payload
  }

  // ---------------------------------------------------------------- splitting

  /** (is it a list, payload without prefix, bytes after the item). */
  function DecodeItem(data: Bytes): (r: Result<(bool, Bytes, Bytes), DecodeError>)
    ensures r.Ok? ==> |r.value.2| < |data| && |r.value.1| + |r.value.2| <= |data|
    ensures r.Ok? ==> data[|data| - |r.value.2|..] == r.value.2
    ensures r.Ok? && r.value.0 ==> |r.value.1| < |data|
    ensures r.Ok? ==> (r.value.0 <==> data[0] >= 0xc0)
  {
    if data == [] then Err(InvalidLength)
    else
      var first := data[0];
      if first <= 0x7F then Ok((false, data[..1], data[1..]))
      else if first <= 0xB7 then
        var length := first - 0x80;
        if |data| < length + 1 then Err(InvalidLength)
        else Ok((false, data[1..length + 1], data[length + 1..]))
      else if first <= 0xBF then
        var lengthOfLength := first - 0xB7;
        if |data| < lengthOfLength + 1 then Err(InvalidLength)
        else
          var padded := StaticLeftPad(data[1..lengthOfLength + 1], 8);
          if padded.Err? then Err(padded.error)
          else
            var length := FromBE(padded.value);
            if lengthOfLength + length + 1 >= U64_BOUND then Err(LengthOverflow)
            else if |data| < lengthOfLength + length + 1 then Err(InvalidLength)
            else Ok((false, data[lengthOfLength + 1..lengthOfLength + length + 1], data[lengthOfLength + length + 1..]))
      else if first <= 0xF7 then
        var length := first - RLP_EMPTY_LIST;
        if |data| < length + 1 then Err(InvalidLength)
        else Ok((true, data[1..length + 1], data[length + 1..]))
      else
        var listLength := first - 0xF7;
        if |data| < listLength + 1 then Err(InvalidLength)
        else
          var padded := StaticLeftPad(data[1..listLength + 1], 8);
          if padded.Err? then Err(padded.error)
          else
            var length := FromBE(padded.value);
            if listLength + length + 1 >= U64_BOUND then Err(LengthOverflow)
            else if |data| < listLength + length + 1 then Err(InvalidLength)
            else Ok((true, data[listLength + 1..listLength + length + 1], data[listLength + length + 1..]))
  }

  /** (the item with its prefix, bytes after the item). */
  function GetItemWithPrefix(data: Bytes): Result<(Bytes, Bytes), DecodeError> {
    if data == [] then Err(InvalidLength)
    else
      var first := data[0];
      if first <= 0x7F then Ok((data[..1], data[1..]))
      else if first <= 0xB7 then
        var length := first - 0x80;
        if |data| < length + 1 then Err(InvalidLength) else Ok((data[..length + 1], data[length + 1..]))
      else if first <= 0xBF then
        var lengthOfLength := first - 0xB7;
        if |data| < lengthOfLength + 1 then Err(InvalidLength)
        else
          var padded := StaticLeftPad(data[1..lengthOfLength + 1], 8);
          if padded.Err? then Err(padded.error)
          else
            var length := FromBE(padded.value);
            if lengthOfLength + length + 1 >= U64_BOUND then Err(LengthOverflow)
            else if |data| < lengthOfLength + length + 1 then Err(InvalidLength)
            else Ok((data[..lengthOfLength + length + 1], data[lengthOfLength + length + 1..]))
      else if first <= 0xF7 then
        var length := first - RLP_EMPTY_LIST;
        if |data| < length + 1 then Err(InvalidLength) else Ok((data[..length + 1], data[length + 1..]))
      else
        var listLength := first - 0xF7;
        if |data| < listLength + 1 then Err(InvalidLength)
        else
          var padded := StaticLeftPad(data[1..listLength + 1], 8);
          if padded.Err? then Err(padded.error)
          else
            var length := FromBE(padded.value);
            if listLength + length + 1 >= U64_BOUND then Err(LengthOverflow)
            else if |data| < listLength + length + 1 then Err(InvalidLength)
            else Ok((data[..listLength + length + 1], data[listLength + length + 1..]))
  }

  /** On every input the two splitters succeed together, with the same rest and nothing lost. */
  lemma SplittersAgree(data: Bytes)
    ensures match (DecodeItem(data), GetItemWithPrefix(data))
            case (Ok((_, payload, rest)), Ok((item, rest'))) =>
              && rest == rest'
              && item + rest == data
              && |payload| <= |item|
              && item[|item| - |payload|..] == payload
            case (Err(e), Err(e')) => e == e'
            case _ => false
  {
  }

  /** The announced length of a long item, if its length bytes are all there. */
  function LongLength(data: Bytes): Option<(nat, nat)> {
    if data == [] || data[0] <= 0xB7 || 0xC0 <= data[0] <= 0xF7 then None
    else
      var bytes := if data[0] <= 0xBF then data[0] - 0xB7 else data[0] - 0xF7;
      if |data| < bytes + 1 || data[1] == 0 then None else Some((bytes, FromBE(data[1..bytes + 1])))
  }

  /** Exactly the announced lengths within a few bytes of the word size overflow, in both splitters. */
  lemma OverflowExactly(data: Bytes)
    ensures var length := LongLength(data);
            DecodeItem(data) == Err(LengthOverflow) <==>
              length.Some? && length.value.0 + length.value.1 + 1 >= U64_BOUND
    ensures GetItemWithPrefix(data) == Err(LengthOverflow) <==> DecodeItem(data) == Err(LengthOverflow)
  {
    SplittersAgree(data);
    if LongLength(data).Some? {
      var bytes := LongLength(data).value.0;
      PaddingKeepsValue(8 - bytes, data[1..bytes + 1]);
    }
  }

  /** The nine bytes that announce the largest length. */
  const LARGEST_LENGTH: Bytes := [0xBF, 0xFF, 0xFF, 0xFF, 0xFF, 0xFF, 0xFF, 0xFF, 0xFF]

  lemma LargestLengthOverflows(rest: Bytes)
    ensures DecodeItem(LARGEST_LENGTH + rest) == Err(LengthOverflow)
  {
    var data := LARGEST_LENGTH + rest;
    var bs := data[1..9];
    assert forall i :: 0 <= i < 8 ==> bs[i] == 0xFF;
    AllOnes(bs);
    assert Pow256(8) == U64_BOUND by {
      assert Pow256(2) == 0x1_0000 && Pow256(4) == 0x1_0000_0000;
    }
    OverflowExactly(data);
  }

  lemma {:induction false} AllOnes(bs: Bytes)
    requires forall i :: 0 <= i < |bs| ==> bs[i] == 0xFF
    ensures FromBE(bs) == Pow256(|bs|) - 1
  {
    if bs != [] {
      AllOnes(bs[..|bs| - 1]);
    }
  }

  function DecodeBytes(data: Bytes): (r: Result<(Bytes, Bytes), DecodeError>)
    ensures r.Ok? ==> |r.value.1| < |data| && data[|data| - |r.value.1|..] == r.value.1
  {
    var item := DecodeItem(data);
    if item.Err? then Err(item.error)
    else if item.value.0 then Err(UnexpectedList)
    else Ok((item.value.1, item.value.2))
  }

  predicate IsEncodedAsBytes(rlp: Bytes)
    requires rlp != []
  {
    0xb8 <= rlp[0] <= 0xbf
  }

  // ---------------------------------------------------------------- items round-trip

  lemma LengthRoundTrip(n: nat)
    requires 56 <= n < U64_BOUND
    ensures 1 <= |LengthBytes(n)| <= 8
    ensures StaticLeftPad(LengthBytes(n), 8).Ok?
    ensures FromBE(StaticLeftPad(LengthBytes(n), 8).value) == n
  {
    assert Pow256(8) == U64_BOUND by {
      assert Pow256(2) == 0x1_0000 && Pow256(4) == 0x1_0000_0000;
    }
    MinimalPads(n, 8);
  }

  lemma BytesItemRoundTrip(bs: Bytes, rest: Bytes)
    requires |EncodeBytes(bs)| < U64_BOUND
    ensures DecodeItem(EncodeBytes(bs) + rest) == Ok((false, bs, rest))
  {
    var data := EncodeBytes(bs) + rest;
    if |bs| == 1 && bs[0] < RLP_NULL {
      assert data[..1] == bs && data[1..] == rest;
    } else if |bs| < 56 {
      assert data[1..|bs| + 1] == bs && data[|bs| + 1..] == rest;
    } else {
      LengthRoundTrip(|bs|);
      var l := LengthBytes(|bs|);
      assert data[1..|l| + 1] == l;
      assert data[|l| + 1..|l| + |bs| + 1] == bs;
      assert data[|l| + |bs| + 1..] == rest;
    }
  }

  lemma ListItemRoundTrip(payload: Bytes, rest: Bytes)
    requires |EncodeList(payload)| < U64_BOUND
    ensures DecodeItem(EncodeList(payload) + rest) == Ok((true, payload, rest))
  {
    var data, n := EncodeList(payload) + rest, |payload|;
    if n < 56 {
      assert data[1..n + 1] == payload && data[n + 1..] == rest;
    } else {
      LengthRoundTrip(n);
      var l := LengthBytes(n);
      assert data[1..|l| + 1] == l;
      assert data[|l| + 1..|l| + n + 1] == payload;
      assert data[|l| + n + 1..] == rest;
    }
  }

  // ---------------------------------------------------------------- trees

  /** Any nesting of byte strings and lists. */
  datatype Tree = Leaf(bytes: Bytes) | Node(children: seq<Tree>)

  function EncodeTree(t: Tree): (e: Bytes)
    ensures e != []
    decreases t, 1
  {
    match t
    case Leaf(bytes) => EncodeBytes(bytes)
    case Node(children) => EncodeList(EncodeForest(children))
  }

  function EncodeForest(ts: seq<Tree>): Bytes
    decreases ts, 0
  {
    if ts == [] then [] else EncodeTree(ts[0]) + EncodeForest(ts[1..])
  }

  function DecodeTree(data: Bytes): (r: Result<(Tree, Bytes), DecodeError>)
    ensures r.Ok? ==> |r.value.1| < |data|
    decreases |data|, 0
  {
    var item := DecodeItem(data);
    if item.Err? then Err(item.error)
    else if !item.value.0 then Ok((Leaf(item.value.1), item.value.2))
    else
      var children := DecodeForest(item.value.1);
      if children.Err? then Err(children.error) else Ok((Node(children.value), item.value.2))
  }

  function DecodeForest(data: Bytes): Result<seq<Tree>, DecodeError>
    decreases |data|, 1
  {
    if data == [] then Ok([])
    else
      var head := DecodeTree(data);
      if head.Err? then Err(head.error)
      else
        var tail := DecodeForest(head.value.1);
        if tail.Err? then Err(tail.error) else Ok([head.value.0] + tail.value)
  }

  lemma {:induction false} TreeRoundTrip(t: Tree, rest: Bytes)
    requires |EncodeTree(t)| < U64_BOUND
    ensures DecodeTree(EncodeTree(t) + rest) == Ok((t, rest))
    decreases t, 1
  {
    match t
    case Leaf(bytes) => BytesItemRoundTrip(bytes, rest);
    case Node(children) =>
      ListItemRoundTrip(EncodeForest(children), rest);
      ForestRoundTrip(children);
  }

  lemma {:induction false} ForestRoundTrip(ts: seq<Tree>)
    requires |EncodeForest(ts)| < U64_BOUND
    ensures DecodeForest(EncodeForest(ts)) == Ok(ts)
    decreases ts, 0
  {
    if ts != [] {
      TreeRoundTrip(ts[0], EncodeForest(ts[1..]));
      ForestRoundTrip(ts[1..]);
      assert ts == [ts[0]] + ts[1..];
    }
  }

  /** No encoding is a proper prefix of another one, so encodings can be concatenated and split. */
  lemma EncodingIsPrefixFree(a: Tree, b: Tree)
    requires |EncodeTree(a)| < U64_BOUND && |EncodeTree(b)| < U64_BOUND
    requires EncodeTree(a) <= EncodeTree(b)
    ensures a == b
  {
    var rest := EncodeTree(b)[|EncodeTree(a)|..];
    assert EncodeTree(b) == EncodeTree(a) + rest && EncodeTree(b) + [] == EncodeTree(b);
    TreeRoundTrip(a, rest);
    TreeRoundTrip(b, []);
  }

  /** A stream of encoded trees has one reading. */
  lemma ForestIsInjective(a: seq<Tree>, b: seq<Tree>)
    requires |EncodeForest(a)| < U64_BOUND && EncodeForest(a) == EncodeForest(b)
    ensures a == b
  {
    ForestRoundTrip(a);
    ForestRoundTrip(b);
  }
}
