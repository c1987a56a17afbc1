/** The protobuf reader and writer of tools/capture/ssp_capture.py. */
module Protobuf {
  import opened Wrappers
  import opened Bytes

  // ---- bits ----

  /** `x << k`. */
  function Shl(x: nat, k: nat): nat {
    if k == 0 then x else 2 * Shl(x, k - 1)
  }

  function BitOr(a: nat, b: nat): nat {
    if a == 0 && b == 0 then 0
    else 2 * BitOr(a / 2, b / 2) + if a % 2 == 1 || b % 2 == 1 then 1 else 0
  }

  lemma {:induction false} OrZero(b: nat)
    ensures BitOr(0, b) == b
  {
    if b > 0 {
      OrZero(b / 2);
    }
  }

  /** Or-ing a number below 2^k with a multiple of 2^k adds them. */
  lemma {:induction false} OrIsSum(a: nat, b: nat, k: nat)
    requires a < Shl(1, k)
    ensures BitOr(a, Shl(b, k)) == a + Shl(b, k)
  {
    if k == 0 {
      OrZero(b);
    } else {
      OrIsSum(a / 2, b, k - 1);
    }
  }

  lemma {:induction false} ShlSum(a: nat, b: nat, k: nat)
    ensures Shl(a + b, k) == Shl(a, k) + Shl(b, k)
  {
    if k > 0 {
      ShlSum(a, b, k - 1);
    }
  }

  lemma {:induction false} ShlScale(x: nat, k: nat)
    ensures Shl(128 * x, k) == 128 * Shl(x, k)
  {
    if k > 0 {
      ShlScale(x, k - 1);
    }
  }

  lemma ShlSeven(x: nat, k: nat)
    ensures Shl(x, k + 7) == 128 * Shl(x, k)
  {
    assert Shl(x, k + 7) == 2 * Shl(x, k + 6) == 4 * Shl(x, k + 5) == 8 * Shl(x, k + 4);
    assert Shl(x, k + 4) == 2 * Shl(x, k + 3) == 4 * Shl(x, k + 2) == 8 * Shl(x, k + 1) == 16 * Shl(x, k);
  }

  lemma {:induction false} ShlBound(low: nat, k: nat)
    requires low < 128
    ensures Shl(low, k) <= 127 * Shl(1, k)
  {
    if k > 0 {
      ShlBound(low, k - 1);
    }
  }

  // ---- varints ----

  function Varint(n: nat): (r: bytes)
    ensures |r| > 0
  {
    if n < 128 then [n] else [n % 128 + 128] + Varint(n / 128)
  }

  /** The number seven bits a byte stand for, least significant first. */
  function Base128(digits: bytes): nat {
    if digits == [] then 0 else digits[0] % 128 + 128 * Base128(digits[1..])
  }

  /** An encoding is its number in base 128, least significant digit first, with the high bit on every
      byte but the last. */
  lemma {:induction false} VarintIsBase128(n: nat)
    ensures Base128(Varint(n)) == n
    ensures forall i | 0 <= i < |Varint(n)| :: Varint(n)[i] >= 128 <==> i < |Varint(n)| - 1
  {
    if n < 128 {
      assert Base128([n]) == n % 128 + 128 * Base128([]);
    } else {
      VarintIsBase128(n / 128);
      var rest := Varint(n / 128);
      assert Varint(n)[1..] == rest;
      assert forall i | 0 < i < |Varint(n)| :: Varint(n)[i] == rest[i - 1];
    }
  }

  method EncodeVarint(n: nat) returns (out: bytes)
    ensures out == Varint(n)
  {
    out := [];
    var rest := n;
    while true
      invariant Varint(n) == out + Varint(rest)
      decreases rest
    {
      var b := rest % 128;
      rest := rest / 128;
      if rest != 0 {
        out := out + [b + 128];
      } else {
        return out + [b];
      }
    }
  }

  datatype Number = Number(value: nat, next: nat)

  /** `None` is the index error of running off the end. */
  function ReadVarint(buf: bytes, i: nat): (r: Option<Number>)
    ensures r.Some? ==> i < r.value.next <= |buf|
    decreases |buf| - i
  {
    if i >= |buf| then None
    else if buf[i] < 128 then Some(Number(buf[i], i + 1))
    else
      var rest := ReadVarint(buf, i + 1);
      if rest.None? then None else Some(Number(buf[i] - 128 + 128 * rest.value.value, rest.value.next))
  }

  method ParseVarint(buf: bytes, start: nat) returns (r: Option<Number>)
    ensures r == ReadVarint(buf, start)
  {
    var i: nat, val: nat, shift: nat := start, 0, 0;
    ShiftedByNone(ReadVarint(buf, start));
    while i < |buf|
      invariant val < Shl(1, shift)
      invariant ReadVarint(buf, start) == Shifted(ReadVarint(buf, i), val, shift)
    {
      var b := buf[i];
      VarintStep(buf, i, val, shift);
      i := i + 1;
      val := BitOr(val, Shl(b % 128, shift));
      if b < 128 {
        return Some(Number(val, i));
      }
      shift := shift + 7;
    }
    r := None;
  }

  ghost function Shifted(r: Option<Number>, val: nat, shift: nat): Option<Number> {
    if r.None? then None else Some(Number(val + Shl(r.value.value, shift), r.value.next))
  }

  lemma ShiftedByNone(r: Option<Number>)
    ensures Shifted(r, 0, 0) == r
  {
  }

  /** One more byte: or-ing its low bits in at `shift` keeps the loop's account of the number. */
  lemma VarintStep(buf: bytes, i: nat, val: nat, shift: nat)
    requires i < |buf| && val < Shl(1, shift)
    ensures var or := BitOr(val, Shl(buf[i] % 128, shift));
            && or < Shl(1, shift + 7)
            && Shifted(ReadVarint(buf, i), val, shift)
               == if buf[i] < 128 then Some(Number(or, i + 1)) else Shifted(ReadVarint(buf, i + 1), or, shift + 7)
  {
    var low := buf[i] % 128;
    OrIsSum(val, low, shift);
    ShlSeven(1, shift);
    ShlBound(low, shift);
    var rest := ReadVarint(buf, i + 1);
    if buf[i] >= 128 && rest.Some? {
      ShlSum(low, 128 * rest.value.value, shift);
      ShlScale(rest.value.value, shift);
      ShlSeven(rest.value.value, shift);
    }
  }

  /** Whatever stands before and after, reading at an encoded number gives the number and the place
      just past it. */
  lemma {:induction false} VarintBack(pre: bytes, n: nat, post: bytes)
    ensures ReadVarint(pre + Varint(n) + post, |pre|) == Some(Number(n, |pre| + |Varint(n)|))
    decreases n
  {
    var buf := pre + Varint(n) + post;
    assert buf[|pre|] == Varint(n)[0];
    if n >= 128 {
      VarintBack(pre + [n % 128 + 128], n / 128, post);
      assert buf == pre + [n % 128 + 128] + Varint(n / 128) + post;
    }
  }

  /** The other way round: what was read is the encoding of its value exactly when its last byte is
      not an idle zero. */
  lemma {:induction false} ReencodesIff(buf: bytes, i: nat)
    requires ReadVarint(buf, i).Some?
    ensures var r := ReadVarint(buf, i).value;
            buf[i..r.next] == Varint(r.value) <==> r.next == i + 1 || buf[r.next - 1] != 0
    decreases |buf| - i
  {
    var r := ReadVarint(buf, i).value;
    if buf[i] >= 128 {
      ReencodesIff(buf, i + 1);
      var rest := ReadVarint(buf, i + 1).value;
      ZeroHasNoBits(buf, i + 1);
      assert buf[i..r.next] == [buf[i]] + buf[i + 1..r.next];
      assert r.value / 128 == rest.value && r.value % 128 == buf[i] - 128;
      assert buf[i..r.next][1..] == buf[i + 1..r.next];
      if rest.value > 0 {
        assert Varint(r.value) == [buf[i]] + Varint(rest.value);
        assert Varint(r.value)[1..] == Varint(rest.value);
      }
    }
  }

  lemma {:induction false} ZeroHasNoBits(buf: bytes, i: nat)
    requires ReadVarint(buf, i).Some?
    ensures ReadVarint(buf, i).value.value == 0 ==> buf[ReadVarint(buf, i).value.next - 1] == 0
    decreases |buf| - i
  {
    if buf[i] >= 128 {
      ZeroHasNoBits(buf, i + 1);
    }
  }

  // ---- fields ----

  datatype Value = Num(n: nat) | Data(data: bytes)

  datatype Field = Field(num: nat, wire: nat, value: Value)

  /** How the generator ends. */
  datatype Ending = Finished | IndexError | UnsupportedWire(wire: nat, at: nat)

  /** The fields it yielded first. */
  datatype Fields = Fields(yielded: seq<Field>, ending: Ending)

  function Tagged(num: nat, wire: nat, payload: bytes): bytes {
    Varint(BitOr(Shl(num, 3), wire)) + payload
  }

  function VarintField(num: nat, val: nat): bytes {
    Tagged(num, 0, Varint(val))
  }

  function BytesField(num: nat, val: bytes): bytes {
    Tagged(num, 2, Varint(|val|) + val)
  }

  /** One field's value: the value and the place after it, or how reading it ends. */
  datatype Piece = Piece(value: Value, next: nat) | Broken(ending: Ending)

  function ReadValue(buf: bytes, i: nat, wire: nat): (p: Piece)
    ensures p.Piece? ==> i < p.next
  {
    if wire == 0 then
      var v := ReadVarint(buf, i);
      if v.None? then Broken(IndexError) else Piece(Num(v.value.value), v.value.next)
    else if wire == 2 then
      var v := ReadVarint(buf, i);
      if v.None? then Broken(IndexError)
      else
        var at := v.value.next;
        Piece(Data(Slice(buf, at, at + v.value.value)), at + v.value.value)
    else if wire == 1 then Piece(Data(Slice(buf, i, i + 8)), i + 8)
    else if wire == 5 then Piece(Data(Slice(buf, i, i + 4)), i + 4)
    else Broken(UnsupportedWire(wire, i))
  }

  function ReadFields(buf: bytes, i: nat): Fields
    decreases if i < |buf| then |buf| - i else 0
  {
    if i >= |buf| then Fields([], Finished)
    else
      var tag := ReadVarint(buf, i);
      if tag.None? then Fields([], IndexError)
      else
        var num, wire := tag.value.value / 8, tag.value.value % 8;
        match ReadValue(buf, tag.value.next, wire)
        case Broken(ending) => Fields([], ending)
        case Piece(value, next) =>
          var rest := ReadFields(buf, next);
          Fields([Field(num, wire, value)] + rest.yielded, rest.ending)
  }

  method ParseValue(buf: bytes, start: nat, wire: nat) returns (p: Piece)
    ensures p == ReadValue(buf, start, wire)
  {
    if wire == 0 {
      var v := ParseVarint(buf, start);
      p := if v.None? then Broken(IndexError) else Piece(Num(v.value.value), v.value.next);
    } else if wire == 2 {
      var v := ParseVarint(buf, start);
      if v.None? {
        return Broken(IndexError);
      }
      var i, ln := v.value.next, v.value.value;
      p := Piece(Data(Slice(buf, i, i + ln)), i + ln);
    } else if wire == 1 {
      p := Piece(Data(Slice(buf, start, start + 8)), start + 8);
    } else if wire == 5 {
      p := Piece(Data(Slice(buf, start, start + 4)), start + 4);
    } else {
      p := Broken(UnsupportedWire(wire, start));
    }
  }

  function Following(yielded: seq<Field>, rest: Fields): Fields {
    Fields(yielded + rest.yielded, rest.ending)
  }

  method ParseFields(buf: bytes) returns (r: Fields)
    ensures r == ReadFields(buf, 0)
  {
    var i: nat, yielded: seq<Field> := 0, [];
    while i < |buf|
      invariant ReadFields(buf, 0) == Following(yielded, ReadFields(buf, i))
      decreases if i < |buf| then |buf| - i else 0
    {
      var tag := ParseVarint(buf, i);
      if tag.None? {
        return Fields(yielded, IndexError);
      }
      var num, wire := tag.value.value / 8, tag.value.value % 8;
      var piece := ParseValue(buf, tag.value.next, wire);
      match piece {
        case Broken(ending) =>
          return Fields(yielded, ending);
        case Piece(value, next) =>
          OneField(buf, i, num, wire, tag.value.next, value, next);
          FollowingTwo(yielded, Field(num, wire, value), ReadFields(buf, next));
          yielded, i := yielded + [Field(num, wire, value)], next;
      }
    }
    r := Fields(yielded, Finished);
  }

  lemma OneField(buf: bytes, i: nat, num: nat, wire: nat, at: nat, value: Value, next: nat)
    requires wire < 8 && i < |buf|
    requires ReadVarint(buf, i) == Some(Number(num * 8 + wire, at))
    requires ReadValue(buf, at, wire) == Piece(value, next)
    ensures ReadFields(buf, i) == Following([Field(num, wire, value)], ReadFields(buf, next))
  {
    assert (num * 8 + wire) / 8 == num && (num * 8 + wire) % 8 == wire;
  }

  lemma FollowingTwo(yielded: seq<Field>, f: Field, rest: Fields)
    ensures Following(yielded, Following([f], rest)) == Following(yielded + [f], rest)
  {
    assert yielded + ([f] + rest.yielded) == yielded + [f] + rest.yielded;
  }

  /** The fields a message can hold. */
  predicate WellFormed(f: Field) {
    || (f.wire == 0 && f.value.Num?)
    || (f.wire == 2 && f.value.Data?)
    || (f.wire == 1 && f.value.Data? && |f.value.data| == 8)
    || (f.wire == 5 && f.value.Data? && |f.value.data| == 4)
  }

  function EncodeField(f: Field): (r: bytes)
    requires WellFormed(f)
  {
    match f.value
    case Num(n) => VarintField(f.num, n)
    case Data(data) => if f.wire == 2 then BytesField(f.num, data) else Tagged(f.num, f.wire, data)
  }

  function EncodeFields(fs: seq<Field>): bytes
    requires forall i | 0 <= i < |fs| :: WellFormed(fs[i])
  {
    if fs == [] then [] else EncodeField(fs[0]) + EncodeFields(fs[1..])
  }

  lemma TagBack(pre: bytes, num: nat, wire: nat, post: bytes)
    requires wire < 8
    ensures var tag := Varint(BitOr(Shl(num, 3), wire));
            ReadVarint(pre + tag + post, |pre|) == Some(Number(num * 8 + wire, |pre| + |tag|))
  {
    TagIsSum(num, wire);
    VarintBack(pre, num * 8 + wire, post);
  }

  lemma TagIsSum(num: nat, wire: nat)
    requires wire < 8
    ensures BitOr(Shl(num, 3), wire) == num * 8 + wire
  {
    assert Shl(1, 3) == 2 * Shl(1, 2) == 4 * Shl(1, 1) == 8;
    assert Shl(num, 3) == 2 * Shl(num, 2) == 4 * Shl(num, 1) == 8 * num;
    OrIsSum(wire, num, 3);
    OrCommutes(Shl(num, 3), wire);
  }

  lemma {:induction false} OrCommutes(a: nat, b: nat)
    ensures BitOr(a, b) == BitOr(b, a)
  {
    if a != 0 || b != 0 {
      OrCommutes(a / 2, b / 2);
    }
  }

  function TagOf(f: Field): bytes {
    Varint(BitOr(Shl(f.num, 3), f.wire))
  }

  function PayloadOf(f: Field): bytes
    requires WellFormed(f)
  {
    match f.value
    case Num(n) => Varint(n)
    case Data(data) => if f.wire == 2 then Varint(|data|) + data else data
  }

  lemma FieldInTwo(f: Field)
    requires WellFormed(f)
    ensures EncodeField(f) == TagOf(f) + PayloadOf(f)
  {
  }

  /** The payload of an encoded field reads back, whatever surrounds it. */
  lemma ValueBack(pre: bytes, f: Field, post: bytes)
    requires WellFormed(f)
    ensures ReadValue(pre + PayloadOf(f) + post, |pre|, f.wire) == Piece(f.value, |pre| + |PayloadOf(f)|)
  {
    var buf := pre + PayloadOf(f) + post;
    if f.wire == 0 {
      VarintBack(pre, f.value.n, post);
    } else if f.wire == 2 {
      var data, length := f.value.data, Varint(|f.value.data|);
      assert buf == pre + length + (data + post);
      VarintBack(pre, |data|, data + post);
      assert buf == (pre + length) + data + post;
      SliceMiddle(pre + length, data, post);
    } else {
      SliceMiddle(pre, PayloadOf(f), post);
    }
  }

  lemma Joints(pre: bytes, a: bytes, b: bytes, post: bytes)
    ensures pre + (a + b) + post == pre + a + (b + post)
    ensures pre + (a + b) + post == (pre + a) + b + post
  {
  }

  lemma OneFieldBack(pre: bytes, f: Field, post: bytes)
    requires WellFormed(f)
    ensures var buf := pre + EncodeField(f) + post;
            ReadFields(buf, |pre|) == Following([f], ReadFields(buf, |pre + EncodeField(f)|))
  {
    FieldInTwo(f);
    TagBack(pre, f.num, f.wire, PayloadOf(f) + post);
    ValueBack(pre + TagOf(f), f, post);
    FieldFromParts(pre, TagOf(f), PayloadOf(f), post, f);
  }

  lemma FieldFromParts(pre: bytes, tag: bytes, payload: bytes, post: bytes, f: Field)
    requires f.wire < 8 && tag != []
    requires ReadVarint(pre + tag + (payload + post), |pre|) == Some(Number(f.num * 8 + f.wire, |pre| + |tag|))
    requires ReadValue((pre + tag) + payload + post, |pre + tag|, f.wire) == Piece(f.value, |pre + tag| + |payload|)
    ensures var buf := pre + (tag + payload) + post;
            ReadFields(buf, |pre|) == Following([f], ReadFields(buf, |pre + (tag + payload)|))
  {
    Joints(pre, tag, payload, post);
    OneField(pre + (tag + payload) + post, |pre|, f.num, f.wire, |pre + tag|, f.value, |pre + (tag + payload)|);
  }

  /** Reading any concatenation of encoded fields gives exactly those fields, in order, to the end. */
  lemma {:induction false} FieldsBack(pre: bytes, fs: seq<Field>)
    requires forall i | 0 <= i < |fs| :: WellFormed(fs[i])
    ensures ReadFields(pre + EncodeFields(fs), |pre|) == Fields(fs, Finished)
    decreases |fs|
  {
    if fs != [] {
      var first, post := EncodeField(fs[0]), EncodeFields(fs[1..]);
      assert pre + EncodeFields(fs) == pre + first + post;
      OneFieldBack(pre, fs[0], post);
      FieldsBack(pre + first, fs[1..]);
      assert [fs[0]] + fs[1..] == fs;
    }
  }

  lemma AlienTag(pre: bytes, num: nat, wire: nat, post: bytes)
    requires wire in {3, 4, 6, 7}
    ensures ReadFields(pre + Tagged(num, wire, post), |pre|) ==
              Fields([], UnsupportedWire(wire, |pre + Tagged(num, wire, [])|))
  {
    var tag := Varint(BitOr(Shl(num, 3), wire));
    TagBack(pre, num, wire, post);
    hide Varint, ReadVarint, BitOr, Shl, ReadFields;
    TaggedInTwo(pre, num, wire, post);
    EndsAlien(pre + tag + post, |pre|, num, wire, |pre| + |tag|);
  }

  lemma TaggedInTwo(pre: bytes, num: nat, wire: nat, post: bytes)
    ensures var tag := Varint(BitOr(Shl(num, 3), wire));
            && pre + Tagged(num, wire, post) == pre + tag + post
            && |pre + Tagged(num, wire, [])| == |pre| + |tag| && |tag| > 0
  {
    hide BitOr, Shl;
  }

  lemma EndsAlien(buf: bytes, i: nat, num: nat, wire: nat, at: nat)
    requires wire in {3, 4, 6, 7} && i < |buf| && ReadVarint(buf, i) == Some(Number(num * 8 + wire, at))
    ensures ReadFields(buf, i) == Fields([], UnsupportedWire(wire, at))
  {
    assert (num * 8 + wire) % 8 == wire;
  }

  /** A field of wire type 3, 4, 6 or 7 ends the reading with an error that names the type and the place
      behind its tag, whatever follows; the fields before it have been yielded. */
  lemma {:induction false} AlienWireEnds(pre: bytes, fs: seq<Field>, num: nat, wire: nat, post: bytes)
    requires (forall i | 0 <= i < |fs| :: WellFormed(fs[i])) && wire in {3, 4, 6, 7}
    ensures ReadFields(pre + EncodeFields(fs) + Tagged(num, wire, post), |pre|) ==
              Fields(fs, UnsupportedWire(wire, |pre + EncodeFields(fs) + Tagged(num, wire, [])|))
    decreases |fs|
  {
    hide Tagged, ReadFields;
    if fs == [] {
      assert pre + EncodeFields(fs) == pre;
      AlienTag(pre, num, wire, post);
    } else {
      var first, more := EncodeField(fs[0]), EncodeFields(fs[1..]);
      var alien := Tagged(num, wire, post);
      assert EncodeFields(fs) == first + more;
      hide EncodeFields, EncodeField;
      assert pre + EncodeFields(fs) + alien == pre + first + (more + alien) == (pre + first) + more + alien;
      assert pre + EncodeFields(fs) == (pre + first) + more;
      OneFieldBack(pre, fs[0], more + alien);
      AlienWireEnds(pre + first, fs[1..], num, wire, post);
      assert [fs[0]] + fs[1..] == fs;
    }
  }

  /** The tag in front of a field is eight times its number plus its wire type. */
  lemma TagInFront(f: Field)
    requires WellFormed(f)
    ensures TagOf(f) <= EncodeField(f) && Base128(TagOf(f)) == 8 * f.num + f.wire
    ensures f.num < 16 ==> EncodeField(f)[0] == 8 * f.num + f.wire
  {
    hide Varint, BitOr, Shl, Base128, EncodeField;
    FieldInTwo(f);
    TagIsSum(f.num, f.wire);
    VarintIsBase128(8 * f.num + f.wire);
    OneByteVarint(8 * f.num + f.wire);
  }

  lemma OneByteVarint(n: nat)
    ensures n < 128 ==> Varint(n) == [n]
  {
  }

  // ---- messages cut short ----

  /** What a payload begins with and cannot be read without: a number itself, the length of bytes of
      any length, nothing for eight or four bytes. */
  function Lead(f: Field): bytes {
    match f.value
    case Num(n) => Varint(n)
    case Data(data) => if f.wire == 2 then Varint(|data|) else []
  }

  function Head(f: Field): bytes {
    TagOf(f) + Lead(f)
  }

  function Body(f: Field): bytes {
    match f.value
    case Num(_) => []
    case Data(data) => data
  }

  lemma HeadAndBody(f: Field)
    requires WellFormed(f)
    ensures EncodeField(f) == Head(f) + Body(f)
  {
  }

  /** What is yielded of a field of which `left` bytes of the body remain. */
  function Shortened(f: Field, left: nat): Field
    requires left <= |Body(f)|
  {
    f.(value := Data(Body(f)[..left]))
  }

  /** Byte `n` of the message is the middle of some field's head. */
  predicate InHead(fs: seq<Field>, n: nat)
    requires forall i | 0 <= i < |fs| :: WellFormed(fs[i])
  {
    fs != [] &&
    var size := |EncodeField(fs[0])|;
    if n < size then 0 < n < |Head(fs[0])| else InHead(fs[1..], n - size)
  }

  /** The fields before byte `n`, and the start of the one it cuts if its head is whole. */
  function Remaining(fs: seq<Field>, n: nat): seq<Field>
    requires forall i | 0 <= i < |fs| :: WellFormed(fs[i])
  {
    if fs == [] || n == 0 then []
    else
      var f, size := fs[0], |EncodeField(fs[0])|;
      if n >= size then [f] + Remaining(fs[1..], n - size)
      else if n < |Head(f)| then []
      else
        HeadAndBody(f);
        [Shortened(f, n - |Head(f)|)]
  }

  lemma {:induction false} VarintCut(pre: bytes, m: nat, part: bytes)
    requires part < Varint(m)
    ensures ReadVarint(pre + part, |pre|) == None
    decreases m
  {
    if part != [] {
      assert part[0] == Varint(m)[0];
      assert m >= 128;
      assert part[1..] < Varint(m / 128);
      assert pre + part == (pre + [part[0]]) + part[1..];
      VarintCut(pre + [part[0]], m / 128, part[1..]);
      assert (pre + part)[|pre|] == part[0];
    }
  }

  lemma EndsInside(buf: bytes, i: nat, num: nat, wire: nat, at: nat)
    requires wire < 8 && i < |buf|
    requires ReadVarint(buf, i) == Some(Number(num * 8 + wire, at)) && ReadValue(buf, at, wire) == Broken(IndexError)
    ensures ReadFields(buf, i) == Fields([], IndexError)
  {
    assert (num * 8 + wire) % 8 == wire;
  }

  lemma EndsShort(buf: bytes, i: nat, num: nat, wire: nat, at: nat, value: Value, next: nat)
    requires wire < 8 && i < |buf| <= next
    requires ReadVarint(buf, i) == Some(Number(num * 8 + wire, at)) && ReadValue(buf, at, wire) == Piece(value, next)
    ensures ReadFields(buf, i) == Fields([Field(num, wire, value)], Finished)
  {
    OneField(buf, i, num, wire, at, value, next);
    assert ReadFields(buf, next) == Fields([], Finished);
  }

  lemma CutValue(pre: bytes, data: bytes, rest: bytes)
    requires rest < data
    ensures var length := Varint(|data|);
            ReadValue(pre + length + rest, |pre|, 2) == Piece(Data(rest), |pre| + |length| + |data|)
  {
    var length := Varint(|data|);
    VarintBack(pre, |data|, rest);
    assert Slice(pre + length + rest, |pre + length|, |pre + length| + |data|) == rest;
  }

  lemma CutFixed(pre: bytes, rest: bytes, wire: nat)
    requires (wire == 1 && |rest| < 8) || (wire == 5 && |rest| < 4)
    ensures ReadValue(pre + rest, |pre|, wire) == Piece(Data(rest), |pre| + if wire == 1 then 8 else 4)
  {
    assert Slice(pre + rest, |pre|, |pre| + if wire == 1 then 8 else 4) == rest;
  }

  /** The payload of field `f` cut to `rest`, read behind a complete tag. */
  lemma CutPayload(pre: bytes, f: Field, rest: bytes)
    requires WellFormed(f) && rest < PayloadOf(f)
    ensures if |rest| < |Lead(f)| then ReadValue(pre + rest, |pre|, f.wire) == Broken(IndexError)
            else
              && rest[|Lead(f)|..] == Body(f)[..|rest| - |Lead(f)|]
              && ReadValue(pre + rest, |pre|, f.wire) == Piece(Data(rest[|Lead(f)|..]), |pre| + |PayloadOf(f)|)
  {
    hide ReadVarint, ReadValue, Varint, Slice;
    if f.wire == 0 {
      NoVarintNoValue(pre + rest, |pre|, 0);
      VarintCut(pre, f.value.n, rest);
    } else if f.wire == 2 {
      NoVarintNoValue(pre + rest, |pre|, 2);
      CutLong(pre, f.value.data, rest);
    } else {
      CutFixed(pre, rest, f.wire);
      assert rest == f.value.data[..|rest|];
    }
  }

  lemma NoVarintNoValue(buf: bytes, i: nat, wire: nat)
    requires wire == 0 || wire == 2
    ensures ReadVarint(buf, i).None? ==> ReadValue(buf, i, wire) == Broken(IndexError)
  {
  }

  lemma CutLong(pre: bytes, data: bytes, rest: bytes)
    requires rest < Varint(|data|) + data
    ensures var length := Varint(|data|);
            if |rest| < |length| then ReadVarint(pre + rest, |pre|) == None
            else
              && rest[|length|..] == data[..|rest| - |length|]
              && ReadValue(pre + rest, |pre|, 2) == Piece(Data(rest[|length|..]), |pre| + |length| + |data|)
  {
    hide ReadVarint, ReadValue, Slice;
    var length := Varint(|data|);
    hide Varint;
    if |rest| < |length| {
      assert rest == (length + data)[..|rest|] == length[..|rest|];
      VarintCut(pre, |data|, rest);
    } else {
      assert rest == length + rest[|length|..] && rest[|length|..] == data[..|rest| - |length|];
      CutValue(pre, data, rest[|length|..]);
      assert pre + rest == pre + length + rest[|length|..];
    }
  }

  /** A field whose tag ends the bytes `base`, cut in what follows. */
  lemma CutBehindTag(base: bytes, i: nat, f: Field, rest: bytes)
    requires WellFormed(f) && rest < PayloadOf(f) && i < |base|
    requires ReadVarint(base + rest, i) == Some(Number(f.num * 8 + f.wire, |base|))
    ensures ReadFields(base + rest, i) ==
              if |rest| < |Lead(f)| then Fields([], IndexError)
              else Fields([Shortened(f, |rest| - |Lead(f)|)], Finished)
  {
    hide ReadFields, ReadVarint, ReadValue, Varint, Lead, Body, PayloadOf, Slice;
    CutPayload(base, f, rest);
    if |rest| < |Lead(f)| {
      EndsInside(base + rest, i, f.num, f.wire, |base|);
    } else {
      EndsShort(base + rest, i, f.num, f.wire, |base|, Data(rest[|Lead(f)|..]), |base| + |PayloadOf(f)|);
    }
  }

  lemma CutInTag(pre: bytes, f: Field, part: bytes)
    requires WellFormed(f) && [] < part < TagOf(f)
    ensures ReadFields(pre + part, |pre|) == Fields([], IndexError)
  {
    hide BitOr, Shl, Varint;
    TagIsSum(f.num, f.wire);
    VarintCut(pre, f.num * 8 + f.wire, part);
  }

  lemma CutInTwo(pre: bytes, a: bytes, b: bytes, part: bytes)
    requires part < a + b
    ensures if |part| < |a| then part < a
            else part == a + part[|a|..] && part[|a|..] < b && pre + part == pre + a + part[|a|..]
  {
    if |part| < |a| {
      assert part == (a + b)[..|part|] == a[..|part|];
    } else {
      assert part == (a + b)[..|part|];
      assert part[|a|..] == b[..|part| - |a|];
    }
  }

  lemma CutField(pre: bytes, f: Field, part: bytes)
    requires WellFormed(f) && [] < part < EncodeField(f)
    ensures ReadFields(pre + part, |pre|) ==
              if |part| < |Head(f)| then Fields([], IndexError)
              else (HeadAndBody(f); Fields([Shortened(f, |part| - |Head(f)|)], Finished))
  {
    hide ReadFields, ReadVarint, BitOr, Shl, Varint, EncodeField, PayloadOf, TagOf, Lead, Body;
    FieldInTwo(f);
    HeadAndBody(f);
    CutInTwo(pre, TagOf(f), PayloadOf(f), part);
    if |part| < |TagOf(f)| {
      CutInTag(pre, f, part);
    } else {
      var rest := part[|TagOf(f)|..];
      TagThere(pre, f, rest);
      CutBehindTag(pre + TagOf(f), |pre|, f, rest);
    }
  }

  lemma TagThere(pre: bytes, f: Field, rest: bytes)
    requires f.wire < 8
    ensures ReadVarint(pre + TagOf(f) + rest, |pre|) == Some(Number(f.num * 8 + f.wire, |pre + TagOf(f)|))
    ensures TagOf(f) != []
  {
    TagBack(pre, f.num, f.wire, rest);
  }

  lemma CutSum(pre: bytes, a: bytes, b: bytes, n: nat)
    requires n <= |a + b|
    ensures if n < |a| then (a + b)[..n] == a[..n] else pre + (a + b)[..n] == pre + a + b[..n - |a|]
  {
  }

  lemma NothingToRead(pre: bytes)
    ensures ReadFields(pre, |pre|) == Fields([], Finished)
  {
  }

  /** A message cut anywhere, exactly: it parses to its end, without an error, if and only if the cut is
      not in the middle of a field's head (its tag, its number, its length); otherwise the error is
      the index error.  The fields yielded are those before the cut, and a field cut in its bytes with
      the bytes that are left: slices clamp, so the shorter value goes unnoticed. */
  lemma {:induction false} CutMessage(pre: bytes, fs: seq<Field>, n: nat)
    requires forall i | 0 <= i < |fs| :: WellFormed(fs[i])
    requires n <= |EncodeFields(fs)|
    ensures var r := ReadFields(pre + EncodeFields(fs)[..n], |pre|);
            && (r.ending == Finished <==> !InHead(fs, n))
            && (r.ending == IndexError <==> InHead(fs, n))
            && r.yielded == Remaining(fs, n)
    decreases |fs|
  {
    assert fs != [] ==> |EncodeField(fs[0])| > 0;
    hide ReadFields, EncodeField, Head, Body;
    if fs == [] || n == 0 {
      assert pre + EncodeFields(fs)[..n] == pre;
      NothingToRead(pre);
    } else {
      var first, post := EncodeField(fs[0]), EncodeFields(fs[1..]);
      assert EncodeFields(fs) == first + post;
      hide EncodeFields, WellFormed;
      CutSum(pre, first, post, n);
      if n < |first| {
        CutField(pre, fs[0], first[..n]);
      } else {
        OneFieldBack(pre, fs[0], post[..n - |first|]);
        CutMessage(pre + first, fs[1..], n - |first|);
      }
    }
  }

  lemma HeadAndRest(num: nat, data: bytes, rest: bytes)
    requires rest < data
    ensures var f := Field(num, 2, Data(data));
            var part := Tagged(num, 2, Varint(|data|) + rest);
            && part == Head(f) + rest && [] < part < EncodeField(f)
            && |part| - |Head(f)| == |rest| && Body(f)[..|rest|] == rest && [] + part == part
  {
    hide Varint, BitOr, Shl;
    var f := Field(num, 2, Data(data));
    assert TagOf(f) + (Varint(|data|) + rest) == TagOf(f) + Varint(|data|) + rest;
    HeadAndBody(f);
  }

  /** In particular a message of one length-delimited field may lose any part of its payload. */
  lemma CutPayloadPasses(num: nat, data: bytes, rest: bytes)
    requires rest < data
    ensures ReadFields(Tagged(num, 2, Varint(|data|) + rest), 0) == Fields([Field(num, 2, Data(rest))], Finished)
  {
    hide ReadFields, Tagged, Varint, Head, EncodeField, Body;
    HeadAndRest(num, data, rest);
    CutField([], Field(num, 2, Data(data)), Tagged(num, 2, Varint(|data|) + rest));
  }
}
