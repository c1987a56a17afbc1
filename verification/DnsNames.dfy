/** DNS names and messages of the mDNS browser (tools/capture/ssp_mdns.py); RFC 1035, sections
    3.1, 4.1.2 and 4.1.4.  Names are taken as their UTF-8 bytes. */
module DnsNames {
  import opened Wrappers
  import opened Bytes
  import opened Separated

  const DOT: byte := 46

  datatype Error =
    | ValueError      // a label too long for one length byte
    | IndexError      // reading a byte past the end
    | StructError     // unpacking from too few bytes
    | RecursionError  // pointers nested beyond the interpreter's depth

  function RStrip(name: bytes): (r: bytes)
    ensures r <= name && (r == [] || r[|r| - 1] != DOT)
  {
    if name != [] && name[|name| - 1] == DOT then RStrip(name[..|name| - 1]) else name
  }

  function LabelsOf(name: bytes): seq<bytes> {
    Split(RStrip(name), DOT)
  }

  /** Lengths one byte can hold. */
  predicate Short(ls: seq<bytes>) {
    forall i | 0 <= i < |ls| :: |ls[i]| <= 255
  }

  /** Every label behind its length, then what follows. */
  function LabelsThen(ls: seq<bytes>, post: bytes): (r: bytes)
    requires Short(ls)
    ensures |r| == Size(ls) + |post|
  {
    if ls == [] then post else [|ls[0]|] + ls[0] + LabelsThen(ls[1..], post)
  }

  function Size(ls: seq<bytes>): nat {
    if ls == [] then 0 else 1 + |ls[0]| + Size(ls[1..])
  }

  function NameBytes(name: bytes): Result<bytes, Error> {
    if Short(LabelsOf(name)) then Ok(LabelsThen(LabelsOf(name), [0])) else Err(ValueError)
  }

  method EncodeName(name: bytes) returns (r: Result<bytes, Error>)
    ensures r == NameBytes(name)
  {
    var out: bytes, parts := [], LabelsOf(name);
    for i := 0 to |parts|
      invariant Short(parts[..i])
      invariant Short(parts) ==> LabelsThen(parts, [0]) == out + LabelsThen(parts[i..], [0])
    {
      assert parts[i..][1..] == parts[i + 1..];
      if |parts[i]| > 255 {
        return Err(ValueError);
      }
      if Short(parts[i..]) {
        OutStep(out, parts[i..]);
      }
      out := out + ([|parts[i]|] + parts[i]);
    }
    assert parts[..|parts|] == parts;
    r := Ok(out + [0]);
  }

  lemma OutStep(out: bytes, ls: seq<bytes>)
    requires ls != [] && Short(ls)
    ensures out + LabelsThen(ls, [0]) == out + ([|ls[0]|] + ls[0]) + LabelsThen(ls[1..], [0])
  {
  }

  // ---- parsing ----

  /** The labels and the offset after the name. */
  datatype Parsed = Parsed(labels: seq<bytes>, next: nat)

  /** A length byte with both top bits set starts a pointer. */
  predicate IsPointer(b: byte) {
    b >= 0xC0
  }

  function Target(hi: byte, lo: byte): nat {
    (hi * 256 + lo) % 0x4000
  }

  /** `depth` is how many more calls the interpreter allows. */
  function ReadLabels(buf: bytes, off: nat, depth: nat): Result<Parsed, Error>
    decreases depth, if off <= |buf| then |buf| - off else 0
  {
    if off >= |buf| then Err(IndexError)
    else if buf[off] == 0 then Ok(Parsed([], off + 1))
    else if IsPointer(buf[off]) then
      if off + 2 > |buf| then Err(StructError)
      else if depth == 0 then Err(RecursionError)
      else
        match ReadLabels(buf, Target(buf[off], buf[off + 1]), depth - 1)
        case Err(e) => Err(e)
        case Ok(there) => Ok(Parsed([Join(there.labels, DOT)], off + 2))
    else
      InFront(Slice(buf, off + 1, off + 1 + buf[off]), ReadLabels(buf, off + 1 + buf[off], depth))
  }

  function InFront(part: bytes, more: Result<Parsed, Error>): Result<Parsed, Error> {
    if more.Err? then more else Ok(Parsed([part] + more.value.labels, more.value.next))
  }

  function ReadName(buf: bytes, off: nat, depth: nat): Result<(bytes, nat), Error> {
    match ReadLabels(buf, off, depth)
    case Err(e) => Err(e)
    case Ok(p) => Ok((Join(p.labels, DOT), p.next))
  }

  method ParseName(buf: bytes, start: nat, depth: nat) returns (r: Result<(bytes, nat), Error>)
    ensures r == ReadName(buf, start, depth)
    decreases depth
  {
    hide Join, Slice, Target;
    var off: nat, labels: seq<bytes> := start, [];
    AllAfterNone(ReadLabels(buf, start, depth));
    while true
      invariant ReadLabels(buf, start, depth) == AllAfter(labels, ReadLabels(buf, off, depth))
      decreases if off <= |buf| then |buf| - off else 0
    {
      if off >= |buf| {
        return Err(IndexError);
      }
      var b := buf[off];
      if b == 0 {
        AllAfterLast(labels, [], off + 1);
        off := off + 1;
        break;
      }
      if IsPointer(b) {
        if off + 2 > |buf| {
          return Err(StructError);
        }
        if depth == 0 {
          return Err(RecursionError);
        }
        var there := ParseName(buf, Target(b, buf[off + 1]), depth - 1);
        if there.Err? {
          return Err(there.error);
        }
        AllAfterLast(labels, [there.value.0], off + 2);
        labels := labels + [there.value.0];
        off := off + 2;
        break;
      }
      off := off + 1;
      AllAfterOne(labels, Slice(buf, off, off + b), ReadLabels(buf, off + b, depth));
      labels := labels + [Slice(buf, off, off + b)];
      off := off + b;
    }
    r := Ok((Join(labels, DOT), off));
  }

  lemma AllAfterLast(ls: seq<bytes>, last: seq<bytes>, next: nat)
    ensures AllAfter(ls, Ok(Parsed(last, next))) == Ok(Parsed(ls + last, next))
    ensures ls + [] == ls
  {
  }

  ghost function AllAfter(ls: seq<bytes>, more: Result<Parsed, Error>): Result<Parsed, Error> {
    if more.Err? then more else Ok(Parsed(ls + more.value.labels, more.value.next))
  }

  lemma AllAfterNone(more: Result<Parsed, Error>)
    ensures AllAfter([], more) == more
  {
    if more.Ok? {
      assert [] + more.value.labels == more.value.labels;
    }
  }

  lemma AllAfterOne(ls: seq<bytes>, part: bytes, more: Result<Parsed, Error>)
    ensures AllAfter(ls, InFront(part, more)) == AllAfter(ls + [part], more)
  {
    if more.Ok? {
      assert ls + ([part] + more.value.labels) == ls + [part] + more.value.labels;
    }
  }

  // ---- names read back ----

  /** Lengths the parser takes for labels. */
  predicate Plain(part: bytes) {
    1 <= |part| < 0xC0
  }

  ghost predicate AllPlain(ls: seq<bytes>) {
    forall i | 0 <= i < |ls| :: Plain(ls[i])
  }

  /** From `off` on the buffer holds `rest`. */
  ghost predicate At(buf: bytes, off: nat, rest: bytes) {
    off <= |buf| && buf[off..] == rest
  }

  /** The labels stand at `off`, each behind its length. */
  ghost predicate Stand(buf: bytes, off: nat, ls: seq<bytes>)
    decreases |ls|
  {
    ls == [] ||
    (off < |buf| && buf[off] == |ls[0]| && Slice(buf, off + 1, off + 1 + |ls[0]|) == ls[0]
     && Stand(buf, off + 1 + |ls[0]|, ls[1..]))
  }

  lemma AtParts(buf: bytes, off: nat, n: byte, part: bytes, rest: bytes)
    requires At(buf, off, [n] + part + rest)
    ensures off < |buf| && buf[off] == n
    ensures Slice(buf, off + 1, off + 1 + |part|) == part
    ensures At(buf, off + 1 + |part|, rest)
  {
    var s := buf[off..];
    assert buf[off] == s[0];
    assert buf[off + 1..off + 1 + |part|] == s[1..1 + |part|] == part;
    assert buf[off + 1 + |part|..] == s[1 + |part|..] == rest;
  }

  lemma {:induction false} TheyStand(buf: bytes, off: nat, ls: seq<bytes>, post: bytes)
    requires Short(ls) && At(buf, off, LabelsThen(ls, post))
    ensures Stand(buf, off, ls) && At(buf, off + Size(ls), post)
    decreases |ls|
  {
    hide Slice;
    if ls != [] {
      AtParts(buf, off, |ls[0]|, ls[0], LabelsThen(ls[1..], post));
      TheyStand(buf, off + 1 + |ls[0]|, ls[1..], post);
    }
  }

  /** Plain labels are read one by one, up to whatever comes after them. */
  lemma {:induction false} LabelsBack(buf: bytes, off: nat, ls: seq<bytes>, depth: nat)
    requires AllPlain(ls) && Stand(buf, off, ls)
    ensures ReadLabels(buf, off, depth) == AllAfter(ls, ReadLabels(buf, off + Size(ls), depth))
    decreases |ls|
  {
    hide Join, Slice, Target;
    if ls == [] {
      AllAfterNone(ReadLabels(buf, off, depth));
    } else {
      var on := off + 1 + |ls[0]|;
      LabelsBack(buf, on, ls[1..], depth);
      assert on + Size(ls[1..]) == off + Size(ls);
      FirstThenRest(ls, ReadLabels(buf, off, depth), ReadLabels(buf, on, depth), ReadLabels(buf, off + Size(ls), depth));
    }
  }

  lemma FirstThenRest(ls: seq<bytes>, all: Result<Parsed, Error>, most: Result<Parsed, Error>, more: Result<Parsed, Error>)
    requires ls != [] && all == InFront(ls[0], most) && most == AllAfter(ls[1..], more)
    ensures all == AllAfter(ls, more)
  {
    if more.Ok? {
      assert ls + more.value.labels == [ls[0]] + (ls[1..] + more.value.labels);
    }
  }

  lemma EndsThere(buf: bytes, off: nat, ls: seq<bytes>, depth: nat)
    requires AllPlain(ls) && Stand(buf, off, ls)
    requires off + Size(ls) < |buf| && buf[off + Size(ls)] == 0
    ensures ReadName(buf, off, depth) == Ok((Join(ls, DOT), off + Size(ls) + 1))
  {
    hide Join, Slice, Target;
    LabelsBack(buf, off, ls, depth);
    AllAfterLast(ls, [], off + Size(ls) + 1);
  }

  /** A label of no bytes ends the name early; one of 192 or more is taken for a pointer.  Either way
      the parser does not stop at the end of the encoded name. */
  lemma {:induction false} StopsShort(buf: bytes, off: nat, ls: seq<bytes>, depth: nat)
    requires !AllPlain(ls) && Stand(buf, off, ls)
    ensures ReadLabels(buf, off, depth).Ok? ==> ReadLabels(buf, off, depth).value.next < off + Size(ls) + 1
    decreases |ls|
  {
    hide Slice;
    hide Join;
    if Plain(ls[0]) {
      StopsShort(buf, off + 1 + |ls[0]|, ls[1..], depth);
    }
  }

  lemma {:induction false} ThenAppend(ls: seq<bytes>, a: bytes, b: bytes)
    requires Short(ls)
    ensures LabelsThen(ls, a) + b == LabelsThen(ls, a + b)
  {
    if ls != [] {
      ThenAppend(ls[1..], a, b);
      assert [|ls[0]|] + ls[0] + LabelsThen(ls[1..], a) + b == [|ls[0]|] + ls[0] + (LabelsThen(ls[1..], a) + b);
    }
  }

  /** Wherever an encoded name stands and whatever follows it, parsing it stops just past it exactly
      when every label has 1 to 191 bytes, which covers the 1 to 63 the standard allows; it then
      returns the name without trailing dots. */
  lemma NameBackIff(buf: bytes, off: nat, name: bytes, post: bytes, depth: nat)
    requires NameBytes(name).Ok? && At(buf, off, NameBytes(name).value + post)
    ensures (ReadName(buf, off, depth).Ok?
             && ReadName(buf, off, depth).value.1 == off + |NameBytes(name).value|)
            <==> AllPlain(LabelsOf(name))
    ensures AllPlain(LabelsOf(name)) ==>
              ReadName(buf, off, depth) == Ok((RStrip(name), off + |NameBytes(name).value|))
  {
    hide ReadLabels;
    var ls := LabelsOf(name);
    ThenAppend(ls, [0], post);
    TheyStand(buf, off, ls, [0] + post);
    if AllPlain(ls) {
      assert buf[off + Size(ls)] == buf[off + Size(ls)..][0];
      EndsThere(buf, off, ls, depth);
      JoinSplit(RStrip(name), DOT);
    } else {
      StopsShort(buf, off, ls, depth);
    }
  }

  // ---- compression ----

  /** The two bytes of a pointer to `target` stand at `off`. */
  predicate PointsTo(buf: bytes, off: nat, target: nat) {
    target < 0x4000 && off + 2 <= |buf| && buf[off] == 0xC0 + target / 256 && buf[off + 1] == target % 256
  }

  lemma PointerBack(buf: bytes, off: nat, target: nat, depth: nat)
    requires PointsTo(buf, off, target) && ReadName(buf, target, depth).Ok?
    ensures ReadLabels(buf, off, depth + 1) == Ok(Parsed([ReadName(buf, target, depth).value.0], off + 2))
  {
    hide Join;
    assert Target(buf[off], buf[off + 1]) == target;
  }

  lemma JoinTail(ls: seq<bytes>, tail: seq<bytes>)
    requires tail != []
    ensures Join(ls + [Join(tail, DOT)], DOT) == Join(ls + tail, DOT)
  {
    if ls == [] {
      assert ls + [Join(tail, DOT)] == [Join(tail, DOT)] && ls + tail == tail;
    } else {
      JoinBelow(ls, tail, DOT);
      JoinBelow(ls, [Join(tail, DOT)], DOT);
    }
  }

  lemma PointerLast(ls: seq<bytes>, tail: seq<bytes>, all: Result<Parsed, Error>, next: nat)
    requires tail != [] && all == AllAfter(ls, Ok(Parsed([Join(tail, DOT)], next)))
    ensures all.Ok? && Join(all.value.labels, DOT) == Join(ls + tail, DOT) && all.value.next == next
  {
    JoinTail(ls, tail);
  }

  /** Labels followed by a pointer parse to those labels and the name at the target, whether that is
      stored whole or itself ends in a pointer. */
  lemma CompressedBack(buf: bytes, off: nat, ls: seq<bytes>, tail: seq<bytes>, target: nat, depth: nat)
    requires AllPlain(ls) && tail != []
    requires Stand(buf, off, ls) && PointsTo(buf, off + Size(ls), target)
    requires ReadName(buf, target, depth).Ok? && ReadName(buf, target, depth).value.0 == Join(tail, DOT)
    ensures ReadName(buf, off, depth + 1) == Ok((Join(ls + tail, DOT), off + Size(ls) + 2))
  {
    hide ReadLabels;
    LabelsBack(buf, off, ls, depth + 1);
    PointerBack(buf, off + Size(ls), target, depth);
    PointerLast(ls, tail, ReadLabels(buf, off, depth + 1), off + Size(ls) + 2);
  }

  /** Labels and the terminating zero. */
  ghost predicate StandWhole(buf: bytes, off: nat, ls: seq<bytes>) {
    Stand(buf, off, ls) && off + Size(ls) < |buf| && buf[off + Size(ls)] == 0
  }

  /** So a name whose non-empty tail is replaced by a pointer to a copy of that tail parses to the
      same name as the name stored whole. */
  lemma CompressionKeepsName(
      buf: bytes, whole: nat, off: nat, ls: seq<bytes>, tail: seq<bytes>, target: nat, depth: nat)
    requires AllPlain(ls) && AllPlain(tail) && tail != []
    requires StandWhole(buf, whole, ls + tail) && StandWhole(buf, target, tail)
    requires Stand(buf, off, ls) && PointsTo(buf, off + Size(ls), target)
    ensures ReadName(buf, off, depth + 1).Ok? && ReadName(buf, whole, depth + 1).Ok?
    ensures ReadName(buf, off, depth + 1).value.0 == ReadName(buf, whole, depth + 1).value.0
  {
    hide ReadLabels, Join, Size, Stand;
    EndsThere(buf, target, tail, depth);
    EndsThere(buf, whole, ls + tail, depth + 1);
    CompressedBack(buf, off, ls, tail, target, depth);
  }

  /** An empty tail is different: pointing at the root behind some labels adds a trailing dot. */
  lemma PointerToRoot(buf: bytes, off: nat, ls: seq<bytes>, target: nat, depth: nat)
    requires AllPlain(ls) && ls != [] && target < |buf| && buf[target] == 0
    requires Stand(buf, off, ls) && PointsTo(buf, off + Size(ls), target)
    ensures ReadName(buf, off, depth + 1) == Ok((Join(ls, DOT) + [DOT], off + Size(ls) + 2))
  {
    hide ReadLabels;
    EndsThere(buf, target, [], depth);
    LabelsBack(buf, off, ls, depth + 1);
    PointerBack(buf, off + Size(ls), target, depth);
    AllAfterLast(ls, [[]], off + Size(ls) + 2);
    JoinBelow(ls, [[]], DOT);
    assert Join([[]], DOT) == [] && Join(ls, DOT) + [DOT] + [] == Join(ls, DOT) + [DOT];
  }

  /** Compression, exactly: a tail replaced by a pointer to a copy of it keeps the name if and only if
      the tail is not empty or no label precedes the pointer. */
  lemma PointerKeepsNameIff(
      buf: bytes, whole: nat, off: nat, ls: seq<bytes>, tail: seq<bytes>, target: nat, depth: nat)
    requires AllPlain(ls) && AllPlain(tail)
    requires StandWhole(buf, whole, ls + tail) && StandWhole(buf, target, tail)
    requires Stand(buf, off, ls) && PointsTo(buf, off + Size(ls), target)
    ensures ReadName(buf, off, depth + 1).Ok? && ReadName(buf, whole, depth + 1).Ok?
    ensures ReadName(buf, off, depth + 1).value.0 == ReadName(buf, whole, depth + 1).value.0
            <==> tail != [] || ls == []
  {
    hide ReadLabels, Slice, Target;
    if tail != [] {
      CompressionKeepsName(buf, whole, off, ls, tail, target, depth);
    } else {
      assert ls + tail == ls;
      EndsThere(buf, whole, ls, depth + 1);
      if ls != [] {
        PointerToRoot(buf, off, ls, target, depth);
      } else {
        EndsThere(buf, target, [], depth);
        PointerBack(buf, off, target, depth);
        assert ReadName(buf, off, depth + 1) == Ok((Join([[]], DOT), off + 2));
      }
    }
  }

  // ---- messages ----

  datatype Question = Question(name: bytes, qtype: nat, qclass: nat)

  datatype Record = Record(name: bytes, rtype: nat, rclass: nat, ttl: nat, rdata: bytes, rdataOff: nat)

  datatype Packet = Packet(flags: nat, qs: seq<Question>, rrs: seq<Record>)

  function U16(n: nat): bytes
    requires n < 0x1_0000
  {
    BigEndian(n, 2)
  }

  function MakeQuery(name: bytes, qtype: nat): Result<bytes, Error> {
    if NameBytes(name).Err? then Err(NameBytes(name).error)
    else if qtype >= 0x1_0000 then Err(StructError)
    else Ok(U16(0) + U16(0) + U16(1) + U16(0) + U16(0) + U16(0) + (NameBytes(name).value + (U16(qtype) + U16(1))))
  }

  /** The unsigned number in `width` bytes at `off`. */
  function Number(buf: bytes, off: nat, width: nat): nat {
    FromBigEndian(Slice(buf, off, off + width))
  }

  function ReadQuestion(buf: bytes, off: nat, depth: nat): Result<(Question, nat), Error> {
    match ReadName(buf, off, depth)
    case Err(e) => Err(e)
    case Ok((name, at)) =>
      if at + 4 > |buf| then Err(StructError)
      else Ok((Question(name, Number(buf, at, 2), Number(buf, at + 2, 2)), at + 4))
  }

  function ReadQuestions(buf: bytes, off: nat, n: nat, depth: nat): Result<(seq<Question>, nat), Error> {
    if n == 0 then Ok(([], off))
    else
      match ReadQuestions(buf, off, n - 1, depth)
      case Err(e) => Err(e)
      case Ok((qs, at)) =>
        match ReadQuestion(buf, at, depth)
        case Err(e) => Err(e)
        case Ok((q, next)) => Ok((qs + [q], next))
  }

  /** The ten fixed bytes after a record's name and its data, which the slice may cut short. */
  function RecordAt(buf: bytes, name: bytes, at: nat): Result<(Record, nat), Error> {
    if at + 10 > |buf| then Err(StructError)
    else
      var end := at + 10 + Number(buf, at + 8, 2);
      Ok((Record(name, Number(buf, at, 2), Number(buf, at + 2, 2), Number(buf, at + 4, 4),
                 Slice(buf, at + 10, end), at + 10), end))
  }

  function ReadRecord(buf: bytes, off: nat, depth: nat): Result<(Record, nat), Error> {
    match ReadName(buf, off, depth)
    case Err(e) => Err(e)
    case Ok((name, at)) => RecordAt(buf, name, at)
  }

  function ReadRecords(buf: bytes, off: nat, n: nat, depth: nat): Result<(seq<Record>, nat), Error> {
    if n == 0 then Ok(([], off))
    else
      match ReadRecords(buf, off, n - 1, depth)
      case Err(e) => Err(e)
      case Ok((rrs, at)) =>
        match ReadRecord(buf, at, depth)
        case Err(e) => Err(e)
        case Ok((rr, next)) => Ok((rrs + [rr], next))
  }

  /** `None` for data too short to hold a header. */
  function ReadPacket(data: bytes, depth: nat): Result<Option<Packet>, Error> {
    if |data| < 12 then Ok(None)
    else
      match ReadQuestions(data, 12, Number(data, 4, 2), depth)
      case Err(e) => Err(e)
      case Ok((qs, at)) =>
        match ReadRecords(data, at, Number(data, 6, 2) + Number(data, 8, 2) + Number(data, 10, 2), depth)
        case Err(e) => Err(e)
        case Ok((rrs, _)) => Ok(Some(Packet(Number(data, 2, 2), qs, rrs)))
  }

  method ParseQuestion(data: bytes, start: nat, depth: nat) returns (r: Result<(Question, nat), Error>)
    ensures r == ReadQuestion(data, start, depth)
  {
    var name := ParseName(data, start, depth);
    if name.Err? {
      return Err(name.error);
    }
    var off := name.value.1;
    if off + 4 > |data| {
      return Err(StructError);
    }
    r := Ok((Question(name.value.0, Number(data, off, 2), Number(data, off + 2, 2)), off + 4));
  }

  method ParseQuestions(data: bytes, start: nat, qd: nat, depth: nat) returns (r: Result<(seq<Question>, nat), Error>)
    ensures r == ReadQuestions(data, start, qd, depth)
  {
    var off, qs: seq<Question> := start, [];
    for i := 0 to qd
      invariant ReadQuestions(data, start, i, depth) == Ok((qs, off))
    {
      var q := ParseQuestion(data, off, depth);
      if q.Err? {
        QuestionsFail(data, start, i + 1, qd, depth);
        return Err(q.error);
      }
      qs, off := qs + [q.value.0], q.value.1;
    }
    r := Ok((qs, off));
  }

  method ParseRecord(data: bytes, start: nat, depth: nat) returns (r: Result<(Record, nat), Error>)
    ensures r == ReadRecord(data, start, depth)
  {
    var name := ParseName(data, start, depth);
    if name.Err? {
      return Err(name.error);
    }
    r := RecordAt(data, name.value.0, name.value.1);
  }

  method ParseRecords(data: bytes, start: nat, n: nat, depth: nat) returns (r: Result<(seq<Record>, nat), Error>)
    ensures r == ReadRecords(data, start, n, depth)
  {
    var off, rrs: seq<Record> := start, [];
    for i := 0 to n
      invariant ReadRecords(data, start, i, depth) == Ok((rrs, off))
    {
      var rr := ParseRecord(data, off, depth);
      if rr.Err? {
        RecordsFail(data, start, i + 1, n, depth);
        return Err(rr.error);
      }
      rrs, off := rrs + [rr.value.0], rr.value.1;
    }
    r := Ok((rrs, off));
  }

  method ParsePacket(data: bytes, depth: nat) returns (r: Result<Option<Packet>, Error>)
    ensures r == ReadPacket(data, depth)
  {
    if |data| < 12 {
      return Ok(None);
    }
    var qs := ParseQuestions(data, 12, Number(data, 4, 2), depth);
    if qs.Err? {
      return Err(qs.error);
    }
    var n := Number(data, 6, 2) + Number(data, 8, 2) + Number(data, 10, 2);
    var rrs := ParseRecords(data, qs.value.1, n, depth);
    if rrs.Err? {
      return Err(rrs.error);
    }
    r := Ok(Some(Packet(Number(data, 2, 2), qs.value.0, rrs.value.0)));
  }

  /** The first failure is the failure of the whole. */
  lemma {:induction false} QuestionsFail(buf: bytes, off: nat, i: nat, n: nat, depth: nat)
    requires i <= n && ReadQuestions(buf, off, i, depth).Err?
    ensures ReadQuestions(buf, off, n, depth) == ReadQuestions(buf, off, i, depth)
  {
    hide ReadQuestion;
    if i < n {
      QuestionsFail(buf, off, i, n - 1, depth);
    }
  }

  lemma {:induction false} RecordsFail(buf: bytes, off: nat, i: nat, n: nat, depth: nat)
    requires i <= n && ReadRecords(buf, off, i, depth).Err?
    ensures ReadRecords(buf, off, n, depth) == ReadRecords(buf, off, i, depth)
  {
    hide ReadRecord;
    if i < n {
      RecordsFail(buf, off, i, n - 1, depth);
    }
  }

  lemma NumberAt(buf: bytes, off: nat, n: nat, rest: bytes)
    requires n < 0x1_0000 && At(buf, off, U16(n) + rest)
    ensures Number(buf, off, 2) == n && At(buf, off + 2, rest)
  {
    assert Pow256(2) == 256 * Pow256(1) == 0x1_0000;
    BigEndianBack(n, 2);
    var s := buf[off..];
    assert buf[off..off + 2] == s[..2] == U16(n);
    assert buf[off + 2..] == s[2..] == rest;
  }

  lemma HeaderNumbers(buf: bytes, rest: bytes)
    requires buf == U16(0) + U16(0) + U16(1) + U16(0) + U16(0) + U16(0) + rest
    ensures |buf| >= 12 && At(buf, 12, rest)
    ensures Number(buf, 2, 2) == 0 && Number(buf, 4, 2) == 1
    ensures Number(buf, 6, 2) == 0 && Number(buf, 8, 2) == 0 && Number(buf, 10, 2) == 0
  {
    var z, five := U16(0), U16(0) + rest;
    var four := z + five;
    var three := z + four;
    var two := U16(1) + three;
    var one := z + two;
    assert buf == z + one;
    NumberAt(buf, 0, 0, one);
    NumberAt(buf, 2, 0, two);
    NumberAt(buf, 4, 1, three);
    NumberAt(buf, 6, 0, four);
    NumberAt(buf, 8, 0, five);
    NumberAt(buf, 10, 0, rest);
  }

  lemma QuestionBack(buf: bytes, off: nat, name: bytes, qtype: nat, depth: nat)
    requires AllPlain(LabelsOf(name)) && qtype < 0x1_0000
    requires NameBytes(name).Ok? && At(buf, off, NameBytes(name).value + (U16(qtype) + U16(1)))
    ensures ReadQuestion(buf, off, depth) == Ok((Question(RStrip(name), qtype, 1), |buf|))
  {
    hide ReadLabels, NameBytes, BigEndian, FromBigEndian;
    var encoded := NameBytes(name).value;
    var at := off + |encoded|;
    NameBackIff(buf, off, name, U16(qtype) + U16(1), depth);
    assert buf[at..] == buf[off..][|encoded|..] == U16(qtype) + U16(1);
    NumberAt(buf, at, qtype, U16(1));
    assert U16(1) + [] == U16(1);
    NumberAt(buf, at + 2, 1, []);
  }

  /** Parsing the query for a name with plain labels gives exactly that question, class 1, no flags
      and no records. */
  lemma QueryBack(name: bytes, qtype: nat, depth: nat)
    requires AllPlain(LabelsOf(name)) && qtype < 0x1_0000
    ensures MakeQuery(name, qtype).Ok?
    ensures ReadPacket(MakeQuery(name, qtype).value, depth)
            == Ok(Some(Packet(0, [Question(RStrip(name), qtype, 1)], [])))
  {
    hide ReadLabels, BigEndian, FromBigEndian, Number, ReadQuestion;
    var rest := NameBytes(name).value + (U16(qtype) + U16(1));
    var data := MakeQuery(name, qtype).value;
    HeaderNumbers(data, rest);
    QuestionBack(data, 12, name, qtype, depth);
    assert ReadQuestions(data, 12, 0, depth) == Ok(([], 12));
    assert ReadQuestions(data, 12, 1, depth) == Ok(([] + [Question(RStrip(name), qtype, 1)], |data|));
    assert [] + [Question(RStrip(name), qtype, 1)] == [Question(RStrip(name), qtype, 1)];
  }

  /** A resource record laid out as section 4.1.3 of RFC 1035 has it is read back, and the offset
      returned is just past its data, where the next record starts. */
  lemma RecordBack(
      buf: bytes, at: nat, name: bytes, rtype: nat, rclass: nat, ttl: nat, rdata: bytes, post: bytes)
    requires rtype < 0x1_0000 && rclass < 0x1_0000 && ttl < 0x1_0000_0000 && |rdata| < 0x1_0000
    requires At(buf, at, U16(rtype) + (U16(rclass) + (BigEndian(ttl, 4) + (U16(|rdata|) + (rdata + post)))))
    ensures RecordAt(buf, name, at)
            == Ok((Record(name, rtype, rclass, ttl, rdata, at + 10), at + 10 + |rdata|))
    ensures At(buf, at + 10 + |rdata|, post)
  {
    var four := rdata + post;
    var three := U16(|rdata|) + four;
    var two := BigEndian(ttl, 4) + three;
    NumberAt(buf, at, rtype, U16(rclass) + two);
    NumberAt(buf, at + 2, rclass, two);
    LongAt(buf, at + 4, ttl, three);
    NumberAt(buf, at + 8, |rdata|, four);
    var s := buf[at + 10..];
    assert buf[at + 10..at + 10 + |rdata|] == s[..|rdata|] == rdata;
    assert buf[at + 10 + |rdata|..] == s[|rdata|..] == post;
  }

  lemma LongAt(buf: bytes, off: nat, n: nat, rest: bytes)
    requires n < 0x1_0000_0000 && At(buf, off, BigEndian(n, 4) + rest)
    ensures Number(buf, off, 4) == n && At(buf, off + 4, rest)
  {
    assert Pow256(4) == 256 * Pow256(3) == 0x1_0000 * Pow256(2) == 0x100_0000 * Pow256(1) == 0x1_0000_0000;
    BigEndianBack(n, 4);
    var s := buf[off..];
    assert buf[off..off + 4] == s[..4] == BigEndian(n, 4);
    assert buf[off + 4..] == s[4..] == rest;
  }

  // ---- whole messages read back ----

  datatype StoredQuestion = StoredQuestion(labels: seq<bytes>, qtype: nat, qclass: nat)

  datatype StoredRecord = StoredRecord(labels: seq<bytes>, rtype: nat, rclass: nat, ttl: nat, rdata: bytes)

  predicate StorableQuestion(q: StoredQuestion) {
    (forall i | 0 <= i < |q.labels| :: Plain(q.labels[i])) && q.qtype < 0x1_0000 && q.qclass < 0x1_0000
  }

  predicate StorableRecord(r: StoredRecord) {
    && (forall i | 0 <= i < |r.labels| :: Plain(r.labels[i]))
    && r.rtype < 0x1_0000 && r.rclass < 0x1_0000 && r.ttl < 0x1_0000_0000 && |r.rdata| < 0x1_0000
  }

  /** Sections 4.1.2 and 4.1.3 of RFC 1035, with what follows behind. */
  function QuestionThen(q: StoredQuestion, post: bytes): bytes
    requires StorableQuestion(q)
  {
    LabelsThen(q.labels, [0] + (U16(q.qtype) + (U16(q.qclass) + post)))
  }

  function RecordThen(r: StoredRecord, post: bytes): bytes
    requires StorableRecord(r)
  {
    LabelsThen(r.labels, [0] + (U16(r.rtype) + (U16(r.rclass)
                               + (BigEndian(r.ttl, 4) + (U16(|r.rdata|) + (r.rdata + post))))))
  }

  function QuestionsThen(qs: seq<StoredQuestion>, post: bytes): bytes
    requires forall i | 0 <= i < |qs| :: StorableQuestion(qs[i])
  {
    if qs == [] then post
    else QuestionsThen(qs[..|qs| - 1], QuestionThen(qs[|qs| - 1], post))
  }

  function RecordsThen(rs: seq<StoredRecord>, post: bytes): bytes
    requires forall i | 0 <= i < |rs| :: StorableRecord(rs[i])
  {
    if rs == [] then post
    else RecordsThen(rs[..|rs| - 1], RecordThen(rs[|rs| - 1], post))
  }

  /** What parsing should give for one at `off`, and the offset behind it. */
  function QuestionOf(q: StoredQuestion): Question {
    Question(Join(q.labels, DOT), q.qtype, q.qclass)
  }

  function QuestionEnd(q: StoredQuestion, off: nat): nat {
    off + Size(q.labels) + 5
  }

  function RecordOf(r: StoredRecord, off: nat): Record {
    Record(Join(r.labels, DOT), r.rtype, r.rclass, r.ttl, r.rdata, off + Size(r.labels) + 11)
  }

  function RecordEnd(r: StoredRecord, off: nat): nat {
    off + Size(r.labels) + 11 + |r.rdata|
  }

  /** The same for a section. */
  function Questions(qs: seq<StoredQuestion>): seq<Question> {
    if qs == [] then [] else Questions(qs[..|qs| - 1]) + [QuestionOf(qs[|qs| - 1])]
  }

  function QuestionsEnd(qs: seq<StoredQuestion>, off: nat): nat {
    if qs == [] then off else QuestionEnd(qs[|qs| - 1], QuestionsEnd(qs[..|qs| - 1], off))
  }

  function Records(rs: seq<StoredRecord>, off: nat): seq<Record> {
    if rs == [] then []
    else Records(rs[..|rs| - 1], off) + [RecordOf(rs[|rs| - 1], RecordsEnd(rs[..|rs| - 1], off))]
  }

  function RecordsEnd(rs: seq<StoredRecord>, off: nat): nat {
    if rs == [] then off else RecordEnd(rs[|rs| - 1], RecordsEnd(rs[..|rs| - 1], off))
  }

  /** A whole name in front of anything. */
  lemma NameThere(buf: bytes, off: nat, ls: seq<bytes>, post: bytes, depth: nat)
    requires AllPlain(ls) && At(buf, off, LabelsThen(ls, [0] + post))
    ensures ReadName(buf, off, depth) == Ok((Join(ls, DOT), off + Size(ls) + 1))
    ensures At(buf, off + Size(ls) + 1, post)
  {
    hide ReadName, ReadLabels, LabelsThen, Stand;
    TheyStand(buf, off, ls, [0] + post);
    ByteAt(buf, off + Size(ls), 0, post);
    EndsThere(buf, off, ls, depth);
  }

  lemma ByteAt(buf: bytes, off: nat, b: byte, rest: bytes)
    requires At(buf, off, [b] + rest)
    ensures off < |buf| && buf[off] == b && At(buf, off + 1, rest)
  {
    var s := buf[off..];
    assert buf[off] == s[0];
    assert buf[off + 1..] == s[1..] == rest;
  }

  lemma QuestionRead(buf: bytes, off: nat, q: StoredQuestion, post: bytes, depth: nat)
    requires StorableQuestion(q) && At(buf, off, QuestionThen(q, post))
    ensures At(buf, QuestionEnd(q, off), post)
    ensures ReadQuestion(buf, off, depth) == Ok((QuestionOf(q), QuestionEnd(q, off)))
  {
    hide ReadName, BigEndian, FromBigEndian, LabelsThen, Number, Join;
    var at := off + Size(q.labels) + 1;
    NameThere(buf, off, q.labels, U16(q.qtype) + (U16(q.qclass) + post), depth);
    NumberAt(buf, at, q.qtype, U16(q.qclass) + post);
    NumberAt(buf, at + 2, q.qclass, post);
  }

  lemma RecordRead(buf: bytes, off: nat, r: StoredRecord, post: bytes, depth: nat)
    requires StorableRecord(r) && At(buf, off, RecordThen(r, post))
    ensures At(buf, RecordEnd(r, off), post)
    ensures ReadRecord(buf, off, depth) == Ok((RecordOf(r, off), RecordEnd(r, off)))
  {
    hide ReadName, RecordAt, BigEndian, LabelsThen, Join;
    var fixed := U16(r.rtype) + (U16(r.rclass) + (BigEndian(r.ttl, 4) + (U16(|r.rdata|) + (r.rdata + post))));
    NameThere(buf, off, r.labels, fixed, depth);
    RecordBack(buf, off + Size(r.labels) + 1, Join(r.labels, DOT), r.rtype, r.rclass, r.ttl, r.rdata, post);
  }

  lemma {:induction false} QuestionsRead(buf: bytes, off: nat, qs: seq<StoredQuestion>, post: bytes, depth: nat)
    requires forall i | 0 <= i < |qs| :: StorableQuestion(qs[i])
    requires At(buf, off, QuestionsThen(qs, post))
    ensures At(buf, QuestionsEnd(qs, off), post)
    ensures ReadQuestions(buf, off, |qs|, depth) == Ok((Questions(qs), QuestionsEnd(qs, off)))
  {
    if qs != [] {
      hide ReadQuestion, QuestionThen, At, QuestionOf, QuestionEnd, StorableQuestion;
      var front, q := qs[..|qs| - 1], qs[|qs| - 1];
      QuestionsRead(buf, off, front, QuestionThen(q, post), depth);
      QuestionRead(buf, QuestionsEnd(front, off), q, post, depth);
    }
  }

  lemma {:induction false} RecordsRead(buf: bytes, off: nat, rs: seq<StoredRecord>, post: bytes, depth: nat)
    requires forall i | 0 <= i < |rs| :: StorableRecord(rs[i])
    requires At(buf, off, RecordsThen(rs, post))
    ensures At(buf, RecordsEnd(rs, off), post)
    ensures ReadRecords(buf, off, |rs|, depth) == Ok((Records(rs, off), RecordsEnd(rs, off)))
  {
    if rs != [] {
      hide ReadRecord, RecordThen, At, RecordOf, RecordEnd, StorableRecord;
      var front, r := rs[..|rs| - 1], rs[|rs| - 1];
      RecordsRead(buf, off, front, RecordThen(r, post), depth);
      RecordRead(buf, RecordsEnd(front, off), r, post, depth);
    }
  }

  /** The header of section 4.1.1 of RFC 1035. */
  function HeaderThen(tid: nat, flags: nat, counts: (nat, nat, nat, nat), post: bytes): bytes
    requires tid < 0x1_0000 && flags < 0x1_0000
    requires counts.0 < 0x1_0000 && counts.1 < 0x1_0000 && counts.2 < 0x1_0000 && counts.3 < 0x1_0000
  {
    U16(tid) + (U16(flags) + (U16(counts.0) + (U16(counts.1) + (U16(counts.2) + (U16(counts.3) + post)))))
  }

  lemma HeaderRead(buf: bytes, tid: nat, flags: nat, counts: (nat, nat, nat, nat), post: bytes)
    requires tid < 0x1_0000 && flags < 0x1_0000
    requires counts.0 < 0x1_0000 && counts.1 < 0x1_0000 && counts.2 < 0x1_0000 && counts.3 < 0x1_0000
    requires buf == HeaderThen(tid, flags, counts, post)
    ensures |buf| >= 12 && At(buf, 12, post) && Number(buf, 2, 2) == flags
    ensures Number(buf, 4, 2) == counts.0 && Number(buf, 6, 2) == counts.1
    ensures Number(buf, 8, 2) == counts.2 && Number(buf, 10, 2) == counts.3
  {
    hide BigEndian, FromBigEndian, Number;
    var five := U16(counts.3) + post;
    var four := U16(counts.2) + five;
    var three := U16(counts.1) + four;
    var two := U16(counts.0) + three;
    var one := U16(flags) + two;
    assert At(buf, 0, U16(tid) + one);
    NumberAt(buf, 0, tid, one);
    NumberAt(buf, 2, flags, two);
    NumberAt(buf, 4, counts.0, three);
    NumberAt(buf, 6, counts.1, four);
    NumberAt(buf, 8, counts.2, five);
    NumberAt(buf, 10, counts.3, post);
  }

  /** A whole message, laid out as the standard has it with plain names stored whole, is read back: its
      flags, its questions and the records of its three sections, in order, whatever follows. */
  lemma PacketBack(
      data: bytes, tid: nat, flags: nat, qs: seq<StoredQuestion>, rs: seq<StoredRecord>,
      counts: (nat, nat, nat, nat), post: bytes, depth: nat)
    requires tid < 0x1_0000 && flags < 0x1_0000 && counts.0 == |qs| && counts.1 + counts.2 + counts.3 == |rs|
    requires counts.0 < 0x1_0000 && counts.1 < 0x1_0000 && counts.2 < 0x1_0000 && counts.3 < 0x1_0000
    requires forall i | 0 <= i < |qs| :: StorableQuestion(qs[i])
    requires forall i | 0 <= i < |rs| :: StorableRecord(rs[i])
    requires data == HeaderThen(tid, flags, counts, QuestionsThen(qs, RecordsThen(rs, post)))
    ensures ReadPacket(data, depth) == Ok(Some(Packet(flags, Questions(qs), Records(rs, QuestionsEnd(qs, 12)))))
  {
    hide QuestionsThen, RecordsThen, HeaderThen, At, Number, ReadQuestions, ReadRecords, StorableQuestion, StorableRecord;
    HeaderRead(data, tid, flags, counts, QuestionsThen(qs, RecordsThen(rs, post)));
    QuestionsRead(data, 12, qs, RecordsThen(rs, post), depth);
    RecordsRead(data, QuestionsEnd(qs, 12), rs, post, depth);
  }

  /** Data too short for a header is no message and no error, and nothing else is. */
  lemma ShortIsNothing(data: bytes, depth: nat)
    ensures ReadPacket(data, depth) == Ok(None) <==> |data| < 12
  {
  }

  /** A question needs four bytes behind its name and a record ten: whatever the rest of the data, fewer
      are the error of unpacking, and more are enough, the record's own data cut short if need be. */
  lemma FixedBytesNeeded(buf: bytes, off: nat, depth: nat)
    ensures ReadName(buf, off, depth).Err? ==>
              && ReadQuestion(buf, off, depth) == Err(ReadName(buf, off, depth).error)
              && ReadRecord(buf, off, depth) == Err(ReadName(buf, off, depth).error)
    ensures ReadName(buf, off, depth).Ok? ==>
              var at := ReadName(buf, off, depth).value.1;
              && (if |buf| - at < 4 then ReadQuestion(buf, off, depth) == Err(StructError)
                  else ReadQuestion(buf, off, depth).Ok? && ReadQuestion(buf, off, depth).value.1 == at + 4)
              && (if |buf| - at < 10 then ReadRecord(buf, off, depth) == Err(StructError)
                  else ReadRecord(buf, off, depth).Ok? && ReadRecord(buf, off, depth).value.1 >= at + 10)
  {
    hide ReadLabels;
  }
}
