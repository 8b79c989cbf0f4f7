/**
  The byte formats of module ReactionWire, said without its readers and writers: the value of a
  Base 128 varint, UTF-8 as the encodings of code points, the layout of a reaction, and how far a
  field of unknown meaning reaches.
 */
module ReactionFormat {
  import opened Common
  import opened ReactionWire

  // ----- varints -----

  /** The number whose base-128 digits, least significant first, are the low seven bits. */
  function Value(b: Bytes): nat {
    if b == [] then 0 else (b[0] as nat) % 128 + 128 * Value(b[1..])
  }

  /** Every byte but the last has its high bit set. */
  predicate Chained(b: Bytes) {
    b != [] && b[|b| - 1] < 128 && forall i :: 0 <= i < |b| - 1 ==> b[i] >= 128
  }

  lemma ChainedTail(b: Bytes)
    requires |b| > 1
    ensures Chained(b) <==> b[0] >= 128 && Chained(b[1..])
  {
    var t := b[1..];
    assert forall i :: 0 <= i < |t| ==> t[i] == b[i + 1];
    assert forall i :: 1 <= i < |b| ==> b[i] == t[i - 1];
    if Chained(b) {
      assert b[0] >= 128;
    }
  }

  /** b starts with a varint of n bytes whose value fits what is left after i bytes. */
  predicate Starts(b: Bytes, i: nat, v: nat, n: nat)
    requires i <= 9
  {
    0 < n <= |b| && n <= 10 - i && Chained(b[..n]) && Value(b[..n]) == v && v < Capacity(i)
  }

  lemma StartsNext(b: Bytes, i: nat, v: nat, n: nat)
    requires i < 9 && b != [] && b[0] >= 128 && n > 0
    ensures Starts(b[1..], i + 1, v, n) ==> Starts(b, i, (b[0] - 128) as nat + 128 * v, n + 1)
  {
    if n < |b| {
      assert b[..n + 1][1..] == b[1..][..n];
      ChainedTail(b[..n + 1]);
    }
  }

  lemma StartsBack(b: Bytes, i: nat, v: nat, n: nat)
    requires i <= 9 && Starts(b, i, v, n) && n > 1
    ensures i < 9 && b[0] >= 128
    ensures Starts(b[1..], i + 1, Value(b[1..][..n - 1]), n - 1)
    ensures v == (b[0] - 128) as nat + 128 * Value(b[1..][..n - 1])
  {
    assert b[..n][1..] == b[1..][..n - 1];
    ChainedTail(b[..n]);
  }

  lemma {:induction false} VarintExactlyFrom(b: Bytes, i: nat, v: nat, n: nat)
    requires i <= 9
    ensures GetVarintFrom(b, i) == Some(Read(v, n)) <==> Starts(b, i, v, n)
    decreases 9 - i
  {
    if b != [] {
      OneByte(b);
      if Starts(b, i, v, n) && n > 1 {
        StartsBack(b, i, v, n);
        VarintExactlyFrom(b[1..], i + 1, Value(b[1..][..n - 1]), n - 1);
      }
      hide Chained, Value;
      if i < 9 && b[0] >= 128 && GetVarintFrom(b[1..], i + 1).Some? {
        var r := GetVarintFrom(b[1..], i + 1).value;
        VarintExactlyFrom(b[1..], i + 1, r.value, r.n);
        StartsNext(b, i, r.value, r.n);
      }
    }
  }

  lemma OneByte(b: Bytes)
    requires b != []
    ensures Chained(b[..1]) <==> b[0] < 128
    ensures Value(b[..1]) == (b[0] as nat) % 128
    ensures Capacity(9) == 2
    ensures forall i :: 0 <= i < 9 ==> Capacity(i) >= 128
  {
    assert b[..1][1..] == [];
    forall i | 0 <= i < 9 ensures Capacity(i) >= 128 {
      Roomy(i);
    }
  }

  lemma {:induction false} Roomy(i: nat)
    requires i < 9
    ensures Capacity(i) >= 256
    decreases 9 - i
  {
    if i < 8 {
      Roomy(i + 1);
    }
  }

  /** What a varint is: up to ten chained bytes whose value fits 64 bits. */
  lemma VarintExactly(b: Bytes, v: nat, n: nat)
    ensures GetVarint(b) == Some(Read(v, n)) <==>
            0 < n <= |b| && n <= 10 && Chained(b[..n]) && Value(b[..n]) == v && v < TWO64
  {
    CapacityIs64Bits();
    VarintExactlyFrom(b, 0, v, n);
  }

  /** The varint written is the shortest with its value. */
  lemma {:induction false} PutVarintIsShortest(v: nat)
    ensures var b := PutVarint(v);
            Chained(b) && Value(b) == v && (|b| > 1 ==> b[|b| - 1] != 0)
  {
    var b := PutVarint(v);
    if v >= 128 {
      PutVarintIsShortest(v / 128);
      assert b[1..] == PutVarint(v / 128);
      ChainedTail(b);
    } else {
      assert b[1..] == [];
    }
  }

  // ----- UTF-8, section 3 of RFC 3629 -----

  /** A code point that is not a surrogate. */
  predicate Scalar(c: nat) {
    c <= 0x10ffff && !(0xd800 <= c <= 0xdfff)
  }

  function Utf8Of(c: nat): (b: Bytes)
    requires Scalar(c)
    ensures 1 <= |b| <= 4
  {
    if c < 0x80 then [c as Byte]
    else if c < 0x800 then [(0xc0 + c / 64) as Byte, (0x80 + c % 64) as Byte]
    else if c < 0x10000 then
      [(0xe0 + c / 4096) as Byte, (0x80 + c / 64 % 64) as Byte, (0x80 + c % 64) as Byte]
    else
      [(0xf0 + c / 262144) as Byte, (0x80 + c / 4096 % 64) as Byte, (0x80 + c / 64 % 64) as Byte,
       (0x80 + c % 64) as Byte]
  }

  ghost predicate Scalars(cs: seq<nat>) {
    forall i :: 0 <= i < |cs| ==> Scalar(cs[i])
  }

  function Utf8All(cs: seq<nat>): Bytes
    requires Scalars(cs)
  {
    if cs == [] then [] else Utf8Of(cs[0]) + Utf8All(cs[1..])
  }

  /** The code point at the front. */
  function RuneAt(b: Bytes): (c: nat)
    requires RuneLength(b) > 0
  {
    var n := RuneLength(b);
    if n == 1 then b[0] as nat
    else if n == 2 then (b[0] as nat - 0xc0) * 64 + (b[1] as nat - 0x80)
    else if n == 3 then (b[0] as nat - 0xe0) * 4096 + (b[1] as nat - 0x80) * 64 + (b[2] as nat - 0x80)
    else
      (b[0] as nat - 0xf0) * 262144 + (b[1] as nat - 0x80) * 4096 + (b[2] as nat - 0x80) * 64
      + (b[3] as nat - 0x80)
  }

  lemma RuneOfTwo(b: Bytes)
    requires RuneLength(b) == 2
    ensures Scalar(RuneAt(b)) && Utf8Of(RuneAt(b)) == b[..2]
  {
    var x, y := b[0] as nat - 0xc0, b[1] as nat - 0x80;
    QuotientIsUnique(RuneAt(b), 64, x, y);
  }

  lemma RuneOfThree(b: Bytes)
    requires RuneLength(b) == 3
    ensures Scalar(RuneAt(b)) && Utf8Of(RuneAt(b)) == b[..3]
  {
    var x, y, z := b[0] as nat - 0xe0, b[1] as nat - 0x80, b[2] as nat - 0x80;
    QuotientIsUnique(RuneAt(b), 64, 64 * x + y, z);
    QuotientIsUnique(RuneAt(b), 4096, x, 64 * y + z);
    QuotientIsUnique(64 * x + y, 64, x, y);
  }

  lemma RuneOfFour(b: Bytes)
    requires RuneLength(b) == 4
    ensures Scalar(RuneAt(b)) && Utf8Of(RuneAt(b)) == b[..4]
  {
    var w, x, y, z := b[0] as nat - 0xf0, b[1] as nat - 0x80, b[2] as nat - 0x80, b[3] as nat - 0x80;
    QuotientIsUnique(RuneAt(b), 64, 4096 * w + 64 * x + y, z);
    QuotientIsUnique(RuneAt(b), 4096, 64 * w + x, 64 * y + z);
    QuotientIsUnique(RuneAt(b), 262144, w, 4096 * x + 64 * y + z);
    QuotientIsUnique(4096 * w + 64 * x + y, 64, 64 * w + x, y);
    QuotientIsUnique(64 * w + x, 64, w, x);
  }

  lemma RuneIsEncoded(b: Bytes)
    requires RuneLength(b) > 0
    ensures Scalar(RuneAt(b)) && Utf8Of(RuneAt(b)) == b[..RuneLength(b)]
  {
    if RuneLength(b) == 2 {
      RuneOfTwo(b);
    } else if RuneLength(b) == 3 {
      RuneOfThree(b);
    } else if RuneLength(b) == 4 {
      RuneOfFour(b);
    }
  }

  lemma EncodedIsRune(c: nat, tail: Bytes)
    requires Scalar(c)
    ensures RuneLength(Utf8Of(c) + tail) == |Utf8Of(c)|
  {
    if c < 0x80 {
    } else if c < 0x800 {
      RuneOf(Utf8Of(c), tail);
    } else if c < 0x10000 {
      RuneOf(Utf8Of(c), tail);
    } else {
      RuneOf(Utf8Of(c), tail);
    }
  }

  /** A code point is not changed by what follows it. */
  lemma RuneOf(b: Bytes, tail: Bytes)
    requires RuneLength(b) > 0
    ensures RuneLength(b + tail) == RuneLength(b)
  {
  }

  lemma {:induction false} EncodedIsUtf8(cs: seq<nat>)
    requires Scalars(cs)
    ensures Utf8(Utf8All(cs))
  {
    if cs != [] {
      var rest := Utf8All(cs[1..]);
      EncodedIsUtf8(cs[1..]);
      EncodedIsRune(cs[0], rest);
      assert (Utf8Of(cs[0]) + rest)[|Utf8Of(cs[0])|..] == rest;
    }
  }

  lemma Utf8AllCons(c: nat, cs: seq<nat>)
    requires Scalar(c) && Scalars(cs)
    ensures Scalars([c] + cs) && Utf8All([c] + cs) == Utf8Of(c) + Utf8All(cs)
  {
    hide Utf8Of, Scalar;
    assert ([c] + cs)[1..] == cs;
  }

  lemma Utf8Front(b: Bytes)
    requires Utf8(b) && b != []
    ensures 0 < RuneLength(b) <= |b| && Utf8(b[RuneLength(b)..])
  {
    hide RuneLength;
  }

  lemma {:induction false} Utf8IsEncoded(b: Bytes) returns (cs: seq<nat>)
    requires Utf8(b)
    ensures Scalars(cs) && Utf8All(cs) == b
    decreases |b|
  {
    hide RuneLength, RuneAt, Utf8Of, Scalar;
    if b == [] {
      cs := [];
    } else {
      Utf8Front(b);
      var n := RuneLength(b);
      var rest := Utf8IsEncoded(b[n..]);
      RuneIsEncoded(b);
      cs := [RuneAt(b)] + rest;
      Utf8AllCons(RuneAt(b), rest);
      assert b[..n] + b[n..] == b;
    }
  }

  /** A byte string is valid exactly if it is the encoding of some code points. */
  lemma Utf8Exactly(b: Bytes)
    ensures Utf8(b) <==> exists cs :: Scalars(cs) && Utf8All(cs) == b
  {
    if Utf8(b) {
      var cs := Utf8IsEncoded(b);
    }
    if cs :| Scalars(cs) && Utf8All(cs) == b {
      EncodedIsUtf8(cs);
    }
  }

  // ----- the layout of a reaction -----

  /** Field numbers and lengths, byte for byte. */
  lemma Layout(r: Reaction)
    ensures EncodeInfo(r) == [0x08] + PutVarint(r.id) + [0x12] + PutVarint(|r.emoji|) + r.emoji
    ensures EncodeMessage(r) == [0x0a] + PutVarint(|EncodeInfo(r)|) + EncodeInfo(r)
    ensures Encode(r) == [0x0a] + PutVarint(|EncodeMessage(r)|) + EncodeMessage(r)
  {
    assert PutTag(1, VARINT) == [0x08] && PutTag(2, BYTES) == [0x12] && PutTag(1, BYTES) == [0x0a];
    hide PutTag, PutVarint;
  }

  // ----- fields of unknown meaning -----

  /** A field's value: a varint below 2^64, four or eight bytes, a record, or a group of numbered
      fields. */
  datatype Field =
    | OfVarint(v: nat)
    | OfFour(four: Bytes)
    | OfEight(eight: Bytes)
    | OfBytes(content: Bytes)
    | OfGroup(fields: Fields)

  datatype Fields = NoField | AndThen(num: nat, first: Field, rest: Fields)

  predicate Fits(f: Field) {
    match f
    case OfVarint(v) => v < TWO64
    case OfFour(b) => |b| == 4
    case OfEight(b) => |b| == 8
    case OfBytes(b) => |b| < TWO64
    case OfGroup(fs) => AllFit(fs)
  }

  predicate AllFit(fs: Fields) {
    fs.AndThen? ==> 1 <= fs.num <= MAX_FIELD && Fits(fs.first) && AllFit(fs.rest)
  }

  function TypeOf(f: Field): nat {
    match f
    case OfVarint(_) => 0
    case OfEight(_) => 1
    case OfBytes(_) => 2
    case OfGroup(_) => 3
    case OfFour(_) => 5
  }

  /** A field's value in the wire format; a group ends with an end tag of its number. */
  function PutField(num: nat, f: Field): Bytes
    decreases f
  {
    match f
    case OfVarint(v) => PutVarint(v)
    case OfFour(b) => b
    case OfEight(b) => b
    case OfBytes(b) => PutVarint(|b|) + b
    case OfGroup(fs) => PutFields(fs) + PutVarint(8 * num + 4)
  }

  function PutFields(fs: Fields): Bytes
    decreases fs
  {
    match fs
    case NoField => []
    case AndThen(num, f, rest) => PutVarint(8 * num + TypeOf(f)) + (PutField(num, f) + PutFields(rest))
  }

  /** How deep groups nest. */
  function Depth(f: Field): nat {
    match f
    case OfGroup(fs) => 1 + DepthOf(fs)
    case _ => 0
  }

  function DepthOf(fs: Fields): nat {
    match fs
    case NoField => 0
    case AndThen(_, f, rest) => if Depth(f) > DepthOf(rest) then Depth(f) else DepthOf(rest)
  }

  /** A field's value with more bytes behind it, and a group's fields with its end tag and more. */
  function FieldThen(num: nat, f: Field, tail: Bytes): Bytes {
    PutField(num, f) + tail
  }

  function GroupThen(num: nat, fs: Fields, tail: Bytes): Bytes {
    PutFields(fs) + (PutVarint(8 * num + 4) + tail)
  }

  function GroupLength(num: nat, fs: Fields): nat {
    |PutFields(fs)| + |PutVarint(8 * num + 4)|
  }

  lemma GroupField(num: nat, fs: Fields, tail: Bytes)
    ensures FieldThen(num, OfGroup(fs), tail) == GroupThen(num, fs, tail)
    ensures |PutField(num, OfGroup(fs))| == GroupLength(num, fs)
    ensures Depth(OfGroup(fs)) == 1 + DepthOf(fs) && TypeOf(OfGroup(fs)) == START_GROUP
  {
    hide PutVarint;
    assert (PutFields(fs) + PutVarint(8 * num + 4)) + tail == PutFields(fs) + (PutVarint(8 * num + 4) + tail);
  }

  lemma GroupOfNone(num: nat, tail: Bytes)
    ensures GroupThen(num, NoField, tail) == PutTag(num, END_GROUP) + tail
    ensures GroupLength(num, NoField) == |PutTag(num, END_GROUP)| && DepthOf(NoField) == 0
  {
    hide PutVarint;
    assert [] + (PutVarint(8 * num + 4) + tail) == PutVarint(8 * num + 4) + tail;
  }

  lemma GroupOfMore(num: nat, fs: Fields, tail: Bytes)
    requires fs.AndThen?
    ensures GroupThen(num, fs, tail) ==
            PutTag(fs.num, TypeOf(fs.first)) + FieldThen(fs.num, fs.first, GroupThen(num, fs.rest, tail))
    ensures GroupLength(num, fs) ==
            |PutTag(fs.num, TypeOf(fs.first))| + |PutField(fs.num, fs.first)| + GroupLength(num, fs.rest)
  {
    hide PutVarint, PutField, Depth, TypeOf;
    var tag, value, more := PutTag(fs.num, TypeOf(fs.first)), PutField(fs.num, fs.first), PutFields(fs.rest);
    var end := PutVarint(8 * num + 4) + tail;
    assert PutFields(fs) == tag + (value + more);
    assert (tag + (value + more)) + end == tag + (value + (more + end));
  }

  lemma DepthOfMore(fs: Fields, k: int)
    requires fs.AndThen?
    ensures DepthOf(fs) <= k <==> Depth(fs.first) <= k && DepthOf(fs.rest) <= k
  {
    hide Depth;
  }

  /** A field of unknown meaning is passed over exactly, up to its last byte, whatever follows it;
      only groups nested too deep are refused. */
  lemma {:induction false} FieldIsSkipped(num: nat, f: Field, tail: Bytes, depth: int)
    requires 1 <= num <= MAX_FIELD && Fits(f) && depth >= -1
    ensures SkipField(num, TypeOf(f), FieldThen(num, f, tail), depth) ==
            if Depth(f) <= depth + 1 then Some(|PutField(num, f)|) else None
    decreases f, 0
  {
    hide SkipField, SkipGroup, FieldThen, GroupThen, GroupLength, PutField, Depth, DepthOf, TypeOf;
    if f.OfGroup? {
      GroupField(num, f.fields, tail);
      SkipStart(num, GroupThen(num, f.fields, tail), depth);
      if depth >= 0 {
        GroupIsSkipped(num, f.fields, tail, depth);
      }
    } else {
      PlainIsSkipped(num, f, tail, depth);
    }
  }

  lemma PlainIsSkipped(num: nat, f: Field, tail: Bytes, depth: int)
    requires Fits(f) && !f.OfGroup?
    ensures SkipField(num, TypeOf(f), FieldThen(num, f, tail), depth) == Some(|PutField(num, f)|) && Depth(f) == 0
  {
    hide GetVarint, GetBytes, PutVarint;
    match f
    case OfVarint(v) => VarintRoundTrip(v, tail);
    case OfBytes(b) => BytesRoundTrip(b, tail);
    case _ =>
  }

  lemma SkipStart(num: nat, b: Bytes, depth: int)
    ensures SkipField(num, START_GROUP, b, depth) == if depth < 0 then None else SkipGroup(num, b, depth)
  {
    hide SkipGroup, GetVarint, GetBytes;
  }

  /** A group's end tag. */
  lemma SkipEnd(num: nat, b: Bytes, n: nat, depth: int)
    requires GetTag(b) == Some(Read(Tag(num, END_GROUP), n))
    ensures SkipGroup(num, b, depth) == Some(n)
  {
    hide GetTag, SkipField;
  }

  /** One field of a group. */
  lemma SkipGroupNext(num: nat, b: Bytes, t: Tag, n: nat, depth: int)
    requires n <= |b| && GetTag(b) == Some(Read(t, n)) && t.typ != END_GROUP
    ensures var skipped := SkipField(t.num, t.typ, b[n..], depth - 1);
            SkipGroup(num, b, depth) ==
            if skipped.None? then None
            else match SkipGroup(num, b[n..][skipped.value..], depth)
              case None => None
              case Some(k) => Some(n + skipped.value + k)
  {
    hide GetTag, SkipField;
  }

  lemma BehindField(num: nat, f: Field, tail: Bytes)
    ensures |PutField(num, f)| <= |FieldThen(num, f, tail)| && FieldThen(num, f, tail)[|PutField(num, f)|..] == tail
  {
    hide PutField;
  }

  lemma PartsFit(fs: Fields)
    requires fs.AndThen? && AllFit(fs)
    ensures 1 <= fs.num <= MAX_FIELD && Fits(fs.first) && AllFit(fs.rest)
  {
  }

  lemma TypesKnown(f: Field)
    ensures TypeOf(f) < 8 && TypeOf(f) != END_GROUP
  {
  }

  lemma {:induction false} GroupIsSkipped(num: nat, fs: Fields, tail: Bytes, depth: int)
    requires 1 <= num <= MAX_FIELD && AllFit(fs) && depth >= 0
    ensures SkipGroup(num, GroupThen(num, fs, tail), depth) ==
            if DepthOf(fs) <= depth then Some(GroupLength(num, fs)) else None
    decreases fs, 1
  {
    hide SkipGroup, SkipField, GetTag, PutTag, PutField, FieldThen, GroupThen, GroupLength, Depth, DepthOf, TypeOf;
    hide Fits, AllFit;
    if fs.NoField? {
      GroupOfNone(num, tail);
      TagRoundTrip(num, END_GROUP, tail);
      SkipEnd(num, PutTag(num, END_GROUP) + tail, |PutTag(num, END_GROUP)|, depth);
    } else {
      PartsFit(fs);
      var n, f, rest := fs.num, fs.first, fs.rest;
      var more := GroupThen(num, rest, tail);
      GroupOfMore(num, fs, tail);
      TypesKnown(f);
      TagRoundTrip(n, TypeOf(f), FieldThen(n, f, more));
      FieldIsSkipped(n, f, more, depth - 1);
      BehindField(n, f, more);
      GroupIsSkipped(num, rest, tail, depth);
      DepthOfMore(fs, depth);
      var tag := PutTag(n, TypeOf(f));
      Behind(tag, FieldThen(n, f, more));
      SkipGroupNext(num, tag + FieldThen(n, f, more), Tag(n, TypeOf(f)), |tag|, depth);
    }
  }
}
