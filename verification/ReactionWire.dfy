/**
  The reaction payload in the Protocol Buffers wire format: Base 128 varints, tags,
  length-delimited records, and the skipping of unknown fields, groups included.
 */
module ReactionWire {
  import opened Common

  const TWO64 := 0x1_0000_0000_0000_0000
  const MAX_FIELD := 0x7fff_ffff
  const RECURSION_LIMIT := 10000

  const VARINT := 0
  const FIXED64 := 1
  const BYTES := 2
  const START_GROUP := 3
  const END_GROUP := 4
  const FIXED32 := 5

  /** A value read off the front of a buffer, and how many bytes it took. */
  datatype Read<+T> = Read(value: T, n: nat)

  // ----- varints -----

  function PutVarint(v: nat): (b: Bytes)
    ensures b != []
  {
    if v < 128 then [v as Byte] else [(v % 128 + 128) as Byte] + PutVarint(v / 128)
  }

  /** The varint whose first i bytes have been read: ten bytes at most, the tenth below two. */
  function GetVarintFrom(b: Bytes, i: nat): (r: Option<Read<nat>>)
    requires i <= 9
    ensures r.Some? ==> 0 < r.value.n <= |b|
    decreases 9 - i
  {
    if b == [] then None
    else if i == 9 then (if b[0] < 2 then Some(Read(b[0] as nat, 1)) else None)
    else if b[0] < 128 then Some(Read(b[0] as nat, 1))
    else match GetVarintFrom(b[1..], i + 1)
      case None => None
      case Some(r) => Some(Read((b[0] - 128) as nat + 128 * r.value, 1 + r.n))
  }

  function GetVarint(b: Bytes): (r: Option<Read<nat>>)
    ensures r.Some? ==> 0 < r.value.n <= |b|
  {
    GetVarintFrom(b, 0)
  }

  /** What still fits when i bytes have been read. */
  function Capacity(i: nat): nat
    requires i <= 9
    decreases 9 - i
  {
    if i == 9 then 2 else 128 * Capacity(i + 1)
  }

  lemma CapacityIs64Bits()
    ensures Capacity(0) == TWO64
  {
    assert Capacity(8) == 256;
    assert Capacity(6) == 128 * Capacity(7) == 128 * 128 * 256;
    assert Capacity(4) == 128 * Capacity(5) == 128 * 128 * Capacity(6);
    assert Capacity(2) == 128 * Capacity(3) == 128 * 128 * Capacity(4);
    assert Capacity(0) == 128 * Capacity(1) == 128 * 128 * Capacity(2);
  }

  lemma {:induction false} VarintRoundTripFrom(v: nat, tail: Bytes, i: nat)
    requires i <= 9 && v < Capacity(i)
    ensures GetVarintFrom(PutVarint(v) + tail, i) == Some(Read(v, |PutVarint(v)|))
    decreases 9 - i
  {
    if v >= 128 {
      VarintRoundTripFrom(v / 128, tail, i + 1);
      assert (PutVarint(v) + tail)[1..] == PutVarint(v / 128) + tail;
    }
  }

  lemma VarintRoundTrip(v: nat, tail: Bytes)
    requires v < TWO64
    ensures GetVarint(PutVarint(v) + tail) == Some(Read(v, |PutVarint(v)|))
  {
    CapacityIs64Bits();
    VarintRoundTripFrom(v, tail, 0);
  }

  /** Bytes behind a complete varint do not change it. */
  lemma {:induction false} VarintStableFrom(a: Bytes, b: Bytes, i: nat)
    requires i <= 9 && GetVarintFrom(a, i).Some?
    ensures GetVarintFrom(a + b, i) == GetVarintFrom(a, i)
    decreases 9 - i
  {
    if i < 9 && a[0] >= 128 {
      VarintStableFrom(a[1..], b, i + 1);
      assert (a + b)[1..] == a[1..] + b;
    }
  }

  lemma VarintStable(a: Bytes, b: Bytes)
    requires GetVarint(a).Some?
    ensures GetVarint(a + b) == GetVarint(a)
  {
    VarintStableFrom(a, b, 0);
  }

  // ----- tags and records -----

  datatype Tag = Tag(num: nat, typ: nat)

  function PutTag(num: nat, typ: nat): Bytes {
    PutVarint(num * 8 + typ)
  }

  function GetTag(b: Bytes): (r: Option<Read<Tag>>)
    ensures r.Some? ==> 0 < r.value.n <= |b|
  {
    match GetVarint(b)
    case None => None
    case Some(r) =>
      var num := r.value / 8;
      if num < 1 || num > MAX_FIELD then None else Some(Read(Tag(num, r.value % 8), r.n))
  }

  function PutBytes(content: Bytes): Bytes {
    PutVarint(|content|) + content
  }

  function GetBytes(b: Bytes): (r: Option<Read<Bytes>>)
    ensures r.Some? ==> 0 < r.value.n <= |b|
  {
    match GetVarint(b)
    case None => None
    case Some(r) =>
      if r.value > |b| - r.n then None else Some(Read(b[r.n..r.n + r.value], r.n + r.value))
  }

  lemma TagRoundTrip(num: nat, typ: nat, tail: Bytes)
    requires 1 <= num <= MAX_FIELD && typ < 8
    ensures GetTag(PutTag(num, typ) + tail) == Some(Read(Tag(num, typ), |PutTag(num, typ)|))
  {
    VarintRoundTrip(num * 8 + typ, tail);
  }

  lemma BytesRoundTrip(content: Bytes, tail: Bytes)
    requires |content| < TWO64
    ensures GetBytes(PutBytes(content) + tail) == Some(Read(content, |PutBytes(content)|))
  {
    var length := PutVarint(|content|);
    VarintRoundTrip(|content|, content + tail);
    assert PutBytes(content) + tail == length + (content + tail);
  }

  lemma TagStable(a: Bytes, b: Bytes)
    requires GetTag(a).Some?
    ensures GetTag(a + b) == GetTag(a)
  {
    VarintStable(a, b);
  }

  lemma BytesStable(a: Bytes, b: Bytes)
    requires GetBytes(a).Some?
    ensures GetBytes(a + b) == GetBytes(a)
  {
    VarintStable(a, b);
    var r := GetVarint(a).value;
    assert (a + b)[r.n..r.n + r.value] == a[r.n..r.n + r.value];
  }

  // ----- unknown fields -----

  /** The length of a field's value; groups nest up to the recursion limit. */
  function SkipField(num: nat, typ: nat, b: Bytes, depth: int): (n: Option<nat>)
    ensures n.Some? ==> n.value <= |b|
    decreases |b|, 1
  {
    if typ == VARINT then (match GetVarint(b) case None => None case Some(r) => Some(r.n))
    else if typ == FIXED32 then (if |b| < 4 then None else Some(4))
    else if typ == FIXED64 then (if |b| < 8 then None else Some(8))
    else if typ == BYTES then (match GetBytes(b) case None => None case Some(r) => Some(r.n))
    else if typ == START_GROUP then (if depth < 0 then None else SkipGroup(num, b, depth))
    else None
  }

  /** The length of what is left of group num, its end tag included. */
  function SkipGroup(num: nat, b: Bytes, depth: int): (n: Option<nat>)
    ensures n.Some? ==> n.value <= |b|
    decreases |b|, 0
  {
    match GetTag(b)
    case None => None
    case Some(r) =>
      var tag, rest := r.value, b[r.n..];
      if tag.typ == END_GROUP then (if tag.num == num then Some(r.n) else None)
      else match SkipField(tag.num, tag.typ, rest, depth - 1)
        case None => None
        case Some(m) =>
          match SkipGroup(num, rest[m..], depth)
          case None => None
          case Some(k) => Some(r.n + m + k)
  }

  lemma Beyond(a: Bytes, b: Bytes, n: nat)
    requires n <= |a|
    ensures (a + b)[n..] == a[n..] + b
  {
  }

  lemma {:induction false} SkipFieldStable(num: nat, typ: nat, a: Bytes, b: Bytes, depth: int)
    requires SkipField(num, typ, a, depth).Some?
    ensures SkipField(num, typ, a + b, depth) == SkipField(num, typ, a, depth)
    decreases |a|, 1
  {
    if typ == VARINT {
      VarintStable(a, b);
    } else if typ == BYTES {
      BytesStable(a, b);
    } else if typ == START_GROUP {
      SkipGroupStable(num, a, b, depth);
    }
  }

  lemma {:induction false} SkipGroupStable(num: nat, a: Bytes, b: Bytes, depth: int)
    requires SkipGroup(num, a, depth).Some?
    ensures SkipGroup(num, a + b, depth) == SkipGroup(num, a, depth)
    decreases |a|, 0
  {
    hide GetTag, SkipField;
    TagStable(a, b);
    var r := GetTag(a).value;
    if r.value.typ != END_GROUP {
      var rest := a[r.n..];
      SkipFieldStable(r.value.num, r.value.typ, rest, b, depth - 1);
      var m := SkipField(r.value.num, r.value.typ, rest, depth - 1).value;
      SkipGroupStable(num, rest[m..], b, depth);
      Beyond(a, b, r.n);
      Beyond(rest, b, m);
    }
  }

  // ----- UTF-8 -----

  predicate Continues(x: Byte) {
    0x80 <= x <= 0xbf
  }

  /** The length of the code point at the front of a byte string, zero if there is none. */
  function RuneLength(b: Bytes): (n: nat)
    ensures n <= |b|
  {
    if b == [] then 0
    else if b[0] < 0x80 then 1
    else if |b| < 2 || b[0] < 0xc2 || b[0] > 0xf4 || !Continues(b[1]) then 0
    else if b[0] < 0xe0 then 2
    else if |b| < 3 || !Continues(b[2]) then 0
    else if b[0] < 0xf0 then
      (if (b[0] == 0xe0 && b[1] < 0xa0) || (b[0] == 0xed && b[1] > 0x9f) then 0 else 3)
    else if |b| < 4 || !Continues(b[3]) then 0
    else if (b[0] == 0xf0 && b[1] < 0x90) || (b[0] == 0xf4 && b[1] > 0x8f) then 0
    else 4
  }

  predicate Utf8(b: Bytes) {
    b == [] || (RuneLength(b) > 0 && Utf8(b[RuneLength(b)..]))
  }

  // ----- reactions -----

  /** An empty emoji takes the reaction back. */
  datatype Reaction = Reaction(id: nat, emoji: Bytes)

  function EncodeInfo(r: Reaction): Bytes {
    PutTag(1, VARINT) + (PutVarint(r.id) + (PutTag(2, BYTES) + PutBytes(r.emoji)))
  }

  function EncodeMessage(r: Reaction): Bytes {
    PutTag(1, BYTES) + PutBytes(EncodeInfo(r))
  }

  function Encode(r: Reaction): Bytes {
    PutTag(1, BYTES) + PutBytes(EncodeMessage(r))
  }

  /** The fields of one reaction record; later ones replace earlier ones. */
  function ParseInfo(b: Bytes, sofar: Reaction): Option<Reaction>
    decreases |b|
  {
    if b == [] then (if sofar.id == 0 then None else Some(sofar))
    else match GetTag(b)
      case None => None
      case Some(t) =>
        var tag, rest := t.value, b[t.n..];
        if tag == Tag(1, VARINT) then
          match GetVarint(rest)
          case None => None
          case Some(v) => ParseInfo(rest[v.n..], sofar.(id := v.value))
        else if tag == Tag(2, BYTES) then
          match GetBytes(rest)
          case None => None
          case Some(raw) => if Utf8(raw.value) then ParseInfo(rest[raw.n..], sofar.(emoji := raw.value)) else None
        else
          match SkipField(tag.num, tag.typ, rest, RECURSION_LIMIT)
          case None => None
          case Some(n) => ParseInfo(rest[n..], sofar)
  }

  /** The first reaction record of a message, if it has one. */
  function ParseMessage(b: Bytes): Option<Option<Reaction>>
    decreases |b|
  {
    if b == [] then Some(None)
    else match GetTag(b)
      case None => None
      case Some(t) =>
        var tag, rest := t.value, b[t.n..];
        if tag == Tag(1, BYTES) then
          match GetBytes(rest)
          case None => None
          case Some(raw) =>
            match ParseInfo(raw.value, Reaction(0, []))
            case None => None
            case Some(r) => Some(Some(r))
        else
          match SkipField(tag.num, tag.typ, rest, RECURSION_LIMIT)
          case None => None
          case Some(n) => ParseMessage(rest[n..])
  }

  /** One field of a payload: the reaction it holds, if any. */
  function ParseField(b: Bytes): (r: Option<Read<seq<Reaction>>>)
    ensures r.Some? ==> 0 < r.value.n <= |b|
  {
    match GetTag(b)
    case None => None
    case Some(t) =>
      var tag, rest := t.value, b[t.n..];
      if tag == Tag(1, BYTES) then
        match GetBytes(rest)
        case None => None
        case Some(raw) =>
          match ParseMessage(raw.value)
          case None => None
          case Some(found) => Some(Read(if found.Some? then [found.value] else [], t.n + raw.n))
      else
        match SkipField(tag.num, tag.typ, rest, RECURSION_LIMIT)
        case None => None
        case Some(n) => Some(Read([], t.n + n))
  }

  /** All reactions of a payload, or nothing at all if any part of it is malformed. */
  function Parse(b: Bytes): Option<seq<Reaction>>
    decreases |b|
  {
    if b == [] then Some([])
    else match ParseField(b)
      case None => None
      case Some(f) => Prepend(f.value, Parse(b[f.n..]))
  }

  function Prepend(front: seq<Reaction>, rest: Option<seq<Reaction>>): Option<seq<Reaction>> {
    match rest
    case None => None
    case Some(s) => Some(front + s)
  }

  // ----- the decoders as they run -----

  method DecodeInfo(input: Bytes) returns (r: Option<Reaction>)
    ensures r == ParseInfo(input, Reaction(0, []))
  {
    var message, reaction := input, Reaction(0, []);
    while |message| > 0
      invariant ParseInfo(input, Reaction(0, [])) == ParseInfo(message, reaction)
      decreases |message|
    {
      var t := GetTag(message);
      if t.None? {
        return None;
      }
      var tag := t.value.value;
      message := message[t.value.n..];
      if tag == Tag(1, VARINT) {
        var v := GetVarint(message);
        if v.None? {
          return None;
        }
        reaction := reaction.(id := v.value.value);
        message := message[v.value.n..];
      } else if tag == Tag(2, BYTES) {
        var raw := GetBytes(message);
        if raw.None? || !Utf8(raw.value.value) {
          return None;
        }
        reaction := reaction.(emoji := raw.value.value);
        message := message[raw.value.n..];
      } else {
        var n := SkipField(tag.num, tag.typ, message, RECURSION_LIMIT);
        if n.None? {
          return None;
        }
        message := message[n.value..];
      }
    }
    return if reaction.id == 0 then None else Some(reaction);
  }

  method DecodeMessage(input: Bytes) returns (r: Option<Option<Reaction>>)
    ensures r == ParseMessage(input)
  {
    var message := input;
    while |message| > 0
      invariant ParseMessage(input) == ParseMessage(message)
      decreases |message|
    {
      var t := GetTag(message);
      if t.None? {
        return None;
      }
      var tag := t.value.value;
      message := message[t.value.n..];
      if tag == Tag(1, BYTES) {
        var raw := GetBytes(message);
        if raw.None? {
          return None;
        }
        var info := DecodeInfo(raw.value.value);
        return if info.None? then None else Some(info);
      }
      var n := SkipField(tag.num, tag.typ, message, RECURSION_LIMIT);
      if n.None? {
        return None;
      }
      message := message[n.value..];
    }
    return Some(None);
  }

  /** One round of the payload loop. */
  method DecodeField(payload: Bytes) returns (r: Option<Read<seq<Reaction>>>)
    ensures r == ParseField(payload)
  {
    hide GetTag, GetBytes, SkipField, ParseMessage;
    var t := GetTag(payload);
    if t.None? {
      return None;
    }
    var tag := t.value.value;
    var rest := payload[t.value.n..];
    if tag == Tag(1, BYTES) {
      var raw := GetBytes(rest);
      if raw.None? {
        return None;
      }
      var found := DecodeMessage(raw.value.value);
      if found.None? {
        return None;
      }
      return Some(Read(if found.value.Some? then [found.value.value] else [], t.value.n + raw.value.n));
    }
    var n := SkipField(tag.num, tag.typ, rest, RECURSION_LIMIT);
    if n.None? {
      return None;
    }
    return Some(Read([], t.value.n + n.value));
  }

  method Decode(input: Bytes) returns (r: Option<seq<Reaction>>)
    ensures r == Parse(input)
  {
    hide ParseField;
    var payload, reactions: seq<Reaction> := input, [];
    PrependTwice([], [], Parse(input));
    while |payload| > 0
      invariant Parse(input) == Prepend(reactions, Parse(payload))
      decreases |payload|
    {
      var field := DecodeField(payload);
      if field.None? {
        return None;
      }
      payload := payload[field.value.n..];
      PrependTwice(reactions, field.value.value, Parse(payload));
      reactions := reactions + field.value.value;
    }
    PrependTwice(reactions, [], Some([]));
    return Some(reactions);
  }

  lemma PrependTwice(a: seq<Reaction>, b: seq<Reaction>, rest: Option<seq<Reaction>>)
    ensures Prepend(a, Prepend(b, rest)) == Prepend(a + b, rest)
    ensures Prepend(a + [], rest) == Prepend(a, rest) && Prepend(a, Some([])) == Some(a)
    ensures Prepend([], rest) == rest
  {
    assert a + [] == a;
    if rest.Some? {
      assert [] + rest.value == rest.value;
      assert a + (b + rest.value) == (a + b) + rest.value;
    }
  }

  // ----- decoding inverts encoding -----

  lemma Behind(a: Bytes, b: Bytes)
    ensures (a + b)[|a|..] == b
  {
  }

  lemma RecordRoundTrip(num: nat, content: Bytes, tail: Bytes)
    requires 1 <= num <= MAX_FIELD && |content| < TWO64
    ensures var b := PutTag(num, BYTES) + PutBytes(content) + tail;
            && GetTag(b) == Some(Read(Tag(num, BYTES), |PutTag(num, BYTES)|))
            && b[|PutTag(num, BYTES)|..] == PutBytes(content) + tail
            && GetBytes(PutBytes(content) + tail) == Some(Read(content, |PutBytes(content)|))
            && (PutBytes(content) + tail)[|PutBytes(content)|..] == tail
  {
    var tag, record := PutTag(num, BYTES), PutBytes(content);
    assert tag + record + tail == tag + (record + tail);
    TagRoundTrip(num, BYTES, record + tail);
    Behind(tag, record + tail);
    BytesRoundTrip(content, tail);
    Behind(record, tail);
  }

  lemma InfoRoundTrip(r: Reaction)
    requires r.id < TWO64 && |r.emoji| < TWO64
    ensures ParseInfo(EncodeInfo(r), Reaction(0, [])) == if r.id != 0 && Utf8(r.emoji) then Some(r) else None
  {
    var emoji := PutTag(2, BYTES) + PutBytes(r.emoji);
    assert emoji + [] == emoji;
    RecordRoundTrip(2, r.emoji, []);
    assert PutBytes(r.emoji) + [] == PutBytes(r.emoji);
    var id := PutVarint(r.id);
    TagRoundTrip(1, VARINT, id + emoji);
    Behind(PutTag(1, VARINT), id + emoji);
    VarintRoundTrip(r.id, emoji);
    Behind(id, emoji);
    hide GetTag, GetVarint, GetBytes, PutTag, PutVarint, PutBytes, Utf8;
    assert ParseInfo(emoji, Reaction(r.id, [])) == if Utf8(r.emoji) then ParseInfo([], r) else None;
    assert ParseInfo(EncodeInfo(r), Reaction(0, [])) == ParseInfo(emoji, Reaction(r.id, []));
  }

  lemma MessageRoundTrip(r: Reaction)
    requires r.id < TWO64 && |EncodeInfo(r)| < TWO64
    ensures ParseMessage(EncodeMessage(r)) == if r.id != 0 && Utf8(r.emoji) then Some(Some(r)) else None
  {
    assert |r.emoji| <= |EncodeInfo(r)|;
    InfoRoundTrip(r);
    RecordRoundTrip(1, EncodeInfo(r), []);
    hide GetTag, GetBytes, PutTag, PutBytes, Utf8, ParseInfo, EncodeInfo;
    assert PutBytes(EncodeInfo(r)) + [] == PutBytes(EncodeInfo(r)) && EncodeMessage(r) + [] == EncodeMessage(r);
  }

  /** Decoding gives back exactly the reaction that was encoded, for every nonzero 64-bit
      transaction id and every valid UTF-8 emoji, and rejects every other encoding whole. */
  lemma RoundTrip(r: Reaction)
    requires r.id < TWO64 && |EncodeMessage(r)| < TWO64
    ensures Parse(Encode(r)) == if r.id != 0 && Utf8(r.emoji) then Some([r]) else None
  {
    assert |EncodeInfo(r)| <= |EncodeMessage(r)|;
    MessageRoundTrip(r);
    var message := EncodeMessage(r);
    RecordRoundTrip(1, message, []);
    hide GetTag, GetBytes, PutTag, PutBytes, Utf8, ParseMessage, EncodeMessage;
    assert PutBytes(message) + [] == PutBytes(message) && Encode(r) + [] == Encode(r);
    assert Encode(r)[|Encode(r)|..] == [] && Parse([]) == Some([]);
    assert [r] + [] == [r];
  }

  lemma FieldStable(a: Bytes, b: Bytes)
    requires ParseField(a).Some?
    ensures ParseField(a + b) == ParseField(a)
  {
    hide GetTag, GetBytes, SkipField, ParseMessage;
    TagStable(a, b);
    var t := GetTag(a).value;
    var rest := a[t.n..];
    assert (a + b)[t.n..] == rest + b;
    if t.value == Tag(1, BYTES) {
      BytesStable(rest, b);
    } else {
      SkipFieldStable(t.value.num, t.value.typ, rest, b, RECURSION_LIMIT);
    }
  }

  /** Payloads concatenate: the reactions of the first, then those of the second.  In particular
      fields the decoder does not know are passed over. */
  lemma {:induction false} ParseConcatenation(a: Bytes, b: Bytes)
    requires Parse(a).Some?
    ensures Parse(a + b) == Prepend(Parse(a).value, Parse(b))
    decreases |a|
  {
    if a == [] {
      assert a + b == b;
      PrependTwice([], [], Parse(b));
    } else {
      hide ParseField;
      FieldStable(a, b);
      var f := ParseField(a).value;
      var rest := a[f.n..];
      Beyond(a, b, f.n);
      assert Parse(rest).Some? && Parse(a).value == f.value + Parse(rest).value;
      assert Parse(a + b) == Prepend(f.value, Parse(rest + b));
      hide Parse, Prepend;
      ParseConcatenation(rest, b);
      PrependTwice(f.value, Parse(rest).value, Parse(b));
    }
  }
}
