/** The message layer of the wire format: field records, `skip*`, and the skeleton shared by every
    generated `Unmarshal` (sections "Message Structure", "Length-Delimited Records", "Groups" and
    "Last One Wins" of the Protocol Buffers Encoding specification). */
module Wire {
  import opened Bytes
  import opened Varint

  // ----- skip*: passing over one field of any kind, nested groups included

  /** One round of the skip loop: the bytes it took and the group depth after it. */
  datatype Step = Step(size: nat, depth: nat)

  /** The part of a round after the tag. */
  function SkipBody(body: Str, wireType: nat, tagSize: nat, depth: nat): Result<Step> {
    match wireType
    case 0 => (
      match ReadVarint(body)
      case Err => Err
      case Ok(v) => Ok(Step(tagSize + v.size, depth)))
    case 1 => if |body| < 8 then Err else Ok(Step(tagSize + 8, depth))
    case 2 => (
      match ReadVarint(body)
      case Err => Err
      case Ok(len) =>
        if len.size + len.value > |body| then Err
        else Ok(Step(tagSize + len.size + len.value, depth)))
    case 3 => Ok(Step(tagSize, depth + 1))
    case 4 => if depth == 0 then Err else Ok(Step(tagSize, depth - 1))
    case 5 => if |body| < 4 then Err else Ok(Step(tagSize + 4, depth))
    case _ => Err
  }

  /** A round of the loop, for input that it does not overrun. */
  function SkipStep(s: Str, depth: nat): (r: Result<Step>)
    ensures r.Ok? ==> 0 < r.value.size <= |s|
  {
    match ReadVarint(s)
    case Err => Err
    case Ok(tag) => SkipBody(s[tag.size..], tag.value % 8, tag.size, depth)
  }

  /** The number of bytes of the field that s starts with, when s holds all of it. */
  function Skip(s: Str, depth: nat): (r: Result<nat>)
    ensures r.Ok? ==> 0 < r.value <= |s|
    decreases |s|
  {
    match SkipStep(s, depth)
    case Err => Err
    case Ok(step) =>
      if step.depth == 0 then Ok(step.size)
      else
        match Skip(s[step.size..], step.depth)
        case Err => Err
        case Ok(n) => Ok(step.size + n)
  }

  lemma ReadVarintPrefix(a: Str, b: Str)
    requires ReadVarint(a).Ok?
    ensures ReadVarint(a + b) == ReadVarint(a)
  {
    ReadFromPrefix(a, b, 0, 0);
  }

  lemma SkipStepPrefix(a: Str, b: Str, depth: nat)
    requires SkipStep(a, depth).Ok?
    ensures SkipStep(a + b, depth) == SkipStep(a, depth)
  {
    ReadVarintPrefix(a, b);
    var body := a[ReadVarint(a).value.size..];
    assert (a + b)[ReadVarint(a).value.size..] == body + b;
    if ReadVarint(body).Ok? {
      ReadVarintPrefix(body, b);
    }
  }

  /** Skipping a field looks at the field's own bytes only. */
  lemma {:induction false} SkipPrefix(a: Str, b: Str, depth: nat)
    requires Skip(a, depth).Ok?
    ensures Skip(a + b, depth) == Skip(a, depth)
    decreases |a|
  {
    hide SkipStep;
    SkipStepPrefix(a, b, depth);
    var step := SkipStep(a, depth).value;
    if step.depth != 0 {
      assert (a + b)[step.size..] == a[step.size..] + b;
      SkipPrefix(a[step.size..], b, step.depth);
    }
  }

  // ----- the grammar of fields, independently of any loop

  /** A field as it stands on the wire: tags, values and lengths are varints in any spelling, overlong
      ones included. The tag that ends a group may carry any number, as in the code. */
  datatype Field =
    | VarintField(tag: Str, value: Str)
    | Fixed64(tag: Str, bytes: Str)
    | LenField(tag: Str, len: Str, bytes: Str)
    | Group(tag: Str, fields: seq<Field>, end: Str)
    | Fixed32(tag: Str, bytes: Str)

  /** The number that a varint denotes in a uint64. */
  function VarintValue(s: Str): nat {
    Base128(s) % TWO_64
  }

  predicate IsTag(s: Str, wireType: nat) {
    OneVarint(s) && VarintValue(s) % 8 == wireType
  }

  predicate WellFormed(f: Field) {
    match f
    case VarintField(tag, value) => IsTag(tag, 0) && OneVarint(value)
    case Fixed64(tag, bytes) => IsTag(tag, 1) && |bytes| == 8
    case LenField(tag, len, bytes) => IsTag(tag, 2) && OneVarint(len) && VarintValue(len) == |bytes|
    case Group(tag, fields, end) =>
      IsTag(tag, 3) && (forall k :: 0 <= k < |fields| ==> WellFormed(fields[k])) && IsTag(end, 4)
    case Fixed32(tag, bytes) => IsTag(tag, 5) && |bytes| == 4
  }

  function EncodeField(f: Field): Str
    decreases f, 0
  {
    match f
    case VarintField(tag, value) => tag + value
    case Fixed64(tag, bytes) => tag + bytes
    case LenField(tag, len, bytes) => tag + (len + bytes)
    case Group(tag, fields, end) => tag + (EncodeFields(fields) + end)
    case Fixed32(tag, bytes) => tag + bytes
  }

  function EncodeFields(fields: seq<Field>): Str
    decreases fields, 1
  {
    if fields == [] then [] else EncodeField(fields[0]) + EncodeFields(fields[1..])
  }

  /** A varint is read whole, whatever follows it. */
  lemma VarintReads(s: Str, rest: Str)
    requires OneVarint(s)
    ensures ReadVarint(s + rest) == Ok(Varint(VarintValue(s), |s|))
    ensures (s + rest)[|s|..] == rest
  {
    assert (s + rest)[..|s|] == s;
    ReadVarintMeaning(s + rest, |s|);
  }

  /** What is read is a varint. */
  lemma VarintRead(s: Str)
    requires ReadVarint(s).Ok?
    ensures var n := ReadVarint(s).value.size;
      n <= |s| && OneVarint(s[..n]) && VarintValue(s[..n]) == ReadVarint(s).value.value
  {
    ReadVarintMeaning(s, ReadVarint(s).value.size);
  }

  /** What skipping yields once n bytes are behind and the depth is `depth`. */
  function After(n: nat, rest: Str, depth: nat): Result<nat> {
    if depth == 0 then Ok(n)
    else
      match Skip(rest, depth)
      case Err => Err
      case Ok(m) => Ok(n + m)
  }

  /** One field that is not a group takes one round. */
  lemma SkipStepSimple(f: Field, rest: Str, depth: nat)
    requires WellFormed(f) && !f.Group?
    ensures SkipStep(EncodeField(f) + rest, depth) == Ok(Step(|EncodeField(f)|, depth))
  {
    hide ReadVarint, OneVarint, VarintValue;
    var body := EncodeField(f)[|f.tag|..];
    assert EncodeField(f) + rest == f.tag + (body + rest);
    match f
    case VarintField(tag, value) =>
      VarintReads(value, rest);
      SkipTagged(tag, 0, body + rest, depth);
    case Fixed64(tag, bytes) => SkipTagged(tag, 1, body + rest, depth);
    case LenField(tag, len, bytes) =>
      assert body + rest == len + (bytes + rest);
      VarintReads(len, bytes + rest);
      SkipTagged(tag, 2, body + rest, depth);
    case Fixed32(tag, bytes) => SkipTagged(tag, 5, body + rest, depth);
  }

  lemma SkipTagged(tag: Str, wireType: nat, body: Str, depth: nat)
    requires IsTag(tag, wireType)
    ensures SkipStep(tag + body, depth) == SkipBody(body, wireType, |tag|, depth)
  {
    hide ReadVarint, OneVarint, VarintValue, SkipBody;
    VarintReads(tag, body);
  }

  lemma SkipUnfold(s: Str, depth: nat, rest: Str, size: nat, depth': nat)
    requires SkipStep(s, depth) == Ok(Step(size, depth')) && s[size..] == rest
    ensures Skip(s, depth) == After(size, rest, depth')
  {}

  lemma Chain(s: Str, mid: Str, rest: Str, depth: nat, inner: nat, depth': nat, a: nat, b: nat)
    requires inner > 0
    requires Skip(s, depth) == After(a, mid, inner)
    requires Skip(mid, inner) == After(b, rest, depth')
    ensures Skip(s, depth) == After(a + b, rest, depth')
  {
    hide Skip;
  }

  lemma SkipTag(tag: Str, wireType: nat, rest: Str, depth: nat, depth': nat)
    requires IsTag(tag, wireType)
    requires (wireType == 3 && depth' == depth + 1) || (wireType == 4 && depth == depth' + 1)
    ensures Skip(tag + rest, depth) == After(|tag|, rest, depth')
  {
    hide SkipStep, Skip, IsTag;
    SkipTagged(tag, wireType, rest, depth);
    assert (tag + rest)[|tag|..] == rest;
    SkipUnfold(tag + rest, depth, rest, |tag|, depth');
  }

  /** `skip*` passes exactly one well-formed field, at any depth and whatever follows. */
  lemma {:induction false} SkipField(f: Field, rest: Str, depth: nat)
    requires WellFormed(f)
    ensures Skip(EncodeField(f) + rest, depth) == After(|EncodeField(f)|, rest, depth)
    decreases f, 0
  {
    hide Skip, SkipStep, After, IsTag, OneVarint;
    if f.Group? {
      var inner, tail := EncodeFields(f.fields), f.end + rest;
      assert EncodeField(f) + rest == f.tag + (inner + tail);
      SkipTag(f.tag, 3, inner + tail, depth, depth + 1);
      SkipFields(f.fields, tail, depth + 1);
      SkipTag(f.end, 4, rest, depth + 1, depth);
      Chain(f.tag + (inner + tail), inner + tail, tail, depth, depth + 1, depth + 1, |f.tag|, |inner|);
      Chain(f.tag + (inner + tail), tail, rest, depth, depth + 1, depth, |f.tag| + |inner|, |f.end|);
    } else {
      SkipStepSimple(f, rest, depth);
      assert (EncodeField(f) + rest)[|EncodeField(f)|..] == rest;
      SkipUnfold(EncodeField(f) + rest, depth, rest, |EncodeField(f)|, depth);
    }
  }

  lemma {:induction false} SkipFields(fields: seq<Field>, rest: Str, depth: nat)
    requires depth > 0 && forall k :: 0 <= k < |fields| ==> WellFormed(fields[k])
    ensures Skip(EncodeFields(fields) + rest, depth) == After(|EncodeFields(fields)|, rest, depth)
    decreases fields, 1
  {
    hide Skip, SkipStep;
    if fields == [] {
      assert EncodeFields(fields) + rest == rest;
    } else {
      var first, others := EncodeField(fields[0]), EncodeFields(fields[1..]);
      assert EncodeFields(fields) + rest == first + (others + rest);
      SkipField(fields[0], others + rest, depth);
      SkipFields(fields[1..], rest, depth);
      Chain(first + (others + rest), others + rest, rest, depth, depth, depth, |first|, |others|);
    }
  }

  // ----- and nothing else: what skip* passes is a well-formed field

  function WireType(f: Field): nat {
    match f
    case VarintField(_, _) => 0
    case Fixed64(_, _) => 1
    case LenField(_, _, _) => 2
    case Group(_, _, _) => 3
    case Fixed32(_, _) => 5
  }

  /** A round that neither opens nor closes a group passes one field. */
  lemma ParseSimple(s: Str, depth: nat) returns (f: Field)
    requires SkipStep(s, depth).Ok? && SkipStep(s, depth).value.depth == depth
    ensures WellFormed(f) && !f.Group? && EncodeField(f) == s[..SkipStep(s, depth).value.size]
  {
    VarintRead(s);
    var tag := ReadVarint(s).value;
    hide ReadVarint, OneVarint, VarintValue;
    f := ParseBody(s[..tag.size], s[tag.size..], tag.value % 8, depth);
    assert s == s[..tag.size] + s[tag.size..];
  }

  lemma ParseBody(tag: Str, body: Str, wireType: nat, depth: nat) returns (f: Field)
    requires IsTag(tag, wireType)
    requires SkipBody(body, wireType, |tag|, depth).Ok? && SkipBody(body, wireType, |tag|, depth).value.depth == depth
    ensures WellFormed(f) && !f.Group?
    ensures |tag| <= SkipBody(body, wireType, |tag|, depth).value.size <= |tag| + |body|
    ensures EncodeField(f) == tag + body[..SkipBody(body, wireType, |tag|, depth).value.size - |tag|]
  {
    hide ReadVarint, OneVarint, VarintValue;
    match wireType
    case 0 =>
      VarintRead(body);
      f := VarintField(tag, body[..ReadVarint(body).value.size]);
    case 1 => f := Fixed64(tag, body[..8]);
    case 2 =>
      VarintRead(body);
      var len := ReadVarint(body).value;
      f := LenField(tag, body[..len.size], body[len.size..len.size + len.value]);
      assert f.len + f.bytes == body[..len.size + len.value];
    case 5 => f := Fixed32(tag, body[..4]);
  }

  /** The group at whose depth s starts is closed by these fields and this end tag. */
  ghost predicate Closes(s: Str, depth: nat, fields: seq<Field>, end: Str) {
    && depth > 0 && (forall k :: 0 <= k < |fields| ==> WellFormed(fields[k])) && IsTag(end, 4)
    && EncodeFields(fields) + end <= s
    && var n := |EncodeFields(fields) + end|;
       Skip(s, depth) == After(n, s[n..], depth - 1)
  }

  /** What skipping passes inside a group: fields, and the tag that ends the group. */
  lemma {:induction false} ParseGroup(s: Str, depth: nat) returns (fields: seq<Field>, end: Str)
    requires depth > 0 && Skip(s, depth).Ok?
    ensures Closes(s, depth, fields, end)
    decreases |s|
  {
    var step := SkipStep(s, depth).value;
    var tag, rest := s[..step.size], s[step.size..];
    StepDepth(s, depth);
    SkipUnfold(s, depth, rest, step.size, step.depth);
    hide SkipStep, Skip, Closes, IsTag, WellFormed, EncodeField;
    if step.depth == depth {
      var f := ParseSimple(s, depth);
      var others, end' := ParseGroup(rest, depth);
      fields, end := [f] + others, end';
      Prepended(s, depth, f, others, end);
    } else if step.depth == depth + 1 {
      var inner, e := ParseGroup(rest, depth + 1);
      GroupPassed(s, depth, tag, inner, e);
      var f := Group(tag, inner, e);
      var others, end' := ParseGroup(s[|EncodeField(f)|..], depth);
      fields, end := [f] + others, end';
      Prepended(s, depth, f, others, end);
    } else {
      fields, end := [], tag;
      ClosesNow(s, depth, tag);
    }
  }

  lemma ClosesNow(s: Str, depth: nat, tag: Str)
    requires depth > 0 && IsTag(tag, 4) && tag <= s && Skip(s, depth) == After(|tag|, s[|tag|..], depth - 1)
    ensures Closes(s, depth, [], tag)
  {
    hide Skip, IsTag;
    assert EncodeFields([]) + tag == tag;
  }

  /** A start tag, what closes the group, and the end tag are one field. */
  lemma GroupPassed(s: Str, depth: nat, tag: Str, inner: seq<Field>, e: Str)
    requires tag <= s && IsTag(tag, 3) && Skip(s, depth) == After(|tag|, s[|tag|..], depth + 1)
    requires Closes(s[|tag|..], depth + 1, inner, e)
    ensures var f := Group(tag, inner, e);
      WellFormed(f) && EncodeField(f) <= s && Skip(s, depth) == After(|EncodeField(f)|, s[|EncodeField(f)|..], depth)
  {
    hide Skip, IsTag, After;
    var rest, x := s[|tag|..], EncodeFields(inner) + e;
    assert s == tag + rest && rest[|x|..] == s[|tag| + |x|..];
    Chain(s, rest, rest[|x|..], depth, depth + 1, depth, |tag|, |x|);
  }

  /** A field in front of what closes a group. */
  lemma Prepended(s: Str, depth: nat, f: Field, others: seq<Field>, end: Str)
    requires WellFormed(f) && depth > 0 && EncodeField(f) <= s
    requires Skip(s, depth) == After(|EncodeField(f)|, s[|EncodeField(f)|..], depth)
    requires Closes(s[|EncodeField(f)|..], depth, others, end)
    ensures Closes(s, depth, [f] + others, end)
  {
    hide Skip, IsTag, After, EncodeField;
    var first, x := EncodeField(f), EncodeFields(others) + end;
    var rest := s[|first|..];
    assert ([f] + others)[1..] == others;
    assert EncodeFields([f] + others) + end == first + x;
    assert s == first + rest && rest[|x|..] == s[|first| + |x|..];
    Chain(s, rest, rest[|x|..], depth, depth, depth - 1, |first|, |x|);
  }

  /** A round leaves the depth alone, or passes the tag that opens or closes a group. */
  lemma StepDepth(s: Str, depth: nat)
    requires SkipStep(s, depth).Ok?
    ensures var step := SkipStep(s, depth).value;
      || step.depth == depth
      || (step.depth == depth + 1 && IsTag(s[..step.size], 3))
      || (step.depth == depth - 1 && IsTag(s[..step.size], 4))
  {
    hide ReadVarint, OneVarint, VarintValue;
    VarintRead(s);
  }

  /** `skip*` succeeds exactly on inputs that start with a well-formed field, and passes that field. */
  lemma SkipExactly(s: Str, n: nat)
    ensures Skip(s, 0) == Ok(n) <==> exists f :: WellFormed(f) && EncodeField(f) <= s && |EncodeField(f)| == n
  {
    hide WellFormed, EncodeField, Skip;
    if Skip(s, 0) == Ok(n) {
      var f := ParseField(s);
    }
    if f :| WellFormed(f) && EncodeField(f) <= s && |EncodeField(f)| == n {
      SkipField(f, s[n..], 0);
      assert EncodeField(f) + s[n..] == s;
    }
  }

  lemma AfterAll(n: nat, rest: Str)
    ensures After(n, rest, 0) == Ok(n)
  {}

  lemma AfterOpen(rest: Str, n: nat, depth: nat)
    requires depth > 0 && After(n, rest, depth).Ok?
    ensures Skip(rest, depth).Ok?
  {
    hide Skip;
  }

  lemma ParseField(s: Str) returns (f: Field)
    requires Skip(s, 0).Ok?
    ensures WellFormed(f) && EncodeField(f) == s[..Skip(s, 0).value]
  {
    var step := SkipStep(s, 0).value;
    StepDepth(s, 0);
    if step.depth == 0 {
      f := ParseSimple(s, 0);
    } else {
      SkipUnfold(s, 0, s[step.size..], step.size, step.depth);
      hide *;
      f := ParseWholeGroup(s, s[..step.size]);
    }
  }

  lemma ParseWholeGroup(s: Str, tag: Str) returns (f: Field)
    requires tag <= s && IsTag(tag, 3) && Skip(s, 0) == After(|tag|, s[|tag|..], 1) && Skip(s, 0).Ok?
    ensures WellFormed(f) && EncodeField(f) == s[..Skip(s, 0).value]
  {
    hide *;
    var rest := s[|tag|..];
    AfterOpen(rest, |tag|, 1);
    var inner, e := ParseGroup(rest, 1);
    GroupPassed(s, 0, tag, inner, e);
    f := Group(tag, inner, e);
    AfterAll(|EncodeField(f)|, s[|EncodeField(f)|..]);
  }

  // ----- the skeleton of every generated Unmarshal

  /** How a message treats a field number: one of its length-delimited fields (string, bytes,
      embedded message), one of its varint fields, or a field it does not know. */
  datatype Kind = LenKind | VarintKind | Unknown

  /** The `switch fieldNum` of a message: the cases it has and what each one does to the receiver. */
  datatype Switch<!M> = Switch(
    kind: int -> Kind,
    onLen: (M, int, Str) -> Result<M>,
    onVarint: (M, int, nat) -> M)

  /** `int32(wire >> 3)`: the low 32 bits of the shifted tag, as a signed number. */
  function FieldNum(wire: nat): (num: int)
    ensures -0x8000_0000 <= num < 0x8000_0000
    ensures wire / 8 < 0x8000_0000 ==> num == wire / 8
  {
    var low := wire / 8 % 0x1_0000_0000;
    if low < 0x8000_0000 then low else low - 0x1_0000_0000
  }

  /** The receiver after one field and the bytes the field took. */
  datatype Taken<M> = Taken(m: M, size: nat)

  /** One round of the Unmarshal loop. */
  function DecodeOne<M>(sw: Switch<M>, m: M, s: Str): (r: Result<Taken<M>>)
    ensures r.Ok? ==> 0 < r.value.size <= |s|
  {
    match ReadVarint(s)
    case Err => Err
    case Ok(tag) =>
      var num, body := FieldNum(tag.value), s[tag.size..];
      if tag.value % 8 == 4 || num <= 0 then Err
      else
        match sw.kind(num)
        case LenKind => if tag.value % 8 != 2 then Err else DecodeLen(sw, m, num, body, tag.size)
        case VarintKind => if tag.value % 8 != 0 then Err else DecodeScalar(sw, m, num, body, tag.size)
        case Unknown =>
          match Skip(s, 0)
          case Err => Err
          case Ok(n) => Ok(Taken(m, n))
  }

  /** The length, the bounds checks and the payload of a length-delimited field. */
  function DecodeLen<M>(sw: Switch<M>, m: M, num: int, body: Str, tagSize: nat): (r: Result<Taken<M>>)
    ensures r.Ok? ==> tagSize <= r.value.size <= tagSize + |body|
  {
    match ReadVarint(body)
    case Err => Err
    case Ok(len) =>
      if len.size + len.value > |body| then Err
      else
        match sw.onLen(m, num, body[len.size..len.size + len.value])
        case Err => Err
        case Ok(m') => Ok(Taken(m', tagSize + len.size + len.value))
  }

  function DecodeScalar<M>(sw: Switch<M>, m: M, num: int, body: Str, tagSize: nat): (r: Result<Taken<M>>)
    ensures r.Ok? ==> tagSize <= r.value.size <= tagSize + |body|
  {
    match ReadVarint(body)
    case Err => Err
    case Ok(v) => Ok(Taken(sw.onVarint(m, num, v.value), tagSize + v.size))
  }

  /** `Unmarshal`: the receiver m after all the fields of s. */
  function Decode<M>(sw: Switch<M>, m: M, s: Str): Result<M>
    decreases |s|
  {
    if s == [] then Ok(m)
    else
      match DecodeOne(sw, m, s)
      case Err => Err
      case Ok(t) => Decode(sw, t.m, s[t.size..])
  }

  lemma DecodeOnePrefix<M>(sw: Switch<M>, m: M, a: Str, b: Str)
    requires DecodeOne(sw, m, a).Ok?
    ensures DecodeOne(sw, m, a + b) == DecodeOne(sw, m, a)
  {
    hide Skip;
    ReadVarintPrefix(a, b);
    var tag := ReadVarint(a).value;
    var num, body := FieldNum(tag.value), a[tag.size..];
    assert (a + b)[tag.size..] == body + b;
    match sw.kind(num)
    case LenKind => DecodeLenPrefix(sw, m, num, body, b, tag.size);
    case VarintKind => DecodeScalarPrefix(sw, m, num, body, b, tag.size);
    case Unknown => SkipPrefix(a, b, 0);
  }

  lemma DecodeLenPrefix<M>(sw: Switch<M>, m: M, num: int, a: Str, b: Str, tagSize: nat)
    requires DecodeLen(sw, m, num, a, tagSize).Ok?
    ensures DecodeLen(sw, m, num, a + b, tagSize) == DecodeLen(sw, m, num, a, tagSize)
  {
    hide ReadVarint;
    ReadVarintPrefix(a, b);
    var len := ReadVarint(a).value;
    assert (a + b)[len.size..len.size + len.value] == a[len.size..len.size + len.value];
  }

  lemma DecodeScalarPrefix<M>(sw: Switch<M>, m: M, num: int, a: Str, b: Str, tagSize: nat)
    requires DecodeScalar(sw, m, num, a, tagSize).Ok?
    ensures DecodeScalar(sw, m, num, a + b, tagSize) == DecodeScalar(sw, m, num, a, tagSize)
  {
    hide ReadVarint;
    ReadVarintPrefix(a, b);
  }

  /** Decoding a ++ b is decoding b on top of what a gave. */
  lemma {:induction false} DecodeConcat<M>(sw: Switch<M>, m: M, a: Str, b: Str)
    requires Decode(sw, m, a).Ok?
    ensures Decode(sw, m, a + b) == Decode(sw, Decode(sw, m, a).value, b)
    decreases |a|
  {
    hide DecodeOne;
    if a == [] {
      assert a + b == b;
    } else {
      DecodeOnePrefix(sw, m, a, b);
      var t := DecodeOne(sw, m, a).value;
      assert (a + b)[t.size..] == a[t.size..] + b;
      DecodeConcat(sw, t.m, a[t.size..], b);
    }
  }

  /** The field number of a field on the wire. */
  function Number(f: Field): int {
    FieldNum(VarintValue(f.tag))
  }

  lemma FieldTag(f: Field)
    requires WellFormed(f)
    ensures ReadVarint(EncodeField(f)) == Ok(Varint(VarintValue(f.tag), |f.tag|))
    ensures VarintValue(f.tag) % 8 == WireType(f)
    ensures EncodeField(f)[..|f.tag|] == f.tag
  {
    hide ReadVarint, VarintValue, OneVarint;
    var rest := EncodeField(f)[|f.tag|..];
    assert EncodeField(f) == f.tag + rest;
    VarintReads(f.tag, rest);
  }

  /** A field the message does not know leaves the receiver alone. */
  lemma DecodeUnknownField<M>(sw: Switch<M>, m: M, f: Field)
    requires WellFormed(f) && Number(f) > 0 && sw.kind(Number(f)) == Unknown
    ensures Decode(sw, m, EncodeField(f)) == Ok(m)
  {
    var s := EncodeField(f);
    FieldTag(f);
    SkipField(f, [], 0);
    assert s + [] == s;
    hide Skip, ReadVarint, EncodeField, VarintValue;
    assert Skip(s, 0) == Ok(|s|);
    assert DecodeOne(sw, m, s) == Ok(Taken(m, |s|));
    assert s[|s|..] == [];
  }

  /** Inserting a field the message does not know, at any field boundary, changes nothing. */
  lemma UnknownFieldIgnored<M>(sw: Switch<M>, m: M, a: Str, f: Field, b: Str)
    requires Decode(sw, m, a).Ok?
    requires WellFormed(f) && Number(f) > 0 && sw.kind(Number(f)) == Unknown
    ensures Decode(sw, m, a + EncodeField(f) + b) == Decode(sw, m, a + b)
  {
    var m' := Decode(sw, m, a).value;
    assert a + EncodeField(f) + b == a + (EncodeField(f) + b);
    hide Decode, EncodeField;
    DecodeConcat(sw, m, a, EncodeField(f) + b);
    DecodeUnknownField(sw, m', f);
    DecodeConcat(sw, m', EncodeField(f), b);
    DecodeConcat(sw, m, a, b);
  }

  /** A known length-delimited field does to the receiver what its case says. */
  lemma DecodeKnownLen<M>(sw: Switch<M>, m: M, f: Field)
    requires WellFormed(f) && f.LenField? && Number(f) > 0 && sw.kind(Number(f)) == LenKind
    ensures Decode(sw, m, EncodeField(f)) == sw.onLen(m, Number(f), f.bytes)
  {
    var s, body := EncodeField(f), f.len + f.bytes;
    hide ReadVarint, VarintValue, OneVarint, Skip, DecodeScalar;
    FieldTag(f);
    VarintReads(f.len, f.bytes);
    assert s[|f.tag|..] == body;
    assert body[|f.len|..|f.len| + |f.bytes|] == f.bytes;
    assert s[|s|..] == [];
  }

  /** A known varint field likewise. */
  lemma DecodeKnownVarint<M>(sw: Switch<M>, m: M, f: Field)
    requires WellFormed(f) && f.VarintField? && Number(f) > 0 && sw.kind(Number(f)) == VarintKind
    ensures Decode(sw, m, EncodeField(f)) == Ok(sw.onVarint(m, Number(f), VarintValue(f.value)))
  {
    var s := EncodeField(f);
    hide ReadVarint, VarintValue, OneVarint, Skip;
    FieldTag(f);
    VarintReads(f.value, []);
    assert f.value + [] == f.value && s[|f.tag|..] == f.value;
    assert s[|s|..] == [];
  }

  // ----- what Unmarshal accepts, and what it makes of it, without any loop

  /** What one field does to the receiver: a known field only with the wire type of its case, and no
      field with a number that is not positive. */
  function Apply<M>(sw: Switch<M>, m: M, f: Field): Result<M> {
    if Number(f) <= 0 then Err
    else
      match sw.kind(Number(f))
      case LenKind => if f.LenField? then sw.onLen(m, Number(f), f.bytes) else Err
      case VarintKind => if f.VarintField? then Ok(sw.onVarint(m, Number(f), VarintValue(f.value))) else Err
      case Unknown => Ok(m)
  }

  function ApplyAll<M>(sw: Switch<M>, m: M, fields: seq<Field>): Result<M> {
    if fields == [] then Ok(m)
    else
      match Apply(sw, m, fields[0])
      case Err => Err
      case Ok(m') => ApplyAll(sw, m', fields[1..])
  }

  ghost predicate AllWellFormed(fields: seq<Field>) {
    forall k :: 0 <= k < |fields| ==> WellFormed(fields[k])
  }

  /** One round of the loop applies one field. */
  lemma DecodeOneApplies<M>(sw: Switch<M>, m: M, f: Field)
    requires WellFormed(f)
    ensures DecodeOne(sw, m, EncodeField(f))
         == match Apply(sw, m, f) case Err => Err case Ok(m') => Ok(Taken(m', |EncodeField(f)|))
  {
    FieldTag(f);
    SkipWhole(f);
    if f.LenField? {
      LenFieldDecodes(sw, m, f);
    } else if f.VarintField? {
      VarintFieldDecodes(sw, m, f);
    }
    hide ReadVarint, OneVarint, VarintValue, Skip, FieldNum, DecodeLen, DecodeScalar;
  }

  lemma LenFieldDecodes<M>(sw: Switch<M>, m: M, f: Field)
    requires WellFormed(f) && f.LenField?
    ensures DecodeLen(sw, m, Number(f), EncodeField(f)[|f.tag|..], |f.tag|)
         == match sw.onLen(m, Number(f), f.bytes) case Err => Err case Ok(m') => Ok(Taken(m', |EncodeField(f)|))
  {
    hide ReadVarint, OneVarint, VarintValue, FieldNum;
    VarintReads(f.len, f.bytes);
    assert EncodeField(f)[|f.tag|..] == f.len + f.bytes;
    assert (f.len + f.bytes)[|f.len|..|f.len| + |f.bytes|] == f.bytes;
  }

  lemma VarintFieldDecodes<M>(sw: Switch<M>, m: M, f: Field)
    requires WellFormed(f) && f.VarintField?
    ensures DecodeScalar(sw, m, Number(f), EncodeField(f)[|f.tag|..], |f.tag|)
         == Ok(Taken(sw.onVarint(m, Number(f), VarintValue(f.value)), |EncodeField(f)|))
  {
    hide ReadVarint, OneVarint, VarintValue, FieldNum;
    VarintReads(f.value, []);
    assert f.value + [] == f.value && EncodeField(f)[|f.tag|..] == f.value;
  }

  lemma SkipWhole(f: Field)
    requires WellFormed(f)
    ensures Skip(EncodeField(f), 0) == Ok(|EncodeField(f)|)
  {
    hide Skip, WellFormed, EncodeField;
    SkipField(f, [], 0);
    assert EncodeField(f) + [] == EncodeField(f);
  }

  /** A round that succeeds has read one well-formed field. */
  lemma ParseOne<M>(sw: Switch<M>, m: M, s: Str) returns (f: Field)
    requires DecodeOne(sw, m, s).Ok?
    ensures WellFormed(f) && EncodeField(f) == s[..DecodeOne(sw, m, s).value.size]
  {
    VarintRead(s);
    var tag := ReadVarint(s).value;
    var body := s[tag.size..];
    hide ReadVarint, OneVarint, VarintValue, Skip, FieldNum;
    assert s == s[..tag.size] + body;
    match sw.kind(FieldNum(tag.value))
    case LenKind =>
      VarintRead(body);
      var len := ReadVarint(body).value;
      f := LenField(s[..tag.size], body[..len.size], body[len.size..len.size + len.value]);
      assert f.len + f.bytes == body[..len.size + len.value];
    case VarintKind =>
      VarintRead(body);
      f := VarintField(s[..tag.size], body[..ReadVarint(body).value.size]);
    case Unknown => f := ParseField(s);
  }

  /** Decoding an encoding applies its fields, one after the other. */
  lemma {:induction false} DecodeApplies<M>(sw: Switch<M>, m: M, fields: seq<Field>)
    requires AllWellFormed(fields)
    ensures Decode(sw, m, EncodeFields(fields)) == ApplyAll(sw, m, fields)
    decreases |fields|
  {
    hide DecodeOne, Apply, EncodeField, WellFormed;
    if fields != [] {
      var first, others := EncodeField(fields[0]), EncodeFields(fields[1..]);
      DecodeOneApplies(sw, m, fields[0]);
      FieldNonempty(fields[0]);
      if Apply(sw, m, fields[0]).Ok? {
        var m' := Apply(sw, m, fields[0]).value;
        DecodeOnePrefix(sw, m, first, others);
        assert (first + others)[|first|..] == others;
        DecodeApplies(sw, m', fields[1..]);
      } else {
        DecodeRejects(sw, m, fields[0], others);
      }
    }
  }

  lemma FieldNonempty(f: Field)
    requires WellFormed(f)
    ensures EncodeField(f) != []
  {}

  /** A field that is refused is refused whatever follows. */
  lemma DecodeRejects<M>(sw: Switch<M>, m: M, f: Field, rest: Str)
    requires WellFormed(f) && Apply(sw, m, f).Err?
    ensures DecodeOne(sw, m, EncodeField(f) + rest).Err?
  {
    var s := EncodeField(f);
    FieldTag(f);
    ReadVarintPrefix(s, rest);
    assert (s + rest)[|f.tag|..] == s[|f.tag|..] + rest;
    if f.LenField? {
      VarintReads(f.len, f.bytes + rest);
      assert (s + rest)[|f.tag|..] == f.len + (f.bytes + rest);
      assert (f.len + (f.bytes + rest))[|f.len|..|f.len| + |f.bytes|] == f.bytes;
    }
    hide ReadVarint, OneVarint, VarintValue, Skip, FieldNum;
  }

  lemma {:induction false} DecodeParses<M>(sw: Switch<M>, m: M, s: Str) returns (fields: seq<Field>)
    requires Decode(sw, m, s).Ok?
    ensures AllWellFormed(fields) && EncodeFields(fields) == s
    decreases |s|
  {
    hide DecodeOne, EncodeField, WellFormed;
    if s == [] {
      fields := [];
    } else {
      var t := DecodeOne(sw, m, s).value;
      var f := ParseOne(sw, m, s);
      var others := DecodeParses(sw, t.m, s[t.size..]);
      fields := [f] + others;
      assert fields[1..] == others;
      assert s == s[..t.size] + s[t.size..];
    }
  }

  /** Unmarshal succeeds with m' exactly on the sequences of well-formed fields that, applied one after
      the other, turn the receiver into m'. */
  lemma DecodeExactly<M>(sw: Switch<M>, m: M, s: Str, m': M)
    ensures Decode(sw, m, s) == Ok(m') <==>
      exists fields :: AllWellFormed(fields) && EncodeFields(fields) == s && ApplyAll(sw, m, fields) == Ok(m')
  {
    hide Decode, EncodeFields, ApplyAll, AllWellFormed;
    if Decode(sw, m, s) == Ok(m') {
      var fields := DecodeParses(sw, m, s);
      DecodeApplies(sw, m, fields);
      assert AllWellFormed(fields) && EncodeFields(fields) == s;
    }
    if fields :| AllWellFormed(fields) && EncodeFields(fields) == s && ApplyAll(sw, m, fields) == Ok(m') {
      DecodeApplies(sw, m, fields);
    }
  }

  /** Field numbers are cut to 32 bits, and zero and negative ones are refused. */
  lemma IllegalNumber<M>(sw: Switch<M>, m: M, s: Str)
    requires ReadVarint(s).Ok?
    requires var low := ReadVarint(s).value.value / 8 % 0x1_0000_0000; low == 0 || low >= 0x8000_0000
    ensures Decode(sw, m, s).Err?
  {
    hide ReadVarint, Skip;
  }

  /** Skipping by wire type, for tags of one byte: a varint, eight bytes, a length and as many bytes,
      four bytes; an end of group without its start and the unassigned types 6 and 7 are refused. */
  lemma SkipByWireType(tag: Byte, s: Str)
    requires tag < 128
    ensures tag % 8 == 0 ==> Skip([tag] + s, 0) == match ReadVarint(s) case Err => Err case Ok(v) => Ok(1 + v.size)
    ensures tag % 8 == 1 ==> Skip([tag] + s, 0) == if |s| >= 8 then Ok(9) else Err
    ensures tag % 8 == 2 ==> Skip([tag] + s, 0) == LengthAndPayload(s)
    ensures tag % 8 == 5 ==> Skip([tag] + s, 0) == if |s| >= 4 then Ok(5) else Err
    ensures tag % 8 in {4, 6, 7} ==> Skip([tag] + s, 0) == Err
  {
    if tag % 8 != 3 {
      SkipOneRound(tag, s);
    }
    hide ReadVarint, Skip;
  }

  /** The size of a length-delimited field with a tag of one byte. */
  function LengthAndPayload(s: Str): Result<nat> {
    match ReadVarint(s)
    case Err => Err
    case Ok(n) => if n.size + n.value <= |s| then Ok(1 + n.size + n.value) else Err
  }

  lemma SkipOneRound(tag: Byte, s: Str)
    requires tag < 128 && tag % 8 != 3
    ensures Skip([tag] + s, 0) == match SkipBody(s, tag % 8, 1, 0) case Err => Err case Ok(step) => Ok(step.size)
  {
    OneByte(tag, s);
    assert ([tag] + s)[1..] == s;
    if SkipBody(s, tag % 8, 1, 0).Ok? {
      DepthStays(s, tag % 8, 1);
    }
    hide ReadVarint, SkipBody;
  }

  lemma DepthStays(body: Str, wireType: nat, tagSize: nat)
    requires wireType != 3 && SkipBody(body, wireType, tagSize, 0).Ok?
    ensures SkipBody(body, wireType, tagSize, 0).value.depth == 0
  {
    hide ReadVarint;
  }

  lemma OneByte(tag: Byte, s: Str)
    requires tag < 128
    ensures ReadVarint([tag] + s) == Ok(Varint(tag, 1))
  {
    assert ([tag] + s)[..1] == [tag] && [tag][1..] == [];
    ReadVarintMeaning([tag] + s, 1);
  }

  /** Groups are counted: the field ends where the outermost group does, and not before. */
  lemma SkipNestedGroups(s: Str)
    ensures Skip([0x0b, 0x13, 0x14, 0x0c] + s, 0) == Ok(4)
    ensures Skip([0x0b, 0x13, 0x14], 0) == Err
  {
    hide ReadVarint, SkipBody;
    var all, open := [0x0b, 0x13, 0x14, 0x0c] + s, [0x0b, 0x13, 0x14];
    assert all == [0x0b] + ([0x13, 0x14, 0x0c] + s) && all[1..] == [0x13] + ([0x14, 0x0c] + s);
    assert all[1..][1..] == [0x14] + ([0x0c] + s) && all[1..][1..][1..] == [0x0c] + s;
    assert open == [0x0b] + [0x13, 0x14] && open[1..] == [0x13] + [0x14] && open[1..][1..] == [0x14] + [];
    GroupStepBytes(0x0b, [0x13, 0x14, 0x0c] + s, 0);
    GroupStepBytes(0x13, [0x14, 0x0c] + s, 1);
    GroupStepBytes(0x14, [0x0c] + s, 2);
    GroupStepBytes(0x0c, s, 1);
    GroupStepBytes(0x0b, [0x13, 0x14], 0);
    GroupStepBytes(0x13, [0x14], 1);
    GroupStepBytes(0x14, [], 2);
    hide SkipStep;
    NothingToSkip(1);
    var a3, a2, a1 := all[1..][1..][1..], all[1..][1..], all[1..];
    assert Skip(a3, 1) == Ok(1);
    assert Skip(a2, 2) == Ok(2);
    assert Skip(a1, 1) == Ok(3);
    var o2, o1 := open[1..][1..], open[1..];
    assert o2[1..] == [];
    assert Skip(o2, 2) == Err;
    assert Skip(o1, 1) == Err;
  }

  lemma NothingToSkip(depth: nat)
    ensures Skip([], depth) == Err
  {}

  lemma GroupStepBytes(tag: Byte, s: Str, depth: nat)
    requires tag < 128 && (tag % 8 == 3 || (tag % 8 == 4 && depth > 0))
    ensures SkipStep([tag] + s, depth) == Ok(Step(1, if tag % 8 == 3 then depth + 1 else depth - 1))
  {
    OneByte(tag, s);
    hide ReadVarint;
  }

  // ----- the fields that the generated code writes

  const MAX_FIELD_NUMBER: nat := 0x1FFF_FFFF

  function Tag(num: nat, wireType: nat): Str {
    VarintBytes(num * 8 + wireType)
  }

  function LenOf(num: nat, bytes: Str): Field {
    LenField(Tag(num, 2), VarintBytes(|bytes|), bytes)
  }

  function VarintOf(num: nat, v: nat): Field {
    VarintField(Tag(num, 0), VarintBytes(v))
  }

  /** What is written is one varint of that value. */
  lemma WrittenVarint(v: nat)
    requires v < TWO_64
    ensures OneVarint(VarintBytes(v)) && VarintValue(VarintBytes(v)) == v
  {
    VarintBytesMeaning(v);
    SovCounts(v);
    hide VarintBytes, Base128, Sov;
  }

  lemma WrittenTag(num: nat, wireType: nat)
    requires num <= MAX_FIELD_NUMBER && wireType < 8
    ensures IsTag(Tag(num, wireType), wireType) && FieldNum(VarintValue(Tag(num, wireType))) == num
  {
    var wire := num * 8 + wireType;
    assert wire % 8 == wireType && wire / 8 == num;
    WrittenVarint(wire);
    hide OneVarint, VarintValue, VarintBytes;
  }

  /** What is written is a well-formed field of its number. */
  lemma WrittenFields(num: nat, bytes: Str, v: nat)
    requires num <= MAX_FIELD_NUMBER && |bytes| < TWO_63 && v < TWO_64
    ensures WellFormed(LenOf(num, bytes)) && Number(LenOf(num, bytes)) == num
    ensures WellFormed(VarintOf(num, v)) && Number(VarintOf(num, v)) == num && VarintValue(VarintBytes(v)) == v
  {
    hide OneVarint, VarintValue, VarintBytes, FieldNum, Tag;
    WrittenTag(num, 0);
    WrittenTag(num, 2);
    WrittenVarint(v);
    WrittenVarint(|bytes|);
  }

  // ----- the loops of skip* and of the length-delimited cases

  /** `int(v)` for a uint64 v. */
  function IntOf(v: nat): (i: int)
    requires v < TWO_64
    ensures v < TWO_63 ==> i == v
    ensures v >= TWO_63 ==> i < 0
  {
    Int64(v)
  }

  /** The body of the skip loop. The index may run past the end, and may wrap around. */
  method SkipRound(dAtA: Str, i: nat, depth: nat) returns (ok: bool, iNdEx: int, depth': nat)
    requires i < |dAtA| < TWO_63
    ensures ok && 0 <= iNdEx <= |dAtA| ==> i < iNdEx && SkipStep(dAtA[i..], depth) == Ok(Step(iNdEx - i, depth'))
    ensures SkipStep(dAtA[i..], depth).Ok? ==> ok && 0 <= iNdEx <= |dAtA|
    ensures iNdEx < TWO_63
  {
    hide ReadVarint, Int64;
    ok, depth' := true, depth;
    var read, wire, at := DecodeVarint(dAtA, i);
    if !read {
      return false, 0, 0;
    }
    ghost var tag := ReadVarint(dAtA[i..]).value;
    assert dAtA[i..][tag.size..] == dAtA[at..];
    iNdEx := at;
    match wire % 8
    case 0 =>
      var read', _, after := DecodeVarint(dAtA, at);
      if !read' {
        return false, 0, 0;
      }
      iNdEx := after;
    case 1 => iNdEx := Int64(iNdEx + 8);
    case 2 =>
      var read', length, after := DecodeVarint(dAtA, at);
      if !read' {
        return false, 0, 0;
      }
      if IntOf(length) < 0 {
        return false, 0, 0;
      }
      iNdEx := Int64(after + IntOf(length));
    case 3 => depth' := depth + 1;
    case 4 =>
      if depth == 0 {
        return false, 0, 0;
      }
      depth' := depth - 1;
    case 5 => iNdEx := Int64(iNdEx + 4);
    case _ => return false, 0, 0;
  }

  /** `skip*`. When the field overruns the input the loop may still return a size, beyond the end:
      the caller's bounds check rejects it. */
  method SkipLoop(dAtA: Str) returns (ok: bool, n: int)
    requires |dAtA| < TWO_63
    ensures ok && 0 <= n <= |dAtA| ==> Skip(dAtA, 0) == Ok(n)
    ensures Skip(dAtA, 0).Ok? ==> ok && 0 <= n <= |dAtA|
    ensures n < TWO_63
  {
    hide SkipStep;
    var iNdEx: int := 0;
    var depth := 0;
    while iNdEx < |dAtA|
      invariant 0 <= iNdEx && (iNdEx == 0 ==> depth == 0) && (iNdEx > 0 ==> depth > 0)
      invariant iNdEx == 0 || Skip(dAtA, 0) == if iNdEx <= |dAtA| then After(iNdEx, dAtA[iNdEx..], depth) else Err
      decreases |dAtA| - iNdEx
    {
      ghost var was := iNdEx;
      ghost var here := Skip(dAtA[was..], depth);
      assert was == 0 ==> dAtA[was..] == dAtA;
      var ok', iNdEx', depth' := SkipRound(dAtA, iNdEx, depth);
      SkipStepOf(dAtA, was, depth);
      if !ok' {
        return false, 0;
      }
      iNdEx, depth := iNdEx', depth';
      if iNdEx < 0 {
        return false, 0;
      }
      if depth == 0 {
        return true, iNdEx;
      }
    }
    return false, 0;
  }

  lemma SkipStepOf(s: Str, i: nat, depth: nat)
    requires i < |s|
    ensures SkipStep(s[i..], depth).Err? ==> Skip(s[i..], depth) == Err
    ensures SkipStep(s[i..], depth).Ok? ==>
      var step := SkipStep(s[i..], depth).value;
      Skip(s[i..], depth) == After(step.size, s[i + step.size..], step.depth)
  {
    if SkipStep(s[i..], depth).Ok? {
      var step := SkipStep(s[i..], depth).value;
      assert s[i..][step.size..] == s[i + step.size..];
    }
  }
}
