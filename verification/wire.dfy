/** What a packed message is, byte by byte. */
module Wire {
  import opened Wrappers
  import opened Protocol
  import opened Bytes
  import opened Binary64
  import opened Codec
  import opened Framing
  import opened RoundTrips

  // ----- The format, without any of the packer's functions -----

  /** The unsigned number whose bytes a signed one shares: two's complement in 64 bits. */
  function Unsigned64(n: int): int {
    if n < 0 then n + 0x1_0000_0000_0000_0000 else n
  }

  predicate ShortAt(b: seq<Byte>, at: nat, n: int) {
    at + 2 <= |b| && b[at] == n / 256 && b[at + 1] == n % 256
  }

  /** Digit `i` of a number to the base 256; digit 0 is the least significant. */
  function Digit(n: int, i: nat): int
    decreases i
  {
    if i == 0 then n % 256 else Digit(n / 256, i - 1)
  }

  /** Eight bytes, most significant first. */
  ghost predicate BigAt(b: seq<Byte>, at: nat, n: int) {
    at + 8 <= |b| && forall i: nat :: i < 8 ==> b[at + 7 - i] == Digit(n, i)
  }

  /** Eight bytes, least significant first. */
  ghost predicate LittleAt(b: seq<Byte>, at: nat, n: int) {
    at + 8 <= |b| && forall i: nat :: i < 8 ==> b[at + i] == Digit(n, i)
  }

  /** A string part: code, length, the characters' codes, and a zero byte. */
  ghost predicate StringAt(b: seq<Byte>, at: nat, code: nat, s: string) {
    && at + 5 + |s| <= |b|
    && ShortAt(b, at, code) && ShortAt(b, at + 2, 5 + |s|)
    && (forall i :: 0 <= i < |s| ==> b[at + 4 + i] == s[i] as int)
    && b[at + 4 + |s|] == 0
  }

  /** A number part: code, the length 12, and the number. */
  ghost predicate NumberAt(b: seq<Byte>, at: nat, code: nat, n: int) {
    ShortAt(b, at, code) && ShortAt(b, at + 2, 12) && BigAt(b, at + 4, Unsigned64(n))
  }

  /** One element: a GAUGE as a little-endian double, anything else big-endian. */
  ghost predicate DatumAt(b: seq<Byte>, at: nat, t: DsType, d: Datum) {
    match (t, d)
    case (Gauge, Double(w)) => LittleAt(b, at, w)
    case (Gauge, Whole(n)) => WordOf(n).Some? && LittleAt(b, at, WordOf(n).value)
    case (_, Whole(n)) => BigAt(b, at, Unsigned64(n))
    case _ => false
  }

  function TypeByte(t: DsType): int {
    match t
    case Counter => 0
    case Gauge => 1
    case Derive => 2
    case Absolute => 3
  }

  /** The values part: code 6, length 6 + 9 per field, the number of fields, a byte per
      field, and then the elements. */
  ghost predicate ValuesAt(b: seq<Byte>, at: nat, fields: seq<Field>, values: seq<Datum>) {
    TypesAt(b, at, fields) && ElementsAt(b, at + 6 + |fields|, fields, values)
  }

  ghost predicate TypesAt(b: seq<Byte>, at: nat, fields: seq<Field>) {
    var n := |fields|;
    && at + 6 + n <= |b|
    && ShortAt(b, at, 6) && ShortAt(b, at + 2, 6 + 9 * n) && ShortAt(b, at + 4, n)
    && forall i :: 0 <= i < n ==> b[at + 6 + i] == TypeByte(fields[i].dsType)
  }

  ghost predicate ElementsAt(b: seq<Byte>, at: nat, fields: seq<Field>, values: seq<Datum>) {
    forall i :: 0 <= i < |fields| && i < |values| ==> DatumAt(b, at + 8 * i, fields[i].dsType, values[i])
  }

  // ----- Numbers -----

  lemma {:induction false} BigEndianAt(n: nat, k: nat, i: nat)
    requires n < Pow256(k) && i < k
    ensures BigEndian(n, k)[k - 1 - i] == Digit(n, i)
  {
    if i > 0 {
      BigEndianAt(n / 256, k - 1, i - 1);
    }
  }

  lemma ShortBytes(n: nat)
    requires n < TWO_16
    ensures ShortAt(PackShort(n), 0, n)
  {
    Widths();
    BigEndianAt(n, 2, 0);
    BigEndianAt(n, 2, 1);
    assert Digit(n, 1) == Digit(n / 256, 0);
  }

  lemma UnsignedBytes(n: nat)
    requires n < TWO_64
    ensures BigAt(PackUnsigned(n), 0, n)
  {
    Widths();
    forall i: nat | i < 8 ensures PackUnsigned(n)[0 + 7 - i] == Digit(n, i) {
      BigEndianAt(n, 8, i);
    }
  }

  lemma WordBytesAt(w: nat)
    requires w < TWO_64
    ensures LittleAt(PackWord(w), 0, w)
  {
    var p, q := PackWord(w), PackUnsigned(w);
    UnsignedBytes(w);
    forall i: nat | i < 8 ensures p[0 + i] == Digit(w, i) {
      assert q[0 + 7 - i] == Digit(w, i);
      assert p[i] == q[7 - i];
    }
  }

  lemma DatumBytes(t: DsType, d: Datum)
    requires PackDatum(t, d).Success?
    ensures DatumAt(PackDatum(t, d).value, 0, t, d)
  {
    match (t, d)
    case (Gauge, Double(w)) => WordBytesAt(w);
    case (Gauge, Whole(n)) => WordBytesAt(WordOf(n).value);
    case (_, Whole(n)) => UnsignedBytes(Unsigned64(n));
    case (_, Double(_)) =>
  }

  // ----- Parts, where they stand -----

  /** Part `p` stands at offset `at`. */
  predicate PartAt(b: seq<Byte>, at: nat, p: seq<Byte>) {
    at + |p| <= |b| && b[at..at + |p|] == p
  }

  lemma ByteOf(b: seq<Byte>, at: nat, p: seq<Byte>, i: nat)
    requires PartAt(b, at, p) && i < |p|
    ensures b[at + i] == p[i]
  {
    assert b[at..at + |p|][i] == b[at + i];
  }

  lemma ShortWithin(b: seq<Byte>, at: nat, p: seq<Byte>, i: nat, n: int)
    requires PartAt(b, at, p) && ShortAt(p, i, n)
    ensures ShortAt(b, at + i, n)
  {
    ByteOf(b, at, p, i);
    ByteOf(b, at, p, i + 1);
  }

  lemma BigWithin(b: seq<Byte>, at: nat, p: seq<Byte>, i: nat, n: int)
    requires PartAt(b, at, p) && BigAt(p, i, n)
    ensures BigAt(b, at + i, n)
  {
    forall j: nat | j < 8 ensures b[at + i + 7 - j] == Digit(n, j) {
      ByteOf(b, at, p, i + 7 - j);
      assert p[i + 7 - j] == Digit(n, j);
    }
  }

  lemma LittleWithin(b: seq<Byte>, at: nat, p: seq<Byte>, i: nat, n: int)
    requires PartAt(b, at, p) && LittleAt(p, i, n)
    ensures LittleAt(b, at + i, n)
  {
    forall j: nat | j < 8 ensures b[at + i + j] == Digit(n, j) {
      ByteOf(b, at, p, i + j);
      assert p[i + j] == Digit(n, j);
    }
  }

  lemma DatumWithin(b: seq<Byte>, at: nat, p: seq<Byte>, i: nat, t: DsType, d: Datum)
    requires PartAt(b, at, p) && DatumAt(p, i, t, d)
    ensures DatumAt(b, at + i, t, d)
  {
    match (t, d)
    case (Gauge, Double(w)) => LittleWithin(b, at, p, i, w);
    case (Gauge, Whole(n)) => LittleWithin(b, at, p, i, WordOf(n).value);
    case (_, Whole(n)) => BigWithin(b, at, p, i, Unsigned64(n));
  }

  lemma HeaderBytes(code: nat, len: nat, body: seq<Byte>)
    requires code < TWO_16 && len < TWO_16
    ensures ShortAt(Header(code, len) + body, 0, code) && ShortAt(Header(code, len) + body, 2, len)
  {
    ShortBytes(code);
    ShortBytes(len);
  }

  lemma StringBytes(b: seq<Byte>, at: nat, code: nat, s: Option<string>)
    requires code < TWO_16 && PackString(code, s).Success? && PartAt(b, at, PackString(code, s).value)
    ensures StringAt(b, at, code, s.GetOr(""))
  {
    var text, p := s.GetOr(""), PackString(code, s).value;
    var body := EncodeAscii(text) + [0];
    assert p == Header(code, 5 + |text|) + body;
    HeaderBytes(code, 5 + |text|, body);
    ShortWithin(b, at, p, 0, code);
    ShortWithin(b, at, p, 2, 5 + |text|);
    forall i | 0 <= i < |text| ensures b[at + 4 + i] == text[i] as int {
      ByteOf(b, at, p, 4 + i);
      assert p[4 + i] == body[i];
    }
    ByteOf(b, at, p, 4 + |text|);
  }

  lemma NumberBytes(b: seq<Byte>, at: nat, code: nat, n: int)
    requires code < TWO_16 && PackNumber(code, n).Success? && PartAt(b, at, PackNumber(code, n).value)
    ensures NumberAt(b, at, code, n)
  {
    var p := PackNumber(code, n).value;
    HeaderBytes(code, 12, PackLong(n));
    UnsignedBytes(Unsigned64(n));
    assert PartAt(p, 4, PackLong(n));
    BigWithin(p, 4, PackLong(n), 0, Unsigned64(n));
    ShortWithin(b, at, p, 0, code);
    ShortWithin(b, at, p, 2, 12);
    BigWithin(b, at, p, 4, Unsigned64(n));
  }

  lemma TemplateAt(t: Type, data: seq<Byte>)
    requires 6 + 9 * |t.fields| < TWO_16
    ensures TypesAt(Template(t) + data, 0, t.fields) && PartAt(Template(t) + data, 6 + |t.fields|, data)
  {
    var n, p := |t.fields|, Template(t) + data;
    var rest := TypeCodes(t.fields) + data;
    assert p == Header(TYPE_VALUES, 6 + 9 * n) + (PackShort(n) + rest);
    HeaderBytes(TYPE_VALUES, 6 + 9 * n, PackShort(n) + rest);
    ShortAfter(Header(TYPE_VALUES, 6 + 9 * n), n, rest);
    CodesAfter(p, t.fields, data);
  }

  lemma ShortAfter(a: seq<Byte>, n: nat, rest: seq<Byte>)
    requires n < TWO_16
    ensures ShortAt(a + (PackShort(n) + rest), |a|, n)
  {
    ShortBytes(n);
    var p := a + (PackShort(n) + rest);
    assert p[|a|] == PackShort(n)[0] && p[|a| + 1] == PackShort(n)[1];
  }

  lemma CodesAfter(p: seq<Byte>, fields: seq<Field>, data: seq<Byte>)
    requires |p| == 6 + |fields| + |data| && p[6..] == TypeCodes(fields) + data
    ensures forall i :: 0 <= i < |fields| ==> p[6 + i] == TypeByte(fields[i].dsType)
    ensures PartAt(p, 6 + |fields|, data)
  {
    forall i | 0 <= i < |fields| ensures p[6 + i] == TypeByte(fields[i].dsType) {
      assert p[6 + i] == p[6..][i] == TypeCodes(fields)[i];
    }
    assert p[6 + |fields|..] == p[6..][|fields|..] == data;
  }

  lemma {:induction false} ElementAt(fields: seq<Field>, values: seq<Datum>, i: nat)
    requires PackData(fields, values).Success? && i < |fields| && i < |values|
    ensures DatumAt(PackData(fields, values).value, 8 * i, fields[i].dsType, values[i])
  {
    var data := PackData(fields, values).value;
    DataColumn(fields, values, i);
    DatumBytes(fields[i].dsType, values[i]);
    var p := PackDatum(fields[i].dsType, values[i]).value;
    assert PartAt(data, 8 * i, p);
    DatumWithin(data, 8 * i, p, 0, fields[i].dsType, values[i]);
  }

  lemma PayloadBytes(b: seq<Byte>, at: nat, t: Type, values: seq<Datum>)
    requires 6 + 9 * |t.fields| < TWO_16 && EncodedValues(t, values).Success?
    requires PartAt(b, at, EncodedValues(t, values).value)
    ensures ValuesAt(b, at, t.fields, values)
  {
    PayloadTypes(b, at, t, values);
    PayloadElements(b, at, t, values);
  }

  lemma PayloadTypes(b: seq<Byte>, at: nat, t: Type, values: seq<Datum>)
    requires 6 + 9 * |t.fields| < TWO_16 && EncodedValues(t, values).Success?
    requires PartAt(b, at, EncodedValues(t, values).value)
    ensures TypesAt(b, at, t.fields)
  {
    TypesStand(b, at, t, EncodedValues(t, values).value, PackData(t.fields, values).value);
  }

  lemma PayloadElements(b: seq<Byte>, at: nat, t: Type, values: seq<Datum>)
    requires 6 + 9 * |t.fields| < TWO_16 && EncodedValues(t, values).Success?
    requires PartAt(b, at, EncodedValues(t, values).value)
    ensures ElementsAt(b, at + 6 + |t.fields|, t.fields, values)
  {
    forall i | 0 <= i < |t.fields| && i < |values|
      ensures DatumAt(b, at + 6 + |t.fields| + 8 * i, t.fields[i].dsType, values[i])
    {
      PayloadElement(b, at, t, values, i);
    }
  }

  lemma PayloadElement(b: seq<Byte>, at: nat, t: Type, values: seq<Datum>, i: nat)
    requires 6 + 9 * |t.fields| < TWO_16 && EncodedValues(t, values).Success?
    requires PartAt(b, at, EncodedValues(t, values).value) && i < |t.fields| && i < |values|
    ensures DatumAt(b, at + 6 + |t.fields| + 8 * i, t.fields[i].dsType, values[i])
  {
    DataStands(t, values);
    ElementThrough(b, at, EncodedValues(t, values).value, 6 + |t.fields|, t.fields, values, i);
  }

  lemma {:induction false} ElementThrough(b: seq<Byte>, at: nat, p: seq<Byte>, from: nat, fields: seq<Field>, values: seq<Datum>, i: nat)
    requires PackData(fields, values).Success? && i < |fields| && i < |values|
    requires PartAt(b, at, p) && PartAt(p, from, PackData(fields, values).value)
    ensures DatumAt(b, at + from + 8 * i, fields[i].dsType, values[i])
  {
    ElementAt(fields, values, i);
    ElementWithin(b, at, p, from, PackData(fields, values).value, 8 * i, fields[i].dsType, values[i]);
  }

  lemma {:induction false} DataStands(t: Type, values: seq<Datum>)
    requires 6 + 9 * |t.fields| < TWO_16 && EncodedValues(t, values).Success?
    ensures PackData(t.fields, values).Success?
    ensures PartAt(EncodedValues(t, values).value, 6 + |t.fields|, PackData(t.fields, values).value)
  {
    TemplateAt(t, PackData(t.fields, values).value);
  }

  lemma TypesStand(b: seq<Byte>, at: nat, t: Type, p: seq<Byte>, data: seq<Byte>)
    requires 6 + 9 * |t.fields| < TWO_16 && p == Template(t) + data && PartAt(b, at, p)
    ensures TypesAt(b, at, t.fields)
  {
    TemplateAt(t, data);
    TypesWithin(b, at, p, t.fields);
  }

  lemma TypesWithin(b: seq<Byte>, at: nat, p: seq<Byte>, fields: seq<Field>)
    requires PartAt(b, at, p) && TypesAt(p, 0, fields)
    ensures TypesAt(b, at, fields)
  {
    ShortWithin(b, at, p, 0, 6);
    ShortWithin(b, at, p, 2, 6 + 9 * |fields|);
    ShortWithin(b, at, p, 4, |fields|);
    forall i | 0 <= i < |fields| ensures b[at + 6 + i] == TypeByte(fields[i].dsType) {
      ByteOf(b, at, p, 6 + i);
      assert p[0 + 6 + i] == TypeByte(fields[i].dsType);
    }
  }

  lemma ElementWithin(b: seq<Byte>, at: nat, p: seq<Byte>, from: nat, data: seq<Byte>, i: nat, t: DsType, d: Datum)
    requires PartAt(b, at, p) && PartAt(p, from, data) && DatumAt(data, i, t, d)
    ensures DatumAt(b, at + from + i, t, d)
  {
    DatumWithin(p, from, data, i, t, d);
    DatumWithin(b, at, p, from + i, t, d);
  }

  // ----- The message -----

  /** Where part `i` begins. */
  function Offset(ps: seq<seq<Byte>>, i: nat): nat
    requires i <= |ps|
  {
    if i == 0 then 0 else Offset(ps, i - 1) + |ps[i - 1]|
  }

  lemma {:induction false} OffsetOfRest(ps: seq<seq<Byte>>, i: nat)
    requires 0 < i <= |ps|
    ensures Offset(ps, i) == |ps[0]| + Offset(ps[1..], i - 1)
  {
    if i > 1 {
      OffsetOfRest(ps, i - 1);
    }
  }

  lemma {:induction false} JoinAt(ps: seq<seq<Byte>>, i: nat)
    requires i < |ps|
    ensures PartAt(Join(ps), Offset(ps, i), ps[i])
  {
    if i > 0 {
      JoinAt(ps[1..], i - 1);
      OffsetOfRest(ps, i);
      var b, rest, at := Join(ps), Join(ps[1..]), Offset(ps[1..], i - 1);
      assert b[|ps[0]| + at..|ps[0]| + at + |ps[i]|] == rest[at..at + |ps[i]|];
    }
  }

  lemma {:induction false} PartOfMessage(types: Registry, v: Values<Datum>, i: nat)
    requires Registered(types) && PackValues(types, v).Success? && i < 8
    ensures PartAt(PackValues(types, v).value, Offset(MessageParts(types, v), i), MessageParts(types, v)[i])
  {
    MessageJoins(types, v);
    JoinAt(MessageParts(types, v), i);
  }

  lemma Offsets(types: Registry, v: Values<Datum>)
    requires Registered(types) && PackValues(types, v).Success?
    ensures var ps := MessageParts(types, v);
      && Offset(ps, 0) == 0 && Offset(ps, 1) == 5 + StringLength(v.host) && Offset(ps, 2) == Offset(ps, 1) + 12
      && Offset(ps, 3) == Offset(ps, 2) + 5 + StringLength(v.plugin)
      && Offset(ps, 4) == Offset(ps, 3) + 5 + StringLength(v.pluginInstance)
      && Offset(ps, 5) == Offset(ps, 4) + 5 + StringLength(v.typeName) && Offset(ps, 6) == Offset(ps, 5) + 12
      && Offset(ps, 7) == Offset(ps, 6) + 5 + StringLength(v.typeInstance)
  {
    StringsFramed(types, v);
    NumbersFramed(types, v);
  }

  /** The bytes of a record: host, time, plugin, plugin instance, type, interval, type
      instance and values, one after the other. */
  ghost predicate IsMessage(b: seq<Byte>, fields: seq<Field>, v: Values<Datum>)
    requires v.time.Some?
  {
    var h, p, q, t, s := v.host.GetOr(""), v.plugin.GetOr(""), v.pluginInstance.GetOr(""), v.typeName.GetOr(""), v.typeInstance.GetOr("");
    && StringAt(b, 0, 0, h)
    && NumberAt(b, 5 + |h|, 1, Trunc(v.time.value))
    && StringAt(b, 17 + |h|, 2, p)
    && StringAt(b, 22 + |h| + |p|, 3, q)
    && StringAt(b, 27 + |h| + |p| + |q|, 4, t)
    && NumberAt(b, 32 + |h| + |p| + |q| + |t|, 7, v.interval)
    && StringAt(b, 44 + |h| + |p| + |q| + |t|, 5, s)
    && ValuesAt(b, 49 + |h| + |p| + |q| + |t| + |s|, fields, v.values)
  }

  /** Every packable record is packed into exactly these bytes. */
  lemma MessageBytes(types: Registry, v: Values<Datum>)
    requires Registered(types) && Packable(types, v)
    ensures PackValues(types, v).Success?
    ensures IsMessage(PackValues(types, v).value, types[v.typeName.value].fields, v)
  {
    PackSucceedsIff(types, v);
    Offsets(types, v);
    StringsStand(types, v);
    NumbersStand(types, v);
    PayloadStands(types, v);
    var b, ps, fields := PackValues(types, v).value, MessageParts(types, v), types[v.typeName.value].fields;
    Assembled(b, fields, v, Offset(ps, 1), Offset(ps, 2), Offset(ps, 3), Offset(ps, 4), Offset(ps, 5), Offset(ps, 6), Offset(ps, 7));
  }

  lemma Assembled(b: seq<Byte>, fields: seq<Field>, v: Values<Datum>, a1: nat, a2: nat, a3: nat, a4: nat, a5: nat, a6: nat, a7: nat)
    requires v.time.Some? && v.typeName.Some?
    requires StringAt(b, 0, 0, v.host.GetOr("")) && NumberAt(b, a1, 1, Trunc(v.time.value))
    requires StringAt(b, a2, 2, v.plugin.GetOr("")) && StringAt(b, a3, 3, v.pluginInstance.GetOr(""))
    requires StringAt(b, a4, 4, v.typeName.value) && NumberAt(b, a5, 7, v.interval)
    requires StringAt(b, a6, 5, v.typeInstance.GetOr("")) && ValuesAt(b, a7, fields, v.values)
    requires a1 == 5 + StringLength(v.host) && a2 == a1 + 12 && a3 == a2 + 5 + StringLength(v.plugin)
    requires a4 == a3 + 5 + StringLength(v.pluginInstance) && a5 == a4 + 5 + StringLength(v.typeName)
    requires a6 == a5 + 12 && a7 == a6 + 5 + StringLength(v.typeInstance)
    ensures IsMessage(b, fields, v)
  {
  }

  lemma PayloadStands(types: Registry, v: Values<Datum>)
    requires Registered(types) && PackValues(types, v).Success?
    ensures ValuesAt(PackValues(types, v).value, Offset(MessageParts(types, v), 7), types[v.typeName.value].fields, v.values)
  {
    PartOfMessage(types, v, 7);
    PayloadBytes(PackValues(types, v).value, Offset(MessageParts(types, v), 7), types[v.typeName.value], v.values);
  }

  lemma StringsStand(types: Registry, v: Values<Datum>)
    requires Registered(types) && PackValues(types, v).Success?
    ensures var b, ps := PackValues(types, v).value, MessageParts(types, v);
      && StringAt(b, Offset(ps, 0), 0, v.host.GetOr(""))
      && StringAt(b, Offset(ps, 2), 2, v.plugin.GetOr(""))
      && StringAt(b, Offset(ps, 3), 3, v.pluginInstance.GetOr(""))
      && StringAt(b, Offset(ps, 4), 4, v.typeName.value)
      && StringAt(b, Offset(ps, 6), 5, v.typeInstance.GetOr(""))
  {
    StringStands(types, v, 0, 0, v.host);
    StringStands(types, v, 2, 2, v.plugin);
    StringStands(types, v, 3, 3, v.pluginInstance);
    StringStands(types, v, 4, 4, v.typeName);
    StringStands(types, v, 6, 5, v.typeInstance);
  }

  lemma {:induction false} StringStands(types: Registry, v: Values<Datum>, i: nat, code: nat, s: Option<string>)
    requires Registered(types) && PackValues(types, v).Success? && i < 8 && code < TWO_16
    requires PackString(code, s) == Success(MessageParts(types, v)[i])
    ensures StringAt(PackValues(types, v).value, Offset(MessageParts(types, v), i), code, s.GetOr(""))
  {
    PartOfMessage(types, v, i);
    StringBytes(PackValues(types, v).value, Offset(MessageParts(types, v), i), code, s);
  }

  lemma NumbersStand(types: Registry, v: Values<Datum>)
    requires Registered(types) && PackValues(types, v).Success?
    ensures var b, ps := PackValues(types, v).value, MessageParts(types, v);
      NumberAt(b, Offset(ps, 1), 1, Trunc(v.time.value)) && NumberAt(b, Offset(ps, 5), 7, v.interval)
  {
    var b, ps := PackValues(types, v).value, MessageParts(types, v);
    PartOfMessage(types, v, 1);
    PartOfMessage(types, v, 5);
    NumberBytes(b, Offset(ps, 1), 1, Trunc(v.time.value));
    NumberBytes(b, Offset(ps, 5), 7, v.interval);
  }

  // ----- What a part of any bytes is read as -----

  lemma {:induction false} DigitOf(b: seq<Byte>, i: nat)
    requires i < |b|
    ensures Digit(FromBigEndian(b), i) == b[|b| - 1 - i]
  {
    var n, front := FromBigEndian(b), b[..|b| - 1];
    assert n == 256 * FromBigEndian(front) + b[|b| - 1];
    if i > 0 {
      DigitOf(front, i - 1);
    }
  }

  /** A time or an interval is the number whose bytes follow the header, whatever length
      the part declares, if there are eight of them. */
  lemma NumberRead(code: nat, len: nat, buf: seq<Byte>)
    requires code == 1 || code == 7
    ensures Handle(code, len, buf).Success? <==> |buf| >= 12
    ensures |buf| >= 12 ==>
              var r := Handle(code, len, buf).value;
              && r.Some? && r.value.Number? && -0x8000_0000_0000_0000 <= r.value.n < 0x8000_0000_0000_0000
              && BigAt(buf, 4, Unsigned64(r.value.n))
  {
    if |buf| >= 12 {
      var p, u := buf[4..12], UnpackUnsigned(buf[4..12]);
      assert Unsigned64(UnpackLong(p)) == u;
      forall i: nat | i < 8 ensures buf[4 + 7 - i] == Digit(u, i) {
        DigitOf(p, i);
        assert p[7 - i] == buf[4 + 7 - i];
      }
    }
  }

  /** A string is what lies between the header and the last byte of the declared length,
      as far as the buffer goes; a declared length of 0 reaches to the last byte but one
      of the buffer. It must be ASCII. */
  lemma StringRead(code: nat, len: nat, buf: seq<Byte>)
    requires code in {0, 2, 3, 4, 5}
    ensures var end := if len == 0 then |buf| - 1 else if len - 1 <= |buf| then len - 1 else |buf|;
      var r := Handle(code, len, buf);
      && (r.Success? <==> forall i :: 4 <= i < end ==> buf[i] < 128)
      && (r.Success? ==> r.value.Some? && r.value.value.Text?
                         && |r.value.value.text| == (if end > 4 then end - 4 else 0)
                         && forall i :: 4 <= i < end ==> r.value.value.text[i - 4] as int == buf[i])
  {
    var end := if len == 0 then |buf| - 1 else if len - 1 <= |buf| then len - 1 else |buf|;
    var text := Slice(buf, 4, len - 1);
    assert text == if 4 <= end then buf[4..end] else [];
    assert forall i :: 4 <= i < end ==> text[i - 4] == buf[i];
    assert forall i :: 0 <= i < |text| ==> text[i] == buf[i + 4];
  }

  // ----- The message of the repository's protocol test -----

  // the characters of its strings
  const HOST_TEXT: seq<Byte> := [0x73, 0x6F, 0x6D, 0x65, 0x68, 0x6F, 0x73, 0x74]
  const PLUGIN_TEXT: seq<Byte> := [0x73, 0x6F, 0x6D, 0x65, 0x70, 0x6C, 0x75, 0x67, 0x69, 0x6E]
  const INSTANCE_TEXT: seq<Byte> := [0x73, 0x6F, 0x6D, 0x65, 0x70, 0x6C, 0x75, 0x67, 0x69, 0x6E, 0x69, 0x6E, 0x73, 0x74, 0x61, 0x6E, 0x63, 0x65]
  const TYPE_TEXT: seq<Byte> := [0x6D, 0x79, 0x5F, 0x74, 0x79, 0x70, 0x65]
  const TYPE_INSTANCE_TEXT: seq<Byte> := [0x73, 0x6F, 0x6D, 0x65, 0x74, 0x79, 0x70, 0x65, 0x69, 0x6E, 0x73, 0x74, 0x61, 0x6E, 0x63, 0x65]

  const TEST_HOST: seq<Byte> := [0, 0, 0, 13] + HOST_TEXT + [0]
  const TEST_PLUGIN: seq<Byte> := [0, 2, 0, 15] + PLUGIN_TEXT + [0]
  const TEST_INSTANCE: seq<Byte> := [0, 3, 0, 23] + INSTANCE_TEXT + [0]
  const TEST_TYPE: seq<Byte> := [0, 4, 0, 12] + TYPE_TEXT + [0]
  const TEST_TYPE_INSTANCE: seq<Byte> := [0, 5, 0, 21] + TYPE_INSTANCE_TEXT + [0]
  const TEST_TIME: seq<Byte> := [0, 1, 0, 12] + [0, 0, 0, 0, 0x5A, 0x74, 0xD8, 0x82]
  const TEST_INTERVAL: seq<Byte> := [0, 7, 0, 12] + [0, 0, 0, 0, 0, 0, 0, 10]
  const TEST_VALUES: seq<Byte> :=
    [0, 6, 0, 24, 0, 2, 1, 2, 0xC9, 0x76, 0xBE, 0x9F, 0x1A, 0xCF, 0x39, 0x40, 0, 0, 0, 0, 0, 0, 1, 0xC2]

  lemma ShortHeader(code: nat, len: nat)
    requires code < 256 && len < 256
    ensures Header(code, len) == [0, code, 0, len]
  {
    ShortBytes(code);
    ShortBytes(len);
  }

  lemma StringPartIs(code: nat, s: string, text: seq<Byte>)
    requires code < 256 && 5 + |s| < 256
    requires |text| == |s| && forall i :: 0 <= i < |s| ==> s[i] as int == text[i] < 128
    ensures PackString(code, Some(s)) == Success([0, code, 0, 5 + |s|] + text + [0])
  {
    ShortHeader(code, 5 + |s|);
    assert EncodeAscii(s) == text;
  }

  lemma TestLabels()
    ensures PackString(0, Some("somehost")) == Success(TEST_HOST)
    ensures PackString(2, Some("someplugin")) == Success(TEST_PLUGIN)
    ensures PackString(3, Some("someplugininstance")) == Success(TEST_INSTANCE)
  {
    StringPartIs(0, "somehost", HOST_TEXT);
    StringPartIs(2, "someplugin", PLUGIN_TEXT);
    StringPartIs(3, "someplugininstance", INSTANCE_TEXT);
  }

  lemma TestTypeLabels()
    ensures PackString(4, Some("my_type")) == Success(TEST_TYPE)
    ensures PackString(5, Some("sometypeinstance")) == Success(TEST_TYPE_INSTANCE)
  {
    StringPartIs(4, "my_type", TYPE_TEXT);
    StringPartIs(5, "sometypeinstance", TYPE_INSTANCE_TEXT);
  }

  lemma NumberPartIs(code: nat, n: nat, bytes: seq<Byte>)
    requires code < 256 && n < TWO_63 && PackLong(n) == bytes
    ensures PackNumber(code, n) == Success([0, code, 0, 12] + bytes)
  {
    ShortHeader(code, 12);
  }

  lemma TestTime()
    ensures PackLong(1517607042) == [0, 0, 0, 0, 0x5A, 0x74, 0xD8, 0x82]
  {
    Widths();
    assert BigEndian(0, 4) == [0, 0, 0, 0];
    assert BigEndian(0x5A, 5) == BigEndian(0, 4) + [0x5A];
    assert BigEndian(0x5A74, 6) == BigEndian(0x5A, 5) + [0x74];
    assert BigEndian(0x5A74_D8, 7) == BigEndian(0x5A74, 6) + [0xD8];
    assert BigEndian(0x5A74_D882, 8) == BigEndian(0x5A74_D8, 7) + [0x82];
  }

  lemma TestInterval()
    ensures PackLong(10) == [0, 0, 0, 0, 0, 0, 0, 10]
  {
    Widths();
    assert BigEndian(0, 7) == [0, 0, 0, 0, 0, 0, 0];
    assert BigEndian(10, 8) == BigEndian(0, 7) + [10];
  }

  lemma TestNumbers()
    ensures PackNumber(1, 1517607042) == Success(TEST_TIME) && PackNumber(7, 10) == Success(TEST_INTERVAL)
  {
    TestTime();
    TestInterval();
    NumberPartIs(1, 1517607042, [0, 0, 0, 0, 0x5A, 0x74, 0xD8, 0x82]);
    NumberPartIs(7, 10, [0, 0, 0, 0, 0, 0, 0, 10]);
  }

  /** The whole message of the repository's protocol test, byte for byte. */
  lemma TestMessage(f: string, g: string, t: Type, types: Registry, v: Values<Datum>)
    requires t == Type("my_type", [Field(f, Gauge), Field(g, Derive)]) && types == map["my_type" := t]
    requires v == Values(Some("my_type"), Some("sometypeinstance"), Some("someplugin"), Some("someplugininstance"),
                         Some("somehost"), Some(1517607042.0), 10, [Double(0x4039_CF1A_9FBE_76C9), Whole(450)])
    ensures Registered(types)
    ensures PackValues(types, v) ==
            Success(TEST_HOST + TEST_TIME + TEST_PLUGIN + TEST_INSTANCE + TEST_TYPE + TEST_INTERVAL + TEST_TYPE_INSTANCE + TEST_VALUES)
  {
    TestLabels();
    TestTypeLabels();
    TestNumbers();
    ValueBlock(t, f, g);
  }
}
