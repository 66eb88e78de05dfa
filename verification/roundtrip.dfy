/** Unpacking undoes packing, exactly when the vector fills its type. */
module RoundTrips {
  import opened Wrappers
  import opened Protocol
  import opened Bytes
  import opened Binary64
  import opened Codec
  import opened Framing

  lemma HeaderReads(code: nat, len: nat, body: seq<Byte>)
    requires code < TWO_16 && len < TWO_16
    ensures var p := Header(code, len) + body;
      UnpackShort(p[..2]) == code && UnpackShort(p[2..4]) == len && p[4..] == body
  {
    var p := Header(code, len) + body;
    ShortRoundTrip(code);
    ShortRoundTrip(len);
    assert p[..2] == PackShort(code) && p[2..4] == PackShort(len);
  }

  function StringLength(s: Option<string>): nat {
    |s.GetOr("")|
  }

  /** A framed part of the given code and length that says the given value. */
  ghost predicate Frames(p: seq<Byte>, code: nat, len: nat, value: PartValue) {
    Framed(p) && CodeOf(p) == code && |p| == len && Says(p) == map[code := value]
  }

  lemma StringPart(code: nat, s: Option<string>)
    requires IsText(code) && PackString(code, s).Success?
    ensures Frames(PackString(code, s).value, code, 5 + StringLength(s), Text(s.GetOr("")))
  {
    var text := s.GetOr("");
    var p := PackString(code, s).value;
    var body := EncodeAscii(text) + [0];
    assert p == Header(code, 5 + |text|) + body;
    HeaderReads(code, 5 + |text|, body);
    assert Slice(p, 4, |p| - 1) == p[4..][..|text|] == EncodeAscii(text);
    AsciiRoundTrip(text);
  }

  lemma NumberPart(code: nat, n: int)
    requires IsNumber(code) && PackNumber(code, n).Success?
    ensures Frames(PackNumber(code, n).value, code, 12, Number(n))
  {
    var p := PackNumber(code, n).value;
    HeaderReads(code, 12, PackLong(n));
    assert p[4..12] == p[4..];
    LongRoundTrip(n);
  }

  // ----- The values part -----

  /** What a datum is after the trip: a whole number in a GAUGE field has become the
      double nearest to it. */
  function OnWire(t: DsType, d: Datum): Datum {
    if t.Gauge? && d.Whole? && WordOf(d.n).Some? then Double(WordOf(d.n).value) else d
  }

  lemma DatumRoundTrip(t: DsType, d: Datum)
    requires PackDatum(t, d).Success?
    ensures UnpackDatum(t, PackDatum(t, d).value) == OnWire(t, d)
  {
    match (t, d)
    case (Gauge, Double(w)) => WordRoundTrip(w);
    case (Gauge, Whole(n)) => WordRoundTrip(WordOf(n).value);
    case (Derive, Whole(n)) => LongRoundTrip(n);
    case (_, Whole(n)) => UnsignedRoundTrip(n);
    case (_, Double(_)) =>
  }

  function Shorter(a: nat, b: nat): nat {
    if a <= b then a else b
  }

  lemma {:induction false} DataColumn(fields: seq<Field>, values: seq<Datum>, i: nat)
    requires PackData(fields, values).Success? && i < |fields| && i < |values|
    ensures var data := PackData(fields, values).value;
      && |data| == 8 * Shorter(|fields|, |values|)
      && PackDatum(fields[i].dsType, values[i]) == Success(data[8 * i..8 * i + 8])
  {
    var rest := PackData(fields[1..], values[1..]).value;
    DataLength(fields, values);
    if i > 0 {
      DataColumn(fields[1..], values[1..], i - 1);
      assert PackData(fields, values).value[8 * i..8 * i + 8] == rest[8 * (i - 1)..8 * (i - 1) + 8];
    }
  }

  lemma {:induction false} DataLength(fields: seq<Field>, values: seq<Datum>)
    requires PackData(fields, values).Success?
    ensures |PackData(fields, values).value| == 8 * Shorter(|fields|, |values|)
  {
    if fields != [] && values != [] {
      DataLength(fields[1..], values[1..]);
    }
  }

  lemma DsTypeRoundTrip(t: DsType)
    ensures DsTypeOf(t.Code()) == Some(t)
  {
  }

  function Received(fields: seq<Field>, values: seq<Datum>, i: nat): (ds: seq<Datum>)
    requires |fields| <= |values| && i <= |fields|
    ensures |ds| == |fields| - i
    decreases |fields| - i
  {
    if i == |fields| then [] else [OnWire(fields[i].dsType, values[i])] + Received(fields, values, i + 1)
  }

  /** A values part laid out as the packer lays it out. */
  ghost predicate LaidOut(buf: seq<Byte>, fields: seq<Field>, values: seq<Datum>) {
    var n := |fields|;
    && PackData(fields, values).Success?
    && |buf| == 6 + n + 8 * Shorter(n, |values|)
    && (forall i :: 0 <= i < n ==> buf[6 + i] == fields[i].dsType.Code())
    && buf[6 + n..] == PackData(fields, values).value
  }

  lemma ColumnAt(buf: seq<Byte>, fields: seq<Field>, values: seq<Datum>, i: nat)
    requires LaidOut(buf, fields, values) && i < |fields| && i < |values|
    ensures 6 + |fields| + 8 * i + 8 <= |buf|
    ensures UnpackDatum(fields[i].dsType, buf[6 + |fields| + 8 * i..6 + |fields| + 8 * i + 8]) == OnWire(fields[i].dsType, values[i])
  {
    DataLength(fields, values);
    DataColumn(fields, values, i);
    var at := 6 + |fields|;
    assert buf[at + 8 * i..at + 8 * i + 8] == buf[at..][8 * i..8 * i + 8];
    DatumRoundTrip(fields[i].dsType, values[i]);
  }

  lemma ReadsOne(buf: seq<Byte>, t: DsType, typesAt: nat, dataAt: nat, n: nat)
    requires n > 0 && typesAt < |buf| && DsTypeOf(buf[typesAt]) == Some(t) && dataAt + 8 <= |buf|
    requires UnpackData(buf, typesAt + 1, dataAt + 8, n - 1).Success?
    ensures UnpackData(buf, typesAt, dataAt, n) ==
            Success([UnpackDatum(t, buf[dataAt..dataAt + 8])] + UnpackData(buf, typesAt + 1, dataAt + 8, n - 1).value)
  {
  }

  lemma {:induction false} ReadsBack(buf: seq<Byte>, fields: seq<Field>, values: seq<Datum>, i: nat, typesAt: nat, dataAt: nat)
    requires LaidOut(buf, fields, values) && |fields| <= |values| && i <= |fields|
    requires typesAt == 6 + i && dataAt == 6 + |fields| + 8 * i
    ensures UnpackData(buf, typesAt, dataAt, |fields| - i) == Success(Received(fields, values, i))
    decreases |fields| - i
  {
    if i < |fields| {
      ColumnAt(buf, fields, values, i);
      DsTypeRoundTrip(fields[i].dsType);
      ReadsBack(buf, fields, values, i + 1, typesAt + 1, dataAt + 8);
      ReadsOne(buf, fields[i].dsType, typesAt, dataAt, |fields| - i);
    }
  }

  lemma {:induction false} RunsOut(buf: seq<Byte>, fields: seq<Field>, values: seq<Datum>, i: nat, typesAt: nat, dataAt: nat)
    requires LaidOut(buf, fields, values) && i <= |values| < |fields|
    requires typesAt == 6 + i && dataAt == 6 + |fields| + 8 * i
    ensures UnpackData(buf, typesAt, dataAt, |fields| - i) == Failure(StructError)
    decreases |fields| - i
  {
    DsTypeRoundTrip(fields[i].dsType);
    if i < |values| {
      RunsOut(buf, fields, values, i + 1, typesAt + 1, dataAt + 8);
    }
  }

  lemma TemplateReads(t: Type, data: seq<Byte>)
    requires 6 + 9 * |t.fields| < TWO_16
    ensures var n, p := |t.fields|, Template(t) + data;
      && UnpackShort(p[..2]) == TYPE_VALUES && UnpackShort(p[2..4]) == 6 + 9 * n && UnpackShort(p[4..6]) == n
      && (forall i :: 0 <= i < n ==> p[6 + i] == t.fields[i].dsType.Code())
      && p[6 + n..] == data
  {
    var n, p := |t.fields|, Template(t) + data;
    var body := PackShort(n) + TypeCodes(t.fields) + data;
    assert p == Header(TYPE_VALUES, 6 + 9 * n) + body;
    HeaderReads(TYPE_VALUES, 6 + 9 * n, body);
    ShortRoundTrip(n);
    assert p[4..6] == PackShort(n);
  }

  lemma EncodedLaidOut(t: Type, values: seq<Datum>)
    requires 6 + 9 * |t.fields| < TWO_16 && EncodedValues(t, values).Success?
    ensures LaidOut(EncodedValues(t, values).value, t.fields, values)
  {
    DataLength(t.fields, values);
    TemplateReads(t, PackData(t.fields, values).value);
  }

  lemma ReadsColumns(p: seq<Byte>, fields: seq<Field>, values: seq<Datum>, n: nat)
    requires LaidOut(p, fields, values) && n == |fields|
    ensures UnpackData(p, 6, 6 + n, n) == if n <= |values| then Success(Received(fields, values, 0)) else Failure(StructError)
  {
    if n <= |values| {
      ReadsBack(p, fields, values, 0, 6, 6 + n);
    } else {
      RunsOut(p, fields, values, 0, 6, 6 + n);
    }
  }

  lemma {:induction false} ValuesPart(t: Type, values: seq<Datum>)
    requires 6 + 9 * |t.fields| < TWO_16 && EncodedValues(t, values).Success?
    ensures var p := EncodedValues(t, values).value;
      && |p| == 6 + |t.fields| + 8 * Shorter(|t.fields|, |values|)
      && UnpackShort(p[..2]) == TYPE_VALUES && UnpackShort(p[2..4]) == 6 + 9 * |t.fields|
      && UnpackedValues(p) == if |t.fields| <= |values| then Success(Received(t.fields, values, 0)) else Failure(StructError)
  {
    var p := EncodedValues(t, values).value;
    TemplateReads(t, PackData(t.fields, values).value);
    EncodedLaidOut(t, values);
    ReadsColumns(p, t.fields, values, |t.fields|);
  }

  // ----- The whole message -----

  /** The eight parts of a message, in order. */
  ghost function MessageParts(types: Registry, v: Values<Datum>): (ps: seq<seq<Byte>>)
    requires Registered(types) && PackValues(types, v).Success?
    ensures |ps| == 8
  {
    [PackString(TYPE_HOST, v.host).value,
     PackNumber(TYPE_TIME, Trunc(v.time.value)).value,
     PackString(TYPE_PLUGIN, v.plugin).value,
     PackString(TYPE_PLUGIN_INSTANCE, v.pluginInstance).value,
     PackString(TYPE_TYPE, v.typeName).value,
     PackNumber(TYPE_INTERVAL, v.interval).value,
     PackString(TYPE_TYPE_INSTANCE, v.typeInstance).value,
     EncodedValues(types[v.typeName.value], v.values).value]
  }

  /** What a record is after the trip. */
  function Normal(types: Registry, v: Values<Datum>): Values<Datum>
    requires v.typeName.Some? && v.typeName.value in types && v.time.Some?
    requires |types[v.typeName.value].fields| <= |v.values|
  {
    Values(v.typeName, Some(v.typeInstance.GetOr("")), Some(v.plugin.GetOr("")), Some(v.pluginInstance.GetOr("")),
           Some(v.host.GetOr("")), Some(Trunc(v.time.value) as real), v.interval,
           Received(types[v.typeName.value].fields, v.values, 0))
  }

  lemma PackedInOrder(types: Registry, v: Values<Datum>)
    requires Registered(types) && PackValues(types, v).Success?
    ensures var ps := MessageParts(types, v);
      PackValues(types, v).value == ps[0] + ps[1] + ps[2] + ps[3] + ps[4] + ps[5] + ps[6] + ps[7]
  {
  }

  lemma MessageIsParts(types: Registry, v: Values<Datum>)
    requires Registered(types) && PackValues(types, v).Success?
    ensures PackValues(types, v).value == Join(MessageParts(types, v)[..7]) + MessageParts(types, v)[7]
  {
    PackedInOrder(types, v);
    JoinFirstSeven(MessageParts(types, v));
  }

  lemma JoinFirstSeven(ps: seq<seq<Byte>>)
    requires |ps| == 8
    ensures Join(ps[..7]) == ps[0] + ps[1] + ps[2] + ps[3] + ps[4] + ps[5] + ps[6]
  {
    assert ps[..7] == [ps[0], ps[1], ps[2], ps[3], ps[4], ps[5], ps[6]];
    JoinSeven(ps[0], ps[1], ps[2], ps[3], ps[4], ps[5], ps[6]);
  }

  lemma JoinSeven(a: seq<Byte>, b: seq<Byte>, c: seq<Byte>, d: seq<Byte>, e: seq<Byte>, f: seq<Byte>, g: seq<Byte>)
    ensures Join([a, b, c, d, e, f, g]) == a + b + c + d + e + f + g
  {
    assert Join([g]) == g;
    assert Join([f, g]) == f + Join([g]);
    assert Join([e, f, g]) == e + Join([f, g]);
    assert Join([d, e, f, g]) == d + Join([e, f, g]);
    assert Join([c, d, e, f, g]) == c + Join([d, e, f, g]);
    assert Join([b, c, d, e, f, g]) == b + Join([c, d, e, f, g]);
    assert Join([a, b, c, d, e, f, g]) == a + Join([b, c, d, e, f, g]);
  }

  lemma StringsFramed(types: Registry, v: Values<Datum>)
    requires Registered(types) && PackValues(types, v).Success?
    ensures var ps := MessageParts(types, v);
      && Frames(ps[0], TYPE_HOST, 5 + StringLength(v.host), Text(v.host.GetOr("")))
      && Frames(ps[2], TYPE_PLUGIN, 5 + StringLength(v.plugin), Text(v.plugin.GetOr("")))
      && Frames(ps[3], TYPE_PLUGIN_INSTANCE, 5 + StringLength(v.pluginInstance), Text(v.pluginInstance.GetOr("")))
      && Frames(ps[4], TYPE_TYPE, 5 + StringLength(v.typeName), Text(v.typeName.value))
      && Frames(ps[6], TYPE_TYPE_INSTANCE, 5 + StringLength(v.typeInstance), Text(v.typeInstance.GetOr("")))
  {
    StringPart(TYPE_HOST, v.host);
    StringPart(TYPE_PLUGIN, v.plugin);
    StringPart(TYPE_PLUGIN_INSTANCE, v.pluginInstance);
    StringPart(TYPE_TYPE, v.typeName);
    StringPart(TYPE_TYPE_INSTANCE, v.typeInstance);
  }

  lemma NumbersFramed(types: Registry, v: Values<Datum>)
    requires Registered(types) && PackValues(types, v).Success?
    ensures var ps := MessageParts(types, v);
      && Frames(ps[1], TYPE_TIME, 12, Number(Trunc(v.time.value)))
      && Frames(ps[5], TYPE_INTERVAL, 12, Number(v.interval))
  {
    NumberPart(TYPE_TIME, Trunc(v.time.value));
    NumberPart(TYPE_INTERVAL, v.interval);
  }

  lemma MessageCodes(types: Registry, v: Values<Datum>)
    requires Registered(types) && PackValues(types, v).Success?
    ensures var ps := MessageParts(types, v);
      && (forall i :: 0 <= i < 7 ==> Framed(ps[i]))
      && CodeOf(ps[0]) == TYPE_HOST && CodeOf(ps[1]) == TYPE_TIME && CodeOf(ps[2]) == TYPE_PLUGIN
      && CodeOf(ps[3]) == TYPE_PLUGIN_INSTANCE && CodeOf(ps[4]) == TYPE_TYPE
      && CodeOf(ps[5]) == TYPE_INTERVAL && CodeOf(ps[6]) == TYPE_TYPE_INSTANCE
  {
    StringsFramed(types, v);
    NumbersFramed(types, v);
    SevenFramed(MessageParts(types, v));
  }

  lemma SevenFramed(ps: seq<seq<Byte>>)
    requires |ps| == 8 && Framed(ps[0]) && Framed(ps[1]) && Framed(ps[2]) && Framed(ps[3])
    requires Framed(ps[4]) && Framed(ps[5]) && Framed(ps[6])
    ensures forall i :: 0 <= i < 7 ==> Framed(ps[i])
  {
  }

  lemma SevenDistinct(ps: seq<seq<Byte>>)
    requires |ps| == 7 && AllFramed(ps)
    requires CodeOf(ps[0]) == 0 && CodeOf(ps[1]) == 1 && CodeOf(ps[2]) == 2 && CodeOf(ps[3]) == 3
    requires CodeOf(ps[4]) == 4 && CodeOf(ps[5]) == 7 && CodeOf(ps[6]) == 5
    ensures DistinctCodes(ps)
  {
    forall i, j | 0 <= i < j < 7 ensures CodeOf(ps[i]) != CodeOf(ps[j]) {
      assert CodeOf(ps[i]) == if i == 5 then 7 else if i == 6 then 5 else i;
      assert CodeOf(ps[j]) == if j == 5 then 7 else if j == 6 then 5 else j;
    }
  }

  lemma FirstSevenFramed(types: Registry, v: Values<Datum>)
    requires Registered(types) && PackValues(types, v).Success?
    ensures AllFramed(MessageParts(types, v)[..7]) && DistinctCodes(MessageParts(types, v)[..7])
  {
    MessageCodes(types, v);
    SevenDistinct(MessageParts(types, v)[..7]);
  }

  lemma SaysInMeaning(ps: seq<seq<Byte>>, i: nat, c: nat)
    requires AllFramed(ps) && DistinctCodes(ps) && i < |ps| && c in Says(ps[i])
    ensures c in Meaning(ps) && Meaning(ps)[c] == Says(ps[i])[c]
  {
    DistinctAreDisjoint(ps);
    assert Contributions(ps)[i] in Contributions(ps);
    DisjointOverride(Contributions(ps), c);
  }

  /** What the first seven parts say together. */
  ghost predicate Labelled(m: map<nat, PartValue>, v: Values<Datum>)
    requires v.typeName.Some? && v.time.Some?
  {
    && TYPE_HOST in m && m[TYPE_HOST] == Text(v.host.GetOr(""))
    && TYPE_TIME in m && m[TYPE_TIME] == Number(Trunc(v.time.value))
    && TYPE_PLUGIN in m && m[TYPE_PLUGIN] == Text(v.plugin.GetOr(""))
    && TYPE_PLUGIN_INSTANCE in m && m[TYPE_PLUGIN_INSTANCE] == Text(v.pluginInstance.GetOr(""))
    && TYPE_TYPE in m && m[TYPE_TYPE] == Text(v.typeName.value)
    && TYPE_INTERVAL in m && m[TYPE_INTERVAL] == Number(v.interval)
    && TYPE_TYPE_INSTANCE in m && m[TYPE_TYPE_INSTANCE] == Text(v.typeInstance.GetOr(""))
  }

  lemma FirstSeven(types: Registry, v: Values<Datum>)
    requires Registered(types) && PackValues(types, v).Success?
    ensures AllFramed(MessageParts(types, v)[..7])
    ensures Labelled(Meaning(MessageParts(types, v)[..7]), v)
  {
    var ps := MessageParts(types, v)[..7];
    FirstSevenFramed(types, v);
    StringsFramed(types, v);
    NumbersFramed(types, v);
    SaysInMeaning(ps, 0, TYPE_HOST);
    SaysInMeaning(ps, 1, TYPE_TIME);
    SaysInMeaning(ps, 2, TYPE_PLUGIN);
    SaysInMeaning(ps, 3, TYPE_PLUGIN_INSTANCE);
    SaysInMeaning(ps, 4, TYPE_TYPE);
    SaysInMeaning(ps, 5, TYPE_INTERVAL);
    SaysInMeaning(ps, 6, TYPE_TYPE_INSTANCE);
  }

  lemma {:induction false} LastPart(p: seq<Byte>, code: nat, data: PartValue)
    requires |p| >= 4 && UnpackShort(p[..2]) == code && Handle(code, UnpackShort(p[2..4]), p) == Success(Some(data))
    requires |p| <= UnpackShort(p[2..4])
    ensures Parts(p) == Success(map[code := data])
  {
    ThenNothing(map[code := data], Parts([]));
    assert p[|p|..] == [];
  }

  lemma {:induction false} BrokenPart(p: seq<Byte>, code: nat, error: Error)
    requires |p| >= 4 && UnpackShort(p[..2]) == code && Handle(code, UnpackShort(p[2..4]), p) == Failure(error)
    ensures Parts(p) == Failure(error)
  {
  }

  /** Decoding a payload that stands alone at the end of a message. */
  lemma {:induction false} PayloadAlone(t: Type, values: seq<Datum>)
    requires 6 + 9 * |t.fields| < TWO_16 && EncodedValues(t, values).Success?
    ensures Parts(EncodedValues(t, values).value) ==
            if |t.fields| <= |values| then Success(map[TYPE_VALUES := Data(Received(t.fields, values, 0))])
            else Failure(StructError)
  {
    ValuesPart(t, values);
    if |t.fields| <= |values| {
      LastPart(EncodedValues(t, values).value, TYPE_VALUES, Data(Received(t.fields, values, 0)));
    } else {
      BrokenPart(EncodedValues(t, values).value, TYPE_VALUES, StructError);
    }
  }

  lemma MessageDecodes(types: Registry, v: Values<Datum>, m: map<nat, PartValue>)
    requires Registered(types) && PackValues(types, v).Success?
    requires AllFramed(MessageParts(types, v)[..7]) && m == Meaning(MessageParts(types, v)[..7])
    ensures var t := types[v.typeName.value];
      Parts(PackValues(types, v).value) ==
      if |t.fields| <= |v.values| then Success(m + map[TYPE_VALUES := Data(Received(t.fields, v.values, 0))])
      else Failure(StructError)
  {
    var ps := MessageParts(types, v);
    MessageIsParts(types, v);
    DecodeAfterParts(ps[..7], ps[7]);
    PayloadAlone(types[v.typeName.value], v.values);
  }

  lemma LabelledGivesNormal(types: Registry, v: Values<Datum>, m: map<nat, PartValue>)
    requires v.typeName.Some? && v.typeName.value in types && v.time.Some? && Labelled(m, v)
    requires |types[v.typeName.value].fields| <= |v.values|
    ensures var parts := m + map[TYPE_VALUES := Data(Received(types[v.typeName.value].fields, v.values, 0))];
      AllSuit(parts) ==> ToValues(parts) == Success(Normal(types, v))
  {
    var parts := m + map[TYPE_VALUES := Data(Received(types[v.typeName.value].fields, v.values, 0))];
    assert forall code: nat :: code < 8 ==> code in parts;
  }

  // ----- When packing succeeds, and how long the message is -----

  predicate StringFits(s: Option<string>) {
    5 + StringLength(s) < TWO_16 && Ascii(s.GetOr(""))
  }

  predicate DatumFits(t: DsType, d: Datum) {
    match t
    case Gauge => d.Whole? ==> Abs(d.n) < Limit()
    case Derive => d.Whole? && -TWO_63 <= d.n < TWO_63
    case _ => d.Whole? && 0 <= d.n < TWO_64
  }

  predicate Packable(types: Registry, v: Values<Datum>) {
    && v.typeName.Some? && v.typeName.value in types
    && StringFits(v.host) && StringFits(v.plugin) && StringFits(v.pluginInstance)
    && StringFits(v.typeName) && StringFits(v.typeInstance)
    && v.time.Some? && -TWO_63 <= Trunc(v.time.value) < TWO_63
    && -TWO_63 <= v.interval < TWO_63
    && forall i :: 0 <= i < |v.values| && i < |types[v.typeName.value].fields| ==>
                     DatumFits(types[v.typeName.value].fields[i].dsType, v.values[i])
  }

  lemma DatumFitsIff(t: DsType, d: Datum)
    ensures PackDatum(t, d).Success? <==> DatumFits(t, d)
  {
    if d.Whole? {
      HasWordIff(d.n);
    }
  }

  lemma {:induction false} DataFits(fields: seq<Field>, values: seq<Datum>)
    ensures PackData(fields, values).Success? <==>
            forall i :: 0 <= i < |values| && i < |fields| ==> DatumFits(fields[i].dsType, values[i])
  {
    if fields != [] && values != [] {
      DatumFitsIff(fields[0].dsType, values[0]);
      DataFits(fields[1..], values[1..]);
      var fs, vs := fields[1..], values[1..];
      if forall i :: 0 <= i < |vs| && i < |fs| ==> DatumFits(fs[i].dsType, vs[i]) {
        assert forall i :: 0 < i < |values| && i < |fields| ==> fields[i] == fs[i - 1] && values[i] == vs[i - 1];
      } else {
        var i :| 0 <= i < |vs| && i < |fs| && !DatumFits(fs[i].dsType, vs[i]);
        assert fields[i + 1] == fs[i] && values[i + 1] == vs[i];
      }
    }
  }

  /** Packing succeeds on exactly the records whose type is known, whose strings are
      ASCII and short enough, and whose numbers are in range. */
  lemma PackSucceedsIff(types: Registry, v: Values<Datum>)
    requires Registered(types)
    ensures PackValues(types, v).Success? <==> Packable(types, v)
  {
    if v.typeName.Some? && v.typeName.value in types {
      DataFits(types[v.typeName.value].fields, v.values);
    }
  }

  // ----- The round trip -----

  lemma UnpackPacked(types: Registry, known: Registry, v: Values<Datum>)
    requires Registered(types) && PackValues(types, v).Success?
    ensures UnpackBytes(known, PackValues(types, v).value) ==
            if |types[v.typeName.value].fields| > |v.values| then Failure(StructError)
            else if v.typeName.value in known then Success(Some(Normal(types, v)))
            else Success(None)
  {
    FirstSeven(types, v);
    var m := Meaning(MessageParts(types, v)[..7]);
    MessageDecodes(types, v, m);
    if |types[v.typeName.value].fields| <= |v.values| {
      LabelledGivesNormal(types, v, m);
    }
  }

  /** Unpacking a packed record gives the record back, with None strings empty and
      the time truncated, when its vector has a value for every field of the type; a
      shorter vector packs too, but what it packs to cannot be unpacked. A receiver
      that does not know the type skips the message. */
  lemma RoundTrip(types: Registry, known: Registry, v: Values<Datum>)
    requires Registered(types) && Packable(types, v)
    ensures PackValues(types, v).Success?
    ensures UnpackBytes(known, PackValues(types, v).value) ==
            if |types[v.typeName.value].fields| > |v.values| then Failure(StructError)
            else if v.typeName.value in known then Success(Some(Normal(types, v)))
            else Success(None)
  {
    PackSucceedsIff(types, v);
    UnpackPacked(types, known, v);
  }

  /** Packing is injective on full vectors, up to what the trip normalises. */
  lemma PackInjective(types: Registry, v: Values<Datum>, w: Values<Datum>)
    requires Registered(types) && Packable(types, v) && Packable(types, w)
    requires |types[v.typeName.value].fields| <= |v.values| && |types[w.typeName.value].fields| <= |w.values|
    ensures PackValues(types, v) == PackValues(types, w) ==> Normal(types, v) == Normal(types, w)
  {
    RoundTrip(types, types, v);
    RoundTrip(types, types, w);
  }

  /** The length field of a part is the part's length. */
  ghost predicate Sized(p: seq<Byte>) {
    |p| >= 4 && UnpackShort(p[2..4]) == |p|
  }

  lemma PartSizes(types: Registry, v: Values<Datum>, p: seq<Byte>)
    requires Registered(types) && PackValues(types, v).Success?
    requires |types[v.typeName.value].fields| <= |v.values| && p in MessageParts(types, v)
    ensures Sized(p)
  {
    MessageCodes(types, v);
    PayloadSized(types, v);
    var i :| 0 <= i < 8 && MessageParts(types, v)[i] == p;
    assert i < 7 ==> Framed(p);
  }

  lemma PayloadSized(types: Registry, v: Values<Datum>)
    requires Registered(types) && PackValues(types, v).Success?
    requires |types[v.typeName.value].fields| <= |v.values|
    ensures Sized(MessageParts(types, v)[7])
  {
    ValuesPart(types[v.typeName.value], v.values);
  }

  lemma PayloadCode(types: Registry, v: Values<Datum>)
    requires Registered(types) && PackValues(types, v).Success?
    ensures |MessageParts(types, v)[7]| >= 4 && CodeOf(MessageParts(types, v)[7]) == TYPE_VALUES
  {
    ValuesPart(types[v.typeName.value], v.values);
  }

  lemma MessageJoins(types: Registry, v: Values<Datum>)
    requires Registered(types) && PackValues(types, v).Success?
    ensures PackValues(types, v).value == Join(MessageParts(types, v))
  {
    var ps := MessageParts(types, v);
    MessageIsParts(types, v);
    JoinAppend(ps[..7], ps[7]);
    assert ps == ps[..7] + [ps[7]];
  }

  lemma PartLengths(types: Registry, v: Values<Datum>)
    requires Registered(types) && PackValues(types, v).Success?
    requires |types[v.typeName.value].fields| <= |v.values|
    ensures var ps := MessageParts(types, v);
      && |ps[0]| == 5 + StringLength(v.host) && |ps[1]| == 12 && |ps[2]| == 5 + StringLength(v.plugin)
      && |ps[3]| == 5 + StringLength(v.pluginInstance) && |ps[4]| == 5 + StringLength(v.typeName)
      && |ps[5]| == 12 && |ps[6]| == 5 + StringLength(v.typeInstance)
      && |ps[7]| == 6 + 9 * |types[v.typeName.value].fields|
  {
    StringsFramed(types, v);
    NumbersFramed(types, v);
    PayloadLength(types, v);
  }

  lemma PayloadLength(types: Registry, v: Values<Datum>)
    requires Registered(types) && PackValues(types, v).Success?
    requires |types[v.typeName.value].fields| <= |v.values|
    ensures |MessageParts(types, v)[7]| == 6 + 9 * |types[v.typeName.value].fields|
  {
    ValuesPart(types[v.typeName.value], v.values);
  }

  lemma MessageLength(types: Registry, v: Values<Datum>)
    requires Registered(types) && PackValues(types, v).Success?
    requires |types[v.typeName.value].fields| <= |v.values|
    ensures |PackValues(types, v).value| ==
            55 + StringLength(v.host) + StringLength(v.plugin) + StringLength(v.pluginInstance)
            + StringLength(v.typeName) + StringLength(v.typeInstance) + 9 * |types[v.typeName.value].fields|
  {
    PartLengths(types, v);
    PackedInOrder(types, v);
  }

  /** Every length field of a full message is the length of its part, the parts tile
      the message, and it has 55 bytes beside its strings and nine per value. */
  lemma MessageTiles(types: Registry, v: Values<Datum>)
    requires Registered(types) && Packable(types, v)
    requires |types[v.typeName.value].fields| <= |v.values|
    ensures PackValues(types, v).Success?
    ensures var b, ps := PackValues(types, v).value, MessageParts(types, v);
      && b == Join(ps)
      && (forall p :: p in ps ==> Sized(p))
      && (forall i :: 0 <= i < 8 ==> |ps[i]| >= 4)
      && CodeOf(ps[0]) == 0 && CodeOf(ps[1]) == 1 && CodeOf(ps[2]) == 2 && CodeOf(ps[3]) == 3
      && CodeOf(ps[4]) == 4 && CodeOf(ps[5]) == 7 && CodeOf(ps[6]) == 5 && CodeOf(ps[7]) == 6
      && |b| == 55 + StringLength(v.host) + StringLength(v.plugin) + StringLength(v.pluginInstance)
                + StringLength(v.typeName) + StringLength(v.typeInstance) + 9 * |types[v.typeName.value].fields|
  {
    PackSucceedsIff(types, v);
    forall p | p in MessageParts(types, v) ensures Sized(p) {
      PartSizes(types, v, p);
    }
    MessageCodes(types, v);
    PayloadCode(types, v);
    MessageJoins(types, v);
    MessageLength(types, v);
  }

  lemma {:induction false} JoinAppend(ps: seq<seq<Byte>>, p: seq<Byte>)
    ensures Join(ps + [p]) == Join(ps) + p
  {
    if ps == [] {
      assert ps + [p] == [p];
    } else {
      JoinAppend(ps[1..], p);
      assert (ps + [p])[1..] == ps[1..] + [p];
    }
  }

  lemma WordBytes()
    ensures PackWord(0x4039_CF1A_9FBE_76C9) == [0xC9, 0x76, 0xBE, 0x9F, 0x1A, 0xCF, 0x39, 0x40]
  {
    Widths();
    assert BigEndian(0, 0) == [];
    assert BigEndian(0x40, 1) == [0x40];
    assert BigEndian(0x4039, 2) == [0x40, 0x39];
    assert BigEndian(0x4039_CF, 3) == [0x40, 0x39, 0xCF];
    assert BigEndian(0x4039_CF1A, 4) == [0x40, 0x39, 0xCF, 0x1A];
    assert BigEndian(0x4039_CF1A_9F, 5) == [0x40, 0x39, 0xCF, 0x1A, 0x9F];
    assert BigEndian(0x4039_CF1A_9FBE, 6) == [0x40, 0x39, 0xCF, 0x1A, 0x9F, 0xBE];
    assert BigEndian(0x4039_CF1A_9FBE_76, 7) == [0x40, 0x39, 0xCF, 0x1A, 0x9F, 0xBE, 0x76];
    assert BigEndian(0x4039_CF1A_9FBE_76C9, 8) == [0x40, 0x39, 0xCF, 0x1A, 0x9F, 0xBE, 0x76, 0xC9];
  }

  lemma LongBytes()
    ensures PackLong(450) == [0, 0, 0, 0, 0, 0, 1, 0xC2]
  {
    Widths();
    assert BigEndian(0, 6) == [0, 0, 0, 0, 0, 0];
    assert BigEndian(1, 7) == BigEndian(0, 6) + [1];
    assert BigEndian(450, 8) == BigEndian(1, 7) + [0xC2];
  }

  lemma TemplateBytes(f: string, g: string, name: string)
    ensures Template(Type(name, [Field(f, Gauge), Field(g, Derive)])) == [0, 6, 0, 24, 0, 2, 1, 2]
  {
    Widths();
    assert PackShort(6) == [0, 6] && PackShort(24) == [0, 24] && PackShort(2) == [0, 2];
    assert TypeCodes([Field(f, Gauge), Field(g, Derive)]) == [1, 2];
  }

  lemma TwoFieldBlock(t: Type, x: Datum, y: Datum)
    requires |t.fields| == 2
    requires PackDatum(t.fields[0].dsType, x).Success? && PackDatum(t.fields[1].dsType, y).Success?
    ensures EncodedValues(t, [x, y]) ==
            Success(Template(t) + (PackDatum(t.fields[0].dsType, x).value + PackDatum(t.fields[1].dsType, y).value))
  {
    var values := [x, y];
    assert values[1..] == [y] && t.fields[1..] == [t.fields[1]];
    var p, q := PackDatum(t.fields[0].dsType, x).value, PackDatum(t.fields[1].dsType, y).value;
    assert PackData(t.fields[1..][1..], values[1..][1..]) == Success([]);
    assert q + [] == q;
    assert PackData(t.fields[1..], values[1..]) == Success(q);
    assert PackData(t.fields, values) == Success(p + q);
  }

  lemma JoinBlocks(a: seq<Byte>, b: seq<Byte>, c: seq<Byte>)
    requires a == [0, 6, 0, 24, 0, 2, 1, 2]
    requires b == [0xC9, 0x76, 0xBE, 0x9F, 0x1A, 0xCF, 0x39, 0x40]
    requires c == [0, 0, 0, 0, 0, 0, 1, 0xC2]
    ensures a + (b + c) == [0, 6, 0, 24, 0, 2, 1, 2,
                            0xC9, 0x76, 0xBE, 0x9F, 0x1A, 0xCF, 0x39, 0x40,
                            0, 0, 0, 0, 0, 0, 1, 0xC2]
  {
  }

  /** The byte order and the constants, on the value block of the repository's own
      protocol test: the double 25.809 and the integer 450. */
  lemma ValueBlock(t: Type, f: string, g: string)
    requires t == Type("my_type", [Field(f, Gauge), Field(g, Derive)])
    ensures EncodedValues(t, [Double(0x4039_CF1A_9FBE_76C9), Whole(450)])
            == Success([0, 6, 0, 24, 0, 2, 1, 2,
                        0xC9, 0x76, 0xBE, 0x9F, 0x1A, 0xCF, 0x39, 0x40,
                        0, 0, 0, 0, 0, 0, 1, 0xC2])
  {
    var d, e := Double(0x4039_CF1A_9FBE_76C9), Whole(450);
    WordBytes();
    LongBytes();
    TemplateBytes(f, g, "my_type");
    TwoFieldBlock(t, d, e);
    JoinBlocks(Template(t), PackDatum(Gauge, d).value, PackDatum(Derive, e).value);
  }
}
