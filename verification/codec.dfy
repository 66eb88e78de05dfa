/** protocol.py, `Type._encode_values`, `MessagePacker` and `MessageUnpacker`. */
module Codec {
  import opened Wrappers
  import opened Protocol
  import opened Bytes
  import opened Binary64

  /** One element of a vector: a whole number, or a double given by its word. */
  datatype Datum = Whole(n: int) | Double(w: Word)

  datatype Error =
    | UnknownType    // the packer's TypeError
    | MissingTime    // int(None)
    | StructError    // struct.error
    | UnicodeError
    | KeyError
    | NeverReturns   // a part of declared length zero is read over and over

  const TYPE_HOST: nat := 0
  const TYPE_TIME: nat := 1
  const TYPE_PLUGIN: nat := 2
  const TYPE_PLUGIN_INSTANCE: nat := 3
  const TYPE_TYPE: nat := 4
  const TYPE_TYPE_INSTANCE: nat := 5
  const TYPE_VALUES: nat := 6
  const TYPE_INTERVAL: nat := 7

  type Registry = map<string, Type>

  /** Types are registered under their own names, and `Type(...)` could be built:
      its part length fits 16 bits. */
  ghost predicate Registered(types: Registry) {
    forall name :: name in types ==> types[name].name == name && 6 + 9 * |types[name].fields| < TWO_16
  }

  /** A list decoded or encoded so far, followed by what is still to come. */
  function After<T>(done: seq<T>, rest: Result<seq<T>, Error>): Result<seq<T>, Error> {
    if rest.Success? then Success(done + rest.value) else rest
  }

  lemma AfterNothing<T>(done: seq<T>, rest: Result<seq<T>, Error>)
    ensures After([], rest) == rest && After(done, Success([])) == Success(done)
  {
    assert rest.Success? ==> [] + rest.value == rest.value;
    assert done + [] == done;
  }

  lemma AfterTwo<T>(a: seq<T>, b: seq<T>, rest: Result<seq<T>, Error>)
    ensures After(a, After(b, rest)) == After(a + b, rest)
  {
    assert rest.Success? ==> a + (b + rest.value) == a + b + rest.value;
  }

  // ----- Packing -----

  function Header(code: nat, len: nat): (b: seq<Byte>)
    requires code < TWO_16 && len < TWO_16
    ensures |b| == 4
  {
    PackShort(code) + PackShort(len)
  }

  function PackString(code: nat, value: Option<string>): Result<seq<Byte>, Error>
    requires code < TWO_16
  {
    var text := value.GetOr("");
    if 5 + |text| >= TWO_16 then Failure(StructError)
    else if !Ascii(text) then Failure(UnicodeError)
    else Success(Header(code, 5 + |text|) + EncodeAscii(text) + [0])
  }

  function PackNumber(code: nat, n: int): (r: Result<seq<Byte>, Error>)
    requires code < TWO_16
  {
    if -TWO_63 <= n < TWO_63 then Success(Header(code, 12) + PackLong(n)) else Failure(StructError)
  }

  function PackDatum(t: DsType, d: Datum): (r: Result<seq<Byte>, Error>)
    ensures r.Success? ==> |r.value| == 8
  {
    match (t, d)
    case (Gauge, Double(w)) => Success(PackWord(w))
    case (Gauge, Whole(n)) => if WordOf(n).Some? then Success(PackWord(WordOf(n).value)) else Failure(StructError)
    case (Derive, Whole(n)) => if -TWO_63 <= n < TWO_63 then Success(PackLong(n)) else Failure(StructError)
    case (_, Whole(n)) => if 0 <= n < TWO_64 then Success(PackUnsigned(n)) else Failure(StructError)
    case (_, Double(_)) => Failure(StructError)
  }

  function TypeCodes(fields: seq<Field>): (b: seq<Byte>)
    ensures |b| == |fields| && forall i :: 0 <= i < |fields| ==> b[i] == fields[i].dsType.Code()
  {
    seq(|fields|, i requires 0 <= i < |fields| => fields[i].dsType.Code())
  }

  /** `_message_template`. */
  function Template(t: Type): (b: seq<Byte>)
    requires 6 + 9 * |t.fields| < TWO_16
    ensures |b| == 6 + |t.fields|
  {
    Header(TYPE_VALUES, 6 + 9 * |t.fields|) + PackShort(|t.fields|) + TypeCodes(t.fields)
  }

  /** The data column; `zip` stops at the shorter of template and vector. */
  function PackData(fields: seq<Field>, values: seq<Datum>): Result<seq<Byte>, Error> {
    if fields == [] || values == [] then Success([])
    else
      var first :- PackDatum(fields[0].dsType, values[0]);
      var rest :- PackData(fields[1..], values[1..]);
      Success(first + rest)
  }

  function EncodedValues(t: Type, values: seq<Datum>): Result<seq<Byte>, Error>
    requires 6 + 9 * |t.fields| < TWO_16
  {
    var data :- PackData(t.fields, values);
    Success(Template(t) + data)
  }

  /** `_encode_values`, as the loop it is. */
  method EncodeValues(t: Type, values: seq<Datum>) returns (r: Result<seq<Byte>, Error>)
    requires 6 + 9 * |t.fields| < TWO_16
    ensures r == EncodedValues(t, values)
  {
    var msg := Template(t);
    ghost var data: seq<Byte> := [];
    var i := 0;
    assert t.fields[0..] == t.fields && values[0..] == values;
    AfterNothing(data, PackData(t.fields, values));
    while i < |t.fields| && i < |values|
      invariant i <= |t.fields| && i <= |values|
      invariant msg == Template(t) + data
      invariant PackData(t.fields, values) == After(data, PackData(t.fields[i..], values[i..]))
    {
      assert t.fields[i..][1..] == t.fields[i + 1..] && values[i..][1..] == values[i + 1..];
      var packed := PackDatum(t.fields[i].dsType, values[i]);
      if packed.Failure? {
        return Failure(packed.error);
      }
      AfterTwo(data, packed.value, PackData(t.fields[i + 1..], values[i + 1..]));
      assert msg + packed.value == Template(t) + (data + packed.value);
      data := data + packed.value;
      msg := msg + packed.value;
      i := i + 1;
    }
    AfterNothing(data, PackData(t.fields[i..], values[i..]));
    return Success(msg);
  }

  /** `pack_values`. The type is looked up first; the time is looked at only after
      every string has been encoded. */
  function PackValues(types: Registry, v: Values<Datum>): Result<seq<Byte>, Error>
    requires Registered(types)
  {
    if v.typeName.None? || v.typeName.value !in types then Failure(UnknownType)
    else
      var t := types[v.typeName.value];
      var host :- PackString(TYPE_HOST, v.host);
      var plugin :- PackString(TYPE_PLUGIN, v.plugin);
      var pluginInstance :- PackString(TYPE_PLUGIN_INSTANCE, v.pluginInstance);
      var typeName :- PackString(TYPE_TYPE, Some(t.name));
      var interval :- PackNumber(TYPE_INTERVAL, v.interval);
      var typeInstance :- PackString(TYPE_TYPE_INSTANCE, v.typeInstance);
      if v.time.None? then Failure(MissingTime)
      else
        var time :- PackNumber(TYPE_TIME, Trunc(v.time.value));
        var payload :- EncodedValues(t, v.values);
        Success(host + time + plugin + pluginInstance + typeName + interval + typeInstance + payload)
  }

  // ----- Unpacking -----

  datatype PartValue = Text(text: string) | Number(n: int) | Data(data: seq<Datum>)

  predicate IsText(code: nat) {
    code in {TYPE_HOST, TYPE_PLUGIN, TYPE_PLUGIN_INSTANCE, TYPE_TYPE, TYPE_TYPE_INSTANCE}
  }

  predicate IsNumber(code: nat) {
    code in {TYPE_TIME, TYPE_INTERVAL}
  }

  predicate Suits(code: nat, value: PartValue) {
    match value
    case Text(_) => IsText(code)
    case Number(_) => IsNumber(code)
    case Data(_) => code == TYPE_VALUES
  }

  function DsTypeOf(code: Byte): Option<DsType> {
    if code == 0 then Some(Counter)
    else if code == 1 then Some(Gauge)
    else if code == 2 then Some(Derive)
    else if code == 3 then Some(Absolute)
    else None
  }

  function UnpackDatum(t: DsType, b: seq<Byte>): Datum
    requires |b| == 8
  {
    match t
    case Gauge => Double(UnpackWord(b))
    case Derive => Whole(UnpackLong(b))
    case _ => Whole(UnpackUnsigned(b))
  }

  /** The two columns are read in step: `n` type codes from `typesAt`, `n` data from `dataAt`. */
  function UnpackData(buf: seq<Byte>, typesAt: nat, dataAt: nat, n: nat): (r: Result<seq<Datum>, Error>)
    ensures r.Failure? ==> r.error != NeverReturns
    ensures r.Success? ==> |r.value| == n
    decreases n
  {
    if n == 0 then Success([])
    else if typesAt >= |buf| then Failure(StructError)
    else if DsTypeOf(buf[typesAt]).None? then Failure(KeyError)
    else if dataAt + 8 > |buf| then Failure(StructError)
    else
      var rest :- UnpackData(buf, typesAt + 1, dataAt + 8, n - 1);
      Success([UnpackDatum(DsTypeOf(buf[typesAt]).value, buf[dataAt..dataAt + 8])] + rest)
  }

  function UnpackedValues(buf: seq<Byte>): Result<seq<Datum>, Error> {
    if |buf| < 6 then Failure(StructError)
    else
      var n := UnpackShort(buf[4..6]);
      UnpackData(buf, 6, 6 + n, n)
  }

  /** `_unpack_values`, as the loop it is. */
  method UnpackValues(buf: seq<Byte>) returns (r: Result<seq<Datum>, Error>)
    ensures r == UnpackedValues(buf)
  {
    if |buf| < 6 {
      return Failure(StructError);
    }
    var num := UnpackShort(buf[4..6]);
    var valuesPos := 6 + num;
    var result: seq<Datum> := [];
    AfterNothing(result, UnpackData(buf, 6, 6 + num, num));
    for pos := 0 to num
      invariant valuesPos == 6 + num + 8 * pos
      invariant UnpackData(buf, 6, 6 + num, num) == After(result, UnpackData(buf, 6 + pos, valuesPos, num - pos))
    {
      if 6 + pos >= |buf| {
        return Failure(StructError);
      }
      var valueType := DsTypeOf(buf[6 + pos]);
      if valueType.None? {
        return Failure(KeyError);
      }
      if valuesPos + 8 > |buf| {
        return Failure(StructError);
      }
      var value := UnpackDatum(valueType.value, buf[valuesPos..valuesPos + 8]);
      AfterTwo(result, [value], UnpackData(buf, 6 + pos + 1, valuesPos + 8, num - pos - 1));
      result := result + [value];
      valuesPos := valuesPos + 8;
    }
    AfterNothing(result, UnpackData(buf, 6 + num, valuesPos, 0));
    return Success(result);
  }

  /** One receiver function applied to the rest of the buffer; None for an unknown code. */
  function Handle(code: nat, len: nat, buf: seq<Byte>): (r: Result<Option<PartValue>, Error>)
    ensures r.Success? && r.value.Some? ==> Suits(code, r.value.value)
    ensures r.Success? && r.value.None? ==> code > TYPE_INTERVAL
    ensures r.Failure? ==> r.error != NeverReturns
  {
    if IsText(code) then
      var text := Slice(buf, 4, len - 1);
      if AsciiBytes(text) then Success(Some(Text(DecodeAscii(text)))) else Failure(UnicodeError)
    else if IsNumber(code) then
      if |buf| < 12 then Failure(StructError) else Success(Some(Number(UnpackLong(buf[4..12]))))
    else if code == TYPE_VALUES then
      var data :- UnpackedValues(buf);
      Success(Some(Data(data)))
    else Success(None)
  }

  function One(code: nat, value: Option<PartValue>): map<nat, PartValue> {
    if value.Some? then map[code := value.value] else map[]
  }

  ghost predicate AllSuit(m: map<nat, PartValue>) {
    forall code :: code in m ==> Suits(code, m[code])
  }

  /** Parts seen so far, overridden by those still to come. */
  function Then(seen: map<nat, PartValue>, rest: Result<map<nat, PartValue>, Error>): Result<map<nat, PartValue>, Error> {
    if rest.Success? then Success(seen + rest.value) else rest
  }

  lemma ThenNothing(seen: map<nat, PartValue>, rest: Result<map<nat, PartValue>, Error>)
    ensures Then(map[], rest) == rest && Then(seen, Success(map[])) == Success(seen)
  {
    assert rest.Success? ==> map[] + rest.value == rest.value;
    assert seen + map[] == seen;
  }

  lemma ThenTwo(a: map<nat, PartValue>, b: map<nat, PartValue>, rest: Result<map<nat, PartValue>, Error>)
    ensures Then(a, Then(b, rest)) == Then(a + b, rest)
  {
    assert rest.Success? ==> a + (b + rest.value) == a + b + rest.value;
  }

  /** `_unpack_packet`: what the loop collects from the rest of a buffer. */
  function Parts(buf: seq<Byte>): (r: Result<map<nat, PartValue>, Error>)
    ensures r.Success? ==> AllSuit(r.value)
    decreases |buf|
  {
    if buf == [] then Success(map[])
    else if |buf| < 4 then Failure(StructError)
    else
      var code, len := UnpackShort(buf[..2]), UnpackShort(buf[2..4]);
      var value :- Handle(code, len, buf);
      if len == 0 then Failure(NeverReturns)
      else
        Then(One(code, value), Parts(if len <= |buf| then buf[len..] else []))
  }

  /** `_unpack_packet`, as the loop it is; it would spin on a part of length zero. */
  method UnpackPacket(buf: seq<Byte>) returns (r: Result<map<nat, PartValue>, Error>)
    ensures r == Parts(buf)
  {
    var pos := 0;
    var result: map<nat, PartValue> := map[];
    assert buf[0..] == buf;
    ThenNothing(result, Parts(buf));
    while pos < |buf|
      invariant 0 <= pos
      invariant Parts(buf) == Then(result, Parts(if pos <= |buf| then buf[pos..] else []))
      decreases |buf| - pos
    {
      if |buf| - pos < 4 {
        return Failure(StructError);
      }
      var tail := buf[pos..];
      var code, len := UnpackShort(tail[..2]), UnpackShort(tail[2..4]);
      var value := Handle(code, len, tail);
      if value.Failure? {
        return Failure(value.error);
      }
      if len == 0 {
        return Failure(NeverReturns);
      }
      ghost var rest := if len <= |tail| then tail[len..] else [];
      assert rest == if pos + len <= |buf| then buf[pos + len..] else [];
      ThenTwo(result, One(code, value.value), Parts(rest));
      result := result + One(code, value.value);
      pos := pos + len;
    }
    ThenNothing(result, Parts(if pos <= |buf| then buf[pos..] else []));
    return Success(result);
  }

  /** `_to_value`, with a KeyError for each part that did not come. */
  function ToValues(parts: map<nat, PartValue>): Result<Values<Datum>, Error>
    requires AllSuit(parts)
  {
    if forall code: nat :: code < 8 ==> code in parts then
      Success(Values(Some(parts[TYPE_TYPE].text), Some(parts[TYPE_TYPE_INSTANCE].text),
                     Some(parts[TYPE_PLUGIN].text), Some(parts[TYPE_PLUGIN_INSTANCE].text),
                     Some(parts[TYPE_HOST].text), Some(parts[TYPE_TIME].n as real),
                     parts[TYPE_INTERVAL].n, parts[TYPE_VALUES].data))
    else Failure(KeyError)
  }

  /** `unpack_bytes`: None when the message is skipped. */
  function UnpackBytes(types: Registry, buf: seq<Byte>): Result<Option<Values<Datum>>, Error> {
    var parts :- Parts(buf);
    if TYPE_TYPE !in parts || parts[TYPE_TYPE].text !in types then Success(None)
    else
      var v :- ToValues(parts);
      Success(Some(v))
  }
}
