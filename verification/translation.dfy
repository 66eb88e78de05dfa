/** collectd_types.py: the types clients and server exchange. */
module CollectdTypes {
  import opened Protocol

  const POOL := Type("sqlalchemy_pool",
                     [Field("numpools", Gauge), Field("checkedout", Gauge), Field("checkedin", Gauge),
                      Field("detached", Gauge), Field("connections", Gauge)])

  const PROCESS := Type("sqlalchemy_process", [Field("numprocs", Gauge)])

  const TOTALS := Type("sqlalchemy_totals",
                       [Field("checkouts", Derive), Field("invalidated", Derive),
                        Field("connects", Derive), Field("disconnects", Derive)])

  /** The types a receiver knows, in the order in which it summarizes them. */
  const RECEIVED: seq<Type> := [POOL, TOTALS, PROCESS]
}

/** stream.py, `StreamTranslator`: from internal vectors to external single values. */
module Translation {
  import opened Wrappers
  import opened Protocol
  import opened CollectdTypes

  function External(f: Field): Type {
    Type(f.name, [Field("value", f.dsType)])
  }

  function InternalTable(types: seq<Type>): map<string, Type> {
    if types == [] then map[]
    else InternalTable(types[..|types| - 1])[types[|types| - 1].name := types[|types| - 1]]
  }

  function FieldTable(fields: seq<Field>): map<string, Type> {
    if fields == [] then map[]
    else FieldTable(fields[..|fields| - 1])[fields[|fields| - 1].name := External(fields[|fields| - 1])]
  }

  function AllFields(types: seq<Type>): seq<Field> {
    if types == [] then [] else AllFields(types[..|types| - 1]) + types[|types| - 1].fields
  }

  /** `_type_by_name` once the constructor is done: field names hide type names. */
  function TypeTable(types: seq<Type>): map<string, Type> {
    InternalTable(types) + FieldTable(AllFields(types))
  }

  /** `_protocol_type_string_names`; None is its KeyError. */
  function ExternalTypeName(t: DsType): Option<string> {
    match t
    case Gauge => Some("count")
    case Derive => Some("derive")
    case _ => None
  }

  predicate Translatable(t: Type) {
    forall f :: f in t.fields ==> ExternalTypeName(f.dsType).Some?
  }

  /** One record per field of the zipped (name, type, value) columns. */
  function Split(fields: seq<Field>, v: Msg, from: nat): (out: seq<Msg>)
    requires forall f :: f in fields ==> ExternalTypeName(f.dsType).Some?
    decreases |fields| - from
  {
    if from < |fields| && from < |v.values| then
      [v.(typeInstance := Some(fields[from].name),
          typeName := ExternalTypeName(fields[from].dsType),
          values := [v.values[from]])]
      + Split(fields, v, from + 1)
    else []
  }

  /** `break_into_individual_values`; None is the KeyError of a type without a table
      entry, or with a field that is neither GAUGE nor DERIVE. */
  function Break(table: map<string, Type>, v: Msg): Option<seq<Msg>> {
    if v.typeName.Some? && v.typeName.value in table && Translatable(table[v.typeName.value])
    then Some(Split(table[v.typeName.value].fields, v, 0))
    else None
  }

  function Width(fields: seq<Field>, v: Msg): nat {
    if |fields| <= |v.values| then |fields| else |v.values|
  }

  lemma {:induction false} SplitAt(fields: seq<Field>, v: Msg, from: nat)
    requires forall f :: f in fields ==> ExternalTypeName(f.dsType).Some?
    requires from <= Width(fields, v)
    ensures |Split(fields, v, from)| == Width(fields, v) - from
    ensures forall i :: from <= i < Width(fields, v) ==>
                          Split(fields, v, from)[i - from] ==
                          v.(typeInstance := Some(fields[i].name),
                             typeName := ExternalTypeName(fields[i].dsType),
                             values := [v.values[i]])
    decreases |fields| - from
  {
    if from < Width(fields, v) {
      SplitAt(fields, v, from + 1);
      forall i | from <= i < Width(fields, v)
        ensures Split(fields, v, from)[i - from] == v.(typeInstance := Some(fields[i].name),
                                                       typeName := ExternalTypeName(fields[i].dsType),
                                                       values := [v.values[i]])
      {
        if i > from {
          assert Split(fields, v, from)[i - from] == Split(fields, v, from + 1)[i - (from + 1)];
        }
      }
    }
  }

  lemma {:induction false} SplitField(fields: seq<Field>, v: Msg, i: nat)
    requires forall f :: f in fields ==> ExternalTypeName(f.dsType).Some?
    requires i < Width(fields, v)
    ensures |Split(fields, v, 0)| == Width(fields, v)
    ensures Split(fields, v, 0)[i] == v.(typeInstance := Some(fields[i].name),
                                         typeName := ExternalTypeName(fields[i].dsType),
                                         values := [v.values[i]])
  {
    SplitAt(fields, v, 0);
    assert Split(fields, v, 0)[i - 0] == Split(fields, v, 0)[i];
  }

  function Rejoin(vs: seq<Msg>): seq<int>
    requires forall v :: v in vs ==> |v.values| == 1
  {
    if vs == [] then [] else Rejoin(vs[..|vs| - 1]) + vs[|vs| - 1].values
  }

  lemma {:induction false} RejoinAt(vs: seq<Msg>, xs: seq<int>)
    requires |xs| == |vs| && forall i :: 0 <= i < |vs| ==> vs[i].values == [xs[i]]
    requires forall v :: v in vs ==> |v.values| == 1
    ensures Rejoin(vs) == xs
  {
    if vs != [] {
      RejoinAt(vs[..|vs| - 1], xs[..|vs| - 1]);
      assert xs == xs[..|vs| - 1] + [xs[|vs| - 1]];
    }
  }

  /** Splitting loses nothing: put back together by field index, the single values
      are the vector again, as far as the type has fields for it. */
  lemma {:induction false} SplitRejoins(t: Type, v: Msg)
    requires Translatable(t)
    ensures forall w :: w in Split(t.fields, v, 0) ==> |w.values| == 1
    ensures Rejoin(Split(t.fields, v, 0)) == v.values[..Width(t.fields, v)]
  {
    SplitAt(t.fields, v, 0);
    RejoinAt(Split(t.fields, v, 0), v.values[..Width(t.fields, v)]);
  }

  lemma {:induction false} FieldTableAppend(fields: seq<Field>, f: Field)
    ensures FieldTable(fields + [f]) == FieldTable(fields)[f.name := External(f)]
  {
    assert (fields + [f])[..|fields|] == fields;
  }

  lemma OverrideThenUpdate<K, V>(m: map<K, V>, n: map<K, V>, k: K, v: V)
    ensures (m + n)[k := v] == m + n[k := v]
  {
  }

  class StreamTranslator {
    var typeByName: map<string, Type>
    var externalTypes: map<string, Type>

    constructor (types: seq<Type>)
      ensures typeByName == TypeTable(types)
      ensures externalTypes == FieldTable(AllFields(types))
    {
      typeByName, externalTypes := map[], map[];
      new;
      for n := 0 to |types|
        invariant typeByName == InternalTable(types[..n]) && externalTypes == map[]
      {
        typeByName := typeByName[types[n].name := types[n]];
        assert types[..n + 1][..n] == types[..n];
      }
      assert types[..|types|] == types;
      AddTypes(types);
    }

    /** The second loop of the constructor. */
    method AddTypes(types: seq<Type>)
      requires externalTypes == map[] && typeByName == InternalTable(types)
      modifies this
      ensures typeByName == TypeTable(types) && externalTypes == FieldTable(AllFields(types))
    {
      for n := 0 to |types|
        invariant externalTypes == FieldTable(AllFields(types[..n]))
        invariant typeByName == InternalTable(types) + externalTypes
      {
        AddFields(types[n].fields, AllFields(types[..n]), InternalTable(types));
        assert types[..n + 1][..n] == types[..n];
      }
      assert types[..|types|] == types;
    }

    /** The inner loop of the constructor. */
    method AddFields(fields: seq<Field>, ghost before: seq<Field>, ghost internal: map<string, Type>)
      requires externalTypes == FieldTable(before) && typeByName == internal + externalTypes
      modifies this
      ensures externalTypes == FieldTable(before + fields) && typeByName == internal + externalTypes
    {
      assert before + fields[..0] == before;
      for i := 0 to |fields|
        invariant externalTypes == FieldTable(before + fields[..i])
        invariant typeByName == internal + externalTypes
      {
        var externalType := Type(fields[i].name, [Field("value", fields[i].dsType)]);
        OverrideThenUpdate(internal, externalTypes, fields[i].name, externalType);
        FieldTableAppend(before + fields[..i], fields[i]);
        assert before + fields[..i + 1] == before + fields[..i] + [fields[i]];
        typeByName := typeByName[fields[i].name := externalType];
        externalTypes := externalTypes[fields[i].name := externalType];
      }
      assert fields[..|fields|] == fields;
    }
  }

  // ----- The table the receiver works with -----

  lemma {:induction false} FieldTableKeys(fields: seq<Field>, name: string)
    ensures name in FieldTable(fields) <==> exists f :: f in fields && f.name == name
  {
    if fields != [] {
      var front, f := fields[..|fields| - 1], fields[|fields| - 1];
      FieldTableKeys(front, name);
      assert fields == front + [f];
      assert f in fields;
    }
  }

  lemma {:induction false} InternalTableAt(types: seq<Type>, i: nat)
    requires i < |types| && forall j :: i < j < |types| ==> types[j].name != types[i].name
    ensures types[i].name in InternalTable(types) && InternalTable(types)[types[i].name] == types[i]
  {
    if i < |types| - 1 {
      InternalTableAt(types[..|types| - 1], i);
    }
  }

  /** The external type of a field, unless a later field takes its name, has that name and
      one value of the field's own type. */
  lemma {:induction false} ExternalIsFound(fields: seq<Field>, i: nat)
    requires i < |fields| && forall j :: i < j < |fields| ==> fields[j].name != fields[i].name
    ensures fields[i].name in FieldTable(fields)
    ensures FieldTable(fields)[fields[i].name] == Type(fields[i].name, [Field("value", fields[i].dsType)])
  {
    if i < |fields| - 1 {
      ExternalIsFound(fields[..|fields| - 1], i);
    }
  }

  lemma {:induction false} AllFieldsFrom(types: seq<Type>, f: Field)
    requires f in AllFields(types)
    ensures exists i :: 0 <= i < |types| && f in types[i].fields
  {
    if f !in types[|types| - 1].fields {
      AllFieldsFrom(types[..|types| - 1], f);
    }
  }

  /** A type is found under its own name unless a later type or some field has that name. */
  lemma TypeIsFound(types: seq<Type>, i: nat)
    requires i < |types| && forall j :: i < j < |types| ==> types[j].name != types[i].name
    requires forall j, f :: 0 <= j < |types| && f in types[j].fields ==> f.name != types[i].name
    ensures types[i].name in TypeTable(types) && TypeTable(types)[types[i].name] == types[i]
  {
    InternalTableAt(types, i);
    FieldTableKeys(AllFields(types), types[i].name);
    forall f | f in AllFields(types) ensures f.name != types[i].name {
      AllFieldsFrom(types, f);
    }
  }

  lemma ReceivedNames(t: Type, f: Field)
    requires t in RECEIVED && f in t.fields
    ensures |f.name| < 15 <= |t.name|
    ensures Translatable(t)
  {
    if t == POOL {
      assert |POOL.name| == 15;
    } else if t == TOTALS {
      assert |TOTALS.name| == 17;
    } else {
      assert t == PROCESS && |PROCESS.name| == 18;
    }
  }

  lemma ReceivedNamesDiffer(i: nat, j: nat)
    requires i < |RECEIVED| && j < |RECEIVED| && i != j
    ensures RECEIVED[i].name != RECEIVED[j].name
  {
    assert |POOL.name| == 15 && |TOTALS.name| == 17 && |PROCESS.name| == 18;
  }

  /** Looking up a received type never fails: no field name hides a type's. */
  lemma ReceivedTypeIsFound(i: nat)
    requires i < |RECEIVED|
    ensures var t := RECEIVED[i];
      t.name in TypeTable(RECEIVED) && TypeTable(RECEIVED)[t.name] == t && Translatable(t)
  {
    forall j, f | 0 <= j < |RECEIVED| && f in RECEIVED[j].fields ensures f.name != RECEIVED[i].name {
      ReceivedNames(RECEIVED[j], f);
      ReceivedNames(RECEIVED[i], RECEIVED[i].fields[0]);
    }
    forall j | i < j < |RECEIVED| ensures RECEIVED[j].name != RECEIVED[i].name {
      ReceivedNamesDiffer(i, j);
    }
    ReceivedNames(RECEIVED[i], RECEIVED[i].fields[0]);
    TypeIsFound(RECEIVED, i);
  }
}
