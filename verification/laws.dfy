/** Laws that the output of a summary obeys. */
module SummaryLaws {
  import opened Wrappers
  import opened Protocol
  import opened Summation
  import opened CollectdTypes
  import opened Translation
  import opened Expiry
  import opened Grouping
  import opened Aggregation
  import opened RecordInvariant
  import opened MessageHistory
  import opened SummaryRows
  import opened Emissions

  // ----- After any run -----

  /** After any run of messages and earlier summaries, a summary that the three
      clocks let through yields exactly the values due in the state it leaves behind. */
  lemma SummaryAfterRun(events: seq<Event>, now: real) returns (os: seq<Origin>)
    requires forall kind: Kind :: Completes(ClocksAfter(events).At(kind), now)
    ensures Annotates(Run(events + [Summary(now)]), now, os, Summarize(Run(events), now).1.out) && NoRepeats(os)
    ensures forall o :: o in os <==> Due(Run(events + [Summary(now)]), o)
  {
    RecordsAlwaysMatch(events);
    RunTicks(events);
    forall kind: Kind ensures Completes(Run(events).At(kind).clock, now) {
      assert Run(events).At(kind).clock == ClocksAfter(events).At(kind);
    }
    SummaryCompletes(Run(events), now);
    RunAppend(events, Summary(now));
    os := SummaryExact(Run(events), now);
  }

  /** End to end: after any run, a summary that the clocks told from the run let
      through yields exactly the sums over live records; the live records are the last
      messages that were stored and not expired since, and each is what its message left. */
  lemma EndToEnd(events: seq<Event>, now: real) returns (os: seq<Origin>)
    requires forall kind: Kind :: Completes(ClocksAfter(events).At(kind), now)
    ensures Annotates(Run(events + [Summary(now)]), now, os, Summarize(Run(events), now).1.out) && NoRepeats(os)
    ensures forall o :: o in os <==> Due(Run(events + [Summary(now)]), o)
    ensures forall kind: Kind, k ::
              k in Run(events + [Summary(now)]).At(kind).bucket <==>
              exists i :: LastStored(events + [Summary(now)], kind, k, i)
    ensures forall kind: Kind, k, i :: LastStored(events + [Summary(now)], kind, k, i) ==>
                                         && k in Run(events + [Summary(now)]).At(kind).bucket && 0 <= i < |events|
                                         && Run(events + [Summary(now)]).At(kind).bucket[k] == HeldFor(kind, events[i].v)
  {
    os := SummaryAfterRun(events, now);
    var all := events + [Summary(now)];
    forall kind: Kind, k
      ensures k in Run(all).At(kind).bucket <==> exists i :: LastStored(all, kind, k, i)
      ensures forall i :: LastStored(all, kind, k, i) ==>
                            && k in Run(all).At(kind).bucket && 0 <= i < |events|
                            && Run(all).At(kind).bucket[k] == HeldFor(kind, events[i].v)
    {
      BucketHoldsLastMessages(all, kind, k);
    }
  }

  // ----- Host rows and program rows -----

  ghost function Programs(b: Bucket, h: string): set<string> {
    set k | k in b && k.host == h :: k.program
  }

  /** The program totals of a host, added up. */
  ghost function ProgramsTotal(b: Bucket, h: string, ps: set<string>, i: nat): int {
    if ps == {} then 0
    else
      var p :| p in ps;
      Total(b, Members(b, Program(h, p)), i) + ProgramsTotal(b, h, ps - {p}, i)
  }

  lemma {:induction false} ProgramsTotalRemove(b: Bucket, h: string, ps: set<string>, i: nat, p: string)
    requires p in ps
    ensures ProgramsTotal(b, h, ps, i) == Total(b, Members(b, Program(h, p)), i) + ProgramsTotal(b, h, ps - {p}, i)
  {
    var q :| q in ps && ProgramsTotal(b, h, ps, i) ==
                        Total(b, Members(b, Program(h, q)), i) + ProgramsTotal(b, h, ps - {q}, i);
    if q != p {
      ProgramsTotalRemove(b, h, ps - {q}, i, p);
      ProgramsTotalRemove(b, h, ps - {p}, i, q);
      assert ps - {p} - {q} == ps - {q} - {p};
    }
  }

  lemma {:induction false} TotalUnion(b: Bucket, s: set<Key>, t: set<Key>, i: nat)
    requires s <= b.Keys && t <= b.Keys && s !! t
    ensures Total(b, s + t, i) == Total(b, s, i) + Total(b, t, i)
  {
    if s == {} {
      assert s + t == t;
    } else {
      var k :| k in s;
      TotalUnion(b, s - {k}, t, i);
      TotalRemove(b, s, i, k);
      TotalRemove(b, s + t, i, k);
      assert s + t - {k} == (s - {k}) + t;
    }
  }

  lemma {:induction false} TotalByPrograms(b: Bucket, h: string, ps: set<string>, i: nat)
    ensures Total(b, (set k | k in b && k.host == h && k.program in ps), i) == ProgramsTotal(b, h, ps, i)
  {
    var s := set k | k in b && k.host == h && k.program in ps;
    if ps == {} {
      assert s == {};
    } else {
      var p :| p in ps;
      var t := set k | k in b && k.host == h && k.program in ps - {p};
      TotalByPrograms(b, h, ps - {p}, i);
      ProgramsTotalRemove(b, h, ps, i, p);
      TotalUnion(b, Members(b, Program(h, p)), t, i);
      assert s == Members(b, Program(h, p)) + t;
    }
  }

  /** A host's total is the sum of the totals of its programs. */
  lemma {:induction false} HostTotal(b: Bucket, h: string, i: nat)
    ensures Total(b, Members(b, Host(h)), i) == ProgramsTotal(b, h, Programs(b, h), i)
  {
    TotalByPrograms(b, h, Programs(b, h), i);
    assert Members(b, Host(h)) == set k | k in b && k.host == h && k.program in Programs(b, h);
  }

  // ----- Field names identify fields -----

  function Mark(name: string): (int, int, int) {
    (|name|, if |name| > 5 then name[0] as int else 0, if |name| > 5 then name[4] as int * 200 + name[5] as int else 0)
  }

  function FieldName(kind: Kind, i: nat): string
    requires i < |kind.Spec().fields|
  {
    kind.Spec().fields[i].name
  }

  lemma MarksDiffer(i: nat, j: nat)
    ensures i < j < 5 ==> Mark(POOL.fields[i].name) != Mark(POOL.fields[j].name)
    ensures i < j < 4 ==> Mark(TOTALS.fields[i].name) != Mark(TOTALS.fields[j].name)
    ensures i < 5 && j < 4 ==> Mark(POOL.fields[i].name) != Mark(TOTALS.fields[j].name)
    ensures i < 5 ==> Mark(POOL.fields[i].name) != Mark(PROCESS.fields[0].name)
    ensures i < 4 ==> Mark(TOTALS.fields[i].name) != Mark(PROCESS.fields[0].name)
  {
  }

  lemma FieldNamesIdentify(kind: Kind, i: nat, kind': Kind, j: nat)
    requires i < |kind.Spec().fields| && j < |kind'.Spec().fields|
    requires FieldName(kind, i) == FieldName(kind', j)
    ensures kind == kind' && i == j
  {
    MarksDiffer(i, j);
    MarksDiffer(j, i);
  }

  // ----- External types -----

  /** The fields of the pool and process types, by name. */
  predicate IsLevel(name: string) {
    name == "numpools" || name == "checkedout" || name == "checkedin" || name == "detached" || name == "connections"
    || name == "numprocs"
  }

  /** The fields of the totals type, by name. */
  predicate IsGrowing(name: string) {
    name == "checkouts" || name == "invalidated" || name == "connects" || name == "disconnects"
  }

  lemma LevelOrGrowing(kind: Kind, i: nat)
    requires i < |kind.Spec().fields|
    ensures !kind.Totals? ==> IsLevel(FieldName(kind, i)) && ExternalTypeName(kind.Spec().fields[i].dsType) == Some("count")
    ensures kind.Totals? ==> IsGrowing(FieldName(kind, i)) && ExternalTypeName(kind.Spec().fields[i].dsType) == Some("derive")
  {
  }

  lemma NotBoth(name: string)
    ensures !(IsLevel(name) && IsGrowing(name))
  {
    assert |"numpools"| == 8 && |"checkedout"| == 10 && |"checkedin"| == 9 && |"detached"| == 8 && |"connections"| == 11;
    assert |"numprocs"| == 8 && |"checkouts"| == 9 && |"invalidated"| == 11 && |"connects"| == 8 && |"disconnects"| == 11;
    assert "checkedin"[5] != "checkouts"[5] && "connections"[0] != "invalidated"[0] && "connections"[0] != "disconnects"[0];
    assert "connects"[0] != "numpools"[0] && "connects"[0] != "detached"[0] && "connects"[0] != "numprocs"[0];
  }

  /** Whatever a summary yields, however it ends, is a level under one of six names and of
      collectd's type "count", or a growing total under one of four others and of the type
      "derive". */
  lemma OutputTypes(s: State, now: real, n: nat)
    requires RecordsMatch(s) && n < |Summarize(s, now).1.out|
    ensures var v := Summarize(s, now).1.out[n];
      && v.typeInstance.Some?
      && (IsLevel(v.typeInstance.value) || IsGrowing(v.typeInstance.value))
      && (IsLevel(v.typeInstance.value) ==> v.typeName == Some("count"))
      && (IsGrowing(v.typeInstance.value) ==> v.typeName == Some("derive"))
  {
    var os := OutputExact(s, now);
    var o, v := os[n], Summarize(s, now).1.out[n];
    assert Due(Summarize(s, now).0, o) && IsEmission(Summarize(s, now).0, now, o, v);
    LevelOrGrowing(o.kind, o.field);
    NotBoth(v.typeInstance.value);
  }

  // ----- Conservation, as a reader of the output sees it -----

  /** The values of one field that the output has for the programs of a host, added up. */
  ghost function ProgramRowsSum(out: seq<Msg>, h: string, name: string): int {
    if out == [] then 0
    else
      var v := out[|out| - 1];
      ProgramRowsSum(out[..|out| - 1], h, name)
      + if v.host == Some(h) && v.typeInstance == Some(name) && v.pluginInstance != Some("host") then Element(v, 0) else 0
  }

  ghost function ProgramsIn(os: seq<Origin>, kind: Kind, h: string, i: nat): set<string> {
    set o | o in os && o.kind == kind && o.field == i && o.group.Program? && o.group.host == h :: o.group.program
  }

  ghost predicate NoProgramNamedHost(s: State) {
    forall kind: Kind, k :: k in s.At(kind).bucket ==> k.program != "host"
  }

  /** The values that come from a field of the programs of a host, added up. */
  ghost function ProgramValuesSum(os: seq<Origin>, out: seq<Msg>, kind: Kind, h: string, i: nat): int
    requires |os| == |out|
  {
    if out == [] then 0
    else
      var n := |out| - 1;
      ProgramValuesSum(os[..n], out[..n], kind, h, i) + if FromProgram(os[n], kind, h, i) then Element(out[n], 0) else 0
  }

  predicate FromProgram(o: Origin, kind: Kind, h: string, i: nat) {
    o.kind == kind && o.field == i && o.group.Program? && o.group.host == h
  }

  lemma {:induction false} ProgramValue(s: State, now: real, o: Origin, v: Msg, kind: Kind, h: string, i: nat)
    requires Due(s, o) && IsEmission(s, now, o, v) && FromProgram(o, kind, h, i)
    ensures Element(v, 0) == Total(s.At(kind).bucket, Members(s.At(kind).bucket, Program(h, o.group.program)), i)
  {
    assert o.group == Program(h, o.group.program);
  }

  lemma {:induction false} ProgramsTotalStep(b: Bucket, os: seq<Origin>, kind: Kind, h: string, i: nat)
    requires os != [] && NoRepeats(os)
    ensures var o := os[|os| - 1];
      ProgramsTotal(b, h, ProgramsIn(os, kind, h, i), i) ==
      ProgramsTotal(b, h, ProgramsIn(os[..|os| - 1], kind, h, i), i)
      + if FromProgram(o, kind, h, i) then Total(b, Members(b, Program(h, o.group.program)), i) else 0
  {
    if FromProgram(os[|os| - 1], kind, h, i) {
      AddedProgram(os, kind, h, i);
      ProgramsTotalRemove(b, h, ProgramsIn(os, kind, h, i), i, os[|os| - 1].group.program);
    } else {
      NoProgramAdded(os, kind, h, i);
    }
  }

  lemma AnnotatesFront(s: State, now: real, os: seq<Origin>, out: seq<Msg>)
    requires Annotates(s, now, os, out) && NoRepeats(os) && os != []
    ensures Annotates(s, now, os[..|os| - 1], out[..|os| - 1]) && NoRepeats(os[..|os| - 1])
    ensures Due(s, os[|os| - 1]) && IsEmission(s, now, os[|os| - 1], out[|os| - 1])
  {
  }

  lemma {:induction false} ProgramValuesSumIs(s: State, now: real, os: seq<Origin>, out: seq<Msg>, kind: Kind, h: string, i: nat)
    requires Annotates(s, now, os, out) && NoRepeats(os)
    ensures ProgramValuesSum(os, out, kind, h, i) == ProgramsTotal(s.At(kind).bucket, h, ProgramsIn(os, kind, h, i), i)
  {
    if os != [] {
      var n := |os| - 1;
      AnnotatesFront(s, now, os, out);
      ProgramValuesSumIs(s, now, os[..n], out[..n], kind, h, i);
      ProgramsTotalStep(s.At(kind).bucket, os, kind, h, i);
      if FromProgram(os[n], kind, h, i) {
        ProgramValue(s, now, os[n], out[n], kind, h, i);
      }
    }
  }

  lemma ContributesIff(s: State, now: real, o: Origin, v: Msg, kind: Kind, h: string, i: nat)
    requires NoProgramNamedHost(s) && Due(s, o) && IsEmission(s, now, o, v) && i < |kind.Spec().fields|
    ensures (v.host == Some(h) && v.typeInstance == Some(FieldName(kind, i)) && v.pluginInstance != Some("host"))
            <==> FromProgram(o, kind, h, i)
  {
    if v.typeInstance == Some(FieldName(kind, i)) {
      FieldNamesIdentify(kind, i, o.kind, o.field);
    }
    if o.group.Program? {
      var k :| k in LiveMembers(s, o);
      assert k.program == o.group.program != "host";
    }
  }

  /** Unless a live program is named "host", the labels tell the programs' values apart. */
  lemma {:induction false} RowsSumIsValuesSum(s: State, now: real, os: seq<Origin>, out: seq<Msg>, kind: Kind, h: string, i: nat)
    requires NoProgramNamedHost(s) && Annotates(s, now, os, out) && i < |kind.Spec().fields|
    ensures ProgramRowsSum(out, h, FieldName(kind, i)) == ProgramValuesSum(os, out, kind, h, i)
  {
    if os != [] {
      var n := |os| - 1;
      RowsSumIsValuesSum(s, now, os[..n], out[..n], kind, h, i);
      ContributesIff(s, now, os[n], out[n], kind, h, i);
    }
  }

  lemma NoProgramAdded(os: seq<Origin>, kind: Kind, h: string, i: nat)
    requires os != []
    requires !FromProgram(os[|os| - 1], kind, h, i)
    ensures ProgramsIn(os, kind, h, i) == ProgramsIn(os[..|os| - 1], kind, h, i)
  {
    assert os == os[..|os| - 1] + [os[|os| - 1]];
  }

  lemma AddedProgram(os: seq<Origin>, kind: Kind, h: string, i: nat)
    requires os != [] && NoRepeats(os)
    requires FromProgram(os[|os| - 1], kind, h, i)
    ensures var p := os[|os| - 1].group.program;
      p in ProgramsIn(os, kind, h, i) && ProgramsIn(os, kind, h, i) - {p} == ProgramsIn(os[..|os| - 1], kind, h, i)
  {
    var front, o := os[..|os| - 1], os[|os| - 1];
    assert os == front + [o];
    var ps, qs := ProgramsIn(os, kind, h, i), ProgramsIn(front, kind, h, i);
    assert o in os;
    assert o !in front;
    assert forall x :: x in front && x.kind == kind && x.field == i && x.group.Program? && x.group.host == h ==>
                         x.group.program != o.group.program;
    forall p ensures p in ps <==> p in qs || p == o.group.program {
      if p in qs {
        var x :| x in front && x.kind == kind && x.field == i && x.group.Program? && x.group.host == h && x.group.program == p;
        assert x in os;
      }
    }
  }

  lemma ProgramsAllIn(s: State, os: seq<Origin>, kind: Kind, h: string, i: nat)
    requires forall o :: o in os <==> Due(s, o)
    requires Due(s, Origin(kind, Host(h), i))
    ensures ProgramsIn(os, kind, h, i) == Programs(s.At(kind).bucket, h)
  {
    var b := s.At(kind).bucket;
    forall p ensures p in ProgramsIn(os, kind, h, i) <==> p in Programs(b, h) {
      var o := Origin(kind, Program(h, p), i);
      if p in ProgramsIn(os, kind, h, i) {
        assert o in os;
        var k :| k in LiveMembers(s, o);
      }
      if p in Programs(b, h) {
        var k :| k in b && k.host == h && k.program == p;
        assert k in LiveMembers(s, o);
        assert LiveMembers(s, o) <= LiveMembers(s, Origin(kind, Host(h), i));
        assert o in os;
      }
    }
  }

  lemma ProgramNotHost(s: State, o: Origin)
    requires NoProgramNamedHost(s) && Due(s, o) && o.group.Program?
    ensures ProgramLabel(o.group) != "host"
  {
    var k :| k in LiveMembers(s, o);
    assert k.program == o.group.program;
  }

  lemma HostLabel(s: State, now: real, o: Origin, v: Msg)
    requires NoProgramNamedHost(s) && Due(s, o) && IsEmission(s, now, o, v)
    ensures v.pluginInstance == Some("host") ==> o == Origin(o.kind, Host(o.group.host), o.field)
    ensures v.host == Some(o.group.host) && v.typeInstance == Some(FieldName(o.kind, o.field))
    ensures v.values == [Total(s.At(o.kind).bucket, Members(s.At(o.kind).bucket, o.group), o.field)]
  {
    if o.group.Program? {
      ProgramNotHost(s, o);
    }
  }

  /** An annotated output that is complete and has nothing twice. */
  ghost predicate Exact(s: State, now: real, os: seq<Origin>, out: seq<Msg>) {
    Annotates(s, now, os, out) && NoRepeats(os) && forall o :: o in os <==> Due(s, o)
  }

  /** The program values of a host add up to its total. */
  lemma {:induction false} ProgramValuesAddUp(s: State, now: real, os: seq<Origin>, out: seq<Msg>, kind: Kind, h: string, i: nat)
    requires Exact(s, now, os, out) && Due(s, Origin(kind, Host(h), i))
    ensures ProgramValuesSum(os, out, kind, h, i) == Total(s.At(kind).bucket, Members(s.At(kind).bucket, Host(h)), i)
  {
    ProgramValuesSumIs(s, now, os, out, kind, h, i);
    ProgramsAllIn(s, os, kind, h, i);
    HostTotal(s.At(kind).bucket, h, i);
  }

  /** Conservation, by origin: whatever programs are called, each value of a host is the
      sum of the values of its programs for the same field. */
  lemma HostValueIsSumOfProgramValues(s: State, now: real) returns (os: seq<Origin>)
    requires RecordsMatch(s) && forall kind: Kind :: Completes(s.At(kind).clock, now)
    ensures Exact(Summarize(s, now).0, now, os, Summarize(s, now).1.out)
    ensures var out := Summarize(s, now).1.out;
      forall n :: 0 <= n < |out| && os[n].group.Host? ==>
                    out[n].values == [ProgramValuesSum(os, out, os[n].kind, os[n].group.host, os[n].field)]
  {
    SummaryCompletes(s, now);
    var s', out := Summarize(s, now).0, Summarize(s, now).1.out;
    os := SummaryExact(s, now);
    forall n | 0 <= n < |out| && os[n].group.Host?
      ensures out[n].values == [ProgramValuesSum(os, out, os[n].kind, os[n].group.host, os[n].field)]
    {
      HostValueAt(s', now, os, out, n);
    }
  }

  lemma {:induction false} HostValueAt(s: State, now: real, os: seq<Origin>, out: seq<Msg>, n: nat)
    requires Exact(s, now, os, out) && n < |out| && os[n].group.Host?
    ensures out[n].values == [ProgramValuesSum(os, out, os[n].kind, os[n].group.host, os[n].field)]
  {
    var kind, h, i := os[n].kind, os[n].group.host, os[n].field;
    assert os[n] == Origin(kind, Host(h), i);
    assert Due(s, os[n]) && IsEmission(s, now, os[n], out[n]);
    ProgramValuesAddUp(s, now, os, out, kind, h, i);
  }

  lemma HostOrigin(s: State, now: real, os: seq<Origin>, out: seq<Msg>, n: nat)
    requires Annotates(s, now, os, out) && NoProgramNamedHost(s)
    requires n < |out| && out[n].pluginInstance == Some("host")
    ensures os[n] == Origin(os[n].kind, Host(os[n].group.host), os[n].field)
    ensures Due(s, os[n]) && out[n].host == Some(os[n].group.host)
    ensures out[n].typeInstance == Some(FieldName(os[n].kind, os[n].field))
    ensures out[n].values == [Total(s.At(os[n].kind).bucket, Members(s.At(os[n].kind).bucket, Host(os[n].group.host)), os[n].field)]
  {
    HostLabel(s, now, os[n], out[n]);
  }

  lemma {:induction false} HostRowAt(s: State, now: real, os: seq<Origin>, out: seq<Msg>, n: nat)
    requires Exact(s, now, os, out) && NoProgramNamedHost(s)
    requires n < |out| && out[n].pluginInstance == Some("host")
    ensures out[n].host.Some? && out[n].typeInstance.Some?
    ensures out[n].values == [ProgramRowsSum(out, out[n].host.value, out[n].typeInstance.value)]
  {
    HostOrigin(s, now, os, out, n);
    var kind, h, i := os[n].kind, os[n].group.host, os[n].field;
    ProgramValuesAddUp(s, now, os, out, kind, h, i);
    RowsSumIsValuesSum(s, now, os, out, kind, h, i);
    assert out[n].host.value == h && out[n].typeInstance.value == FieldName(kind, i);
  }

  /** Conservation: unless some live program is itself named "host", every value
      labelled "host" equals the sum of the same field over that host's programs. */
  lemma HostRowIsSumOfProgramRows(s: State, now: real)
    requires RecordsMatch(s) && forall kind: Kind :: Completes(s.At(kind).clock, now)
    ensures NoProgramNamedHost(Summarize(s, now).0) ==>
              var out := Summarize(s, now).1.out;
              forall n :: 0 <= n < |out| && out[n].pluginInstance == Some("host") ==>
                            && out[n].host.Some? && out[n].typeInstance.Some?
                            && out[n].values == [ProgramRowsSum(out, out[n].host.value, out[n].typeInstance.value)]
  {
    SummaryCompletes(s, now);
    var s', out := Summarize(s, now).0, Summarize(s, now).1.out;
    var os := SummaryExact(s, now);
    if NoProgramNamedHost(s') {
      forall n | 0 <= n < |out| && out[n].pluginInstance == Some("host")
        ensures out[n].host.Some? && out[n].typeInstance.Some?
        ensures out[n].values == [ProgramRowsSum(out, out[n].host.value, out[n].typeInstance.value)]
      {
        HostRowAt(s', now, os, out, n);
      }
    }
  }

  // ----- Identity -----

  function Identity(v: Msg): (Option<string>, Option<string>, Option<string>, Option<string>) {
    (v.host, v.pluginInstance, v.typeName, v.typeInstance)
  }

  ghost predicate SomeIdentityTwice(out: seq<Msg>) {
    exists a, b :: 0 <= a < b < |out| && Identity(out[a]) == Identity(out[b])
  }

  /** A live program named "host", on a host all of whose records have a value. */
  ghost predicate HostNameTaken(s: State) {
    exists kind: Kind, k :: k in s.At(kind).bucket && k.program == "host"
                            && HasField(s.At(kind).bucket, Members(s.At(kind).bucket, Host(k.host)), 0)
  }

  lemma SameIdentity(s: State, now: real, o: Origin, v: Msg, o': Origin, v': Msg)
    requires Due(s, o) && IsEmission(s, now, o, v) && Due(s, o') && IsEmission(s, now, o', v')
    requires o.group.Program? || o'.group.Host?
    ensures Identity(v) == Identity(v') <==>
            (o == o' || (o.kind == o'.kind && o.field == o'.field && o.group == Program(o'.group.host, "host") && o'.group.Host?))
  {
    if Identity(v) == Identity(v') {
      FieldNamesIdentify(o.kind, o.field, o'.kind, o'.field);
    }
  }

  lemma TakenIffBothDue(s: State)
    ensures HostNameTaken(s) <==>
            exists kind: Kind, h, i :: Due(s, Origin(kind, Program(h, "host"), i)) && Due(s, Origin(kind, Host(h), i))
  {
    if HostNameTaken(s) {
      var kind: Kind, k :| k in s.At(kind).bucket && k.program == "host"
                           && HasField(s.At(kind).bucket, Members(s.At(kind).bucket, Host(k.host)), 0);
      var p, q := Origin(kind, Program(k.host, "host"), 0), Origin(kind, Host(k.host), 0);
      assert k in LiveMembers(s, p) && k in LiveMembers(s, q) && LiveMembers(s, p) <= LiveMembers(s, q);
      assert Due(s, p) && Due(s, q);
    }
    if kind: Kind, h, i :| Due(s, Origin(kind, Program(h, "host"), i)) && Due(s, Origin(kind, Host(h), i)) {
      var k :| k in LiveMembers(s, Origin(kind, Program(h, "host"), i));
      assert HasField(s.At(kind).bucket, Members(s.At(kind).bucket, Host(k.host)), 0);
    }
  }

  lemma TwiceMeansBothDue(s: State, now: real, os: seq<Origin>, out: seq<Msg>, a: nat, b: nat)
    requires Annotates(s, now, os, out) && NoRepeats(os)
    requires a < |out| && b < |out| && a != b && Identity(out[a]) == Identity(out[b])
    requires os[a].group.Program? || os[b].group.Host?
    ensures os[a] == Origin(os[b].kind, Program(os[b].group.host, "host"), os[b].field)
    ensures os[b] == Origin(os[b].kind, Host(os[b].group.host), os[b].field)
  {
    assert os[a] != os[b];
    SameIdentity(s, now, os[a], out[a], os[b], out[b]);
  }

  lemma BothDueMeansTwice(s: State, now: real, os: seq<Origin>, out: seq<Msg>, a: nat, b: nat)
    requires Annotates(s, now, os, out) && a < |os| && b < |os|
    requires os[b].group.Host? && os[a] == Origin(os[b].kind, Program(os[b].group.host, "host"), os[b].field)
    ensures SomeIdentityTwice(out)
  {
    SameIdentity(s, now, os[a], out[a], os[b], out[b]);
    TwiceAt(out, a, b);
  }

  lemma TwiceAt(out: seq<Msg>, a: nat, b: nat)
    requires a < |out| && b < |out| && a != b && Identity(out[a]) == Identity(out[b])
    ensures SomeIdentityTwice(out)
  {
    if a < b {
      assert Identity(out[a]) == Identity(out[b]);
    } else {
      assert Identity(out[b]) == Identity(out[a]);
    }
  }

  lemma TwiceMeansTaken(s: State, now: real, os: seq<Origin>, out: seq<Msg>)
    requires Annotates(s, now, os, out) && NoRepeats(os) && SomeIdentityTwice(out)
    ensures HostNameTaken(s)
  {
    var a, b :| 0 <= a < b < |out| && Identity(out[a]) == Identity(out[b]);
    TakenIffBothDue(s);
    if os[a].group.Program? || os[b].group.Host? {
      TwiceMeansBothDue(s, now, os, out, a, b);
    } else {
      TwiceMeansBothDue(s, now, os, out, b, a);
    }
  }

  lemma TakenMeansTwice(s: State, now: real, os: seq<Origin>, out: seq<Msg>)
    requires Annotates(s, now, os, out) && HostNameTaken(s)
    requires forall o :: Due(s, o) ==> o in os
    ensures SomeIdentityTwice(out)
  {
    TakenIffBothDue(s);
    var kind: Kind, h, i :| Due(s, Origin(kind, Program(h, "host"), i)) && Due(s, Origin(kind, Host(h), i));
    assert Origin(kind, Program(h, "host"), i) in os && Origin(kind, Host(h), i) in os;
    var a := IndexOf(os, Origin(kind, Program(h, "host"), i));
    var b := IndexOf(os, Origin(kind, Host(h), i));
    BothDueMeansTwice(s, now, os, out, a, b);
  }

  lemma IndexOf<T>(xs: seq<T>, x: T) returns (a: nat)
    requires x in xs
    ensures a < |xs| && xs[a] == x
  {
    a :| 0 <= a < |xs| && xs[a] == x;
  }

  /** Two values of one summary share host, label, type and field name exactly when
      a live program takes the reserved name "host". */
  lemma IdentitiesUnique(s: State, now: real)
    requires RecordsMatch(s) && forall kind: Kind :: Completes(s.At(kind).clock, now)
    ensures SomeIdentityTwice(Summarize(s, now).1.out) <==> HostNameTaken(Summarize(s, now).0)
  {
    SummaryCompletes(s, now);
    var s', out := Summarize(s, now).0, Summarize(s, now).1.out;
    var os := SummaryExact(s, now);
    if SomeIdentityTwice(out) {
      TwiceMeansTaken(s', now, os, out);
    }
    if HostNameTaken(s') {
      TakenMeansTwice(s', now, os, out);
    }
  }

  // ----- Counting processes -----

  ghost predicate AllOnes(b: Bucket) {
    forall k :: k in b ==> b[k].value.values == [1]
  }

  /** A message that puts its own vector into the process bucket for good: of the
      process type, and either without a token or with a negative interval. */
  predicate KeepsOwnVector(v: Message) {
    KindNamed(v.typeName) == Some(Process) && (v.typeInstance.value == "" || v.interval < 0)
  }

  lemma CountedUnlessKept(cs: Clocks, v: Message)
    requires KindNamed(v.typeName) == Some(Process)
    ensures Counted(cs, v) <==> !KeepsOwnVector(v)
  {
  }

  /** Storing a message keeps every process record a count of one, unless it is
      accepted, keeps its own vector, and that vector is not itself a one. */
  lemma ReceiveKeepsOnes(s: State, v: Message)
    requires AllOnes(s.process.bucket)
    ensures AllOnes(SetStats(s, v).0.process.bucket) <==>
            !(AcceptedByOwn(ClocksOf(s), v) && KeepsOwnVector(v) && v.values != [1])
  {
    ReceiveEffect(s, v, Process);
    if KindNamed(v.typeName) == Some(Process) {
      CountedUnlessKept(ClocksOf(s), v);
      if AcceptedByOwn(ClocksOf(s), v) && KeepsOwnVector(v) {
        assert SetStats(s, v).0.process.bucket[KeyOf(v)].value == v;
      }
    }
  }

  /** Over a run, exactly: all process records are ones iff each live one comes from a
      message that does not keep its own vector, or whose vector is itself a one. */
  lemma {:induction false} OnesIffLiveOnes(events: seq<Event>)
    ensures AllOnes(Run(events).process.bucket) <==>
            forall k, i :: LastStored(events, Process, k, i) ==> !KeepsOwnVector(events[i].v) || events[i].v.values == [1]
  {
    var b := Run(events).process.bucket;
    forall k: Key ensures (k in b ==> b[k].value.values == [1]) <==> LiveOne(events, k) {
      LiveOneIff(events, k);
    }
    if AllOnes(b) {
      forall k, i | LastStored(events, Process, k, i) ensures !KeepsOwnVector(events[i].v) || events[i].v.values == [1] {
        assert LiveOne(events, k);
      }
    }
  }

  /** The record under `k`, if it is live, comes from a message that makes it a one. */
  ghost predicate LiveOne(events: seq<Event>, k: Key) {
    forall i :: LastStored(events, Process, k, i) ==> !KeepsOwnVector(events[i].v) || events[i].v.values == [1]
  }

  lemma {:induction false} LiveOneIff(events: seq<Event>, k: Key)
    ensures var b := Run(events).process.bucket;
      (k in b ==> b[k].value.values == [1]) <==> LiveOne(events, k)
  {
    BucketHoldsLastMessages(events, Process, k);
    forall i | LastStored(events, Process, k, i)
      ensures HeldFor(Process, events[i].v).value.values == if KeepsOwnVector(events[i].v) then events[i].v.values else [1]
    {
      ProcessRecordOf(events, k, i);
    }
  }

  /** What a stored message leaves in the process bucket: a count of one, unless it
      keeps its own vector. */
  lemma ProcessRecordOf(events: seq<Event>, k: Key, i: int)
    requires LastStored(events, Process, k, i)
    ensures HeldFor(Process, events[i].v).value ==
            if KeepsOwnVector(events[i].v) then events[i].v else Manufactured(events[i].v)
    ensures KeepsOwnVector(events[i].v) && events[i].v.interval >= 0 ==> k.token == ""
  {
  }

  // ----- The count over a run -----

  /** The live records of a set whose message kept its own vector. */
  ghost function OwnVectors(events: seq<Event>, s: set<Key>): set<Key> {
    set k | k in s && KeptByMessage(events, k)
  }

  ghost predicate KeptByMessage(events: seq<Event>, k: Key) {
    exists i :: LastStored(events, Process, k, i) && KeepsOwnVector(events[i].v)
  }

  /** What the records of a set count beyond one each. */
  ghost function Excess(b: Bucket, s: set<Key>): int
    requires s <= b.Keys
  {
    Total(b, s, 0) - |s|
  }

  lemma {:induction false} OnesCount(b: Bucket, s: set<Key>)
    requires s <= b.Keys && forall k :: k in s ==> Element(b[k].value, 0) == 1
    ensures Excess(b, s) == 0
  {
    if s != {} {
      var k :| k in s;
      OnesCount(b, s - {k});
      TotalRemove(b, s, 0, k);
    }
  }

  lemma {:induction false} OthersAreOnes(events: seq<Event>, k: Key)
    requires k in Run(events).process.bucket && !KeptByMessage(events, k)
    ensures Run(events).process.bucket[k].value.values == [1]
  {
    BucketHoldsLastMessages(events, Process, k);
    var i :| LastStored(events, Process, k, i);
    ProcessRecordOf(events, k, i);
  }

  /** The excess of a set is that of its records with a message's own vector. */
  lemma {:induction false} ExcessIsOfOwnVectors(events: seq<Event>, s: set<Key>)
    requires s <= Run(events).process.bucket.Keys
    ensures Excess(Run(events).process.bucket, s) == Excess(Run(events).process.bucket, OwnVectors(events, s))
  {
    var b, own := Run(events).process.bucket, OwnVectors(events, s);
    forall k | k in s - own ensures Element(b[k].value, 0) == 1 {
      OthersAreOnes(events, k);
    }
    OnesCount(b, s - own);
    TotalUnion(b, own, s - own, 0);
    assert own + (s - own) == s;
  }

  ghost function Image<A(!new), B>(s: set<A>, f: A -> B): set<B> {
    set x | x in s :: f(x)
  }

  lemma {:induction false} ImageSize<A(!new), B>(s: set<A>, f: A -> B)
    requires forall x, y :: x in s && y in s && f(x) == f(y) ==> x == y
    ensures |Image(s, f)| == |s|
  {
    if s != {} {
      var x :| x in s;
      ImageSize(s - {x}, f);
      assert Image(s, f) == Image(s - {x}, f) + {f(x)};
    }
  }

  ghost function LiveTokens(b: Bucket, h: string, p: string): set<string> {
    set k | k in b && k.host == h && k.program == p :: k.token
  }

  ghost function LivePairs(b: Bucket, h: string): set<(string, string)> {
    set k | k in b && k.host == h :: (k.program, k.token)
  }

  lemma TokensSize(b: Bucket, h: string, p: string)
    ensures |LiveTokens(b, h, p)| == |Members(b, Program(h, p))|
  {
    var s := Members(b, Program(h, p));
    var token := (k: Key) => k.token;
    ImageSize(s, token);
    var image := Image(s, token);
    forall t ensures t in LiveTokens(b, h, p) <==> t in image {
      if t in LiveTokens(b, h, p) {
        var k :| k in b && k.host == h && k.program == p && k.token == t;
        assert k in s && token(k) in image;
      }
    }
    assert LiveTokens(b, h, p) == image;
  }

  lemma PairsSize(b: Bucket, h: string)
    ensures |LivePairs(b, h)| == |Members(b, Host(h))|
  {
    var s := Members(b, Host(h));
    var pair := (k: Key) => (k.program, k.token);
    ImageSize(s, pair);
    var image := Image(s, pair);
    forall t ensures t in LivePairs(b, h) <==> t in image {
      if t in LivePairs(b, h) {
        var k :| k in b && k.host == h && (k.program, k.token) == t;
        assert k in s && pair(k) in image;
      }
    }
    assert LivePairs(b, h) == image;
  }

  /** The number of live processes of a group: its distinct live tokens, or a host's
      distinct live (program, token) pairs. */
  ghost function LiveProcesses(b: Bucket, p: Group): nat {
    match p
    case Program(h, program) => |LiveTokens(b, h, program)|
    case Host(h) => |LivePairs(b, h)|
  }

  /** What a run has a group count beyond its live processes. */
  ghost function Miscount(events: seq<Event>, p: Group): int {
    var b := Run(events).process.bucket;
    Excess(b, OwnVectors(events, Members(b, p)))
  }

  /** However many messages each process sent: the process count of a group is the
      number of its live processes and whatever its live records with a message's own
      vector count beyond one each. */
  lemma {:induction false} NumprocsCountsTokens(events: seq<Event>, p: Group)
    ensures var b := Run(events).process.bucket;
      Total(b, Members(b, p), 0) == LiveProcesses(b, p) + Miscount(events, p)
  {
    var b := Run(events).process.bucket;
    ExcessIsOfOwnVectors(events, Members(b, p));
    match p
    case Program(h, program) => TokensSize(b, h, program);
    case Host(h) => PairsSize(b, h);
  }

  /** Every live record of the group counts one, as far as its message tells. */
  ghost predicate CountsRight(events: seq<Event>, p: Group) {
    forall k, i :: LastStored(events, Process, k, i) && k in Members(Run(events).process.bucket, p) ==>
                     !KeepsOwnVector(events[i].v) || Element(events[i].v, 0) == 1
  }

  lemma {:induction false} RecordCountsOne(events: seq<Event>, p: Group, k: Key)
    requires CountsRight(events, p) && k in Members(Run(events).process.bucket, p)
    ensures Element(Run(events).process.bucket[k].value, 0) == 1
  {
    BucketHoldsLastMessages(events, Process, k);
    var i :| LastStored(events, Process, k, i);
    ProcessRecordOf(events, k, i);
  }

  lemma {:induction false} NoMiscount(events: seq<Event>, p: Group)
    requires CountsRight(events, p)
    ensures Miscount(events, p) == 0
    ensures HasField(Run(events).process.bucket, Members(Run(events).process.bucket, p), 0)
  {
    var b := Run(events).process.bucket;
    forall k | k in Members(b, p) ensures Element(b[k].value, 0) == 1 {
      RecordCountsOne(events, p, k);
    }
    OnesCount(b, OwnVectors(events, Members(b, p)));
  }

  lemma {:induction false} OnlyTokenless(events: seq<Event>, h: string, program: string)
    requires forall e :: e in events && e.Receive? && KindNamed(e.v.typeName) == Some(Process) ==> e.v.interval >= 0
    ensures OwnVectors(events, Members(Run(events).process.bucket, Program(h, program))) <= {Key(h, program, "")}
  {
    var b := Run(events).process.bucket;
    forall k | k in OwnVectors(events, Members(b, Program(h, program))) ensures k == Key(h, program, "") {
      var i :| LastStored(events, Process, k, i) && KeepsOwnVector(events[i].v);
      ProcessRecordOf(events, k, i);
      assert events[i] in events;
    }
  }

  /** When no process message has a negative interval, the count of a program is right
      iff its live tokenless record, if there is one and a process message left it,
      counts one. */
  lemma {:induction false} ProgramCountIff(events: seq<Event>, h: string, program: string)
    requires forall e :: e in events && e.Receive? && KindNamed(e.v.typeName) == Some(Process) ==> e.v.interval >= 0
    ensures var b := Run(events).process.bucket;
      Total(b, Members(b, Program(h, program)), 0) == |LiveTokens(b, h, program)| <==>
      forall i :: LastStored(events, Process, Key(h, program, ""), i) ==> Element(events[i].v, 0) == 1
  {
    var b, k, p := Run(events).process.bucket, Key(h, program, ""), Program(h, program);
    NumprocsCountsTokens(events, p);
    OnlyTokenless(events, h, program);
    BucketHoldsLastMessages(events, Process, k);
    var own := OwnVectors(events, Members(b, p));
    forall i | LastStored(events, Process, k, i) ensures own == {k} && b[k].value == events[i].v {
      TokenlessKeepsOwn(events, k, i);
    }
    if i :| LastStored(events, Process, k, i) {
      TotalRemove(b, {k}, 0, k);
      assert {k} - {k} == {};
    } else {
      assert own == {};
    }
  }

  /** Only a process message leaves a tokenless record in the process bucket. */
  lemma {:induction false} TokenlessKeepsOwn(events: seq<Event>, k: Key, i: int)
    requires LastStored(events, Process, k, i) && k.token == ""
    ensures KeepsOwnVector(events[i].v) && KeptByMessage(events, k)
    ensures k in Run(events).process.bucket && Run(events).process.bucket[k].value == events[i].v
  {
    BucketHoldsLastMessages(events, Process, k);
    ProcessRecordOf(events, k, i);
  }

  lemma NumprocsOrigin(o: Origin, v: Msg, s: State, now: real)
    requires Due(s, o) && IsEmission(s, now, o, v) && v.typeInstance == Some("numprocs")
    ensures o.kind == Process && o.field == 0
  {
    assert FieldName(Process, 0) == "numprocs";
    FieldNamesIdentify(o.kind, o.field, Process, 0);
  }

  /** A numprocs value, as a reader of the output sees it. */
  predicate IsNumprocs(v: Msg) {
    v.typeInstance == Some("numprocs")
  }

  lemma {:induction false} CountIsDue(all: seq<Event>, p: Group)
    requires CountsRight(all, p)
    ensures Miscount(all, p) == 0
    ensures Members(Run(all).process.bucket, p) != {} ==> Due(Run(all), Origin(Process, p, 0))
  {
    NoMiscount(all, p);
  }

  /** A value that shows the process count of a group, with what it miscounts. */
  ghost predicate ShowsCount(all: seq<Event>, p: Group, v: Msg) {
    v.values == [LiveProcesses(Run(all).process.bucket, p) + Miscount(all, p)]
  }

  /** So it is in the output, by origin: each numprocs value comes from a group with a
      live process record and shows the group's live processes and its miscount; where
      the group's live records count one each there is no miscount, and the group has
      its value. */
  lemma NumprocsByOrigin(events: seq<Event>, now: real) returns (os: seq<Origin>)
    requires forall kind: Kind :: Completes(ClocksAfter(events).At(kind), now)
    ensures var all := events + [Summary(now)];
      var s', out := Run(all), Summarize(Run(events), now).1.out;
      && Annotates(s', now, os, out) && (forall o :: o in os <==> Due(s', o))
      && (forall n :: 0 <= n < |out| && IsNumprocs(out[n]) ==> CountsGroup(all, os[n], out[n]))
      && (forall p :: CountsRight(all, p) ==>
                        Miscount(all, p) == 0 && (Members(s'.process.bucket, p) != {} ==> Origin(Process, p, 0) in os))
  {
    var all := events + [Summary(now)];
    var s', out := Run(all), Summarize(Run(events), now).1.out;
    os := SummaryAfterRun(events, now);
    forall n | 0 <= n < |out| && IsNumprocs(out[n]) ensures CountsGroup(all, os[n], out[n]) {
      NumprocsAt(all, now, os[n], out[n]);
    }
    forall p | CountsRight(all, p)
      ensures Miscount(all, p) == 0 && (Members(s'.process.bucket, p) != {} ==> Origin(Process, p, 0) in os)
    {
      CountIsDue(all, p);
    }
  }

  /** A value that comes from a group, says so, and shows its count. */
  ghost predicate CountsGroup(all: seq<Event>, o: Origin, v: Msg) {
    && o.kind == Process && v.host == Some(o.group.host) && v.pluginInstance == Some(ProgramLabel(o.group))
    && ShowsCount(all, o.group, v)
  }

  lemma {:induction false} NumprocsAt(all: seq<Event>, now: real, o: Origin, v: Msg)
    requires Due(Run(all), o) && IsEmission(Run(all), now, o, v) && IsNumprocs(v)
    ensures CountsGroup(all, o, v)
  {
    NumprocsValue(Run(all), now, o, v);
    NumprocsCountsTokens(all, o.group);
  }

  lemma NumprocsValue(s: State, now: real, o: Origin, v: Msg)
    requires Due(s, o) && IsEmission(s, now, o, v) && IsNumprocs(v)
    ensures o.kind == Process && v.host == Some(o.group.host) && v.pluginInstance == Some(ProgramLabel(o.group))
    ensures v.values == [Total(s.process.bucket, Members(s.process.bucket, o.group), 0)]
  {
    NumprocsOrigin(o, v, s, now);
  }

  /** The group that a value's labels name when no program is called "host". */
  function LabelledGroup(h: string, program: string): Group {
    if program == "host" then Host(h) else Program(h, program)
  }

  /** Unless a live program is named "host", labels tell it all: every numprocs value
      labelled with a program shows the program's live tokens, and every one labelled
      "host" the host's live (program, token) pairs, each with its miscount, which is
      nothing where the live records count one each. */
  lemma {:induction false} NumprocsEmitted(events: seq<Event>, now: real)
    requires forall kind: Kind :: Completes(ClocksAfter(events).At(kind), now)
    requires NoProgramNamedHost(Run(events + [Summary(now)]))
    ensures var all, out := events + [Summary(now)], Summarize(Run(events), now).1.out;
      && (forall n :: 0 <= n < |out| && IsNumprocs(out[n]) ==>
                        && out[n].host.Some? && out[n].pluginInstance.Some?
                        && ShowsCount(all, LabelledGroup(out[n].host.value, out[n].pluginInstance.value), out[n]))
      && (forall p :: CountsRight(all, p) ==> Miscount(all, p) == 0)
  {
    var all, out := events + [Summary(now)], Summarize(Run(events), now).1.out;
    var os := NumprocsByOrigin(events, now);
    forall n | 0 <= n < |out| && IsNumprocs(out[n])
      ensures out[n].host.Some? && out[n].pluginInstance.Some?
      ensures ShowsCount(all, LabelledGroup(out[n].host.value, out[n].pluginInstance.value), out[n])
    {
      GroupFromLabels(Run(all), now, os, out, n);
      assert CountsGroup(all, os[n], out[n]);
    }
  }

  lemma GroupFromLabels(s: State, now: real, os: seq<Origin>, out: seq<Msg>, n: nat)
    requires Annotates(s, now, os, out) && n < |out|
    requires NoProgramNamedHost(s) || out[n].pluginInstance != Some("host")
    ensures out[n].host.Some? && out[n].pluginInstance.Some?
    ensures os[n].group == LabelledGroup(out[n].host.value, out[n].pluginInstance.value)
  {
    assert Due(s, os[n]) && IsEmission(s, now, os[n], out[n]);
    if os[n].group.Program? && NoProgramNamedHost(s) {
      ProgramNotHost(s, os[n]);
    }
  }

  const TOKENLESS: Message := Values(Some(PROCESS.name), Some(""), None, Some("prog"), Some("h"), Some(100.0), 10, [7])

  /** The condition is needed: one process message without a token and with a vector
      of its own makes a single record count as seven. */
  lemma TokenlessMessageMiscounts()
    ensures KeepsOwnVector(TOKENLESS)
    ensures var b := Run([Receive(TOKENLESS)]).process.bucket;
      && Members(b, Program("h", "prog")) == {Key("h", "prog", "")}
      && Total(b, Members(b, Program("h", "prog")), 0) == 7
  {
    RunAppend([], Receive(TOKENLESS));
    assert [] + [Receive(TOKENLESS)] == [Receive(TOKENLESS)];
    ReceiveEffect(INITIAL, TOKENLESS, Process);
    var b := Run([Receive(TOKENLESS)]).process.bucket;
    var k := Key("h", "prog", "");
    assert b == map[k := Entry(100.0, 20, TOKENLESS)];
    assert Members(b, Program("h", "prog")) == {k};
    TotalRemove(b, {k}, 0, k);
  }

  // ----- Accounting survives aggregation -----

  /** The pool vector is numpools, checkedout, checkedin, detached, connections. */
  ghost predicate Accountable(v: Msg) {
    |v.values| == 5 && v.values[1] + v.values[2] + v.values[3] <= v.values[4]
  }

  lemma {:induction false} AccountableTotals(b: Bucket, s: set<Key>)
    requires s <= b.Keys && forall k :: k in s ==> Accountable(b[k].value)
    ensures Total(b, s, 1) + Total(b, s, 2) + Total(b, s, 3) <= Total(b, s, 4)
  {
    if s != {} {
      var k :| k in s;
      AccountableTotals(b, s - {k});
      forall i: nat ensures Total(b, s, i) == Element(b[k].value, i) + Total(b, s - {k}, i) {
        TotalRemove(b, s, i, k);
      }
    }
  }

  /** If every client's own numbers add up, so do the totals of every program and of
      every host, after any run: all fields of a record live and expire together. */
  lemma {:induction false} TotalsAccountable(events: seq<Event>, p: Group)
    requires forall e :: e in events && e.Receive? && KindNamed(e.v.typeName) == Some(Pool) ==> Accountable(e.v)
    ensures var b := Run(events).pool.bucket;
      var s := Members(b, p);
      && (forall i: nat :: i < 5 ==> HasField(b, s, i))
      && Total(b, s, 1) + Total(b, s, 2) + Total(b, s, 3) <= Total(b, s, 4)
  {
    var b := Run(events).pool.bucket;
    forall k | k in b ensures Accountable(b[k].value) {
      BucketHoldsLastMessages(events, Pool, k);
      var i :| LastStored(events, Pool, k, i);
      assert events[i] in events && KindNamed(events[i].v.typeName) == Some(Pool);
    }
    AccountableTotals(b, Members(b, p));
  }

  /** A value of the output, as its reader finds it by host, label and name. */
  predicate Shows(v: Msg, h: string, program: string, name: string) {
    v.host == Some(h) && v.pluginInstance == Some(program) && v.typeInstance == Some(name)
  }

  lemma {:induction false} ShownField(s: State, now: real, os: seq<Origin>, out: seq<Msg>, n: nat, h: string, program: string, kind: Kind, i: nat)
    requires Annotates(s, now, os, out) && n < |out| && i < |kind.Spec().fields|
    requires NoProgramNamedHost(s) || program != "host"
    requires Shows(out[n], h, program, FieldName(kind, i))
    ensures out[n].values == [Total(s.At(kind).bucket, Members(s.At(kind).bucket, LabelledGroup(h, program)), i)]
  {
    assert Due(s, os[n]) && IsEmission(s, now, os[n], out[n]);
    FieldNamesIdentify(os[n].kind, os[n].field, kind, i);
    GroupFromLabels(s, now, os, out, n);
  }

  /** The four values of one row: checkedout, checkedin, detached and connections. */
  predicate ShowPoolRow(out: seq<Msg>, h: string, program: string, a: nat, b: nat, c: nat, d: nat) {
    && a < |out| && b < |out| && c < |out| && d < |out|
    && Shows(out[a], h, program, FieldName(Pool, 1)) && Shows(out[b], h, program, FieldName(Pool, 2))
    && Shows(out[c], h, program, FieldName(Pool, 3)) && Shows(out[d], h, program, FieldName(Pool, 4))
  }

  /** What is out, in and detached is within all connections. */
  ghost predicate PartsWithinWhole(out: seq<Msg>, a: nat, b: nat, c: nat, d: nat)
    requires a < |out| && b < |out| && c < |out| && d < |out|
  {
    && |out[a].values| == |out[b].values| == |out[c].values| == |out[d].values| == 1
    && out[a].values[0] + out[b].values[0] + out[c].values[0] <= out[d].values[0]
  }

  lemma PoolRowShown(s: State, now: real, os: seq<Origin>, out: seq<Msg>, h: string, program: string, a: nat, b: nat, c: nat, d: nat)
    requires Annotates(s, now, os, out) && ShowPoolRow(out, h, program, a, b, c, d)
    requires NoProgramNamedHost(s) || program != "host"
    ensures var bucket := s.pool.bucket;
      var ks := Members(bucket, LabelledGroup(h, program));
      && out[a].values == [Total(bucket, ks, 1)] && out[b].values == [Total(bucket, ks, 2)]
      && out[c].values == [Total(bucket, ks, 3)] && out[d].values == [Total(bucket, ks, 4)]
  {
    ShownField(s, now, os, out, a, h, program, Pool, 1);
    ShownField(s, now, os, out, b, h, program, Pool, 2);
    ShownField(s, now, os, out, c, h, program, Pool, 3);
    ShownField(s, now, os, out, d, h, program, Pool, 4);
  }

  lemma PoolRowWithin(s: State, now: real, os: seq<Origin>, out: seq<Msg>, h: string, program: string, a: nat, b: nat, c: nat, d: nat)
    requires Annotates(s, now, os, out) && ShowPoolRow(out, h, program, a, b, c, d)
    requires NoProgramNamedHost(s) || program != "host"
    requires var ks := Members(s.pool.bucket, LabelledGroup(h, program));
      Total(s.pool.bucket, ks, 1) + Total(s.pool.bucket, ks, 2) + Total(s.pool.bucket, ks, 3) <= Total(s.pool.bucket, ks, 4)
    ensures PartsWithinWhole(out, a, b, c, d)
  {
    PoolRowShown(s, now, os, out, h, program, a, b, c, d);
  }

  /** Accounting survives aggregation. If every pool message has its connections
      checked out, checked in and detached within its connections, then so have the
      values that any summary of any run yields, in every program row and, unless a
      live program is named "host", in every host row. */
  lemma {:induction false} AccountingSurvives(events: seq<Event>, now: real, h: string, program: string, a: nat, b: nat, c: nat, d: nat)
    requires forall kind: Kind :: Completes(ClocksAfter(events).At(kind), now)
    requires forall e :: e in events && e.Receive? && KindNamed(e.v.typeName) == Some(Pool) ==> Accountable(e.v)
    requires NoProgramNamedHost(Run(events + [Summary(now)])) || program != "host"
    requires ShowPoolRow(Summarize(Run(events), now).1.out, h, program, a, b, c, d)
    ensures PartsWithinWhole(Summarize(Run(events), now).1.out, a, b, c, d)
  {
    AccountingAfter(events, events + [Summary(now)], now, Summarize(Run(events), now).1.out, h, program, a, b, c, d);
  }

  lemma {:induction false} AccountingAfter(events: seq<Event>, all: seq<Event>, now: real, out: seq<Msg>,
                        h: string, program: string, a: nat, b: nat, c: nat, d: nat)
    requires all == events + [Summary(now)] && out == Summarize(Run(events), now).1.out
    requires forall kind: Kind :: Completes(ClocksAfter(events).At(kind), now)
    requires forall e :: e in all && e.Receive? && KindNamed(e.v.typeName) == Some(Pool) ==> Accountable(e.v)
    requires (NoProgramNamedHost(Run(all)) || program != "host") && ShowPoolRow(out, h, program, a, b, c, d)
    ensures PartsWithinWhole(out, a, b, c, d)
  {
    var os := SummaryAfterRun(events, now);
    AccountingAt(all, now, os, out, h, program, a, b, c, d);
  }

  lemma {:induction false} AccountingAt(all: seq<Event>, now: real, os: seq<Origin>, out: seq<Msg>, h: string, program: string, a: nat, b: nat, c: nat, d: nat)
    requires forall e :: e in all && e.Receive? && KindNamed(e.v.typeName) == Some(Pool) ==> Accountable(e.v)
    requires NoProgramNamedHost(Run(all)) || program != "host"
    requires Annotates(Run(all), now, os, out) && ShowPoolRow(out, h, program, a, b, c, d)
    ensures PartsWithinWhole(out, a, b, c, d)
  {
    TotalsAccountable(all, LabelledGroup(h, program));
    PoolRowWithin(Run(all), now, os, out, h, program, a, b, c, d);
  }
}
