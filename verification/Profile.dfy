/** The indexed profile format, what makes a profile well-formed, and what a reader recovers from it. */
module Profile {
  import opened MachineInts

  datatype ValueType = ValueType(ty: nat, unit: nat)

  datatype Label = Label(key: nat, str: nat)

  datatype Sample = Sample(locationId: seq<nat>, value: seq<Isize>, labels: seq<Label>)

  datatype Line = Line(functionId: nat, line: nat)

  datatype Location = Location(id: nat, line: seq<Line>)

  datatype Function = Function(id: nat, name: nat, systemName: nat, filename: nat)

  datatype Profile = Profile(
    sampleType: seq<ValueType>, samples: seq<Sample>, locations: seq<Location>, functions: seq<Function>,
    stringTable: seq<string>, timeNanos: Isize, durationNanos: Isize, periodType: ValueType, period: Isize)
  {
    ghost predicate WellFormed() {
      TypesOk() && TablesOk() && forall s :: s in samples ==> SampleOk(s)
    }

    ghost predicate TypesOk() {
      && |stringTable| > 0 && stringTable[0] == ""
      && forall t :: t in sampleType + [periodType] ==> t.ty < |stringTable| && t.unit < |stringTable|
    }

    /** No two functions share a name. */
    ghost predicate TablesOk() {
      && |locations| == |functions|
      && (forall j :: 0 <= j < |functions| ==> FunctionOk(j))
      && (forall i, j :: 0 <= i < j < |functions| ==>
            FunctionOk(i) && FunctionOk(j) && stringTable[functions[i].name] != stringTable[functions[j].name])
      && (forall j :: 0 <= j < |locations| ==> LocationOk(j))
    }

    /** Function `j` has id `j + 1` and its strings are in the table. */
    ghost predicate FunctionOk(j: nat)
      requires j < |functions|
    {
      var f := functions[j];
      f.id == j + 1 && f.name < |stringTable| && f.systemName < |stringTable| && f.filename < |stringTable|
    }

    /** Location `j` has id `j + 1` and one line, in an existing function. */
    ghost predicate LocationOk(j: nat)
      requires j < |locations|
    {
      locations[j].id == j + 1 && |locations[j].line| == 1 && 1 <= locations[j].line[0].functionId <= |functions|
    }

    ghost predicate SampleOk(s: Sample) {
      && |s.value| == |sampleType|
      && (forall i :: 0 <= i < |s.locationId| ==> 1 <= s.locationId[i] <= |locations|)
      && (forall l :: l in s.labels ==> l.key < |stringTable| && l.str < |stringTable|)
    }

    // ---- Reading a profile ----

    /** The function that a location refers to. */
    ghost function FunctionAt(locationId: nat): Function
      requires WellFormed() && 1 <= locationId <= |locations|
    {
      assert LocationOk(locationId - 1);
      functions[locations[locationId - 1].line[0].functionId - 1]
    }

    ghost function NameAt(locationId: nat): string
      requires WellFormed() && 1 <= locationId <= |locations|
    {
      assert LocationOk(locationId - 1) && FunctionOk(locations[locationId - 1].line[0].functionId - 1);
      stringTable[FunctionAt(locationId).name]
    }

    /** The function names of a sample, innermost first. */
    ghost function Stack(s: Sample): (names: seq<string>)
      requires WellFormed() && s in samples
      ensures |names| == |s.locationId|
    {
      seq(|s.locationId|, i requires 0 <= i < |s.locationId| => NameAt(s.locationId[i]))
    }

    ghost function Labels(s: Sample): (labels: seq<(string, string)>)
      requires WellFormed() && s in samples
      ensures |labels| == |s.labels|
    {
      seq(|s.labels|, i requires 0 <= i < |s.labels| => (stringTable[s.labels[i].key], stringTable[s.labels[i].str]))
    }

    ghost function TypeAt(t: ValueType): (string, string)
      requires WellFormed() && t in sampleType + [periodType]
    {
      (stringTable[t.ty], stringTable[t.unit])
    }
  }
}
