/** What the generated factories build, and exactly when they compile and zero their data. */
module SkillBuilt {
  import opened Common
  import opened SkillFields
  import opened SkillTarget
  import opened SkillFactory
  import opened SkillNames

  /** What the constructor is given holds every field as meant. */
  ghost predicate Tabled(fs: seq<Field>, s: Shape, b: Buffer, zeroed: bool) {
    && (forall i :: 0 <= i < |fs| ==> Names(fs)[i] in b)
    && AsMeant(fs, s, zeroed, Tabulate(Names(fs), Names(fs), b, |fs|))
  }

  lemma {:induction false} RequestTable(fs: seq<Field>, s: Shape, b: Buffer)
    requires WellFormed(fs) && Everywhere(b, fs, RequestContent(fs, s)) && "" !in s
    ensures Tabled(fs, s, b, false)
  {
    TableAsMeant(fs, s, b, RequestContent(fs, s), false);
  }

  lemma {:induction false} ResponseTable(fs: seq<Field>, s: Shape, b: Buffer)
    requires WellFormed(fs) && Everywhere(b, fs, ResponseContent(fs, s)) && "" !in s
    ensures Tabled(fs, s, b, true)
  {
    TableAsMeant(fs, s, b, ResponseContent(fs, s), true);
  }

  /** Code that runs makes a factory that compiles or not by syntax and names alone. */
  lemma {:induction false} MadeFrom(fac: Factory, fs: seq<Field>, s: Shape, b: Buffer)
    requires Runs(map[], fac.code, Seen(fac, s), b) && fac.args == Names(fs) && forall i :: 0 <= i < |fs| ==> Names(fs)[i] in b
    ensures Make(fac, Names(fs), s) == if Compiles(fac) then Some(Tabulate(Names(fs), Names(fs), b, |fs|)) else None
  {
  }

  /**
   * For every well-formed definition and shape the request factory is made
   * exactly when the definition is buildable and the shape has every dimension
   * it uses. The table then has each field with its meant size and each dim with
   * its value.
   */
  lemma {:induction false} RequestMade(titles: Titles, fs: seq<Field>, s: Shape)
    requires WellFormed(fs) && "" !in s
    ensures var made := Make(RequestFactory(titles, fs), Names(fs), s);
            && (made.Some? <==> RequestBuildable(titles, fs) && Covers(fs, s))
            && (made.Some? ==> AsMeant(fs, s, false, made.value))
  {
    CompilesExactly(titles, "", [], fs);
    var fac := RequestFactory(titles, fs);
    if Covers(fs, s) {
      var b := RequestRuns(fs, s);
      RequestTable(fs, s, b);
      MadeFrom(fac, fs, s, b);
    } else if Make(fac, Names(fs), s).Some? {
      RunsCovers(fs, All(RequestStoresIn(fs), fs), true, s);
    }
  }

  /** A table only depends on the dimensions its fields use. */
  lemma {:induction false} OnlyUsedDims(fs: seq<Field>, s: Shape, s': Shape, t: Table)
    requires WellFormed(fs) && Covers(fs, s') && AsMeant(fs, s', true, t)
    requires "" !in s && "" !in s' && forall d :: d in s' ==> Value(s, d) == s'[d]
    ensures AsMeant(fs, s, true, t)
  {
    forall i | 0 <= i < |fs| ensures Meant(fs, fs[i], s, true) == Meant(fs, fs[i], s', true) {
      assert FieldOk(fs, fs[i]);
      if fs[i].role.Matrix? { DimsCovered(fs, i, s'); }
    }
  }

  /** Every dimension the fields use is one of the shape's. */
  predicate DimsKnown(dims: seq<string>, fs: seq<Field>) {
    forall i :: 0 <= i < |fs| && fs[i].sizeDim != "" ==> fs[i].sizeDim in dims
  }

  lemma {:induction false} InParams(dims: seq<string>, fs: seq<Field>, k: nat, d: string)
    requires k <= |dims|
    ensures d in Params(dims, fs, k) <==> Sizes(fs, d) && exists i :: 0 <= i < k && dims[i] == d
  {
    if k > 0 { InParams(dims, fs, k - 1, d); }
  }

  /** With a value for every parameter, the code sees what it uses exactly when the shape has it. */
  lemma {:induction false} SeenCovers(fac: Factory, dims: seq<string>, fs: seq<Field>, s: Shape)
    requires fac.inputs.ByName? && fac.params == Params(dims, fs, |dims|) && forall d :: d in fac.params ==> d in s
    ensures Covers(fs, Seen(fac, s)) <==> DimsKnown(dims, fs)
  {
    forall i | 0 <= i < |fs| && fs[i].sizeDim != "" ensures fs[i].sizeDim in Seen(fac, s) <==> fs[i].sizeDim in dims {
      InParams(dims, fs, |dims|, fs[i].sizeDim);
      assert Sizes(fs, fs[i].sizeDim);
    }
  }

  /**
   * A response factory, called with a value for each of its parameters, is made
   * exactly when it is buildable and its dimensions are among the shape's. Data
   * is zeroed but where a loop is captured by its own variable.
   */
  lemma {:induction false} ResponseMade(titles: Titles, dimType: string, dims: seq<string>, fs: seq<Field>, s: Shape)
    requires WellFormed(fs) && "" !in s && forall d :: d in Params(dims, fs, |dims|) ==> d in s
    ensures var made := Make(ResponseFactory(titles, dimType, dims, fs), Names(fs), s);
            && (made.Some? <==> ResponseBuildable(titles, dimType, dims, fs) && DimsKnown(dims, fs))
            && (made.Some? ==> AsMeant(fs, s, true, made.value))
  {
    CompilesExactly(titles, dimType, dims, fs);
    var fac := ResponseFactory(titles, dimType, dims, fs);
    SeenCovers(fac, dims, fs, s);
    if DimsKnown(dims, fs) {
      ResponseMadeFrom(fac, fs, s);
    } else if Make(fac, Names(fs), s).Some? {
      RunsCovers(fs, All(DimStoresIn(fs), fs) + All(ZerosIn(), fs), false, Seen(fac, s));
    }
  }

  lemma {:induction false} ResponseMadeFrom(fac: Factory, fs: seq<Field>, s: Shape)
    requires WellFormed(fs) && "" !in s && Covers(fs, Seen(fac, s))
    requires fac.inputs.ByName? && fac.code == ResponseCode(fs) && fac.args == Names(fs)
    ensures var made := Make(fac, Names(fs), s);
            (made.Some? <==> Compiles(fac)) && (made.Some? ==> AsMeant(fs, s, true, made.value))
  {
    var seen := Seen(fac, s);
    var b := ResponseRuns(fs, seen);
    ResponseTable(fs, seen, b);
    MadeFrom(fac, fs, s, b);
    OnlyUsedDims(fs, s, seen, Tabulate(Names(fs), Names(fs), b, |fs|));
  }

  // ----- Zeroed data

  predicate IsZero(v: Vec) { forall k :: 0 <= k < v.Size() ==> v.elems[k] == Some(0) }

  /** All data of the response, dims aside, is zero. */
  predicate AllZero(fs: seq<Field>, t: Table) {
    forall i :: 0 <= i < |fs| && !fs[i].role.Dim? && fs[i].name in t ==> IsZero(t[fs[i].name])
  }

  lemma {:induction false} FieldZero(fs: seq<Field>, s: Shape, t: Table, i: nat)
    requires AsMeant(fs, s, true, t) && i < |fs| && !fs[i].role.Dim?
    ensures IsZero(t[fs[i].name]) <==> (LoopCaptured(fs[i]) ==> Value(s, LOOP_VARIABLE) == 0)
  {
    var f, v := fs[i], t[fs[i].name];
    assert v == Meant(fs, f, s, true);
    if LoopCaptured(f) {
      assert v == Blank(Value(s, f.sizeDim));
      if v.Size() > 0 { assert v.elems[0] == None; }
    }
  }

  /** A response is all zero if and only if no vector or bytes field is sized by a dimension called `i` that is not 0. */
  lemma {:induction false} ZeroedExactly(fs: seq<Field>, s: Shape, t: Table)
    requires AsMeant(fs, s, true, t)
    ensures AllZero(fs, t) <==> forall i :: 0 <= i < |fs| && LoopCaptured(fs[i]) ==> Value(s, LOOP_VARIABLE) == 0
  {
    forall i | 0 <= i < |fs| && !fs[i].role.Dim?
      ensures IsZero(t[fs[i].name]) <==> (LoopCaptured(fs[i]) ==> Value(s, LOOP_VARIABLE) == 0)
    {
      FieldZero(fs, s, t, i);
    }
  }

  // ----- The emitters

  method EmitAll(emit: Emitter, fs: seq<Field>) returns (lines: seq<Stmt>)
    ensures lines == All(emit, fs)
  {
    lines := [];
    for k := 0 to |fs|
      invariant lines == Code(emit, fs, k)
    {
      lines := lines + emit(fs[k]);
    }
  }

  method EmitNames(listing: Listing, fs: seq<Field>) returns (names: seq<string>)
    ensures names == Listed(listing, fs, |fs|)
  {
    names := [];
    for k := 0 to |fs|
      invariant names == Listed(listing, fs, k)
    {
      names := names + FieldNames(listing, fs[k]);
    }
  }

  /** For every shape, what comes out is made exactly when buildable and covered, and builds the table meant. */
  method EmitCreateRequest(titles: Titles, fs: seq<Field>) returns (fac: Factory)
    ensures fac == RequestFactory(titles, fs)
    ensures WellFormed(fs) ==> forall s: Shape | "" !in s ::
              var made := Make(fac, Names(fs), s);
              && (made.Some? <==> RequestBuildable(titles, fs) && Covers(fs, s))
              && (made.Some? ==> AsMeant(fs, s, false, made.value))
  {
    var decls := EmitAll(DeclaresIn(fs), fs);
    var stores := EmitAll(RequestStoresIn(fs), fs);
    var outer := EmitNames(Outer, fs);
    var members := EmitNames(Struct, fs);
    fac := Factory(ByStruct, "RequestShape", ["shape"], Wrapped(decls + stores, true), Names(fs),
                   FixedOuter(titles, true) + outer, members);
    if WellFormed(fs) {
      forall s: Shape | "" !in s
        ensures var made := Make(fac, Names(fs), s);
                && (made.Some? <==> RequestBuildable(titles, fs) && Covers(fs, s))
                && (made.Some? ==> AsMeant(fs, s, false, made.value))
      {
        RequestMade(titles, fs, s);
      }
    }
  }

  method EmitParams(dims: seq<string>, fs: seq<Field>) returns (params: seq<string>)
    ensures params == Params(dims, fs, |dims|)
  {
    params := [];
    for k := 0 to |dims|
      invariant params == Params(dims, fs, k)
    {
      if dims[k] != "" && exists i :: 0 <= i < |fs| && fs[i].sizeDim == dims[k] {
        params := params + [dims[k]];
      }
    }
  }

  method EmitCreateResponse(titles: Titles, dimType: string, dims: seq<string>, fs: seq<Field>) returns (fac: Factory)
    ensures fac == ResponseFactory(titles, dimType, dims, fs)
    ensures WellFormed(fs) ==> forall s: Shape | "" !in s && forall d :: d in fac.params ==> d in s ::
              var made := Make(fac, Names(fs), s);
              && (made.Some? <==> ResponseBuildable(titles, dimType, dims, fs) && DimsKnown(dims, fs))
              && (made.Some? ==> AsMeant(fs, s, true, made.value))
  {
    var params := EmitParams(dims, fs);
    var decls := EmitAll(DeclaresIn(fs), fs);
    var stores := EmitAll(DimStoresIn(fs), fs);
    var zeros := EmitAll(ZerosIn(), fs);
    var outer := EmitNames(Outer, fs);
    var members := EmitNames(Struct, fs);
    fac := Factory(ByName, dimType, params, Wrapped(decls + (stores + zeros), false), Names(fs),
                   FixedOuter(titles, false) + outer, members);
    if WellFormed(fs) {
      forall s: Shape | "" !in s && forall d :: d in fac.params ==> d in s
        ensures var made := Make(fac, Names(fs), s);
                && (made.Some? <==> ResponseBuildable(titles, dimType, dims, fs) && DimsKnown(dims, fs))
                && (made.Some? ==> AsMeant(fs, s, true, made.value))
      {
        ResponseMade(titles, dimType, dims, fs, s);
      }
    }
  }
}
