/** Definitions as the theorems about the generator see them: one that is shipped, and two that fail. */
module SkillExamples {
  import opened Common
  import opened SkillFields
  import opened SkillTarget
  import opened SkillFactory
  import opened SkillNames
  import opened SkillBuilt
  import opened SkillScatter
  import opened SkillCompiler

  function MatrixField(name: string, rows: string, cols: string): Field {
    Field(name, Matrix, name, "", rows, cols, "", "", "double")
  }

  function ScalarField(name: string): Field { Field(name, Scalar, name, "", "", "", "", "", "double") }

  /** `builtin.blas.Dgemm`: an m x k and a k x n matrix and two scalars in, an m x n matrix out. */
  const GemmDims: seq<string> := ["m", "k", "n"]

  const GemmRequest: seq<Field> :=
    [MatrixField("a", "m", "k"), MatrixField("b", "k", "n"), ScalarField("alpha"), ScalarField("beta")]

  const GemmResponse: seq<Field> := [MatrixField("c", "m", "n")]

  function GemmFields(): seq<Field> { Parsed(GemmRequest, 4) }

  function GemmResult(): seq<Field> { Parsed(GemmResponse, 1) }

  const ExpandedA: seq<Field> :=
    [MatrixField("a", "m", "k").(rowsField := "a_rows", colsField := "a_cols"), DimField("a_rows", "m"), DimField("a_cols", "k")]

  const ExpandedB: seq<Field> :=
    [MatrixField("b", "k", "n").(rowsField := "b_rows", colsField := "b_cols"), DimField("b_rows", "k"), DimField("b_cols", "n")]

  const ExpandedC: seq<Field> :=
    [MatrixField("c", "m", "n").(rowsField := "c_rows", colsField := "c_cols"), DimField("c_rows", "m"), DimField("c_cols", "n")]

  lemma {:induction false} GemmExpanded()
    ensures Expanded(GemmRequest[0]) == ExpandedA && Expanded(GemmRequest[1]) == ExpandedB
    ensures Expanded(GemmResponse[0]) == ExpandedC
  {
    assert "a" + "_rows" == "a_rows" && "a" + "_cols" == "a_cols";
    assert "b" + "_rows" == "b_rows" && "b" + "_cols" == "b_cols";
    assert "c" + "_rows" == "c_rows" && "c" + "_cols" == "c_cols";
  }

  lemma {:induction false} GemmParsed()
    ensures GemmFields() == ExpandedA + ExpandedB + [ScalarField("alpha"), ScalarField("beta")]
    ensures GemmResult() == ExpandedC
  {
    GemmExpanded();
    assert Parsed(GemmRequest, 0) == [] && Parsed(GemmResponse, 0) == [];
    assert Parsed(GemmRequest, 1) == ExpandedA;
    assert Parsed(GemmRequest, 2) == ExpandedA + ExpandedB;
    assert Parsed(GemmRequest, 3) == ExpandedA + ExpandedB + [ScalarField("alpha")];
  }

  const GemmNames: seq<string> := ["a", "a_rows", "a_cols", "b", "b_rows", "b_cols", "alpha", "beta"]

  /** The names are told apart by length, first and third character. */
  lemma {:induction false} NamesDiffer(i: nat, j: nat)
    requires i < j < 8
    ensures GemmNames[i] != GemmNames[j]
  {
    assert "a_rows"[0] == 'a' && "a_cols"[0] == 'a' && "b_rows"[0] == 'b' && "b_cols"[0] == 'b';
    assert "a_rows"[2] == 'r' && "a_cols"[2] == 'c' && "b_rows"[2] == 'r' && "b_cols"[2] == 'c';
    assert "a"[0] != "b"[0];
  }

  lemma {:induction false} GemmDistinct()
    ensures Distinct(GemmFields())
  {
    GemmParsed();
    var fs := GemmFields();
    assert forall i :: 0 <= i < |fs| ==> fs[i].name == GemmNames[i];
    forall i, j | 0 <= i < j < |fs| ensures fs[i].name != fs[j].name { NamesDiffer(i, j); }
  }

  lemma {:induction false} GemmResultDistinct()
    ensures Distinct(GemmResult())
  {
    GemmParsed();
    assert "c_rows"[2] == 'r' && "c_cols"[2] == 'c';
  }

  lemma {:induction false} GemmWellFormed()
    ensures WellFormed(GemmFields()) && WellFormed(GemmResult())
  {
    GemmDistinct();
    GemmResultDistinct();
    ParsedIsWellFormed(GemmRequest);
    ParsedIsWellFormed(GemmResponse);
  }

  /** Members named after their fields are distinct when the fields are. */
  lemma {:induction false} NamedMembers(fs: seq<Field>)
    requires Distinct(fs) && forall i :: 0 <= i < |fs| ==> fs[i].role.Dim? || (fs[i].ptrName == fs[i].name && !fs[i].role.Bytes?)
    ensures OneMember(fs)
  {
  }

  lemma {:induction false} GemmMembers()
    ensures OneMember(GemmFields()) && OneMember(GemmResult())
  {
    GemmDistinct();
    GemmResultDistinct();
    GemmParsed();
    NamedMembers(GemmFields());
    NamedMembers(GemmResult());
  }

  lemma {:induction false} GemmSizes(i: nat)
    requires i < 3
    ensures GemmDims[i] != "" && Sizes(GemmFields(), GemmDims[i])
  {
    GemmParsed();
    var fs := GemmFields();
    assert fs[1].sizeDim == "m" && fs[2].sizeDim == "k" && fs[5].sizeDim == "n";
  }

  lemma {:induction false} GemmDimsUsed(f: Field)
    requires (f in GemmFields() || f in GemmResult()) && f.sizeDim != ""
    ensures f.sizeDim in GemmDims
  {
    GemmParsed();
    assert GemmDims[0] == "m" && GemmDims[1] == "k" && GemmDims[2] == "n";
  }

  lemma {:induction false} GemmDimsDiffer(i: nat, j: nat)
    requires i < j < 3
    ensures GemmDims[i] != GemmDims[j]
  {
    assert "m"[0] != "k"[0] && "m"[0] != "n"[0] && "k"[0] != "n"[0];
  }

  // ----- Its names

  const GemmTitles := Titles("DgemmSkill", "Dgemm")

  /** Field names that begin with one of three letters, and plain element types. */
  predicate Lettered(fs: seq<Field>) {
    forall i :: 0 <= i < |fs| ==>
      && fs[i].name != "" && (fs[i].name[0] == 'a' || fs[i].name[0] == 'b' || fs[i].name[0] == 'c')
      && (fs[i].elem == "double" || fs[i].elem == "int32_t")
  }

  lemma {:induction false} LetterOfSize(f: Field)
    requires f.name != ""
    ensures SizeName(f.name)[0] == f.name[0] && |SizeName(f.name)| > 1
  {
  }

  lemma {:induction false} PrefixLetters(n: string)
    ensures PointerName(n)[0] == 'p' && OffsetName(n)[0] == 'o' && VectorName(n)[0] == 'v' && SpanName(n)[0] == 'm'
    ensures |PointerName(n)| > 1 && |OffsetName(n)| > 1 && PointerName(n)[3] == '_'
  {
  }

  lemma {:induction false} LetteredApart(fs: seq<Field>)
    requires Lettered(fs)
    ensures SizesApart(fs) && DimsApart(fs)
  {
    forall i | 0 <= i < |fs| ensures SizeName(fs[i].name)[0] == fs[i].name[0] { LetterOfSize(fs[i]); }
    forall n ensures PointerName(n)[0] == 'p' && OffsetName(n)[0] == 'o' && VectorName(n)[0] == 'v' && SpanName(n)[0] == 'm' {
      PrefixLetters(n);
    }
  }

  /** Letters that locals of a lettered factory can begin with; two of the fixed ones need a closer look. */
  lemma {:induction false} LocalLetters(fs: seq<Field>, request: bool, x: string)
    requires Lettered(fs) && IsLocal(fs, request, x)
    ensures |x| > 1 && (x[0] == 'a' || x[0] == 'b' || x[0] == 'c' || x[0] == 'e' || x[0] == 'o' || x[0] == 'p' || x[0] == 'r'
                        || x == "detached")
  {
    if IsSize(fs, x) {
      var i :| 0 <= i < |fs| && fs[i].role.Matrix? && x == SizeName(fs[i].name);
      LetterOfSize(fs[i]);
    } else if IsPointer(fs, x) {
      var i :| 0 <= i < |fs| && (x == PointerName(fs[i].name) || x == OffsetName(fs[i].name));
      PrefixLetters(fs[i].name);
    }
  }

  lemma {:induction false} OuterLetters(fs: seq<Field>, request: bool, x: string)
    requires Lettered(fs) && IsOuter(GemmTitles, fs, request, x)
    ensures |x| > 5 && (x[0] == 's' || x[0] == 'C' || x[0] == 'D' || x[0] == 'R' || x[0] == 'k' || x[0] == 'i' || x[0] == 'M'
                        || x == "double")
    ensures x[0] == 's' ==> x == "size_t"
  {
    if x !in FixedOuter(GemmTitles, request) {
      var i :| 0 <= i < |fs| && x in FieldOuter(fs[i]);
    } else {
      FixedOuterLetters(request, x);
    }
  }

  lemma {:induction false} FixedOuterLetters(request: bool, x: string)
    requires x in FixedOuter(GemmTitles, request)
    ensures |x| > 5 && (x == "size_t" || x[0] == 'C' || x[0] == 'D' || x[0] == 'R' || x[0] == 'k')
  {
    assert |"Create" + GemmTitles.prefix| == 11 && ("Create" + GemmTitles.prefix)[0] == 'C' && GemmTitles.prefix[0] == 'D';
    assert GemmTitles.className[0] == 'D';
  }

  lemma {:induction false} GemmFactoryApart(params: seq<string>, fs: seq<Field>, request: bool)
    requires Lettered(fs) && OneMember(fs) && NoDup(params)
    requires forall x :: x in params ==> x == "shape" || |x| == 1
    ensures FactoryApart(GemmTitles, params, fs, request)
  {
    LetteredApart(fs);
    forall x | x in params ensures !IsLocal(fs, request, x) {
      if IsLocal(fs, request, x) { LocalLetters(fs, request, x); }
    }
    forall x | IsOuter(GemmTitles, fs, request, x) ensures !IsLocal(fs, request, x) && x !in params {
      OuterLetters(fs, request, x);
      if IsLocal(fs, request, x) { LocalLetters(fs, request, x); }
    }
  }

  lemma {:induction false} GemmBuildable(paramType: string, params: seq<string>, fs: seq<Field>, request: bool)
    requires fs != [] && Lettered(fs) && OneMember(fs) && NoDup(params) && |paramType| > 5
    requires forall x :: x in params ==> x == "shape" || |x| == 1
    ensures Buildable(GemmTitles, paramType, params, fs, request)
  {
    GemmFactoryApart(params, fs, request);
    forall i | 0 <= i < |params| ensures params[i] != paramType { assert params[i] in params; }
  }

  lemma {:induction false} GemmScatterApart(fs: seq<Field>, request: bool)
    requires Lettered(fs) && OneMember(fs)
    ensures ScatterApart(fs, request)
  {
    LetteredApart(fs);
    forall x | x in ScatterOuter(fs, request) ensures !IsScatterLocal(fs, request, x) {
      InListed(Outer, fs, |fs|, x);
      ScatterOuterLetters(fs, request, x);
      if IsScatterLocal(fs, request, x) { ScatterLocalLetters(fs, request, x); }
    }
  }

  lemma {:induction false} ScatterOuterLetters(fs: seq<Field>, request: bool, x: string)
    requires Lettered(fs) && x in ScatterOuter(fs, request)
    ensures |x| > 1 && (x[0] == 'R' || x[0] == 'd' || x[0] == 'i' || x[0] == 'M')
  {
    InListed(Outer, fs, |fs|, x);
    if x in Listed(Outer, fs, |fs|) {
      var i :| 0 <= i < |fs| && x in FieldNames(Outer, fs[i]);
      FieldOuterLetters(fs[i], x);
    }
  }

  lemma {:induction false} FieldOuterLetters(f: Field, x: string)
    requires (f.elem == "double" || f.elem == "int32_t") && x in FieldNames(Outer, f)
    ensures |x| > 1 && (x[0] == 'd' || x[0] == 'i' || x[0] == 'M')
  {
  }

  lemma {:induction false} ScatterLocalLetters(fs: seq<Field>, request: bool, x: string)
    requires Lettered(fs) && IsScatterLocal(fs, request, x)
    ensures |x| > 0 && x[0] != 'R' && x[0] != 'd' && x[0] != 'i' && x[0] != 'M'
  {
    if x !in FixedScatter(request) {
      var i :| 0 <= i < |fs| && (|| x == VectorName(fs[i].name) || (fs[i].role.Dim? && x == fs[i].name)
                                 || (fs[i].role.Matrix? && x == SpanName(fs[i].ptrName)));
      PrefixLetters(fs[i].name);
      PrefixLetters(fs[i].ptrName);
    }
  }

  lemma {:induction false} GemmLettered()
    ensures Lettered(GemmFields()) && Lettered(GemmResult())
  {
    GemmParsed();
  }

  /** The shipped definition meets every hypothesis of the generator's theorems, and all its code compiles. */
  lemma {:induction false} GemmIsOk()
    ensures DefOk(GemmDims, GemmFields(), GemmResult())
    ensures RequestBuildable(GemmTitles, GemmFields()) && ScatterApart(GemmFields(), true)
    ensures ResponseBuildable(GemmTitles, DimType(GemmFields(), |GemmFields()|), GemmDims, GemmResult())
    ensures ScatterApart(GemmResult(), false)
    ensures DimsKnown(GemmDims, GemmFields()) && DimsKnown(GemmDims, GemmResult())
    ensures forall s: Shape :: AllReadRight(GemmDims, GemmFields(), s)
  {
    GemmDefOk();
    GemmReadsRight();
    GemmLettered();
    GemmMembers();
    GemmBuildable("RequestShape", ["shape"], GemmFields(), true);
    GemmScatterApart(GemmFields(), true);
    GemmScatterApart(GemmResult(), false);
    GemmResponseApart();
    GemmDimType();
  }

  lemma {:induction false} GemmDimType()
    ensures DimType(GemmFields(), |GemmFields()|) == "int32_t"
  {
    GemmParsed();
    NoSizedVector(GemmFields(), |GemmFields()|);
  }

  lemma {:induction false} NoSizedVector(fs: seq<Field>, k: nat)
    requires k <= |fs| && forall i :: 0 <= i < |fs| ==> !fs[i].role.Vector? && !fs[i].role.Bytes?
    ensures DimType(fs, k) == "int32_t"
  {
    if k > 0 { NoSizedVector(fs, k - 1); }
  }

  lemma {:induction false} GemmResponseApart()
    ensures ResponseBuildable(GemmTitles, "int32_t", GemmDims, GemmResult())
  {
    GemmLettered();
    GemmMembers();
    var params := Params(GemmDims, GemmResult(), 3);
    forall i, j | 0 <= i < j < 3 ensures GemmDims[i] != GemmDims[j] { GemmDimsDiffer(i, j); }
    ParamsDistinct(GemmDims, GemmResult(), 3);
    forall x | x in params ensures |x| == 1 {
      var i :| 0 <= i < 3 && GemmDims[i] == x;
    }
    GemmBuildable("int32_t", params, GemmResult(), false);
  }

  /** Its matrices are reached under their own names. */
  lemma {:induction false} GemmOwnNames()
    ensures forall j :: 0 <= j < |GemmFields()| && GemmFields()[j].role.Matrix? ==>
              GemmFields()[j].ptrName == GemmFields()[j].name
  {
    GemmParsed();
  }

  lemma {:induction false} GemmReadsRight()
    ensures forall i :: 0 <= i < 3 ==> Sizes(GemmFields(), GemmDims[i])
    ensures forall s: Shape :: AllReadRight(GemmDims, GemmFields(), s)
  {
    GemmWellFormed();
    GemmOwnNames();
    forall i | 0 <= i < 3 ensures Sizes(GemmFields(), GemmDims[i]) { GemmSizes(i); }
    forall s: Shape, i | 0 <= i < 3 ensures ReadsRight(GemmFields(), s, GemmDims[i]) {
      OwnNamesReadRight(GemmFields(), s, GemmDims[i]);
    }
  }

  lemma {:induction false} GemmDefOk()
    ensures DefOk(GemmDims, GemmFields(), GemmResult())
    ensures DimsKnown(GemmDims, GemmFields()) && DimsKnown(GemmDims, GemmResult())
  {
    GemmWellFormed();
    forall i | 0 <= i < 3 ensures GemmDims[i] != "" && Sizes(GemmFields(), GemmDims[i]) { GemmSizes(i); }
    forall i, j | 0 <= i < j < 3 ensures GemmDims[i] != GemmDims[j] { GemmDimsDiffer(i, j); }
    forall f | f in GemmFields() && f.sizeDim != "" ensures f.sizeDim in GemmDims { GemmDimsUsed(f); }
    forall f | f in GemmResult() && f.sizeDim != "" ensures f.sizeDim in GemmDims { GemmDimsUsed(f); }
  }

  // ----- A vector copied to a vector, with one dimension of a given name

  function VectorField(name: string, d: string): Field { Field(name, Vector, name, d, "", "", "", "", "double") }

  function CopyFrom(d: string): seq<Field> { [VectorField("a", d)] }

  function CopyTo(d: string): seq<Field> { [VectorField("b", d)] }

  /** Such a definition is well-formed whatever the dimension is called. */
  lemma {:induction false} CopyIsOk(d: string)
    requires d != ""
    ensures DefOk([d], CopyFrom(d), CopyTo(d)) && Params([d], CopyTo(d), 1) == [d] && DimType(CopyFrom(d), 1) == "size_t"
    ensures DimsKnown([d], CopyFrom(d)) && DimsKnown([d], CopyTo(d)) && forall s: Shape :: AllReadRight([d], CopyFrom(d), s)
    ensures Lettered(CopyFrom(d)) && OneMember(CopyFrom(d)) && Lettered(CopyTo(d)) && OneMember(CopyTo(d))
  {
    assert CopyFrom(d)[0].sizeDim == d && CopyTo(d)[0].sizeDim == d && Sizes(CopyTo(d), d);
    assert Params([d], CopyTo(d), 0) == [];
  }

  lemma {:induction false} CopyNamesApart(d: string)
    requires |d| == 1
    ensures RequestBuildable(GemmTitles, CopyFrom(d)) && ScatterApart(CopyFrom(d), true)
    ensures ResponseBuildable(GemmTitles, "size_t", [d], CopyTo(d))
  {
    CopyIsOk(d);
    GemmBuildable("RequestShape", ["shape"], CopyFrom(d), true);
    GemmBuildable("size_t", [d], CopyTo(d), false);
    GemmScatterApart(CopyFrom(d), true);
  }

  lemma {:induction false} CopyMakes(d: string, s: Shape) returns (t: Table, u: Table)
    requires |d| == 1 && ShapeOf([d], s)
    ensures DefOk([d], CopyFrom(d), CopyTo(d))
    ensures Make(RequestFactory(GemmTitles, CopyFrom(d)), Names(CopyFrom(d)), s) == Some(t)
    ensures ResponseFor(GemmTitles, [d], CopyFrom(d), CopyTo(d), t) == Some(u) && AsMeant(CopyTo(d), s, true, u)
  {
    CopyIsOk(d);
    CopyNamesApart(d);
    t, u := MakesBoth(GemmTitles, [d], CopyFrom(d), CopyTo(d), s);
  }

  /** With a dimension called `i` everything compiles, and the response is left uninitialised. */
  lemma {:induction false} LoopVariableCaptured(n: nat) returns (t: Table, u: Table)
    requires n > 0
    ensures DefOk(["i"], CopyFrom("i"), CopyTo("i"))
    ensures Make(RequestFactory(GemmTitles, CopyFrom("i")), Names(CopyFrom("i")), map["i" := n]) == Some(t)
    ensures ResponseFor(GemmTitles, ["i"], CopyFrom("i"), CopyTo("i"), t) == Some(u)
    ensures "b" in u && u["b"] == Blank(n)
  {
    var s: Shape := map["i" := n];
    t, u := CopyMakes("i", s);
    assert CopyTo("i")[0] == VectorField("b", "i");
    assert Meant(CopyTo("i"), CopyTo("i")[0], s, true) == Blank(n);
  }

  /** With a dimension called `builder` the response factory does not compile. */
  lemma {:induction false} BuilderClashes()
    ensures DefOk(["builder"], CopyFrom("builder"), CopyTo("builder"))
    ensures !Compiles(ResponseFactory(GemmTitles, DimType(CopyFrom("builder"), 1), ["builder"], CopyTo("builder")))
  {
    CopyIsOk("builder");
    assert "builder" in FIXED && "builder" in ["builder"];
    CompilesExactly(GemmTitles, "size_t", ["builder"], CopyTo("builder"));
  }

  // ----- Further definitions that fail

  /** No fields at all: a definition the generator takes, and constructor calls that do not compile. */
  lemma {:induction false} EmptyDoesNotCompile(titles: Titles, dimType: string)
    ensures DefOk([], [], [])
    ensures !Compiles(RequestFactory(titles, [])) && !Compiles(ResponseFactory(titles, dimType, [], []))
  {
    CompilesExactly(titles, dimType, [], []);
  }

  /** A response sized by a dimension the shape does not have: no call makes it. */
  lemma {:induction false} UndeclaredDimension(titles: Titles, dimType: string, s: Shape)
    requires "" !in s
    ensures DefOk([], [ScalarField("a")], CopyTo("n"))
    ensures Make(ResponseFactory(titles, dimType, [], CopyTo("n")), Names(CopyTo("n")), s) == None
  {
    CopyIsOk("n");
    assert CopyTo("n")[0].sizeDim == "n" && !DimsKnown([], CopyTo("n"));
    ResponseMade(titles, dimType, [], CopyTo("n"), s);
  }

  const HiddenDims: seq<string> := ["int32_t", "n"]

  const HiddenRequest: seq<Field> :=
    [MatrixField("a", "int32_t", "n").(rowsField := "a_rows", colsField := "a_cols"),
     DimField("a_rows", "int32_t"), DimField("a_cols", "n")]

  const HiddenResponse: seq<Field> := [VectorField("b", "int32_t"), VectorField("c", "n")]

  lemma {:induction false} HiddenWellFormed()
    ensures WellFormed(HiddenRequest)
  {
    var raw := [MatrixField("a", "int32_t", "n")];
    assert "a" + "_rows" == "a_rows" && "a" + "_cols" == "a_cols";
    assert Parsed(raw, 0) == [] && Parsed(raw, 1) == HiddenRequest;
    assert "a_rows"[2] == 'r' && "a_cols"[2] == 'c';
    ParsedIsWellFormed(raw);
  }

  lemma {:induction false} HiddenResponseWellFormed()
    ensures WellFormed(HiddenResponse)
  {
    assert HiddenResponse[0].name[0] == 'b' && HiddenResponse[1].name[0] == 'c';
  }

  lemma {:induction false} HiddenIsOk()
    ensures DefOk(HiddenDims, HiddenRequest, HiddenResponse)
  {
    HiddenWellFormed();
    HiddenResponseWellFormed();
    assert HiddenRequest[1].sizeDim == "int32_t" && HiddenRequest[2].sizeDim == "n";
    assert |HiddenDims[0]| != |HiddenDims[1]|;
  }

  /** A dimension called like the type of its parameter hides it from the next one. */
  lemma {:induction false} ParameterTypeHidden(titles: Titles)
    ensures DefOk(HiddenDims, HiddenRequest, HiddenResponse)
    ensures !Compiles(ResponseFactory(titles, DimType(HiddenRequest, 3), HiddenDims, HiddenResponse))
  {
    HiddenIsOk();
    NoSizedVector(HiddenRequest, 3);
    var dims, resp := HiddenDims, HiddenResponse;
    assert resp[0].sizeDim == "int32_t" && resp[1].sizeDim == "n";
    assert Sizes(resp, dims[0]) && Sizes(resp, dims[1]);
    assert Params(dims, resp, 0) == [] && Params(dims, resp, 1) == ["int32_t"];
    assert Params(dims, resp, 2) == ["int32_t", "n"];
  }

  // ----- Two matrices, each reached under the other's name

  const SwapRaw: seq<Field> :=
    [MatrixField("a", "m", "k").(ptrName := "b"), MatrixField("b", "n", "l").(ptrName := "a")]

  function SwapFields(): seq<Field> { Parsed(SwapRaw, 2) }

  const SwapA: seq<Field> :=
    [MatrixField("a", "m", "k").(ptrName := "b", rowsField := "a_rows", colsField := "a_cols"),
     DimField("a_rows", "m"), DimField("a_cols", "k")]

  const SwapB: seq<Field> :=
    [MatrixField("b", "n", "l").(ptrName := "a", rowsField := "b_rows", colsField := "b_cols"),
     DimField("b_rows", "n"), DimField("b_cols", "l")]

  lemma {:induction false} SwapParsed()
    ensures SwapFields() == SwapA + SwapB
  {
    assert "a" + "_rows" == "a_rows" && "a" + "_cols" == "a_cols";
    assert "b" + "_rows" == "b_rows" && "b" + "_cols" == "b_cols";
    assert Parsed(SwapRaw, 0) == [] && Parsed(SwapRaw, 1) == SwapA;
  }

  lemma {:induction false} SwapDistinct()
    ensures Distinct(SwapFields())
  {
    SwapParsed();
    var fs := SwapFields();
    assert forall i :: 0 <= i < |fs| ==> fs[i].name == GemmNames[i];
    forall i, j | 0 <= i < j < |fs| ensures fs[i].name != fs[j].name { NamesDiffer(i, j); }
  }

  lemma {:induction false} SwapWellFormed()
    ensures WellFormed(SwapFields()) && Lettered(SwapFields())
  {
    SwapDistinct();
    ParsedIsWellFormed(SwapRaw);
    SwapParsed();
  }

  lemma {:induction false} SwapMembers()
    ensures OneMember(SwapFields())
  {
    SwapParsed();
    var fs := SwapFields();
    assert "a"[0] != "b"[0];
    forall i, j, m | 0 <= i < |fs| && 0 <= j < |fs| && MemberOf(fs[i], m) && MemberOf(fs[j], m) ensures i == j {
      assert (i == 0 || i == 3) && (j == 0 || j == 3);
      assert fs[0].ptrName == "b" && fs[3].ptrName == "a";
    }
  }

  lemma {:induction false} SwapSizes()
    ensures Sizes(SwapFields(), "m") && FirstWith(SwapFields(), 0, "m") == 1 && SwapFields()[1] == DimField("a_rows", "m")
    ensures RowsDim(SwapFields(), SwapFields()[3]) == "n"
  {
    SwapParsed();
    var fs := SwapFields();
    assert fs[1] == DimField("a_rows", "m") && fs[0].sizeDim == "" && fs[4] == DimField("b_rows", "n");
    SwapDistinct();
    DimOfDim(fs, |fs|, 4);
  }

  /** Everything compiles, and the rows of one matrix are read off the other: right only when they are the same. */
  lemma {:induction false} SwappedReadEachOther(s: Shape)
    ensures WellFormed(SwapFields()) && RequestBuildable(GemmTitles, SwapFields()) && ScatterApart(SwapFields(), true)
    ensures Sizes(SwapFields(), "m") && (ReadsRight(SwapFields(), s, "m") <==> Value(s, "n") == Value(s, "m"))
  {
    SwapCompiles();
    SwapSizes();
    SwapLeads(s, Value(s, "m"));
  }

  lemma {:induction false} SwapCompiles()
    ensures WellFormed(SwapFields()) && RequestBuildable(GemmTitles, SwapFields()) && ScatterApart(SwapFields(), true)
  {
    SwapWellFormed();
    SwapMembers();
    assert SwapFields() != [] by { SwapParsed(); }
    GemmBuildable("RequestShape", ["shape"], SwapFields(), true);
    GemmScatterApart(SwapFields(), true);
  }

  lemma {:induction false} SwapLeads(s: Shape, v: int)
    ensures LeadsTo(SwapFields(), s, "a_rows", v) <==> Value(s, "n") == v
  {
    SwapSizes();
    assert "a" + "_rows" == "a_rows";
    SuffixLeads(SwapFields(), s, "a", v);
    forall j ensures MatrixAt(SwapFields(), j, "a") <==> j == 3 { SwapMatrix(j); }
  }

  lemma {:induction false} SwapMatrix(j: int)
    ensures MatrixAt(SwapFields(), j, "a") <==> j == 3
  {
    SwapParsed();
    assert "a"[0] != "b"[0];
  }
}
