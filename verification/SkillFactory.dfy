/** The generator's factory functions, and what the generated code builds. */
module SkillFactory {
  import opened Common
  import opened SkillFields
  import opened SkillTarget

  // ----- The emitters

  /** The map from field names to shape dimensions; "" when a field has none. */
  function DimOf(fs: seq<Field>, k: nat, name: string): string
    requires k <= |fs|
  {
    if k == 0 then ""
    else if fs[k - 1].name == name && fs[k - 1].sizeDim != "" then fs[k - 1].sizeDim
    else DimOf(fs, k - 1, name)
  }

  function DimOr(fs: seq<Field>, name: string): string {
    var d := DimOf(fs, |fs|, name);
    if d != "" then d else name
  }

  function RowsDim(fs: seq<Field>, f: Field): string { DimOr(fs, f.rowsField) }

  function ColsDim(fs: seq<Field>, f: Field): string { DimOr(fs, f.colsField) }

  function SizeExpr(f: Field): Expr { if f.sizeDim != "" then Var(f.sizeDim) else Zero }

  /** The offsets and pointers of a field; those of dims come with their matrix. */
  function Declares(fs: seq<Field>, f: Field): seq<Stmt> {
    match f.role
    case Matrix =>
      [Name(SizeName(f.name)), Declare(f.name, Product(RowsDim(fs, f), ColsDim(fs, f))),
       Declare(f.rowsField, One), Declare(f.colsField, One)]
    case Scalar => [Declare(f.name, One)]
    case Vector => [Declare(f.name, SizeExpr(f))]
    case Bytes => [Declare(f.name, SizeExpr(f))]
    case Dim => []
  }

  function DimStores(fs: seq<Field>, f: Field): seq<Stmt> {
    if f.role.Matrix? then [Store(f.rowsField, Var(RowsDim(fs, f))), Store(f.colsField, Var(ColsDim(fs, f)))] else []
  }

  /** Request factories set dims and scalars. */
  function RequestStores(fs: seq<Field>, f: Field): seq<Stmt> {
    if f.role.Scalar? then [Store(f.name, Zero)] else DimStores(fs, f)
  }

  /** Response factories also zero the data, after all dims are set. */
  function Zeros(f: Field): seq<Stmt> {
    match f.role
    case Matrix => [Clear(f.name, BySize)]
    case Vector => if f.sizeDim != "" then [Clear(f.name, ByDim(f.sizeDim))] else []
    case Bytes => if f.sizeDim != "" then [Clear(f.name, ByDim(f.sizeDim))] else []
    case Scalar => [Store(f.name, Zero)]
    case Dim => []
  }

  type Emitter = Field -> seq<Stmt>

  function Code(emit: Emitter, fs: seq<Field>, k: nat): seq<Stmt>
    requires k <= |fs|
  {
    if k == 0 then [] else Code(emit, fs, k - 1) + emit(fs[k - 1])
  }

  function All(emit: Emitter, fs: seq<Field>): seq<Stmt> { Code(emit, fs, |fs|) }

  function Names(fs: seq<Field>): seq<string> { seq(|fs|, i requires 0 <= i < |fs| => fs[i].name) }

  function DeclaresIn(fs: seq<Field>): Emitter { (f: Field) => Declares(fs, f) }

  function RequestStoresIn(fs: seq<Field>): Emitter { (f: Field) => RequestStores(fs, f) }

  function ZerosIn(): Emitter { (f: Field) => Zeros(f) }

  function DimStoresIn(fs: seq<Field>): Emitter { (f: Field) => DimStores(fs, f) }

  /** The names a skill goes by: its class, and the prefix of its tables. */
  datatype Titles = Titles(className: string, prefix: string)

  /** Locals before and after those of the fields. */
  const Before: seq<Stmt> := [Name("est"), Name("builder")]

  function Afterwards(request: bool): seq<Stmt> {
    if request then [Name("request"), Name("detached"), Name("req"), Name("ptrs")]
    else [Name("response"), Name("detached"), Name("resp"), Name("ptrs")]
  }

  /** Types and functions the text for a field uses. */
  function FieldOuter(f: Field): seq<string> {
    match f.role
    case Matrix => [f.elem, "int32_t", "MatrixSpan"]
    case Scalar => [f.elem]
    case Vector => [f.elem]
    case Bytes => [f.elem]
    case Dim => []
  }

  /** Members of the pointers struct. */
  function Members(f: Field): seq<string> {
    match f.role
    case Matrix => [f.ptrName]
    case Scalar => [f.ptrName]
    case Vector => [f.ptrName]
    case Bytes => [f.ptrName, f.ptrName + "_length"]
    case Dim => []
  }

  /** Locals that come with a field: size, pointers and offsets. */
  function FieldLocals(f: Field): seq<string> {
    match f.role
    case Matrix =>
      [SizeName(f.name), PointerName(f.name), OffsetName(f.name), PointerName(f.rowsField), OffsetName(f.rowsField),
       PointerName(f.colsField), OffsetName(f.colsField)]
    case Scalar => [PointerName(f.name), OffsetName(f.name)]
    case Vector => [PointerName(f.name), OffsetName(f.name)]
    case Bytes => [PointerName(f.name), OffsetName(f.name)]
    case Dim => []
  }

  /** Locals of a scatter function that come with a field. */
  function ScatterLocals(f: Field): seq<string> {
    match f.role
    case Matrix =>
      [VectorName(f.name), VectorName(f.rowsField), VectorName(f.colsField), f.rowsField, f.colsField, SpanName(f.ptrName)]
    case Scalar => [VectorName(f.name)]
    case Vector => [VectorName(f.name)]
    case Bytes => [VectorName(f.name)]
    case Dim => []
  }

  function VectorName(field: string): string { "vec_" + field }

  function SpanName(member: string): string { "mat_" + member }

  datatype Listing = Locals | ScatterBlock | Outer | Struct

  /** The names of one kind that come with a field. */
  function FieldNames(listing: Listing, f: Field): seq<string> {
    match listing
    case Locals => FieldLocals(f)
    case ScatterBlock => ScatterLocals(f)
    case Outer => FieldOuter(f)
    case Struct => Members(f)
  }

  function Listed(listing: Listing, fs: seq<Field>, k: nat): seq<string>
    requires k <= |fs|
  {
    if k == 0 then [] else Listed(listing, fs, k - 1) + FieldNames(listing, fs[k - 1])
  }

  function FixedOuter(titles: Titles, request: bool): seq<string> {
    if request then
      ["size_t", "Create" + titles.prefix + "Request", titles.prefix + "Request", "RequestPtrs",
       titles.className + "Payload", "kSkillId"]
    else
      ["size_t", "Create" + titles.prefix + "Response", titles.prefix + "Response", "ResponsePtrs",
       titles.className + "ResponseBuffer", "kSkillId"]
  }

  function Wrapped(code: seq<Stmt>, request: bool): seq<Stmt> { Before + code + Afterwards(request) }

  function RequestCode(fs: seq<Field>): seq<Stmt> {
    Wrapped(All(DeclaresIn(fs), fs) + All(RequestStoresIn(fs), fs), true)
  }

  function ResponseCode(fs: seq<Field>): seq<Stmt> {
    Wrapped(All(DeclaresIn(fs), fs) + (All(DimStoresIn(fs), fs) + All(ZerosIn(), fs)), false)
  }

  /** Some field is sized by the dimension. */
  predicate Sizes(fs: seq<Field>, d: string) { d != "" && exists i :: 0 <= i < |fs| && fs[i].sizeDim == d }

  /** The dimensions of the shape that the response uses, in the order of the shape. */
  function Params(dims: seq<string>, fs: seq<Field>, k: nat): seq<string>
    requires k <= |dims|
  {
    if k == 0 then []
    else Params(dims, fs, k - 1) + if Sizes(fs, dims[k - 1]) then [dims[k - 1]] else []
  }

  /** The C++ type of dimensions: that of sizes as soon as the request has a vector or bytes field with one. */
  function DimType(fs: seq<Field>, k: nat): string
    requires k <= |fs|
  {
    if k == 0 then "int32_t"
    else if (fs[k - 1].role.Vector? || fs[k - 1].role.Bytes?) && fs[k - 1].sizeDim != "" then "size_t"
    else DimType(fs, k - 1)
  }

  function RequestFactory(titles: Titles, fs: seq<Field>): Factory {
    Factory(ByStruct, "RequestShape", ["shape"], RequestCode(fs), Names(fs),
            FixedOuter(titles, true) + Listed(Outer, fs, |fs|), Listed(Struct, fs, |fs|))
  }

  /** The dimensions a response uses are the parameters, under their own names. */
  function ResponseFactory(titles: Titles, dimType: string, dims: seq<string>, fs: seq<Field>): Factory {
    Factory(ByName, dimType, Params(dims, fs, |dims|), ResponseCode(fs), Names(fs),
            FixedOuter(titles, false) + Listed(Outer, fs, |fs|), Listed(Struct, fs, |fs|))
  }

  // ----- Who declares what

  predicate DeclaredBy(f: Field, n: string) {
    (!f.role.Dim? && n == f.name) || (f.role.Matrix? && (n == f.rowsField || n == f.colsField))
  }

  /** In a well-formed definition every name has one declaring field. */
  lemma {:induction false} OneDeclarer(fs: seq<Field>, i: nat, j: nat, n: string)
    requires WellFormed(fs) && i < |fs| && j < |fs| && DeclaredBy(fs[i], n) && DeclaredBy(fs[j], n)
    ensures i == j
  {
    var f, g := fs[i], fs[j];
    assert FieldOk(fs, f) && FieldOk(fs, g);
    if n == f.name && n == g.name {
    } else if n == f.name {
      DataIsNotDim(fs, i, n);
    } else if n == g.name {
      DataIsNotDim(fs, j, n);
    } else {
      RowsAreNotCols(f.name, g.name);
      RowsAreNotCols(g.name, f.name);
      if n == f.rowsField { SuffixInjective(f.name, g.name, "_rows"); } else { SuffixInjective(f.name, g.name, "_cols"); }
    }
  }

  lemma {:induction false} DataIsNotDim(fs: seq<Field>, i: nat, n: string)
    requires WellFormed(fs) && i < |fs| && !fs[i].role.Dim? && fs[i].name == n
    ensures !IsDim(fs, n)
  {
  }

  lemma {:induction false} EveryNameDeclared(fs: seq<Field>, i: nat) returns (j: nat)
    requires WellFormed(fs) && i < |fs|
    ensures j < |fs| && DeclaredBy(fs[j], fs[i].name)
  {
    assert FieldOk(fs, fs[i]);
    if fs[i].role.Dim? {
      var k :| 0 <= k < |fs| && fs[k].role.Matrix? && (fs[k].rowsField == fs[i].name || fs[k].colsField == fs[i].name);
      j := k;
    } else {
      j := i;
    }
  }

  // ----- A phase of the factory, field by field

  /** What a name declared by a field holds; `None` before it is declared. */
  type Content = (Field, string) -> Option<Vec>

  function Look(b: Buffer, n: string): Option<Vec> { if n in b then Some(b[n]) else None }

  ghost predicate Local(b: Buffer, f: Field, c: Content) {
    forall n :: DeclaredBy(f, n) ==> Look(b, n) == c(f, n)
  }

  ghost predicate Elsewhere(b: Buffer, b': Buffer, f: Field) {
    forall n :: !DeclaredBy(f, n) ==> Look(b', n) == Look(b, n)
  }

  /** The code of a field takes its own names from one content to another and touches nothing else. */
  ghost predicate Moves(emit: Emitter, f: Field, c: Content, c': Content, s: Shape) {
    forall b :: Local(b, f, c) ==> Moved(b, emit(f), s, f, c')
  }

  ghost predicate Moved(b: Buffer, code: seq<Stmt>, s: Shape, f: Field, c': Content) {
    exists r :: Runs(b, code, s, r) && Local(r, f, c') && Elsewhere(b, r, f)
  }

  lemma {:induction false} OthersKept(fs: seq<Field>, k: nat, i: nat, b: Buffer, b': Buffer, c: Content)
    requires WellFormed(fs) && k < |fs| && i < |fs| && i != k && Elsewhere(b, b', fs[k]) && Local(b, fs[i], c)
    ensures Local(b', fs[i], c)
  {
    forall n | DeclaredBy(fs[i], n) ensures Look(b', n) == c(fs[i], n) {
      if DeclaredBy(fs[k], n) { OneDeclarer(fs, i, k, n); }
    }
  }

  /** Fields before `k` have the new content, the others the old. */
  ghost predicate Between(b: Buffer, fs: seq<Field>, k: nat, c: Content, c': Content) {
    && (forall i :: 0 <= i < k && i < |fs| ==> Local(b, fs[i], c'))
    && (forall i :: k <= i < |fs| ==> Local(b, fs[i], c))
  }

  lemma {:induction false} PhaseStep(emit: Emitter, fs: seq<Field>, k: nat, c: Content, c': Content, s: Shape, b: Buffer) returns (r: Buffer)
    requires WellFormed(fs) && k < |fs| && Between(b, fs, k, c, c') && Moves(emit, fs[k], c, c', s)
    ensures Runs(b, emit(fs[k]), s, r) && Between(r, fs, k + 1, c, c')
  {
    assert Local(b, fs[k], c);
    assert Moved(b, emit(fs[k]), s, fs[k], c');
    r :| Runs(b, emit(fs[k]), s, r) && Local(r, fs[k], c') && Elsewhere(b, r, fs[k]);
    forall i | 0 <= i < k ensures Local(r, fs[i], c') { OthersKept(fs, k, i, b, r, c'); }
    forall i | k < i < |fs| ensures Local(r, fs[i], c) { OthersKept(fs, k, i, b, r, c); }
  }

  lemma {:induction false} PhaseRuns(emit: Emitter, fs: seq<Field>, k: nat, c: Content, c': Content, s: Shape, b: Buffer)
    returns (r: Buffer)
    requires WellFormed(fs) && k <= |fs| && Between(b, fs, 0, c, c')
    requires forall i :: 0 <= i < |fs| ==> Moves(emit, fs[i], c, c', s)
    ensures Runs(b, Code(emit, fs, k), s, r) && Between(r, fs, k, c, c')
  {
    if k == 0 {
      r := b;
    } else {
      var m := PhaseRuns(emit, fs, k - 1, c, c', s, b);
      r := PhaseStep(emit, fs, k - 1, c, c', s, m);
      RunsConcat(b, Code(emit, fs, k - 1), emit(fs[k - 1]), s, m, r);
    }
  }

  // ----- The phases of the two factories

  /** The shape gives a value to every dimension the fields use. */
  predicate Covers(fs: seq<Field>, s: Shape) {
    forall i :: 0 <= i < |fs| && fs[i].sizeDim != "" ==> fs[i].sizeDim in s
  }

  lemma {:induction false} DimOfDim(fs: seq<Field>, k: nat, i: nat)
    requires Distinct(fs) && i < k <= |fs| && fs[i].sizeDim != ""
    ensures DimOf(fs, k, fs[i].name) == fs[i].sizeDim
  {
    if i < k - 1 { DimOfDim(fs, k - 1, i); }
  }

  lemma {:induction false} DimsCovered(fs: seq<Field>, i: nat, s: Shape)
    requires WellFormed(fs) && Covers(fs, s) && i < |fs| && fs[i].role.Matrix?
    ensures RowsDim(fs, fs[i]) in s && ColsDim(fs, fs[i]) in s
  {
    assert FieldOk(fs, fs[i]);
    var r :| 0 <= r < |fs| && fs[r].role.Dim? && fs[r].name == fs[i].rowsField;
    var c :| 0 <= c < |fs| && fs[c].role.Dim? && fs[c].name == fs[i].colsField;
    assert FieldOk(fs, fs[r]) && FieldOk(fs, fs[c]);
    DimOfDim(fs, |fs|, r);
    DimOfDim(fs, |fs|, c);
  }

  function Value(s: Shape, d: string): nat { if d in s then s[d] else 0 }

  function SizeOf(fs: seq<Field>, f: Field, s: Shape): nat {
    match f.role
    case Matrix => Value(s, RowsDim(fs, f)) * Value(s, ColsDim(fs, f))
    case Scalar => 1
    case Vector => if f.sizeDim != "" then Value(s, f.sizeDim) else 0
    case Bytes => if f.sizeDim != "" then Value(s, f.sizeDim) else 0
    case Dim => 1
  }

  function DimValue(fs: seq<Field>, f: Field, n: string, s: Shape): nat {
    if n == f.rowsField then Value(s, RowsDim(fs, f)) else Value(s, ColsDim(fs, f))
  }

  /** The zeroing loop of this field compares its own variable with itself. */
  predicate LoopCaptured(f: Field) { (f.role.Vector? || f.role.Bytes?) && f.sizeDim == LOOP_VARIABLE }

  /** Request data is left for the caller to fill in; response data is zeroed unless the loop is captured. */
  function Data(zeroed: bool, f: Field, v: Vec): Vec { if zeroed && !LoopCaptured(f) then Zeroed(v) else v }

  const Undeclared: Content := (f: Field, n: string) => None

  /** After the declarations: sizes, but nothing stored. */
  function Sized(fs: seq<Field>, s: Shape): Content {
    (f: Field, n: string) => Some(Blank(if n == f.name then SizeOf(fs, f, s) else 1))
  }

  function WithDims(fs: seq<Field>, s: Shape): Content {
    (f: Field, n: string) =>
      if n == f.name then Some(Blank(SizeOf(fs, f, s))) else Some(Single(DimValue(fs, f, n, s)))
  }

  function RequestContent(fs: seq<Field>, s: Shape): Content {
    (f: Field, n: string) =>
      if n != f.name then Some(Single(DimValue(fs, f, n, s)))
      else if f.role.Scalar? then Some(Single(0)) else Some(Blank(SizeOf(fs, f, s)))
  }

  function ResponseContent(fs: seq<Field>, s: Shape): Content {
    (f: Field, n: string) =>
      if n != f.name then Some(Single(DimValue(fs, f, n, s)))
      else if f.role.Scalar? then Some(Single(0)) else Some(Data(true, f, Blank(SizeOf(fs, f, s))))
  }

  lemma {:induction false} ThreeNames(fs: seq<Field>, f: Field)
    requires FieldOk(fs, f)
    ensures f.role.Matrix? ==> f.name != f.rowsField && f.name != f.colsField && f.rowsField != f.colsField
  {
    if f.role.Matrix? { RowsAreNotCols(f.name, f.name); }
  }

  lemma {:induction false} DeclareOne(fs: seq<Field>, f: Field, s: Shape, b: Buffer)
    requires FieldOk(fs, f) && Local(b, f, Undeclared)
    requires f.role.Matrix? ==> RowsDim(fs, f) in s && ColsDim(fs, f) in s
    requires f.sizeDim != "" ==> f.sizeDim in s
    ensures Moved(b, Declares(fs, f), s, f, Sized(fs, s))
  {
    ThreeNames(fs, f);
    var code := Declares(fs, f);
    if f.role.Matrix? {
      assert DeclaredBy(f, f.name) && DeclaredBy(f, f.rowsField) && DeclaredBy(f, f.colsField);
      var b1 := b[f.name := Blank(SizeOf(fs, f, s))];
      var b2 := b1[f.rowsField := Blank(1)];
      assert Exec(b, code, 0, s) == Some(b);
      assert Exec(b, code, 1, s) == Some(b);
      assert Exec(b, code, 2, s) == Some(b1);
      assert Exec(b, code, 3, s) == Some(b2);
      assert Runs(b, code, s, b2[f.colsField := Blank(1)]);
    } else if !f.role.Dim? {
      assert DeclaredBy(f, f.name);
      assert Exec(b, code, 0, s) == Some(b);
      assert Runs(b, code, s, b[f.name := Blank(SizeOf(fs, f, s))]);
    } else {
      assert Runs(b, code, s, b);
    }
  }

  /** Storing into a fresh vector of one element. */
  lemma {:induction false} StoreInOne(b: Buffer, n: string, e: Expr, s: Shape)
    requires n in b && b[n] == Blank(1) && Eval(e, s).Some?
    ensures Exec1(b, Store(n, e), s) == Some(b[n := Single(Eval(e, s).value)])
  {
    assert Vec(Blank(1).elems[0 := Some(Eval(e, s).value)]) == Single(Eval(e, s).value);
  }

  lemma {:induction false} DimStoreOne(fs: seq<Field>, f: Field, s: Shape, b: Buffer)
    requires FieldOk(fs, f) && Local(b, f, Sized(fs, s))
    requires f.role.Matrix? ==> RowsDim(fs, f) in s && ColsDim(fs, f) in s
    ensures Moved(b, DimStores(fs, f), s, f, WithDims(fs, s))
  {
    ThreeNames(fs, f);
    var code := DimStores(fs, f);
    if f.role.Matrix? {
      assert DeclaredBy(f, f.name) && DeclaredBy(f, f.rowsField) && DeclaredBy(f, f.colsField);
      var b1 := b[f.rowsField := Single(Value(s, RowsDim(fs, f)))];
      assert Exec(b, code, 0, s) == Some(b);
      StoreInOne(b, f.rowsField, Var(RowsDim(fs, f)), s);
      assert Exec(b, code, 1, s) == Some(b1);
      StoreInOne(b1, f.colsField, Var(ColsDim(fs, f)), s);
      assert Runs(b, code, s, b1[f.colsField := Single(Value(s, ColsDim(fs, f)))]);
    } else {
      assert Runs(b, code, s, b);
    }
  }

  lemma {:induction false} RequestStoreOne(fs: seq<Field>, f: Field, s: Shape, b: Buffer)
    requires FieldOk(fs, f) && Local(b, f, Sized(fs, s))
    requires f.role.Matrix? ==> RowsDim(fs, f) in s && ColsDim(fs, f) in s
    ensures Moved(b, RequestStores(fs, f), s, f, RequestContent(fs, s))
  {
    if f.role.Scalar? {
      assert DeclaredBy(f, f.name);
      assert Exec(b, RequestStores(fs, f), 0, s) == Some(b);
      StoreInOne(b, f.name, Zero, s);
      assert Runs(b, RequestStores(fs, f), s, b[f.name := Single(0)]);
    } else {
      DimStoreOne(fs, f, s, b);
      var r :| Runs(b, DimStores(fs, f), s, r) && Local(r, f, WithDims(fs, s)) && Elsewhere(b, r, f);
      assert Local(r, f, RequestContent(fs, s));
    }
  }

  lemma {:induction false} ZeroOne(fs: seq<Field>, f: Field, s: Shape, b: Buffer)
    requires FieldOk(fs, f) && Local(b, f, WithDims(fs, s)) && (f.sizeDim != "" ==> f.sizeDim in s)
    ensures Moved(b, Zeros(f), s, f, ResponseContent(fs, s))
  {
    ThreeNames(fs, f);
    var code, v := Zeros(f), Blank(SizeOf(fs, f, s));
    if f.role.Dim? {
      assert Runs(b, code, s, b);
    } else {
      assert DeclaredBy(f, f.name) && Look(b, f.name) == Some(v);
      assert Exec(b, code, 0, s) == Some(b);
      if f.role.Scalar? {
        StoreInOne(b, f.name, Zero, s);
        assert Runs(b, code, s, b[f.name := Single(0)]);
      } else if code == [] {
        assert Data(true, f, v) == v;
        assert Runs(b, code, s, b);
      } else {
        LoopExactly(v, code[0].bound, s);
        assert Runs(b, code, s, b[f.name := Data(true, f, v)]);
      }
    }
  }

  // ----- What the factories build

  /** Every field's own names hold the content. */
  ghost predicate Everywhere(b: Buffer, fs: seq<Field>, c: Content) {
    forall i :: 0 <= i < |fs| ==> Local(b, fs[i], c)
  }

  lemma {:induction false} MatrixDims(fs: seq<Field>, s: Shape, i: nat)
    requires WellFormed(fs) && Covers(fs, s) && i < |fs|
    ensures FieldOk(fs, fs[i])
    ensures fs[i].role.Matrix? ==> RowsDim(fs, fs[i]) in s && ColsDim(fs, fs[i]) in s
  {
    if fs[i].role.Matrix? { DimsCovered(fs, i, s); }
  }

  lemma {:induction false} DeclarePhase(fs: seq<Field>, s: Shape) returns (r: Buffer)
    requires WellFormed(fs) && Covers(fs, s)
    ensures Runs(map[], All(DeclaresIn(fs), fs), s, r) && Everywhere(r, fs, Sized(fs, s))
  {
    forall i | 0 <= i < |fs| ensures Moves(DeclaresIn(fs), fs[i], Undeclared, Sized(fs, s), s) {
      MatrixDims(fs, s, i);
      forall b | Local(b, fs[i], Undeclared) ensures Moved(b, Declares(fs, fs[i]), s, fs[i], Sized(fs, s)) {
        DeclareOne(fs, fs[i], s, b);
      }
    }
    r := PhaseRuns(DeclaresIn(fs), fs, |fs|, Undeclared, Sized(fs, s), s, map[]);
  }

  lemma {:induction false} RequestStorePhase(fs: seq<Field>, s: Shape, b: Buffer) returns (r: Buffer)
    requires WellFormed(fs) && Covers(fs, s) && Everywhere(b, fs, Sized(fs, s))
    ensures Runs(b, All(RequestStoresIn(fs), fs), s, r) && Everywhere(r, fs, RequestContent(fs, s))
  {
    forall i | 0 <= i < |fs| ensures Moves(RequestStoresIn(fs), fs[i], Sized(fs, s), RequestContent(fs, s), s) {
      MatrixDims(fs, s, i);
      forall b | Local(b, fs[i], Sized(fs, s)) ensures Moved(b, RequestStores(fs, fs[i]), s, fs[i], RequestContent(fs, s)) {
        RequestStoreOne(fs, fs[i], s, b);
      }
    }
    r := PhaseRuns(RequestStoresIn(fs), fs, |fs|, Sized(fs, s), RequestContent(fs, s), s, b);
  }

  lemma {:induction false} DimStorePhase(fs: seq<Field>, s: Shape, b: Buffer) returns (r: Buffer)
    requires WellFormed(fs) && Covers(fs, s) && Everywhere(b, fs, Sized(fs, s))
    ensures Runs(b, All(DimStoresIn(fs), fs), s, r) && Everywhere(r, fs, WithDims(fs, s))
  {
    forall i | 0 <= i < |fs| ensures Moves(DimStoresIn(fs), fs[i], Sized(fs, s), WithDims(fs, s), s) {
      MatrixDims(fs, s, i);
      forall b | Local(b, fs[i], Sized(fs, s)) ensures Moved(b, DimStores(fs, fs[i]), s, fs[i], WithDims(fs, s)) {
        DimStoreOne(fs, fs[i], s, b);
      }
    }
    r := PhaseRuns(DimStoresIn(fs), fs, |fs|, Sized(fs, s), WithDims(fs, s), s, b);
  }

  lemma {:induction false} ZeroPhase(fs: seq<Field>, s: Shape, b: Buffer) returns (r: Buffer)
    requires WellFormed(fs) && Covers(fs, s) && Everywhere(b, fs, WithDims(fs, s))
    ensures Runs(b, All(ZerosIn(), fs), s, r) && Everywhere(r, fs, ResponseContent(fs, s))
  {
    forall i | 0 <= i < |fs| ensures Moves(ZerosIn(), fs[i], WithDims(fs, s), ResponseContent(fs, s), s) {
      assert FieldOk(fs, fs[i]);
      forall b | Local(b, fs[i], WithDims(fs, s)) ensures Moved(b, Zeros(fs[i]), s, fs[i], ResponseContent(fs, s)) {
        ZeroOne(fs, fs[i], s, b);
      }
    }
    r := PhaseRuns(ZerosIn(), fs, |fs|, WithDims(fs, s), ResponseContent(fs, s), s, b);
  }

  /** What a field is meant to hold: its size in terms of the shape, and the dims their value. */
  function Meant(fs: seq<Field>, f: Field, s: Shape, zeroed: bool): Vec {
    match f.role
    case Dim => Single(Value(s, f.sizeDim))
    case Scalar => Single(0)
    case Matrix => Data(zeroed, f, Blank(Value(s, RowsDim(fs, f)) * Value(s, ColsDim(fs, f))))
    case Vector => Data(zeroed, f, Blank(Value(s, f.sizeDim)))
    case Bytes => Data(zeroed, f, Blank(Value(s, f.sizeDim)))
  }

  /** A table with every field of the schema as meant. */
  ghost predicate AsMeant(fs: seq<Field>, s: Shape, zeroed: bool, t: Table) {
    && (forall n :: n in t <==> n in Names(fs))
    && (forall i :: 0 <= i < |fs| ==> fs[i].name in t && t[fs[i].name] == Meant(fs, fs[i], s, zeroed))
  }

  /** The dim named by a matrix has the value the matrix stores. */
  lemma {:induction false} DimMeant(fs: seq<Field>, i: nat, j: nat, s: Shape)
    requires WellFormed(fs) && i < |fs| && j < |fs| && fs[i].role.Dim? && DeclaredBy(fs[j], fs[i].name)
    ensures fs[j].role.Matrix? && fs[i].name != fs[j].name
    ensures DimValue(fs, fs[j], fs[i].name, s) == Value(s, fs[i].sizeDim)
  {
    assert FieldOk(fs, fs[i]);
    DimOfDim(fs, |fs|, i);
  }

  lemma {:induction false} LookedUp(fs: seq<Field>, s: Shape, b: Buffer, i: nat, c: Content, zeroed: bool)
    requires WellFormed(fs) && i < |fs| && Everywhere(b, fs, c) && "" !in s
    requires forall f: Field, n :: n != f.name ==> c(f, n) == Some(Single(DimValue(fs, f, n, s)))
    requires forall j :: 0 <= j < |fs| && !fs[j].role.Dim? ==> c(fs[j], fs[j].name) == Some(Meant(fs, fs[j], s, zeroed))
    ensures fs[i].name in b && b[fs[i].name] == Meant(fs, fs[i], s, zeroed)
  {
    var j := EveryNameDeclared(fs, i);
    assert Local(b, fs[j], c);
    assert Look(b, fs[i].name) == c(fs[j], fs[i].name);
    if fs[i].role.Dim? { DimMeant(fs, i, j, s); } else { OneDeclarer(fs, i, j, fs[i].name); }
  }

  lemma {:induction false} Tabulated(names: seq<string>, b: Buffer, k: nat)
    requires k <= |names| && forall i :: 0 <= i < |names| ==> names[i] in b
    ensures var t := Tabulate(names, names, b, k);
            && (forall n :: n in t <==> exists i :: 0 <= i < k && names[i] == n)
            && (forall n :: n in t ==> n in b && t[n] == b[n])
  {
    if k > 0 { Tabulated(names, b, k - 1); }
  }

  lemma {:induction false} TableAsMeant(fs: seq<Field>, s: Shape, b: Buffer, c: Content, zeroed: bool)
    requires WellFormed(fs) && Everywhere(b, fs, c) && "" !in s
    requires forall f: Field, n :: n != f.name ==> c(f, n) == Some(Single(DimValue(fs, f, n, s)))
    requires forall j :: 0 <= j < |fs| && !fs[j].role.Dim? ==> c(fs[j], fs[j].name) == Some(Meant(fs, fs[j], s, zeroed))
    ensures forall i :: 0 <= i < |fs| ==> Names(fs)[i] in b
    ensures AsMeant(fs, s, zeroed, Tabulate(Names(fs), Names(fs), b, |fs|))
  {
    forall i | 0 <= i < |fs| ensures fs[i].name in b && b[fs[i].name] == Meant(fs, fs[i], s, zeroed) {
      LookedUp(fs, s, b, i, c, zeroed);
    }
    Tabulated(Names(fs), b, |fs|);
    forall i | 0 <= i < |fs| ensures fs[i].name in Tabulate(Names(fs), Names(fs), b, |fs|) {
      assert Names(fs)[i] == fs[i].name;
    }
  }

  /** Declaring locals leaves the buffer alone. */
  lemma {:induction false} LocalsRun(b: Buffer, code: seq<Stmt>, k: nat, s: Shape)
    requires k <= |code| && forall i :: 0 <= i < |code| ==> code[i].Name?
    ensures Exec(b, code, k, s) == Some(b)
  {
    if k > 0 { LocalsRun(b, code, k - 1, s); }
  }

  /** The code between the fixed locals decides. */
  lemma {:induction false} Framed(code: seq<Stmt>, request: bool, s: Shape, r: Buffer)
    requires Runs(map[], code, s, r)
    ensures Runs(map[], Wrapped(code, request), s, r)
  {
    LocalsRun(map[], Before, |Before|, s);
    RunsConcat(map[], Before, code, s, map[], r);
    LocalsRun(r, Afterwards(request), |Afterwards(request)|, s);
    RunsConcat(map[], Before + code, Afterwards(request), s, r, r);
  }

  lemma {:induction false} RequestRuns(fs: seq<Field>, s: Shape) returns (b: Buffer)
    requires WellFormed(fs) && Covers(fs, s)
    ensures Runs(map[], RequestCode(fs), s, b) && Everywhere(b, fs, RequestContent(fs, s))
  {
    var d := DeclarePhase(fs, s);
    b := RequestStorePhase(fs, s, d);
    var p, q := All(DeclaresIn(fs), fs), All(RequestStoresIn(fs), fs);
    RunsConcat(map[], p, q, s, d, b);
    Framed(p + q, true, s, b);
  }

  lemma {:induction false} ResponseRuns(fs: seq<Field>, s: Shape) returns (b: Buffer)
    requires WellFormed(fs) && Covers(fs, s)
    ensures Runs(map[], ResponseCode(fs), s, b) && Everywhere(b, fs, ResponseContent(fs, s))
  {
    var d := DeclarePhase(fs, s);
    var e := DimStorePhase(fs, s, d);
    b := ZeroPhase(fs, s, e);
    var p, q, z := All(DeclaresIn(fs), fs), All(DimStoresIn(fs), fs), All(ZerosIn(), fs);
    RunsConcat(d, q, z, s, e, b);
    RunsConcat(map[], p, q + z, s, d, b);
    Framed(p + (q + z), false, s, b);
  }

  /** The name is declared by exactly one statement. */
  ghost predicate DeclaredAt(code: seq<Stmt>, n: string) {
    exists k :: && 0 <= k < |code| && code[k].Declare? && code[k].field == n
                && forall k' :: 0 <= k' < |code| && code[k'].Declare? && code[k'].field == n ==> k' == k
  }

  lemma {:induction false} FoundOnce(code: seq<Stmt>, s: Shape, b: Buffer, n: string)
    requires Runs(map[], code, s, b) && n in b
    ensures DeclaredAt(code, n)
  {
    DeclaredOnce(code, |code|, s);
    var k :| 0 <= k < |code| && code[k].Declare? && code[k].field == n;
    forall k' | 0 <= k' < |code| && code[k'].Declare? && code[k'].field == n ensures k' == k { }
  }

  /** Values for all dimensions, to try the code on. */
  lemma {:induction false} SomeShape(fs: seq<Field>) returns (s: Shape)
    ensures Covers(fs, s) && "" !in s
  {
    s := map f | f in fs && f.sizeDim != "" :: f.sizeDim := 1;
  }

  /** Every offset given to either table constructor is declared by exactly one statement, and stands at its field's place. */
  lemma {:induction false} OffsetsDeclaredOnce(titles: Titles, dimType: string, dims: seq<string>, fs: seq<Field>, i: nat)
    requires WellFormed(fs) && i < |fs|
    ensures RequestFactory(titles, fs).args[i] == fs[i].name
    ensures DeclaredAt(RequestFactory(titles, fs).code, fs[i].name)
    ensures ResponseFactory(titles, dimType, dims, fs).args[i] == fs[i].name
    ensures DeclaredAt(ResponseFactory(titles, dimType, dims, fs).code, fs[i].name)
  {
    RequestOffset(fs, i);
    ResponseOffset(fs, i);
  }

  /** Every field's name is in the buffer at the end. */
  lemma {:induction false} NameHeld(fs: seq<Field>, b: Buffer, c: Content, i: nat)
    requires WellFormed(fs) && Everywhere(b, fs, c) && i < |fs| && forall f, n :: c(f, n).Some?
    ensures fs[i].name in b
  {
    var j := EveryNameDeclared(fs, i);
    assert Local(b, fs[j], c);
    assert Look(b, fs[i].name) == c(fs[j], fs[i].name);
  }

  lemma {:induction false} RequestOffset(fs: seq<Field>, i: nat)
    requires WellFormed(fs) && i < |fs|
    ensures DeclaredAt(RequestCode(fs), fs[i].name)
  {
    var s := SomeShape(fs);
    var b := RequestRuns(fs, s);
    NameHeld(fs, b, RequestContent(fs, s), i);
    FoundOnce(RequestCode(fs), s, b, fs[i].name);
  }

  lemma {:induction false} ResponseOffset(fs: seq<Field>, i: nat)
    requires WellFormed(fs) && i < |fs|
    ensures DeclaredAt(ResponseCode(fs), fs[i].name)
  {
    var s := SomeShape(fs);
    var b := ResponseRuns(fs, s);
    NameHeld(fs, b, ResponseContent(fs, s), i);
    FoundOnce(ResponseCode(fs), s, b, fs[i].name);
  }

  // ----- Dimensions the code needs

  lemma {:induction false} InCode(emit: Emitter, fs: seq<Field>, k: nat, i: nat, st: Stmt)
    requires i < k <= |fs| && st in emit(fs[i])
    ensures st in Code(emit, fs, k)
  {
    if i < k - 1 { InCode(emit, fs, k - 1, i, st); }
  }

  /** The declaration whose size names the dimension of the field. */
  lemma {:induction false} DimUser(fs: seq<Field>, i: nat) returns (j: nat, st: Stmt)
    requires WellFormed(fs) && i < |fs| && fs[i].sizeDim != ""
    ensures j < |fs| && st.Declare? && st in Declares(fs, fs[j])
    ensures forall s: Shape :: Eval(st.size, s).Some? ==> fs[i].sizeDim in s
  {
    var f := fs[i];
    assert FieldOk(fs, f);
    if f.role.Dim? {
      var o :| 0 <= o < |fs| && fs[o].role.Matrix? && (fs[o].rowsField == f.name || fs[o].colsField == f.name);
      j := o;
      DimOfDim(fs, |fs|, i);
      st := Declares(fs, fs[j])[1];
      assert st == Declare(fs[j].name, Product(RowsDim(fs, fs[j]), ColsDim(fs, fs[j])));
    } else {
      j := i;
      st := Declares(fs, f)[0];
      assert st == Declare(f.name, Var(f.sizeDim));
    }
  }

  lemma {:induction false} DimIsUsed(fs: seq<Field>, i: nat, rest: seq<Stmt>, request: bool) returns (st: Stmt)
    requires WellFormed(fs) && i < |fs| && fs[i].sizeDim != ""
    ensures st.Declare? && st in Wrapped(All(DeclaresIn(fs), fs) + rest, request)
    ensures forall s: Shape :: Eval(st.size, s).Some? ==> fs[i].sizeDim in s
  {
    var j;
    j, st := DimUser(fs, i);
    InCode(DeclaresIn(fs), fs, |fs|, j, st);
  }

  /** Code that runs has a value for every dimension its fields use. */
  lemma {:induction false} RunsCovers(fs: seq<Field>, rest: seq<Stmt>, request: bool, s: Shape)
    requires WellFormed(fs)
    requires var code := Wrapped(All(DeclaresIn(fs), fs) + rest, request); Exec(map[], code, |code|, s).Some?
    ensures Covers(fs, s)
  {
    var code := Wrapped(All(DeclaresIn(fs), fs) + rest, request);
    forall i | 0 <= i < |fs| && fs[i].sizeDim != "" ensures fs[i].sizeDim in s {
      var st := DimIsUsed(fs, i, rest, request);
      var j :| 0 <= j < |code| && code[j] == st;
      SizesEvaluate(map[], code, |code|, s, j);
    }
  }
}
