/** Exactly when the names in generated code do not get in each other's way. */
module SkillNames {
  import opened SkillFields
  import opened SkillTarget
  import opened SkillFactory

  // ----- The conditions, on the definition

  const FIXED: seq<string> := ["est", "builder"]

  function FixedAfter(request: bool): seq<string> {
    if request then ["request", "detached", "req", "ptrs"] else ["response", "detached", "resp", "ptrs"]
  }

  predicate IsSize(fs: seq<Field>, x: string) {
    exists i :: 0 <= i < |fs| && fs[i].role.Matrix? && x == SizeName(fs[i].name)
  }

  predicate IsPointer(fs: seq<Field>, x: string) {
    exists i :: 0 <= i < |fs| && (x == PointerName(fs[i].name) || x == OffsetName(fs[i].name))
  }

  /** A local of the generated factory. */
  predicate IsLocal(fs: seq<Field>, request: bool, x: string) {
    x in FIXED || x in FixedAfter(request) || IsSize(fs, x) || IsPointer(fs, x)
  }

  /** An outer name the factory's text uses. */
  predicate IsOuter(titles: Titles, fs: seq<Field>, request: bool, x: string) {
    x in FixedOuter(titles, request) || exists i :: 0 <= i < |fs| && x in FieldOuter(fs[i])
  }

  /** No size variable of a matrix is some field's pointer or offset. */
  predicate SizesApart(fs: seq<Field>) {
    forall i, j :: 0 <= i < |fs| && 0 <= j < |fs| && fs[i].role.Matrix? ==>
      SizeName(fs[i].name) != PointerName(fs[j].name) && SizeName(fs[i].name) != OffsetName(fs[j].name)
  }

  /** Each member of the pointers struct belongs to one field. */
  predicate MemberOf(f: Field, m: string) {
    !f.role.Dim? && (m == f.ptrName || (f.role.Bytes? && m == f.ptrName + "_length"))
  }

  ghost predicate OneMember(fs: seq<Field>) {
    forall i, j, m :: 0 <= i < |fs| && 0 <= j < |fs| && MemberOf(fs[i], m) && MemberOf(fs[j], m) ==> i == j
  }

  /** Parameters are distinct, none is a local, and neither hides an outer name. */
  ghost predicate FactoryApart(titles: Titles, params: seq<string>, fs: seq<Field>, request: bool) {
    && NoDup(params) && SizesApart(fs) && OneMember(fs)
    && (forall x :: x in params ==> !IsLocal(fs, request, x))
    && (forall x :: IsOuter(titles, fs, request, x) ==> !IsLocal(fs, request, x) && x !in params)
  }

  /**
   * All that a factory needs in order to compile, dimensions aside: a field to
   * build, a parameter type that stays visible, and names kept apart.
   */
  ghost predicate Buildable(titles: Titles, paramType: string, params: seq<string>, fs: seq<Field>, request: bool) {
    fs != [] && TypeSeen(paramType, params) && FactoryApart(titles, params, fs, request)
  }

  /** The request factory of these fields. */
  ghost predicate RequestBuildable(titles: Titles, fs: seq<Field>) {
    Buildable(titles, "RequestShape", ["shape"], fs, true)
  }

  /** The response factory of these fields, for a shape of these dimensions. */
  ghost predicate ResponseBuildable(titles: Titles, dimType: string, dims: seq<string>, fs: seq<Field>) {
    Buildable(titles, dimType, Params(dims, fs, |dims|), fs, false)
  }

  // ----- Lists of names, field by field

  lemma {:induction false} InListed(listing: Listing, fs: seq<Field>, k: nat, x: string)
    requires k <= |fs|
    ensures x in Listed(listing, fs, k) <==> exists i :: 0 <= i < k && x in FieldNames(listing, fs[i])
  {
    if k > 0 { InListed(listing, fs, k - 1, x); }
  }

  /** Lists put one after the other. */
  function Flat(parts: seq<seq<string>>, k: nat): seq<string>
    requires k <= |parts|
  {
    if k == 0 then [] else Flat(parts, k - 1) + parts[k - 1]
  }

  lemma {:induction false} InFlat(parts: seq<seq<string>>, k: nat, x: string)
    requires k <= |parts|
    ensures x in Flat(parts, k) <==> exists i :: 0 <= i < k && x in parts[i]
  {
    if k > 0 { InFlat(parts, k - 1, x); }
  }

  ghost predicate PartsApart(parts: seq<seq<string>>, k: nat)
    requires k <= |parts|
  {
    && (forall i :: 0 <= i < k ==> NoDup(parts[i]))
    && (forall i, j :: 0 <= i < j < k ==> Disjoint(parts[i], parts[j]))
  }

  lemma {:induction false} DisjointFromFlat(parts: seq<seq<string>>, k: nat)
    requires k < |parts|
    ensures Disjoint(Flat(parts, k), parts[k]) <==> forall i :: 0 <= i < k ==> Disjoint(parts[i], parts[k])
  {
    forall x ensures x in Flat(parts, k) <==> exists i :: 0 <= i < k && x in parts[i] { InFlat(parts, k, x); }
  }

  lemma {:induction false} FlatNoDup(parts: seq<seq<string>>, k: nat)
    requires k <= |parts|
    ensures NoDup(Flat(parts, k)) <==> PartsApart(parts, k)
  {
    if k > 0 {
      FlatNoDup(parts, k - 1);
      NoDupConcat(Flat(parts, k - 1), parts[k - 1]);
      DisjointFromFlat(parts, k - 1);
    }
  }

  function PartsOf(listing: Listing, fs: seq<Field>): seq<seq<string>> {
    seq(|fs|, i requires 0 <= i < |fs| => FieldNames(listing, fs[i]))
  }

  lemma {:induction false} ListedIsFlat(listing: Listing, fs: seq<Field>, k: nat)
    requires k <= |fs|
    ensures Listed(listing, fs, k) == Flat(PartsOf(listing, fs), k)
  {
    if k > 0 { ListedIsFlat(listing, fs, k - 1); }
  }

  /** Fields contribute distinct names, and no two of them the same one. */
  ghost predicate ApartUpTo(listing: Listing, fs: seq<Field>, k: nat)
    requires k <= |fs|
  {
    && (forall i :: 0 <= i < k ==> NoDup(FieldNames(listing, fs[i])))
    && (forall i, j :: 0 <= i < j < k ==> Disjoint(FieldNames(listing, fs[i]), FieldNames(listing, fs[j])))
  }

  lemma {:induction false} ListedNoDup(listing: Listing, fs: seq<Field>)
    ensures NoDup(Listed(listing, fs, |fs|)) <==> ApartUpTo(listing, fs, |fs|)
  {
    var parts := PartsOf(listing, fs);
    ListedIsFlat(listing, fs, |fs|);
    FlatNoDup(parts, |fs|);
    assert forall i :: 0 <= i < |fs| ==> parts[i] == FieldNames(listing, fs[i]);
  }

  // ----- Shapes of names

  lemma {:induction false} PrefixInjective(p: string, x: string, y: string)
    requires p + x == p + y
    ensures x == y
  {
    assert x == (p + x)[|p|..] && y == (p + y)[|p|..];
  }

  lemma {:induction false} PointerIsNotOffset(m: string, n: string)
    ensures PointerName(m) != OffsetName(n)
  {
    assert PointerName(m)[0] == 'p' && OffsetName(n)[0] == 'o';
  }

  /** The fixed locals have neither the prefixes nor the suffix of the others. */
  lemma {:induction false} FixedAreApart(n: string, x: string, request: bool)
    requires x in FIXED || x in FixedAfter(request)
    ensures x != SizeName(n) && x != PointerName(n) && x != OffsetName(n)
  {
    assert PointerName(n)[0] == 'p' && PointerName(n)[3] == '_';
    assert OffsetName(n)[0] == 'o';
    assert SizeName(n)[|n|] == '_' && |SizeName(n)| == |n| + 5;
  }

  lemma {:induction false} FixedDistinct(request: bool)
    ensures NoDup(FIXED) && NoDup(FixedAfter(request)) && Disjoint(FIXED, FixedAfter(request))
  {
    assert "est"[0] == 'e' && "builder"[0] == 'b' && "request"[0] == 'r' && "detached"[0] == 'd' && "ptrs"[0] == 'p';
    assert "req"[2] == 'q' && "response"[0] == 'r' && "resp"[0] == 'r';
  }

  // ----- The locals of a factory

  /** The pointers and offsets of a field, one pair for each name it declares. */
  lemma {:induction false} InFieldLocals(f: Field, x: string)
    ensures x in FieldLocals(f) <==>
            || (f.role.Matrix? && x == SizeName(f.name))
            || exists n :: DeclaredBy(f, n) && (x == PointerName(n) || x == OffsetName(n))
  {
    if f.role.Matrix? {
      assert DeclaredBy(f, f.name) && DeclaredBy(f, f.rowsField) && DeclaredBy(f, f.colsField);
    } else if !f.role.Dim? {
      assert DeclaredBy(f, f.name);
    }
  }

  /** Whatever a field declares is the name of a field. */
  lemma {:induction false} DeclaredIsField(fs: seq<Field>, i: nat, n: string) returns (j: nat)
    requires WellFormed(fs) && i < |fs| && DeclaredBy(fs[i], n)
    ensures j < |fs| && fs[j].name == n
  {
    assert FieldOk(fs, fs[i]);
    if n == fs[i].name {
      j := i;
    } else {
      assert IsDim(fs, n);
      var k :| 0 <= k < |fs| && fs[k].role.Dim? && fs[k].name == n;
      j := k;
    }
  }

  lemma {:induction false} InLocals(fs: seq<Field>, x: string)
    requires WellFormed(fs)
    ensures x in Listed(Locals, fs, |fs|) <==> IsSize(fs, x) || IsPointer(fs, x)
  {
    InListed(Locals, fs, |fs|, x);
    if x in Listed(Locals, fs, |fs|) {
      var i :| 0 <= i < |fs| && x in FieldNames(Locals, fs[i]);
      InFieldLocals(fs[i], x);
      if !IsSize(fs, x) {
        var n :| DeclaredBy(fs[i], n) && (x == PointerName(n) || x == OffsetName(n));
        var j := DeclaredIsField(fs, i, n);
      }
    }
    if IsSize(fs, x) {
      var i :| 0 <= i < |fs| && fs[i].role.Matrix? && x == SizeName(fs[i].name);
      assert x in FieldNames(Locals, fs[i]);
    }
    if IsPointer(fs, x) {
      var i :| 0 <= i < |fs| && (x == PointerName(fs[i].name) || x == OffsetName(fs[i].name));
      var j := EveryNameDeclared(fs, i);
      InFieldLocals(fs[j], x);
      assert x in FieldNames(Locals, fs[j]);
    }
  }

  lemma {:induction false} LocalsOfOne(fs: seq<Field>, i: nat)
    requires WellFormed(fs) && SizesApart(fs) && i < |fs|
    ensures NoDup(FieldLocals(fs[i]))
  {
    var f := fs[i];
    assert FieldOk(fs, f);
    ThreeNames(fs, f);
    PointerIsNotOffset(f.name, f.name);
    if f.role.Matrix? {
      SevenNames(fs, i);
    }
  }

  lemma {:induction false} PairsApart(m: string, n: string)
    requires m != n
    ensures PointerName(m) != PointerName(n) && OffsetName(m) != OffsetName(n)
    ensures PointerName(m) != OffsetName(n) && OffsetName(m) != PointerName(n)
  {
    PointerIsNotOffset(m, n);
    PointerIsNotOffset(n, m);
    if PointerName(m) == PointerName(n) { PrefixInjective("ptr_", m, n); }
    if OffsetName(m) == OffsetName(n) { PrefixInjective("off_", m, n); }
  }

  lemma {:induction false} SizeApart(fs: seq<Field>, i: nat, n: string)
    requires WellFormed(fs) && SizesApart(fs) && i < |fs| && fs[i].role.Matrix? && DeclaredBy(fs[i], n)
    ensures SizeName(fs[i].name) != PointerName(n) && SizeName(fs[i].name) != OffsetName(n)
  {
    var j := DeclaredIsField(fs, i, n);
  }

  lemma {:induction false} SevenNames(fs: seq<Field>, i: nat)
    requires WellFormed(fs) && SizesApart(fs) && i < |fs| && fs[i].role.Matrix?
    ensures NoDup(FieldLocals(fs[i]))
  {
    var f := fs[i];
    assert FieldOk(fs, f);
    ThreeNames(fs, f);
    SizeApart(fs, i, f.name);
    SizeApart(fs, i, f.rowsField);
    SizeApart(fs, i, f.colsField);
    PairsApart(f.name, f.rowsField);
    PairsApart(f.name, f.colsField);
    PairsApart(f.rowsField, f.colsField);
    PointerIsNotOffset(f.name, f.name);
    PointerIsNotOffset(f.rowsField, f.rowsField);
    PointerIsNotOffset(f.colsField, f.colsField);
  }

  lemma {:induction false} LocalsOfTwo(fs: seq<Field>, i: nat, j: nat, x: string)
    requires WellFormed(fs) && SizesApart(fs) && i < |fs| && j < |fs|
    requires x in FieldLocals(fs[i]) && x in FieldLocals(fs[j])
    ensures i == j
  {
    InFieldLocals(fs[i], x);
    InFieldLocals(fs[j], x);
    var si, sj := fs[i].role.Matrix? && x == SizeName(fs[i].name), fs[j].role.Matrix? && x == SizeName(fs[j].name);
    if si && sj {
      SuffixInjective(fs[i].name, fs[j].name, "_size");
    } else if si {
      var n :| DeclaredBy(fs[j], n) && (x == PointerName(n) || x == OffsetName(n));
      var k := DeclaredIsField(fs, j, n);
    } else if sj {
      var n :| DeclaredBy(fs[i], n) && (x == PointerName(n) || x == OffsetName(n));
      var k := DeclaredIsField(fs, i, n);
    } else {
      var m :| DeclaredBy(fs[i], m) && (x == PointerName(m) || x == OffsetName(m));
      var n :| DeclaredBy(fs[j], n) && (x == PointerName(n) || x == OffsetName(n));
      if m != n { PairsApart(m, n); }
      OneDeclarer(fs, i, j, m);
    }
  }

  /** A size variable that is also a pointer occurs twice in the list of locals. */
  lemma {:induction false} ClashShows(fs: seq<Field>, i: nat, j: nat)
    requires WellFormed(fs) && i < |fs| && j < |fs| && fs[i].role.Matrix?
    requires SizeName(fs[i].name) == PointerName(fs[j].name) || SizeName(fs[i].name) == OffsetName(fs[j].name)
    ensures !ApartUpTo(Locals, fs, |fs|)
  {
    var x := SizeName(fs[i].name);
    var d := EveryNameDeclared(fs, j);
    InFieldLocals(fs[d], x);
    assert x in FieldNames(Locals, fs[i]) && x in FieldNames(Locals, fs[d]);
    if i == d {
      var xs := FieldNames(Locals, fs[i]);
      assert xs[0] == x && x in xs[1..];
    }
  }

  lemma {:induction false} FieldLocalsApart(fs: seq<Field>)
    requires WellFormed(fs)
    ensures NoDup(Listed(Locals, fs, |fs|)) <==> SizesApart(fs)
  {
    ListedNoDup(Locals, fs);
    if SizesApart(fs) {
      forall i | 0 <= i < |fs| ensures NoDup(FieldNames(Locals, fs[i])) { LocalsOfOne(fs, i); }
      forall i, j | 0 <= i < j < |fs| ensures Disjoint(FieldNames(Locals, fs[i]), FieldNames(Locals, fs[j])) {
        forall x | x in FieldNames(Locals, fs[i]) ensures x !in FieldNames(Locals, fs[j]) {
          if x in FieldNames(Locals, fs[j]) { LocalsOfTwo(fs, i, j, x); }
        }
      }
    } else {
      var i, j :| 0 <= i < |fs| && 0 <= j < |fs| && fs[i].role.Matrix?
                  && (SizeName(fs[i].name) == PointerName(fs[j].name) || SizeName(fs[i].name) == OffsetName(fs[j].name));
      ClashShows(fs, i, j);
    }
  }

  /** All locals of a factory. */
  function LocalsOf(fs: seq<Field>, request: bool): seq<string> {
    FIXED + Listed(Locals, fs, |fs|) + FixedAfter(request)
  }

  lemma {:induction false} LocalsExactly(fs: seq<Field>, request: bool)
    requires WellFormed(fs)
    ensures NoDup(LocalsOf(fs, request)) <==> SizesApart(fs)
    ensures forall x :: x in LocalsOf(fs, request) <==> IsLocal(fs, request, x)
  {
    var own := Listed(Locals, fs, |fs|);
    forall x ensures x in own <==> IsSize(fs, x) || IsPointer(fs, x) { InLocals(fs, x); }
    forall x | x in own ensures x !in FIXED && x !in FixedAfter(request) {
      if x in FIXED || x in FixedAfter(request) { OwnIsNotFixed(fs, request, x); }
    }
    FieldLocalsApart(fs);
    FixedDistinct(request);
    NoDupConcat(FIXED + own, FixedAfter(request));
    NoDupConcat(FIXED, own);
  }

  lemma {:induction false} OwnIsNotFixed(fs: seq<Field>, request: bool, x: string)
    requires x in FIXED || x in FixedAfter(request)
    ensures !IsSize(fs, x) && !IsPointer(fs, x)
  {
    forall n ensures x != SizeName(n) && x != PointerName(n) && x != OffsetName(n) { FixedAreApart(n, x, request); }
  }

  // ----- What the emitted code introduces

  lemma {:induction false} DeclaresIntroduce(fs: seq<Field>, f: Field)
    ensures Introduced(Declares(fs, f), |Declares(fs, f)|) == FieldLocals(f)
  {
    var code := Declares(fs, f);
    if f.role.Matrix? {
      assert Introduced(code, 0) == [] && Introduced(code, 1) == [SizeName(f.name)];
      assert Introduced(code, 2) == [SizeName(f.name), PointerName(f.name), OffsetName(f.name)];
      assert Introduced(code, 3) == Introduced(code, 2) + [PointerName(f.rowsField), OffsetName(f.rowsField)];
      assert Introduced(code, 4) == Introduced(code, 3) + [PointerName(f.colsField), OffsetName(f.colsField)];
    } else if !f.role.Dim? {
      assert Introduced(code, 0) == [] && Introduced(code, 1) == [PointerName(f.name), OffsetName(f.name)];
    }
  }

  lemma {:induction false} AllIntroduce(emit: Emitter, listing: Listing, fs: seq<Field>, k: nat)
    requires k <= |fs| && forall i :: 0 <= i < |fs| ==> Adds(emit(fs[i]), FieldNames(listing, fs[i]))
    ensures Adds(Code(emit, fs, k), Listed(listing, fs, k))
  {
    if k > 0 {
      AllIntroduce(emit, listing, fs, k - 1);
      AddsConcat(Code(emit, fs, k - 1), emit(fs[k - 1]), Listed(listing, fs, k - 1), FieldNames(listing, fs[k - 1]));
    }
  }

  lemma {:induction false} AllDeclaresIntroduce(fs: seq<Field>)
    ensures Adds(All(DeclaresIn(fs), fs), Listed(Locals, fs, |fs|))
  {
    forall i | 0 <= i < |fs| ensures Adds(DeclaresIn(fs)(fs[i]), FieldNames(Locals, fs[i])) { DeclaresIntroduce(fs, fs[i]); }
    AllIntroduce(DeclaresIn(fs), Locals, fs, |fs|);
  }

  /** Code that declares nothing. */
  lemma {:induction false} QuietIntroduces(code: seq<Stmt>, k: nat)
    requires k <= |code| && forall i :: 0 <= i < |code| ==> code[i].Store? || code[i].Clear?
    ensures Introduced(code, k) == []
  {
    if k > 0 {
      QuietIntroduces(code, k - 1);
      assert Introduces(code[k - 1]) == [];
    }
  }

  lemma {:induction false} AddsNothing(p: seq<Stmt>, q: seq<Stmt>)
    requires Adds(p, []) && Adds(q, [])
    ensures Adds(p + q, [])
  {
    var none: seq<string> := [];
    AddsConcat(p, q, none, none);
    assert none + none == none;
  }

  lemma {:induction false} AllQuiet(emit: Emitter, fs: seq<Field>, k: nat)
    requires k <= |fs| && forall i :: 0 <= i < |fs| ==> Adds(emit(fs[i]), [])
    ensures Adds(Code(emit, fs, k), [])
  {
    if k > 0 {
      AllQuiet(emit, fs, k - 1);
      AddsNothing(Code(emit, fs, k - 1), emit(fs[k - 1]));
    }
  }

  lemma {:induction false} StoresAreQuiet(fs: seq<Field>, f: Field)
    ensures Adds(RequestStores(fs, f), []) && Adds(DimStores(fs, f), []) && Adds(Zeros(f), [])
  {
    QuietIntroduces(RequestStores(fs, f), |RequestStores(fs, f)|);
    QuietIntroduces(DimStores(fs, f), |DimStores(fs, f)|);
    QuietIntroduces(Zeros(f), |Zeros(f)|);
  }

  lemma {:induction false} NamesIntroduced(names: seq<string>, code: seq<Stmt>, k: nat)
    requires |code| == |names| && k <= |code| && forall i :: 0 <= i < |code| ==> code[i] == Name(names[i])
    ensures Introduced(code, k) == names[..k]
  {
    if k > 0 { NamesIntroduced(names, code, k - 1); }
  }

  lemma {:induction false} FixedIntroduced(request: bool)
    ensures Adds(Before, FIXED) && Adds(Afterwards(request), FixedAfter(request))
  {
    NamesIntroduced(FIXED, Before, |Before|);
    NamesIntroduced(FixedAfter(request), Afterwards(request), |Afterwards(request)|);
  }

  lemma {:induction false} WrappedIntroduces(code: seq<Stmt>, request: bool, xs: seq<string>)
    requires Adds(code, xs)
    ensures Adds(Wrapped(code, request), FIXED + xs + FixedAfter(request))
  {
    FixedIntroduced(request);
    AddsConcat(Before, code, FIXED, xs);
    AddsConcat(Before + code, Afterwards(request), FIXED + xs, FixedAfter(request));
  }

  /** Declarations, then statements that declare nothing, between the fixed locals. */
  lemma {:induction false} CodeIntroduces(fs: seq<Field>, rest: seq<Stmt>, request: bool)
    requires Adds(rest, [])
    ensures Adds(Wrapped(All(DeclaresIn(fs), fs) + rest, request), LocalsOf(fs, request))
  {
    var own := Listed(Locals, fs, |fs|);
    AllDeclaresIntroduce(fs);
    AddsConcat(All(DeclaresIn(fs), fs), rest, own, []);
    assert own + [] == own;
    WrappedIntroduces(All(DeclaresIn(fs), fs) + rest, request, own);
  }

  lemma {:induction false} FactoryIntroduces(fs: seq<Field>)
    ensures Adds(RequestCode(fs), LocalsOf(fs, true)) && Adds(ResponseCode(fs), LocalsOf(fs, false))
  {
    forall i | 0 <= i < |fs| ensures Adds(RequestStoresIn(fs)(fs[i]), []) && Adds(DimStoresIn(fs)(fs[i]), [])
                                     && Adds(ZerosIn()(fs[i]), []) {
      StoresAreQuiet(fs, fs[i]);
    }
    AllQuiet(RequestStoresIn(fs), fs, |fs|);
    AllQuiet(DimStoresIn(fs), fs, |fs|);
    AllQuiet(ZerosIn(), fs, |fs|);
    AddsNothing(All(DimStoresIn(fs), fs), All(ZerosIn(), fs));
    CodeIntroduces(fs, All(RequestStoresIn(fs), fs), true);
    CodeIntroduces(fs, All(DimStoresIn(fs), fs) + All(ZerosIn(), fs), false);
  }

  // ----- Struct members

  lemma {:induction false} InMembers(f: Field, m: string)
    ensures m in Members(f) <==> MemberOf(f, m)
    ensures NoDup(Members(f))
  {
    assert |f.ptrName + "_length"| > |f.ptrName|;
  }

  lemma {:induction false} MembersApart(fs: seq<Field>)
    ensures NoDup(Listed(Struct, fs, |fs|)) <==> OneMember(fs)
  {
    ListedNoDup(Struct, fs);
    forall i | 0 <= i < |fs| ensures NoDup(FieldNames(Struct, fs[i])) { InMembers(fs[i], ""); }
    forall i, m | 0 <= i < |fs| ensures m in FieldNames(Struct, fs[i]) <==> MemberOf(fs[i], m) { InMembers(fs[i], m); }
    if OneMember(fs) {
      forall i, j | 0 <= i < j < |fs| ensures Disjoint(FieldNames(Struct, fs[i]), FieldNames(Struct, fs[j])) {
        forall m | m in FieldNames(Struct, fs[i]) ensures m !in FieldNames(Struct, fs[j]) {
          assert MemberOf(fs[i], m);
        }
      }
    }
    if ApartUpTo(Struct, fs, |fs|) {
      forall i, j, m | 0 <= i < |fs| && 0 <= j < |fs| && MemberOf(fs[i], m) && MemberOf(fs[j], m) ensures i == j {
        assert m in FieldNames(Struct, fs[i]) && m in FieldNames(Struct, fs[j]);
      }
    }
  }

  // ----- When a factory compiles

  lemma {:induction false} OuterExactly(titles: Titles, fs: seq<Field>, request: bool, x: string)
    ensures x in FixedOuter(titles, request) + Listed(Outer, fs, |fs|) <==> IsOuter(titles, fs, request, x)
  {
    InListed(Outer, fs, |fs|, x);
    forall i | 0 <= i < |fs| ensures FieldNames(Outer, fs[i]) == FieldOuter(fs[i]) { }
  }

  lemma {:induction false} NamesExactly(titles: Titles, params: seq<string>, fs: seq<Field>, request: bool)
    requires WellFormed(fs)
    ensures NamesCompile(params + LocalsOf(fs, request), FixedOuter(titles, request) + Listed(Outer, fs, |fs|),
                         Listed(Struct, fs, |fs|))
            <==> FactoryApart(titles, params, fs, request)
  {
    var outer, own := FixedOuter(titles, request) + Listed(Outer, fs, |fs|), LocalsOf(fs, request);
    forall x ensures x in outer <==> IsOuter(titles, fs, request, x) { OuterExactly(titles, fs, request, x); }
    LocalsExactly(fs, request);
    MembersApart(fs);
    NoDupConcat(params, own);
  }

  /** The generated factories compile if and only if their definition is buildable. */
  lemma {:induction false} CompilesExactly(titles: Titles, dimType: string, dims: seq<string>, fs: seq<Field>)
    requires WellFormed(fs)
    ensures Compiles(RequestFactory(titles, fs)) <==> RequestBuildable(titles, fs)
    ensures Compiles(ResponseFactory(titles, dimType, dims, fs)) <==> ResponseBuildable(titles, dimType, dims, fs)
  {
    FactoryIntroduces(fs);
    NamesExactly(titles, ["shape"], fs, true);
    NamesExactly(titles, Params(dims, fs, |dims|), fs, false);
  }

  // ----- Scatter functions

  function FixedScatter(request: bool): seq<string> {
    if request then ["payload", "request"] else ["payload", "response"]
  }

  function ScatterOuter(fs: seq<Field>, request: bool): seq<string> {
    [if request then "RequestPtrs" else "ResponsePtrs"] + Listed(Outer, fs, |fs|)
  }

  function BlockOf(fs: seq<Field>, request: bool): seq<string> {
    FixedScatter(request) + Listed(ScatterBlock, fs, |fs|)
  }

  /** No dim, which becomes a local under its own name, is the vector or span variable of a field. */
  predicate DimsApart(fs: seq<Field>) {
    forall i, j :: 0 <= i < |fs| && 0 <= j < |fs| && fs[i].role.Dim? ==>
      fs[i].name != VectorName(fs[j].name) && (fs[j].role.Matrix? ==> fs[i].name != SpanName(fs[j].ptrName))
  }

  predicate IsScatterLocal(fs: seq<Field>, request: bool, x: string) {
    x in FixedScatter(request)
    || exists i :: 0 <= i < |fs| && (|| x == VectorName(fs[i].name) || (fs[i].role.Dim? && x == fs[i].name)
                                     || (fs[i].role.Matrix? && x == SpanName(fs[i].ptrName)))
  }

  ghost predicate ScatterApart(fs: seq<Field>, request: bool) {
    && DimsApart(fs) && OneMember(fs)
    && forall x :: x in ScatterOuter(fs, request) ==> !IsScatterLocal(fs, request, x)
  }

  lemma {:induction false} InScatterLocals(f: Field, x: string)
    ensures x in ScatterLocals(f) <==>
            || (exists n :: DeclaredBy(f, n) && x == VectorName(n))
            || (f.role.Matrix? && (x == f.rowsField || x == f.colsField || x == SpanName(f.ptrName)))
  {
    if f.role.Matrix? {
      assert DeclaredBy(f, f.name) && DeclaredBy(f, f.rowsField) && DeclaredBy(f, f.colsField);
    } else if !f.role.Dim? {
      assert DeclaredBy(f, f.name);
    }
  }

  lemma {:induction false} VectorIsNotSpan(m: string, n: string)
    ensures VectorName(m) != SpanName(n)
  {
    assert VectorName(m)[0] == 'v' && SpanName(n)[0] == 'm';
  }

  /** A matrix's dims are told apart from every vector and span variable. */
  lemma {:induction false} DimApart(fs: seq<Field>, d: string, j: nat)
    requires DimsApart(fs) && IsDim(fs, d) && j < |fs|
    ensures d != VectorName(fs[j].name) && (fs[j].role.Matrix? ==> d != SpanName(fs[j].ptrName))
  {
    var i :| 0 <= i < |fs| && fs[i].role.Dim? && fs[i].name == d;
  }

  lemma {:induction false} VectorsApart(m: string, n: string)
    requires m != n
    ensures VectorName(m) != VectorName(n)
  {
    if VectorName(m) == VectorName(n) { PrefixInjective("vec_", m, n); }
  }

  lemma {:induction false} DimOfMatrixApart(fs: seq<Field>, i: nat, d: string)
    requires WellFormed(fs) && DimsApart(fs) && i < |fs| && fs[i].role.Matrix? && (d == fs[i].rowsField || d == fs[i].colsField)
    ensures d != VectorName(fs[i].name) && d != VectorName(fs[i].rowsField) && d != VectorName(fs[i].colsField)
    ensures d != SpanName(fs[i].ptrName)
  {
    assert FieldOk(fs, fs[i]);
    DimApart(fs, d, i);
    var r :| 0 <= r < |fs| && fs[r].role.Dim? && fs[r].name == fs[i].rowsField;
    var c :| 0 <= c < |fs| && fs[c].role.Dim? && fs[c].name == fs[i].colsField;
    DimApart(fs, d, r);
    DimApart(fs, d, c);
  }

  lemma {:induction false} ScatterOfOne(fs: seq<Field>, i: nat)
    requires WellFormed(fs) && DimsApart(fs) && i < |fs|
    ensures NoDup(ScatterLocals(fs[i]))
  {
    var f := fs[i];
    assert FieldOk(fs, f);
    ThreeNames(fs, f);
    if f.role.Matrix? {
      VectorsApart(f.name, f.rowsField);
      VectorsApart(f.name, f.colsField);
      VectorsApart(f.rowsField, f.colsField);
      DimOfMatrixApart(fs, i, f.rowsField);
      DimOfMatrixApart(fs, i, f.colsField);
      VectorIsNotSpan(f.name, f.ptrName);
      VectorIsNotSpan(f.rowsField, f.ptrName);
      VectorIsNotSpan(f.colsField, f.ptrName);
    }
  }

  /** The three kinds of scatter locals of a field. */
  predicate AsVector(f: Field, n: string, x: string) { DeclaredBy(f, n) && x == VectorName(n) }

  predicate AsDim(f: Field, x: string) { f.role.Matrix? && (x == f.rowsField || x == f.colsField) }

  predicate AsSpan(f: Field, x: string) { f.role.Matrix? && x == SpanName(f.ptrName) }

  lemma {:induction false} DimAgainst(fs: seq<Field>, i: nat, j: nat, x: string)
    requires WellFormed(fs) && DimsApart(fs) && i < |fs| && j < |fs| && AsDim(fs[i], x)
    ensures !AsSpan(fs[j], x) && forall n :: !AsVector(fs[j], n, x)
  {
    assert FieldOk(fs, fs[i]) && FieldOk(fs, fs[j]);
    DimApart(fs, x, j);
    forall n | DeclaredBy(fs[j], n) ensures x != VectorName(n) {
      var k := DeclaredIsField(fs, j, n);
      DimApart(fs, x, k);
    }
  }

  lemma {:induction false} VectorsOfTwo(fs: seq<Field>, i: nat, j: nat, m: string, n: string, x: string)
    requires WellFormed(fs) && i < |fs| && j < |fs| && AsVector(fs[i], m, x) && AsVector(fs[j], n, x)
    ensures i == j
  {
    if m != n { VectorsApart(m, n); }
    OneDeclarer(fs, i, j, m);
  }

  lemma {:induction false} SpansOfTwo(fs: seq<Field>, i: nat, j: nat, x: string)
    requires OneMember(fs) && i < |fs| && j < |fs| && AsSpan(fs[i], x) && AsSpan(fs[j], x)
    ensures i == j
  {
    PrefixInjective("mat_", fs[i].ptrName, fs[j].ptrName);
    assert MemberOf(fs[i], fs[i].ptrName) && MemberOf(fs[j], fs[i].ptrName);
  }

  lemma {:induction false} ScatterOfTwo(fs: seq<Field>, i: nat, j: nat, x: string)
    requires WellFormed(fs) && OneMember(fs) && DimsApart(fs) && i < |fs| && j < |fs|
    requires x in ScatterLocals(fs[i]) && x in ScatterLocals(fs[j])
    ensures i == j
  {
    InScatterLocals(fs[i], x);
    InScatterLocals(fs[j], x);
    if AsDim(fs[i], x) {
      DimAgainst(fs, i, j, x);
      if !AsDim(fs[j], x) {
        var n :| DeclaredBy(fs[j], n) && x == VectorName(n);
        assert AsVector(fs[j], n, x);
      }
      OneDeclarer(fs, i, j, x);
    } else if AsDim(fs[j], x) {
      DimAgainst(fs, j, i, x);
      var n :| DeclaredBy(fs[i], n) && x == VectorName(n);
      assert AsVector(fs[i], n, x);
    } else if AsSpan(fs[i], x) && AsSpan(fs[j], x) {
      SpansOfTwo(fs, i, j, x);
    } else {
      VectorPair(fs, i, j, x);
    }
  }

  lemma {:induction false} VectorPair(fs: seq<Field>, i: nat, j: nat, x: string)
    requires WellFormed(fs) && i < |fs| && j < |fs| && !(AsSpan(fs[i], x) && AsSpan(fs[j], x))
    requires AsSpan(fs[i], x) || exists n :: DeclaredBy(fs[i], n) && x == VectorName(n)
    requires AsSpan(fs[j], x) || exists n :: DeclaredBy(fs[j], n) && x == VectorName(n)
    ensures i == j
  {
    forall m, n ensures VectorName(m) != SpanName(n) { VectorIsNotSpan(m, n); }
    var m :| DeclaredBy(fs[i], m) && x == VectorName(m);
    var n :| DeclaredBy(fs[j], n) && x == VectorName(n);
    VectorsOfTwo(fs, i, j, m, n, x);
  }

  /** A dim that is some other variable as well occurs twice. */
  lemma {:induction false} DimClashShows(fs: seq<Field>, i: nat, j: nat)
    requires WellFormed(fs) && i < |fs| && j < |fs| && fs[i].role.Dim?
    requires fs[i].name == VectorName(fs[j].name) || (fs[j].role.Matrix? && fs[i].name == SpanName(fs[j].ptrName))
    ensures !ApartUpTo(ScatterBlock, fs, |fs|)
  {
    var x := fs[i].name;
    assert FieldOk(fs, fs[i]) && FieldOk(fs, fs[j]);
    var k :| 0 <= k < |fs| && fs[k].role.Matrix? && (fs[k].rowsField == x || fs[k].colsField == x);
    if x == VectorName(fs[j].name) {
      var d := EveryNameDeclared(fs, j);
      InScatterLocals(fs[d], x);
      OwnDimIsNoVector(fs, k, x);
      assert k != d && x in FieldNames(ScatterBlock, fs[k]) && x in FieldNames(ScatterBlock, fs[d]);
    } else {
      var xs, ys := FieldNames(ScatterBlock, fs[k]), FieldNames(ScatterBlock, fs[j]);
      assert (xs[3] == x || xs[4] == x) && ys[5] == x;
      assert x in xs && x in ys;
    }
  }

  /** By their lengths, a matrix's dims are never its own vector variables. */
  lemma {:induction false} OwnDimIsNoVector(fs: seq<Field>, k: nat, x: string)
    requires WellFormed(fs) && k < |fs| && AsDim(fs[k], x)
    ensures forall n :: DeclaredBy(fs[k], n) ==> x != VectorName(n)
  {
    assert FieldOk(fs, fs[k]);
    assert |x| == |fs[k].name| + 5;
  }

  lemma {:induction false} ScatterBlockApart(fs: seq<Field>)
    requires WellFormed(fs) && OneMember(fs)
    ensures NoDup(Listed(ScatterBlock, fs, |fs|)) <==> DimsApart(fs)
  {
    ListedNoDup(ScatterBlock, fs);
    if DimsApart(fs) {
      forall i | 0 <= i < |fs| ensures NoDup(FieldNames(ScatterBlock, fs[i])) { ScatterOfOne(fs, i); }
      forall i, j | 0 <= i < j < |fs| ensures Disjoint(FieldNames(ScatterBlock, fs[i]), FieldNames(ScatterBlock, fs[j])) {
        forall x | x in FieldNames(ScatterBlock, fs[i]) ensures x !in FieldNames(ScatterBlock, fs[j]) {
          if x in FieldNames(ScatterBlock, fs[j]) { ScatterOfTwo(fs, i, j, x); }
        }
      }
    } else {
      var i, j :| 0 <= i < |fs| && 0 <= j < |fs| && fs[i].role.Dim?
                  && (fs[i].name == VectorName(fs[j].name) || (fs[j].role.Matrix? && fs[i].name == SpanName(fs[j].ptrName)));
      DimClashShows(fs, i, j);
    }
  }

  lemma {:induction false} InScatterBlock(fs: seq<Field>, request: bool, x: string)
    requires WellFormed(fs)
    ensures x in BlockOf(fs, request) <==> IsScatterLocal(fs, request, x)
  {
    InListed(ScatterBlock, fs, |fs|, x);
    if x in Listed(ScatterBlock, fs, |fs|) {
      var i :| 0 <= i < |fs| && x in FieldNames(ScatterBlock, fs[i]);
      InScatterLocals(fs[i], x);
      assert FieldOk(fs, fs[i]);
      if AsDim(fs[i], x) {
        var k :| 0 <= k < |fs| && fs[k].role.Dim? && fs[k].name == x;
      } else if !AsSpan(fs[i], x) {
        var n :| DeclaredBy(fs[i], n) && x == VectorName(n);
        var k := DeclaredIsField(fs, i, n);
      }
    }
    if IsScatterLocal(fs, request, x) && x !in FixedScatter(request) { ScatterLocalListed(fs, request, x); }
  }

  lemma {:induction false} ScatterLocalListed(fs: seq<Field>, request: bool, x: string)
    requires WellFormed(fs) && IsScatterLocal(fs, request, x) && x !in FixedScatter(request)
    ensures exists i :: 0 <= i < |fs| && x in FieldNames(ScatterBlock, fs[i])
  {
    var i :| 0 <= i < |fs| && (|| x == VectorName(fs[i].name) || (fs[i].role.Dim? && x == fs[i].name)
                               || (fs[i].role.Matrix? && x == SpanName(fs[i].ptrName)));
    assert FieldOk(fs, fs[i]);
    var k := i;
    if x == VectorName(fs[i].name) {
      k := EveryNameDeclared(fs, i);
    } else if fs[i].role.Dim? {
      var o :| 0 <= o < |fs| && fs[o].role.Matrix? && (fs[o].rowsField == x || fs[o].colsField == x);
      k := o;
    }
    InScatterLocals(fs[k], x);
    assert x in FieldNames(ScatterBlock, fs[k]);
  }

  lemma {:induction false} FixedScatterApart(fs: seq<Field>, request: bool, x: string)
    requires WellFormed(fs) && x in FixedScatter(request)
    ensures x !in Listed(ScatterBlock, fs, |fs|) && NoDup(FixedScatter(request))
  {
    InListed(ScatterBlock, fs, |fs|, x);
    forall i | 0 <= i < |fs| ensures x !in FieldNames(ScatterBlock, fs[i]) {
      assert FieldOk(fs, fs[i]);
      InScatterLocals(fs[i], x);
      forall n ensures x != VectorName(n) && x != SpanName(n) && x != n + "_rows" && x != n + "_cols" {
        FixedScatterShape(n, x, request);
      }
    }
  }

  lemma {:induction false} FixedScatterShape(n: string, x: string, request: bool)
    requires x in FixedScatter(request)
    ensures x != VectorName(n) && x != SpanName(n) && x != n + "_rows" && x != n + "_cols"
  {
    var rows, cols := n + "_rows", n + "_cols";
    assert VectorName(n)[0] == 'v' && SpanName(n)[0] == 'm';
    assert rows[|n|] == '_' && cols[|n|] == '_';
  }

  /** The names of a scatter function compile if and only if dims and members are kept apart. */
  lemma {:induction false} ScatterNamesExactly(fs: seq<Field>, request: bool)
    requires WellFormed(fs)
    ensures NamesCompile(BlockOf(fs, request), ScatterOuter(fs, request), Listed(Struct, fs, |fs|))
            <==> ScatterApart(fs, request)
  {
    forall x ensures x in BlockOf(fs, request) <==> IsScatterLocal(fs, request, x) { InScatterBlock(fs, request, x); }
    MembersApart(fs);
    if OneMember(fs) { ScatterBlockApart(fs); }
    NoDupConcat(FixedScatter(request), Listed(ScatterBlock, fs, |fs|));
    forall x | x in FixedScatter(request) ensures x !in Listed(ScatterBlock, fs, |fs|) { FixedScatterApart(fs, request, x); }
    FixedScatterApart(fs, request, "payload");
  }
}
