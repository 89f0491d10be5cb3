/** How often a value occurs in a sequence. */
module Counting {

  ghost function Times<T>(s: seq<T>, x: T): nat { multiset(s)[x] }

  lemma {:induction false} TimesAppend<T>(s: seq<T>, y: T, x: T)
    ensures Times(s + [y], x) == Times(s, x) + (if y == x then 1 else 0)
  {
  }

  lemma {:induction false} TimesConcat<T>(s: seq<T>, t: seq<T>, x: T)
    ensures Times(s + t, x) == Times(s, x) + Times(t, x)
  {
  }

  lemma {:induction false} TimesIn<T>(s: seq<T>, x: T)
    ensures Times(s, x) > 0 <==> x in s
  {
  }

  lemma {:induction false} TimesDistinct<T>(s: seq<T>, x: T)
    requires forall i, j :: 0 <= i < j < |s| ==> s[i] != s[j]
    ensures Times(s, x) == (if x in s then 1 else 0)
  {
    if s != [] {
      var front := s[..|s| - 1];
      TimesDistinct(front, x);
      assert s == front + [s[|s| - 1]];
    }
  }
}
