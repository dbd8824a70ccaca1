/** Values shared by every part of the model: optional JavaScript values, the outcome of an
    external call that either returns a value or throws, and small sequence and string helpers. */
module Common {

  /** A JavaScript value that may be `undefined` or `null` (None). */
  datatype Option<+T> = None | Some(value: T) {
    /** `x ?? fallback` for a value that is either present or absent. */
    function GetOr(fallback: T): T {
      match this
      case Some(v) => v
      case None => fallback
    }
  }

  /** Something thrown by JavaScript code: an `Error` instance carrying a message, or any other value. */
  datatype Thrown = ErrorObject(message: string) | OtherValue

  /** The outcome of a call into code outside the model (OpenAI, JSON.parse, axios, the uploader):
      it either returns a value or throws. */
  datatype Step<+T> = Done(value: T) | Threw(thrown: Thrown)

  /** `error instanceof Error ? error.message : fallback`, the message every catch block reports. */
  function MessageOr(t: Thrown, fallback: string): (m: string)
    ensures t.ErrorObject? ==> m == t.message
    ensures t.OtherValue? ==> m == fallback
  {
    match t
    case ErrorObject(msg) => msg
    case OtherValue => fallback
  }

  /** A string-valued JavaScript value is truthy when it is present and not the empty string. */
  predicate Truthy(s: Option<string>) {
    s.Some? && s.value != ""
  }

  /** `s || fallback` for a string-valued JavaScript value. */
  function OrElse(s: Option<string>, fallback: string): (r: string)
    ensures Truthy(s) ==> r == s.value
    ensures !Truthy(s) ==> r == fallback
  {
    if Truthy(s) then s.value else fallback
  }

  function Min(a: int, b: int): int { if a <= b then a else b }

  function Max(a: int, b: int): int { if a >= b then a else b }

  /** `s.slice(0, n)`: the first `n` elements, or all of them when there are fewer. */
  function Take<T>(s: seq<T>, n: nat): (r: seq<T>)
    ensures |r| == Min(n, |s|)
    ensures r <= s
  {
    if |s| <= n then s else s[..n]
  }

  /** Taking at least as many elements as there are keeps them all. */
  lemma TakeAll<T>(s: seq<T>, n: nat)
    requires |s| <= n
    ensures Take(s, n) == s
  {
  }

  /** The elements of a sequence, as a set. */
  function SetOf<T>(s: seq<T>): set<T> {
    set x | x in s
  }

  /** No element occurs twice. */
  predicate Distinct<T(==)>(s: seq<T>) {
    forall i, j :: 0 <= i < j < |s| ==> s[i] != s[j]
  }

  /** `sub` occurs in `s` as a contiguous piece (JavaScript `s.includes(sub)` on strings). */
  predicate ContainsSub(s: string, sub: string) {
    exists i :: 0 <= i <= |s| && OccursAt(s, sub, i)
  }

  /** `sub` occurs in `s` starting at position `i`. */
  predicate OccursAt(s: string, sub: string, i: int) {
    0 <= i && i + |sub| <= |s| && s[i..i + |sub|] == sub
  }

  /** A string contains every piece it is assembled from. */
  lemma ContainsPiece(pre: string, sub: string, post: string)
    ensures ContainsSub(pre + sub + post, sub)
  {
    var s := pre + sub + post;
    assert s[|pre|..|pre| + |sub|] == sub;
    assert OccursAt(s, sub, |pre|);
  }

  lemma AppendAssociates<T>(a: seq<T>, b: seq<T>, c: seq<T>)
    ensures a + (b + c) == (a + b) + c
  {
  }

  /** A sequence has at least as many positions as distinct elements. */
  lemma {:induction false} SetOfSize<T>(s: seq<T>)
    ensures |SetOf(s)| <= |s|
  {
    if s != [] {
      var init := s[..|s| - 1];
      SetOfSize(init);
      assert SetOf(s) == SetOf(init) + {s[|s| - 1]};
    }
  }

  /** A sequence with a repeated element has strictly fewer distinct elements than positions. */
  lemma RepeatShrinksSet<T>(s: seq<T>, i: nat, j: nat)
    requires i < j < |s| && s[i] == s[j]
    ensures |SetOf(s)| < |s|
  {
    var rest := s[..j] + s[j + 1..];
    forall x | x in SetOf(s) ensures x in SetOf(rest) {
      var k :| 0 <= k < |s| && s[k] == x;
      if k < j { assert rest[k] == x; }
      else if k == j { assert rest[i] == x; }
      else { assert rest[k - 1] == x; }
    }
    assert SetOf(rest) <= SetOf(s);
    assert SetOf(s) == SetOf(rest);
    SetOfSize(rest);
  }

  /** A subset is no larger than its superset. */
  lemma {:induction false} SubsetSize<T>(a: set<T>, b: set<T>)
    requires a <= b
    ensures |a| <= |b|
    decreases |a|
  {
    if a != {} {
      var x :| x in a;
      SubsetSize(a - {x}, b - {x});
    }
  }

  /** A repetition-free sequence has exactly as many distinct elements as positions. */
  lemma {:induction false} DistinctSetSize<T>(s: seq<T>)
    requires Distinct(s)
    ensures |SetOf(s)| == |s|
  {
    if s != [] {
      var init := s[..|s| - 1];
      DistinctSetSize(init);
      assert s[|s| - 1] !in SetOf(init);
      assert SetOf(s) == SetOf(init) + {s[|s| - 1]};
    }
  }

  /** `r` is `s` with some elements left out and the others kept in their order. */
  predicate SubsequenceOf<T(==)>(r: seq<T>, s: seq<T>)
    decreases |s|
  {
    r == [] || (s != [] && ((r[0] == s[0] && SubsequenceOf(r[1..], s[1..])) || SubsequenceOf(r, s[1..])))
  }

  /** A prefix of a subsequence is a subsequence. */
  lemma {:induction false} PrefixOfSubsequence<T>(p: seq<T>, r: seq<T>, s: seq<T>)
    requires p <= r && SubsequenceOf(r, s)
    ensures SubsequenceOf(p, s)
    decreases |s|
  {
    if p != [] {
      if r[0] == s[0] && SubsequenceOf(r[1..], s[1..]) {
        assert p[1..] <= r[1..];
        PrefixOfSubsequence(p[1..], r[1..], s[1..]);
      } else {
        PrefixOfSubsequence(p, r, s[1..]);
      }
    }
  }

  /** The position of the first occurrence of `x` in `s` (`s.indexOf(x)`). */
  function IndexOf<T(==)>(s: seq<T>, x: T): (k: nat)
    requires x in s
    ensures k < |s| && s[k] == x && x !in s[..k]
  {
    if s[0] == x then 0
    else
      var k := 1 + IndexOf(s[1..], x);
      assert s[..k] == [s[0]] + s[1..][..k - 1];
      k
  }

  /** A position holding `x` with no `x` before it is the first occurrence. */
  lemma FirstOccurrence<T>(s: seq<T>, x: T, k: nat)
    requires k < |s| && s[k] == x && x !in s[..k]
    ensures IndexOf(s, x) == k
  {
    var m := IndexOf(s, x);
    assert forall j :: 0 <= j < k ==> s[..k][j] == s[j];
    assert forall j :: 0 <= j < m ==> s[..m][j] == s[j];
  }

  /** Appending an element moves no first occurrence, and a new element is found at the end. */
  lemma IndexOfAppend<T>(init: seq<T>, y: T)
    ensures forall x :: x in init ==> IndexOf(init + [y], x) == IndexOf(init, x)
    ensures y !in init ==> IndexOf(init + [y], y) == |init|
  {
    var s := init + [y];
    forall x | x in init ensures IndexOf(s, x) == IndexOf(init, x) {
      var k := IndexOf(init, x);
      assert s[..k] == init[..k];
      FirstOccurrence(s, x, k);
    }
    if y !in init {
      assert s[..|init|] == init;
      FirstOccurrence(s, y, |init|);
    }
  }

  /** A subsequence of a subsequence of `s` is a subsequence of `s`. */
  lemma {:induction false} SubsequenceTrans<T>(r: seq<T>, t: seq<T>, s: seq<T>)
    requires SubsequenceOf(r, t) && SubsequenceOf(t, s)
    ensures SubsequenceOf(r, s)
    decreases |s|
  {
    if r != [] {
      if t[0] == s[0] && SubsequenceOf(t[1..], s[1..]) {
        if r[0] == t[0] && SubsequenceOf(r[1..], t[1..]) {
          SubsequenceTrans(r[1..], t[1..], s[1..]);
        } else {
          SubsequenceTrans(r, t[1..], s[1..]);
        }
      } else {
        SubsequenceTrans(r, t, s[1..]);
      }
    }
  }

  /** A contiguous slice is a subsequence. */
  lemma {:induction false} SliceIsSubsequence<T>(s: seq<T>, a: nat, b: nat)
    requires a <= b <= |s|
    ensures SubsequenceOf(s[a..b], s)
    decreases |s|
  {
    if a > 0 {
      assert s[1..][a - 1..b - 1] == s[a..b];
      SliceIsSubsequence(s[1..], a - 1, b - 1);
    } else if b > 0 {
      assert s[a..b][1..] == s[1..][0..b - 1];
      SliceIsSubsequence(s[1..], 0, b - 1);
    }
  }

  /** An element absent from both ends of `s` occurs in the middle slice as often as in `s`. */
  lemma CountInMiddle<T>(s: seq<T>, a: nat, b: nat, x: T)
    requires a <= b <= |s| && x !in s[..a] && x !in s[b..]
    ensures multiset(s[a..b])[x] == multiset(s)[x]
  {
    assert s == s[..a] + s[a..b] + s[b..];
  }

  /** A subsequence of a contiguous slice of `s` is a subsequence of `s`. */
  lemma SubsequenceOfSlice<T>(r: seq<T>, t: seq<T>, s: seq<T>, a: nat)
    requires a + |t| <= |s| && t == s[a..a + |t|] && SubsequenceOf(r, t)
    ensures SubsequenceOf(r, s)
  {
    SliceIsSubsequence(s, a, a + |t|);
    SubsequenceTrans(r, t, s);
  }

  /** A prefix of a suffix of `s` is the slice of `s` where the suffix starts. */
  lemma PrefixOfSuffix<T>(s: seq<T>, front: seq<T>, r: seq<T>)
    requires |front| <= |s| && front == s[|s| - |front|..] && r <= front
    ensures r == s[|s| - |front|..|s| - |front| + |r|]
  {
  }

  /** Putting a new element in front of a sequence without repetitions keeps it without. */
  lemma DistinctCons<T>(x: T, rest: seq<T>)
    requires Distinct(rest) && x !in rest
    ensures Distinct([x] + rest)
  {
    var f := [x] + rest;
    forall i, j | 0 <= i < j < |f| ensures f[i] != f[j] {
      if i == 0 {
        assert f[j] == rest[j - 1];
      } else {
        assert f[i] == rest[i - 1] && f[j] == rest[j - 1];
      }
    }
  }
}
