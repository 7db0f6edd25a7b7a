/** Values shared by every part of the model: optional values, results with an
    error path, the truthiness of dynamically typed column values, and sums. */
module Common {

  datatype Option<T> = None | Some(value: T)

  datatype Result<T, E> = Ok(value: T) | Err(error: E)

  /** A database column or request field whose type the handler never fixes. */
  datatype JsValue = JsNull | JsBool(b: bool) | JsNum(n: int) | JsStr(s: string)

  /** JavaScript truthiness, as used by `!!v`, `v ? a : b` and `v || d`. */
  predicate Truthy(v: JsValue)
  {
    match v
    case JsNull => false
    case JsBool(b) => b
    case JsNum(n) => n != 0
    case JsStr(s) => s != ""
  }

  /** Truthiness of an optional string: absent and empty are both falsy. */
  predicate Present(s: Option<string>)
  {
    s.Some? && s.value != ""
  }

  /** `s || d` on an optional string. */
  function OrElse(s: Option<string>, d: string): (r: string)
    ensures Present(s) ==> r == s.value
    ensures !Present(s) ==> r == d
  {
    if Present(s) then s.value else d
  }

  /** Sum of `f` over the elements of a sequence, first element first. */
  function SumOf<T>(s: seq<T>, f: T -> int): int
  {
    if s == [] then 0 else f(s[0]) + SumOf(s[1..], f)
  }

  lemma {:induction false} SumOfConcat<T>(a: seq<T>, b: seq<T>, f: T -> int)
    ensures SumOf(a + b, f) == SumOf(a, f) + SumOf(b, f)
  {
    if a == [] {
      assert a + b == b;
    } else {
      assert (a + b)[0] == a[0];
      assert (a + b)[1..] == a[1..] + b;
      SumOfConcat(a[1..], b, f);
    }
  }

  /** A sum depends only on the multiset of summed elements. */
  lemma {:induction false} SumOfPermutation<T>(a: seq<T>, b: seq<T>, f: T -> int)
    requires multiset(a) == multiset(b)
    ensures SumOf(a, f) == SumOf(b, f)
    decreases |a|
  {
    if a == [] {
      assert |b| == |multiset(b)| == 0;
    } else {
      var x := a[0];
      assert x in multiset(b);
      var p :| 0 <= p < |b| && b[p] == x;
      var rest := b[..p] + b[p + 1..];
      assert b == b[..p] + [x] + b[p + 1..];
      assert a == [x] + a[1..];
      assert multiset(a) == multiset([x]) + multiset(a[1..]);
      assert multiset(b) == multiset(b[..p]) + multiset([x]) + multiset(b[p + 1..]);
      assert multiset(rest) == multiset(b[..p]) + multiset(b[p + 1..]);
      assert multiset(a[1..]) == multiset(a) - multiset([x]);
      assert multiset(rest) == multiset(b) - multiset([x]);
      SumOfPermutation(a[1..], rest, f);
      SumOfConcat(b[..p] + [x], b[p + 1..], f);
      SumOfConcat(b[..p], [x], f);
      SumOfConcat(b[..p], b[p + 1..], f);
    }
  }

  /** Sums over two sequences agree when their terms agree position by position. */
  lemma {:induction false} SumOfPointwise<T, U>(a: seq<T>, f: T -> int, b: seq<U>, g: U -> int)
    requires |a| == |b|
    requires forall k :: 0 <= k < |a| ==> f(a[k]) == g(b[k])
    ensures SumOf(a, f) == SumOf(b, g)
  {
    if a != [] {
      assert f(a[0]) == g(b[0]);
      forall k | 0 <= k < |a[1..]| ensures f(a[1..][k]) == g(b[1..][k]) {
        assert a[1..][k] == a[k + 1] && b[1..][k] == b[k + 1];
      }
      SumOfPointwise(a[1..], f, b[1..], g);
    }
  }

  /** No element occurs twice. */
  predicate Distinct<T(==)>(s: seq<T>)
  {
    forall a, b :: 0 <= a < b < |s| ==> s[a] != s[b]
  }

  function Min(a: int, b: int): int
  {
    if a <= b then a else b
  }

  function Max(a: int, b: int): int
  {
    if a >= b then a else b
  }

  /** Number of elements of `s` that satisfy `p`. */
  function CountIf<T>(s: seq<T>, p: T -> bool): (r: nat)
    ensures r <= |s|
  {
    if s == [] then 0 else (if p(s[0]) then 1 else 0) + CountIf(s[1..], p)
  }

  /** The positions from `lo` on whose element satisfies `p`. */
  function Positions<T>(s: seq<T>, p: T -> bool, lo: nat): set<int>
  {
    set i | lo <= i < |s| && p(s[i])
  }

  /** From position `lo` on, `CountIf` counts exactly the positions whose
      element satisfies `p`. */
  lemma {:induction false} CountIfPositions<T>(s: seq<T>, p: T -> bool, lo: nat)
    requires lo <= |s|
    ensures CountIf(s[lo..], p) == |Positions(s, p, lo)|
    decreases |s| - lo
  {
    var here := Positions(s, p, lo);
    if lo == |s| {
      assert here == {};
    } else {
      CountIfPositions(s, p, lo + 1);
      var later := Positions(s, p, lo + 1);
      assert s[lo..][0] == s[lo] && s[lo..][1..] == s[lo + 1..];
      if p(s[lo]) {
        assert here == later + {lo};
      } else {
        assert here == later;
      }
    }
  }

  /** Elements of `s` that satisfy `p`, in their original order (`Array.filter`). */
  function Filter<T>(s: seq<T>, p: T -> bool): (r: seq<T>)
    ensures |r| == CountIf(s, p)
    ensures forall i :: 0 <= i < |r| ==> r[i] in s && p(r[i])
    ensures forall i :: 0 <= i < |s| && p(s[i]) ==> s[i] in r
  {
    if s == [] then [] else (if p(s[0]) then [s[0]] else []) + Filter(s[1..], p)
  }
}
