/** Small value helpers shared by the model: optional values, results,
    the JavaScript truthiness tests the handlers rely on, and the
    "first match" lookup that Convex's `.first()` performs on an index. */
module Values {

  datatype Option<+T> = None | Some(value: T)

  datatype Result<+T, +E> = Ok(value: T) | Err(error: E)

  /** A possibly missing string is truthy in JavaScript when it is present and non-empty. */
  predicate Truthy(s: Option<string>) {
    s.Some? && s.value != ""
  }

  /** `x || undefined` on a possibly missing string: the empty string becomes absent. */
  function NonEmpty(s: Option<string>): (r: Option<string>)
    ensures r.Some? <==> Truthy(s)
    ensures r.Some? ==> r == s
  {
    if Truthy(s) then s else None
  }

  /** `x || fallback` on a possibly missing string. */
  function OrElse(s: Option<string>, fallback: string): (r: string)
    ensures Truthy(s) ==> r == s.value
    ensures !Truthy(s) ==> r == fallback
  {
    if Truthy(s) then s.value else fallback
  }

  /** The position of the first element satisfying `f`, if any. */
  function FirstIndex<T>(s: seq<T>, f: T -> bool): (r: Option<nat>)
    ensures r.Some? ==> r.value < |s| && f(s[r.value])
    ensures r.Some? ==> forall j :: 0 <= j < r.value ==> !f(s[j])
    ensures r.None? <==> forall j :: 0 <= j < |s| ==> !f(s[j])
  {
    if |s| == 0 then None
    else if f(s[0]) then Some(0)
    else match FirstIndex(s[1..], f)
      case None => None
      case Some(k) => Some(k + 1)
  }

  /** Searching a concatenation finds a hit in the front part first, and
      otherwise finds the first hit of the back part, shifted past the front. */
  lemma {:induction false} FirstIndexAppend<T>(a: seq<T>, b: seq<T>, f: T -> bool)
    ensures FirstIndex(a + b, f) ==
      match FirstIndex(a, f)
      case Some(k) => Some(k)
      case None =>
        match FirstIndex(b, f)
        case Some(k) => Some(|a| + k)
        case None => None
  {
    if |a| > 0 {
      assert (a + b)[1..] == a[1..] + b;
      FirstIndexAppend(a[1..], b, f);
    } else {
      assert a + b == b;
    }
  }

  /** Two searches whose tests agree position by position find the same
      position. */
  lemma {:induction false} FirstIndexAgrees<A, B>(a: seq<A>, f: A -> bool, b: seq<B>, g: B -> bool)
    requires |a| == |b|
    requires forall i :: 0 <= i < |a| ==> f(a[i]) == g(b[i])
    ensures FirstIndex(a, f) == FirstIndex(b, g)
  {
    if |a| > 0 && !f(a[0]) {
      forall i | 0 <= i < |a| - 1 ensures f(a[1..][i]) == g(b[1..][i]) {
        assert a[1..][i] == a[i + 1] && b[1..][i] == b[i + 1];
      }
      FirstIndexAgrees(a[1..], f, b[1..], g);
    }
  }

  /** A hit with no hit before it is the first one. */
  lemma FirstIndexAt<T>(s: seq<T>, f: T -> bool, k: nat)
    requires k < |s| && f(s[k])
    requires forall j :: 0 <= j < k ==> !f(s[j])
    ensures FirstIndex(s, f) == Some(k)
  {
    var r := FirstIndex(s, f);
    assert r.Some?;
    assert !(r.value < k);
  }
}
