// Object paths are joined from segments by slashes.
module Paths {
  predicate SlashFree(s: string) { '/' !in s }

  // A slash-free segment can be read off the front of a path.
  lemma {:induction false} FirstSegment(a: string, b: string, x: string, y: string)
    requires SlashFree(a) && SlashFree(b) && a + "/" + x == b + "/" + y
    ensures a == b && x == y
  {
    var l, r := a + "/" + x, b + "/" + y;
    assert l[|a|] == '/' && r[|b|] == '/';
    assert forall k :: 0 <= k < |a| ==> l[k] == a[k] && a[k] in a;
    assert forall k :: 0 <= k < |b| ==> r[k] == b[k] && b[k] in b;
    assert |a| == |b|;
    assert a == l[..|a|] && b == r[..|b|];
    assert x == l[|a| + 1..] && y == r[|b| + 1..];
  }

  // And off the end.
  lemma {:induction false} LastSegment(a: string, b: string, x: string, y: string)
    requires SlashFree(x) && SlashFree(y) && a + "/" + x == b + "/" + y
    ensures a == b && x == y
  {
    var l, r := a + "/" + x, b + "/" + y;
    assert l[|a|] == '/' && r[|b|] == '/';
    assert forall k :: |a| < k < |l| ==> l[k] == x[k - |a| - 1] && x[k - |a| - 1] in x;
    assert forall k :: |b| < k < |r| ==> r[k] == y[k - |b| - 1] && y[k - |b| - 1] in y;
    assert |a| == |b|;
    assert a == l[..|a|] && b == r[..|b|];
    assert x == l[|a| + 1..] && y == r[|b| + 1..];
  }
}
