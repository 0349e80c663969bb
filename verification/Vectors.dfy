// Finite real vectors: the linear algebra the simplex proofs rest on.

module Vectors {

  // The sum of a[k] * x[k] over k < n.
  function Dot(a: seq<real>, x: seq<real>, n: nat): real
    requires n <= |a| && n <= |x|
  {
    if n == 0 then 0.0 else Dot(a, x, n - 1) + a[n - 1] * x[n - 1]
  }

  function Zeros(n: nat): (z: seq<real>)
    ensures |z| == n && forall k :: 0 <= k < n ==> z[k] == 0.0
  {
    seq(n, _ => 0.0)
  }

  // a + f * b, component by component.
  function AddScaled(a: seq<real>, f: real, b: seq<real>): (r: seq<real>)
    requires |a| == |b|
    ensures |r| == |a| && forall k :: 0 <= k < |a| ==> r[k] == a[k] + f * b[k]
  {
    seq(|a|, k requires 0 <= k < |a| => a[k] + f * b[k])
  }

  // a / p, component by component.
  function Divided(a: seq<real>, p: real): (r: seq<real>)
    requires p != 0.0
    ensures |r| == |a| && forall k :: 0 <= k < |a| ==> r[k] == a[k] / p
  {
    seq(|a|, k requires 0 <= k < |a| => a[k] / p)
  }

  function Sum(x: seq<real>, n: nat): real
    requires n <= |x|
  {
    if n == 0 then 0.0 else Sum(x, n - 1) + x[n - 1]
  }

  lemma {:induction false} DotAddScaled(a: seq<real>, f: real, b: seq<real>, x: seq<real>, n: nat)
    requires |a| == |b| && n <= |a| && n <= |x|
    ensures Dot(AddScaled(a, f, b), x, n) == Dot(a, x, n) + f * Dot(b, x, n)
  {
    if n > 0 {
      DotAddScaled(a, f, b, x, n - 1);
      var k := n - 1;
      assert (a[k] + f * b[k]) * x[k] == a[k] * x[k] + f * (b[k] * x[k]);
      assert f * (Dot(b, x, k) + b[k] * x[k]) == f * Dot(b, x, k) + f * (b[k] * x[k]);
    }
  }

  lemma {:induction false} DotDivided(a: seq<real>, p: real, x: seq<real>, n: nat)
    requires p != 0.0 && n <= |a| && n <= |x|
    ensures Dot(Divided(a, p), x, n) == Dot(a, x, n) / p
  {
    if n > 0 {
      DotDivided(a, p, x, n - 1);
      var k := n - 1;
      assert (a[k] / p) * x[k] == (a[k] * x[k]) / p;
    }
  }

  // The same, in the second argument.
  lemma {:induction false} DotAddScaledRight(a: seq<real>, x: seq<real>, f: real, y: seq<real>, n: nat)
    requires |x| == |y| && n <= |a| && n <= |x|
    ensures Dot(a, AddScaled(x, f, y), n) == Dot(a, x, n) + f * Dot(a, y, n)
  {
    if n > 0 {
      DotAddScaledRight(a, x, f, y, n - 1);
      var k := n - 1;
      assert a[k] * (x[k] + f * y[k]) == a[k] * x[k] + f * (a[k] * y[k]);
      assert f * (Dot(a, y, k) + a[k] * y[k]) == f * Dot(a, y, k) + f * (a[k] * y[k]);
    }
  }

  lemma {:induction false} DotZeros(a: seq<real>, x: seq<real>, n: nat)
    requires n <= |a| && n <= |x|
    requires forall k :: 0 <= k < n ==> a[k] == 0.0 || x[k] == 0.0
    ensures Dot(a, x, n) == 0.0
  {
    if n > 0 {
      DotZeros(a, x, n - 1);
      assert a[n - 1] == 0.0 || x[n - 1] == 0.0;
    }
  }

  // Only the first n components matter.
  lemma {:induction false} DotAgrees(a: seq<real>, b: seq<real>, x: seq<real>, y: seq<real>, n: nat)
    requires n <= |a| && n <= |b| && n <= |x| && n <= |y|
    requires forall k :: 0 <= k < n ==> a[k] == b[k] && x[k] == y[k]
    ensures Dot(a, x, n) == Dot(b, y, n)
  {
    if n > 0 {
      DotAgrees(a, b, x, y, n - 1);
    }
  }

  lemma {:induction false} DotUpdate(a: seq<real>, x: seq<real>, j: nat, v: real, n: nat)
    requires n <= |a| && n <= |x| && j < n
    ensures Dot(a, x[j := v], n) == Dot(a, x, n) + a[j] * (v - x[j])
  {
    if j == n - 1 {
      DotAgrees(a, a, x, x[j := v], n - 1);
      assert a[j] * v == a[j] * x[j] + a[j] * (v - x[j]);
    } else {
      DotUpdate(a, x, j, v, n - 1);
    }
  }

  lemma {:induction false} DotNonNegative(a: seq<real>, x: seq<real>, n: nat)
    requires n <= |a| && n <= |x|
    requires forall k :: 0 <= k < n ==> a[k] * x[k] >= 0.0
    ensures Dot(a, x, n) >= 0.0
  {
    if n > 0 {
      DotNonNegative(a, x, n - 1);
    }
  }

  // What a tolerance of eps per unit of x adds up to.
  function Slack(eps: real, x: seq<real>, n: nat): real
    requires n <= |x|
  {
    if n == 0 then 0.0 else Slack(eps, x, n - 1) + eps * x[n - 1]
  }

  lemma {:induction false} SlackIsProportional(eps: real, x: seq<real>, n: nat)
    requires n <= |x|
    ensures Slack(eps, x, n) == eps * Sum(x, n)
  {
    if n > 0 {
      SlackIsProportional(eps, x, n - 1);
    }
  }

  lemma {:induction false} NoSlack(x: seq<real>, n: nat)
    requires n <= |x|
    ensures Slack(0.0, x, n) == 0.0
  {
    if n > 0 {
      NoSlack(x, n - 1);
    }
  }

  // A vector whose entries are all at least -eps loses at most the slack against x >= 0.
  lemma {:induction false} DotAtLeast(a: seq<real>, x: seq<real>, eps: real, n: nat)
    requires n <= |a| && n <= |x|
    requires forall k :: 0 <= k < n ==> a[k] >= -eps && x[k] >= 0.0
    ensures Dot(a, x, n) >= -Slack(eps, x, n)
  {
    if n > 0 {
      DotAtLeast(a, x, eps, n - 1);
      var k := n - 1;
      assert (a[k] + eps) * x[k] >= 0.0;
      assert (a[k] + eps) * x[k] == a[k] * x[k] + eps * x[k];
    }
  }

  lemma {:induction false} SumAgrees(x: seq<real>, y: seq<real>, n: nat)
    requires n <= |x| && n <= |y| && forall k :: 0 <= k < n ==> x[k] == y[k]
    ensures Sum(x, n) == Sum(y, n)
  {
    if n > 0 {
      SumAgrees(x, y, n - 1);
    }
  }

  lemma {:induction false} SumNonNegative(x: seq<real>, n: nat)
    requires n <= |x| && forall k :: 0 <= k < n ==> x[k] >= 0.0
    ensures Sum(x, n) >= 0.0
    ensures forall k :: 0 <= k < n ==> x[k] <= Sum(x, n)
  {
    if n > 0 {
      SumNonNegative(x, n - 1);
    }
  }
}
