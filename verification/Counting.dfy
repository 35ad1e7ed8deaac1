// Sums and bags taken over the threads of a system. Each one changes in a known way when a
// single thread takes a step, which is how the global counting invariants are maintained.
module Counting {

  datatype Option<+T> = None | Some(value: T)

  ghost function Sum<T>(f: T -> nat, s: seq<T>): nat
  {
    if s == [] then 0 else f(s[0]) + Sum(f, s[1..])
  }

  lemma {:induction false} SumUpdate<T>(f: T -> nat, s: seq<T>, i: nat, x: T)
    requires i < |s|
    ensures Sum(f, s[i := x]) + f(s[i]) == Sum(f, s) + f(x)
  {
    if i == 0 {
      assert s[0 := x][1..] == s[1..];
    } else {
      assert s[i := x][1..] == s[1..][i - 1 := x];
      SumUpdate(f, s[1..], i - 1, x);
    }
  }

  lemma {:induction false} SumAppend<T>(f: T -> nat, s: seq<T>, x: T)
    ensures Sum(f, s + [x]) == Sum(f, s) + f(x)
  {
    if s == [] {
      assert s + [x] == [x];
    } else {
      assert (s + [x])[1..] == s[1..] + [x];
      SumAppend(f, s[1..], x);
    }
  }

  lemma {:induction false} SumConstant<T>(f: T -> nat, s: seq<T>, c: nat)
    requires forall i :: 0 <= i < |s| ==> f(s[i]) == c
    ensures Sum(f, s) == c * |s|
  {
    if s != [] {
      assert forall i :: 0 <= i < |s[1..]| ==> f(s[1..][i]) == c by {
        forall i | 0 <= i < |s[1..]| ensures f(s[1..][i]) == c {
          assert s[1..][i] == s[i + 1];
        }
      }
      SumConstant(f, s[1..], c);
      assert c * |s| == c + c * |s[1..]|;
    }
  }

  lemma {:induction false} SumDominates<T>(f: T -> nat, g: T -> nat, s: seq<T>)
    requires forall i :: 0 <= i < |s| ==> f(s[i]) <= g(s[i])
    ensures Sum(f, s) <= Sum(g, s)
  {
    if s != [] {
      SumDominates(f, g, s[1..]);
    }
  }

  lemma {:induction false} SumStrictlyDominates<T>(f: T -> nat, g: T -> nat, s: seq<T>, k: nat)
    requires forall i :: 0 <= i < |s| ==> f(s[i]) <= g(s[i])
    requires k < |s| && f(s[k]) < g(s[k])
    ensures Sum(f, s) < Sum(g, s)
  {
    if k == 0 {
      SumDominates(f, g, s[1..]);
    } else {
      SumStrictlyDominates(f, g, s[1..], k - 1);
    }
  }

  lemma {:induction false} SumSame<T>(f: T -> nat, a: seq<T>, b: seq<T>)
    requires |a| == |b| && forall i :: 0 <= i < |a| ==> f(b[i]) == f(a[i])
    ensures Sum(f, b) == Sum(f, a)
  {
    if a != [] {
      SumSame(f, a[1..], b[1..]);
    }
  }

  // One thread's share drops and the others' stay.
  lemma {:induction false} SumDrops<T>(f: T -> nat, a: seq<T>, b: seq<T>, k: nat)
    requires |a| == |b| && k < |a| && f(b[k]) < f(a[k])
    requires forall i :: 0 <= i < |a| && i != k ==> f(b[i]) == f(a[i])
    ensures Sum(f, b) < Sum(f, a)
  {
    if k == 0 {
      SumSame(f, a[1..], b[1..]);
    } else {
      SumDrops(f, a[1..], b[1..], k - 1);
    }
  }

  lemma {:induction false} SumAtMost<T>(f: T -> nat, s: seq<T>, c: nat)
    requires forall i :: 0 <= i < |s| ==> f(s[i]) <= c
    ensures Sum(f, s) <= c * |s|
  {
    if s != [] {
      SumAtMost(f, s[1..], c);
      assert c * |s| == c + c * |s[1..]|;
    }
  }

  lemma {:induction false} SumAtLeast<T>(f: T -> nat, s: seq<T>, k: nat)
    requires k < |s|
    ensures f(s[k]) <= Sum(f, s)
  {
    if k > 0 {
      SumAtLeast(f, s[1..], k - 1);
    }
  }

  lemma {:induction false} SumPositive<T>(f: T -> nat, s: seq<T>) returns (k: nat)
    requires Sum(f, s) > 0
    ensures k < |s| && f(s[k]) > 0
  {
    if f(s[0]) > 0 {
      k := 0;
    } else {
      var j := SumPositive(f, s[1..]);
      k := j + 1;
    }
  }

  ghost function Bag<T, U>(f: T -> multiset<U>, s: seq<T>): multiset<U>
  {
    if s == [] then multiset{} else f(s[0]) + Bag(f, s[1..])
  }

  lemma Exchange<U>(a: multiset<U>, b: multiset<U>, x: multiset<U>, c: multiset<U>, y: multiset<U>)
    requires b + x == c + y
    ensures (a + b) + x == (a + c) + y
  {
    assert (a + b) + x == a + (b + x);
    assert (a + c) + y == a + (c + y);
  }

  lemma Cancel<U>(a: multiset<U>, b: multiset<U>, x: multiset<U>)
    requires a + x == b + x
    ensures a == b
  {
    forall u: U ensures a[u] == b[u] {
      assert (a + x)[u] == (b + x)[u];
    }
  }

  lemma {:induction false} BagUpdate<T, U>(f: T -> multiset<U>, s: seq<T>, i: nat, x: T)
    requires i < |s|
    ensures Bag(f, s[i := x]) + f(s[i]) == Bag(f, s) + f(x)
  {
    if i == 0 {
      assert s[0 := x][1..] == s[1..];
    } else {
      assert s[i := x][1..] == s[1..][i - 1 := x];
      BagUpdate(f, s[1..], i - 1, x);
      Exchange(f(s[0]), Bag(f, s[1..][i - 1 := x]), f(s[i]), Bag(f, s[1..]), f(x));
    }
  }

  lemma {:induction false} BagAppend<T, U>(f: T -> multiset<U>, s: seq<T>, x: T)
    ensures Bag(f, s + [x]) == Bag(f, s) + f(x)
  {
    if s == [] {
      assert s + [x] == [x];
    } else {
      assert (s + [x])[1..] == s[1..] + [x];
      BagAppend(f, s[1..], x);
    }
  }

  lemma {:induction false} BagContains<T, U>(f: T -> multiset<U>, s: seq<T>, k: nat)
    requires k < |s|
    ensures f(s[k]) <= Bag(f, s)
  {
    if k > 0 {
      BagContains(f, s[1..], k - 1);
    }
  }

  lemma {:induction false} BagEmpty<T, U>(f: T -> multiset<U>, s: seq<T>)
    requires forall i :: 0 <= i < |s| ==> f(s[i]) == multiset{}
    ensures Bag(f, s) == multiset{}
  {
    if s != [] {
      BagEmpty(f, s[1..]);
    }
  }
}
