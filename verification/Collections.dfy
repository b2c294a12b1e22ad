/** Small stock of sequence functions shared by every model. */
module Collections {

  datatype Option<+T> = None | Some(value: T)

  type byte = n: int | 0 <= n < 256

  /** Concatenation of a sequence of sequences; it grows at its right end, as logs do. */
  function Flatten<T>(ss: seq<seq<T>>): seq<T> {
    if |ss| == 0 then [] else Flatten(ss[..|ss| - 1]) + ss[|ss| - 1]
  }

  /** How many of n bytes get out when the i-th write takes at most counts[i] of what is left, later
      writes take all of it, and a write that takes nothing is the last. */
  function Taken(n: nat, counts: seq<nat>): (k: nat)
    ensures k <= n
    ensures k < n ==> 0 in counts
    decreases |counts|
  {
    if n == 0 || |counts| == 0 then n
    else if counts[0] >= n then n
    else if counts[0] == 0 then 0
    else counts[0] + Taken(n - counts[0], counts[1..])
  }

  lemma ConcatAssociates<T>(a: seq<T>, b: seq<T>, c: seq<T>)
    ensures (a + b) + c == a + (b + c)
  {
  }

  lemma StartsWith<T>(a: seq<T>, b: seq<T>, c: seq<T>)
    ensures a <= a + b + c
  {
  }

  lemma FlattenSnoc<T>(ss: seq<seq<T>>, s: seq<T>)
    ensures Flatten(ss + [s]) == Flatten(ss) + s
  {
    assert (ss + [s])[..|ss|] == ss;
  }

  lemma FlattenLast<T>(ss: seq<seq<T>>, x: T)
    requires |ss| > 0
    ensures Flatten(ss[|ss| - 1 := ss[|ss| - 1] + [x]]) == Flatten(ss) + [x]
  {
    var n := |ss| - 1;
    var longer := ss[n := ss[n] + [x]];
    assert longer[..n] == ss[..n];
    assert Flatten(longer) == Flatten(ss[..n]) + (ss[n] + [x]);
  }

  lemma {:induction false} FlattenConcat<T>(a: seq<seq<T>>, b: seq<seq<T>>)
    ensures Flatten(a + b) == Flatten(a) + Flatten(b)
  {
    if |b| == 0 {
      assert a + b == a;
    } else {
      var n := |b| - 1;
      var front := a + b[..n];
      FlattenConcat(a, b[..n]);
      FlattenSnoc(front, b[n]);
      assert front + [b[n]] == a + b;
      assert (Flatten(a) + Flatten(b[..n])) + b[n] == Flatten(a) + (Flatten(b[..n]) + b[n]);
    }
  }

  /** Sum of a weight over a sequence; a count when the weight is 0 or 1. */
  function Sum<T>(s: seq<T>, weight: T -> nat): nat {
    if |s| == 0 then 0 else Sum(s[..|s| - 1], weight) + weight(s[|s| - 1])
  }

  /** The weight that counts one value. */
  function Is<T(==)>(x: T): T -> nat { (y: T) => if y == x then 1 else 0 }

  lemma SumSnoc<T>(s: seq<T>, x: T, weight: T -> nat)
    ensures Sum(s + [x], weight) == Sum(s, weight) + weight(x)
  {
    assert (s + [x])[..|s|] == s;
  }

  lemma {:induction false} SumUpdate<T>(s: seq<T>, i: nat, x: T, weight: T -> nat)
    requires i < |s|
    ensures Sum(s[i := x], weight) + weight(s[i]) == Sum(s, weight) + weight(x)
  {
    var n := |s| - 1;
    if i == n {
      assert s[i := x][..n] == s[..n];
    } else {
      SumUpdate(s[..n], i, x, weight);
      assert s[i := x][..n] == s[..n][i := x];
    }
  }

  lemma {:induction false} SumAtLeast<T>(s: seq<T>, i: nat, weight: T -> nat)
    requires i < |s|
    ensures weight(s[i]) <= Sum(s, weight)
  {
    if i < |s| - 1 {
      SumAtLeast(s[..|s| - 1], i, weight);
    }
  }

  lemma {:induction false} CountIsMultiplicity<T>(ts: seq<T>, x: T)
    ensures Sum(ts, Is(x)) == multiset(ts)[x]
  {
    if |ts| > 0 {
      CountIsMultiplicity(ts[..|ts| - 1], x);
      assert ts == ts[..|ts| - 1] + [ts[|ts| - 1]];
    }
  }

  /** A positive sum has a positive term, and returns where. */
  lemma {:induction false} SumPositive<T>(s: seq<T>, weight: T -> nat) returns (i: nat)
    requires Sum(s, weight) > 0
    ensures i < |s| && weight(s[i]) > 0
  {
    var n := |s| - 1;
    if weight(s[n]) > 0 {
      i := n;
    } else {
      i := SumPositive(s[..n], weight);
    }
  }

  lemma {:induction false} SumMonotone<T>(a: seq<T>, b: seq<T>, weight: T -> nat)
    requires |a| == |b|
    requires forall i :: 0 <= i < |a| ==> weight(a[i]) <= weight(b[i])
    ensures Sum(a, weight) <= Sum(b, weight)
  {
    if |a| > 0 {
      var n := |a| - 1;
      assert forall i :: 0 <= i < n ==> a[..n][i] == a[i] && b[..n][i] == b[i];
      SumMonotone(a[..n], b[..n], weight);
    }
  }

  /** The concatenation of what a function makes of each element. */
  function Spell<T, U>(s: seq<T>, f: T -> seq<U>): seq<U> {
    if |s| == 0 then [] else f(s[0]) + Spell(s[1..], f)
  }

  lemma SpellOne<T, U>(x: T, f: T -> seq<U>)
    ensures Spell([x], f) == f(x)
  {
    assert Spell([x], f) == f(x) + Spell([x][1..], f);
  }

  lemma {:induction false} SpellConcat<T, U>(a: seq<T>, b: seq<T>, f: T -> seq<U>)
    ensures Spell(a + b, f) == Spell(a, f) + Spell(b, f)
  {
    if |a| == 0 {
      assert a + b == b;
    } else {
      SpellConcat(a[1..], b, f);
      assert (a + b)[1..] == a[1..] + b;
      ConcatAssociates(f(a[0]), Spell(a[1..], f), Spell(b, f));
    }
  }

  /** What spells a whole text and then the beginning of another spells the beginning of both. */
  lemma SpellInARow<T, U, V>(head: seq<T>, first: seq<V>, rest: seq<T>, later: seq<V>, f: T -> seq<U>, g: V -> seq<U>)
    requires Spell(first, g) == Spell(head, f) && Spell(later, g) <= Spell(rest, f)
    ensures Spell(first + later, g) <= Spell(head + rest, f)
  {
    SpellConcat(head, rest, f);
    SpellConcat(first, later, g);
  }

  /** With pieces of one length, equal lengths, and no two elements alike, a text can be read back. */
  lemma {:induction false} SpellIsInjective<T, U>(a: seq<T>, b: seq<T>, f: T -> seq<U>, n: nat)
    requires forall i :: 0 <= i < |a| ==> |f(a[i])| == n
    requires forall i :: 0 <= i < |b| ==> |f(b[i])| == n
    requires forall i, j :: 0 <= i < |a| && 0 <= j < |b| && f(a[i]) == f(b[j]) ==> a[i] == b[j]
    requires |a| == |b| && Spell(a, f) == Spell(b, f)
    ensures a == b
  {
    if |a| > 0 {
      var x, y := f(a[0]), f(b[0]);
      assert x == (x + Spell(a[1..], f))[..n] && y == (y + Spell(b[1..], f))[..n];
      assert Spell(a[1..], f) == (x + Spell(a[1..], f))[n..] && Spell(b[1..], f) == (y + Spell(b[1..], f))[n..];
      SpellIsInjective(a[1..], b[1..], f, n);
      assert a == [a[0]] + a[1..] && b == [b[0]] + b[1..];
    }
  }

  lemma {:induction false} SpellLength<T, U>(s: seq<T>, f: T -> seq<U>, n: nat)
    requires forall i :: 0 <= i < |s| ==> |f(s[i])| == n
    ensures |Spell(s, f)| == n * |s|
  {
    if |s| > 0 {
      SpellLength(s[1..], f, n);
      assert n * |s| == n + n * (|s| - 1);
    }
  }
}
