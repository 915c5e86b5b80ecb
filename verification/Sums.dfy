/** Option values and sums over tables, shared by every mechanism. */
module Sums {

  /** None stands for a raised error: the enclosing transaction is rolled back. */
  datatype Option<+T> = None | Some(value: T) {
    predicate IsFailure() {
      None?
    }

    function PropagateFailure<U>(): Option<U>
      requires None?
    {
      None
    }

    function Extract(): T
      requires Some?
    {
      value
    }
  }

  function Min(a: int, b: int): int {
    if a <= b then a else b
  }

  function Max(a: int, b: int): int {
    if a <= b then b else a
  }

  /** ceil(n / d) for the non-negative amounts that fees and takeouts are computed from. */
  function CeilDiv(n: int, d: int): int
    requires d > 0
  {
    (n + d - 1) / d
  }

  lemma CeilDivBounds(n: int, d: int)
    requires d > 0
    ensures n <= CeilDiv(n, d) * d < n + d
  {
    var q := CeilDiv(n, d);
    assert n + d - 1 == q * d + (n + d - 1) % d;
  }

  /** The SQL or Ruby `sum` of one column of a table. */
  function Sum<T>(f: T -> int, s: seq<T>): int {
    if s == [] then 0 else Sum(f, s[..|s| - 1]) + f(s[|s| - 1])
  }

  lemma SumAppend<T>(f: T -> int, s: seq<T>, x: T)
    ensures Sum(f, s + [x]) == Sum(f, s) + f(x)
  {
    assert (s + [x])[..|s|] == s;
  }

  lemma SumPrefix<T>(f: T -> int, s: seq<T>, k: nat)
    requires k < |s|
    ensures Sum(f, s[..k + 1]) == Sum(f, s[..k]) + f(s[k])
  {
    assert s[..k + 1] == s[..k] + [s[k]];
    SumAppend(f, s[..k], s[k]);
  }

  lemma {:induction false} SumUpdate<T>(f: T -> int, s: seq<T>, i: nat, x: T)
    requires i < |s|
    ensures Sum(f, s[i := x]) == Sum(f, s) - f(s[i]) + f(x)
  {
    var n := |s| - 1;
    if i == n {
      assert s[i := x][..n] == s[..n];
    } else {
      SumUpdate(f, s[..n], i, x);
      assert s[i := x][..n] == s[..n][i := x];
    }
  }

  lemma {:induction false} SumAtLeast<T>(f: T -> int, s: seq<T>)
    requires forall k :: 0 <= k < |s| ==> f(s[k]) >= 0
    ensures Sum(f, s) >= 0
    ensures forall k :: 0 <= k < |s| ==> Sum(f, s) >= f(s[k])
  {
    if s != [] {
      var t := s[..|s| - 1];
      SumAtLeast(f, t);
      forall k | 0 <= k < |s| ensures Sum(f, s) >= f(s[k]) {
        if k < |t| {
          assert t[k] == s[k];
        }
      }
    }
  }

  lemma {:induction false} SumZero<T>(f: T -> int, s: seq<T>)
    requires forall k :: 0 <= k < |s| ==> f(s[k]) == 0
    ensures Sum(f, s) == 0
  {
    if s != [] {
      SumZero(f, s[..|s| - 1]);
    }
  }

  /** The column summed over the listed positions, from place `k` of the list on. */
  function SumAt<T>(f: T -> int, s: seq<T>, list: seq<nat>, k: nat): int
    requires forall a :: k <= a < |list| ==> list[a] < |s|
    decreases |list| - k
  {
    if k >= |list| then 0 else f(s[list[k]]) + SumAt(f, s, list, k + 1)
  }

  lemma {:induction false} SumAtFrame<T>(f: T -> int, s: seq<T>, s': seq<T>, list: seq<nat>, k: nat)
    requires forall a :: k <= a < |list| ==> list[a] < |s| && list[a] < |s'| && s'[list[a]] == s[list[a]]
    ensures SumAt(f, s', list, k) == SumAt(f, s, list, k)
    decreases |list| - k
  {
    if k < |list| {
      SumAtFrame(f, s, s', list, k + 1);
    }
  }

  /** Distinct positions of a non-negative column add up to at most the whole; `zero` counts nothing. */
  lemma {:induction false} SumAtMost<T>(f: T -> int, s: seq<T>, list: seq<nat>, k: nat, zero: T)
    requires f(zero) == 0 && forall i :: 0 <= i < |s| ==> f(s[i]) >= 0
    requires forall a :: k <= a < |list| ==> list[a] < |s|
    requires forall a, b :: k <= a < b < |list| ==> list[a] != list[b]
    ensures SumAt(f, s, list, k) <= Sum(f, s)
    decreases |list| - k
  {
    if k >= |list| {
      SumAtLeast(f, s);
    } else {
      var rest := s[list[k] := zero];
      SumUpdate(f, s, list[k], zero);
      SumAtFrame(f, s, rest, list, k + 1);
      SumAtMost(f, rest, list, k + 1, zero);
    }
  }

  // ----- what changed between two readings of a table

  /** A measure of how row `i` of `s` became row `i` of `t`, over the first `n` rows. */
  function SumChange<T>(f: (T, T) -> int, s: seq<T>, t: seq<T>, n: nat): int
    requires n <= |s| && n <= |t|
  {
    if n == 0 then 0 else SumChange(f, s, t, n - 1) + f(s[n - 1], t[n - 1])
  }

  lemma {:induction false} NoChange<T>(f: (T, T) -> int, s: seq<T>, t: seq<T>, n: nat)
    requires n <= |s| && n <= |t| && forall i :: 0 <= i < n ==> f(s[i], t[i]) == 0
    ensures SumChange(f, s, t, n) == 0
  {
    if n > 0 {
      NoChange(f, s, t, n - 1);
    }
  }

  lemma {:induction false} OneChange<T>(f: (T, T) -> int, s: seq<T>, t: seq<T>, n: nat, i: nat)
    requires i < n <= |s| && n <= |t| && forall j :: 0 <= j < n && j != i ==> f(s[j], t[j]) == 0
    ensures SumChange(f, s, t, n) == f(s[i], t[i])
  {
    if i == n - 1 {
      NoChange(f, s, t, n - 1);
    } else {
      OneChange(f, s, t, n - 1, i);
    }
  }

  lemma {:induction false} ChangesAdd<T>(f: (T, T) -> int, s: seq<T>, t: seq<T>, u: seq<T>, n: nat)
    requires n <= |s| && n <= |t| && n <= |u|
    requires forall i :: 0 <= i < n ==> f(s[i], u[i]) == f(s[i], t[i]) + f(t[i], u[i])
    ensures SumChange(f, s, u, n) == SumChange(f, s, t, n) + SumChange(f, t, u, n)
  {
    if n > 0 {
      ChangesAdd(f, s, t, u, n - 1);
    }
  }

  lemma {:induction false} ChangesNonNegative<T>(f: (T, T) -> int, s: seq<T>, t: seq<T>, n: nat)
    requires n <= |s| && n <= |t| && forall i :: 0 <= i < n ==> f(s[i], t[i]) >= 0
    ensures SumChange(f, s, t, n) >= 0
    ensures forall i :: 0 <= i < n ==> SumChange(f, s, t, n) >= f(s[i], t[i])
  {
    if n > 0 {
      ChangesNonNegative(f, s, t, n - 1);
    }
  }

  /** Changes of the first `n` rows are read off those rows alone. */
  lemma {:induction false} SameChange<T>(f: (T, T) -> int, s: seq<T>, t: seq<T>, s2: seq<T>, t2: seq<T>, n: nat)
    requires n <= |s| && n <= |t| && n <= |s2| && n <= |t2|
    requires forall i :: 0 <= i < n ==> s2[i] == s[i] && t2[i] == t[i]
    ensures SumChange(f, s2, t2, n) == SumChange(f, s, t, n)
  {
    if n > 0 {
      SameChange(f, s, t, s2, t2, n - 1);
    }
  }

  // ----- user by user

  /** The part of a column that belongs to one user. */
  function Part<T>(f: T -> int, owner: T -> nat, user: nat): T -> int {
    x => if owner(x) == user then f(x) else 0
  }

  /** The column summed user by user, for users 0 .. n. */
  function SumByUser<T>(f: T -> int, owner: T -> nat, s: seq<T>, n: nat): int {
    if n == 0 then 0 else SumByUser(f, owner, s, n - 1) + Sum(Part(f, owner, n - 1), s)
  }

  lemma {:induction false} SumByUserAppend<T>(f: T -> int, owner: T -> nat, s: seq<T>, x: T, n: nat)
    ensures SumByUser(f, owner, s + [x], n) == SumByUser(f, owner, s, n) + if owner(x) < n then f(x) else 0
  {
    if n > 0 {
      SumByUserAppend(f, owner, s, x, n - 1);
      SumAppend(Part(f, owner, n - 1), s, x);
    }
  }

  lemma {:induction false} SumByUserEmpty<T>(f: T -> int, owner: T -> nat, n: nat)
    ensures SumByUser(f, owner, [], n) == 0
  {
    if n > 0 {
      SumByUserEmpty(f, owner, n - 1);
    }
  }

  /** Adding up user by user loses nothing and counts nothing twice. */
  lemma {:induction false} SumByUserIsSum<T>(f: T -> int, owner: T -> nat, s: seq<T>, n: nat)
    requires forall k :: 0 <= k < |s| ==> owner(s[k]) < n
    ensures SumByUser(f, owner, s, n) == Sum(f, s)
  {
    if s == [] {
      SumByUserEmpty(f, owner, n);
    } else {
      var t := s[..|s| - 1];
      SumByUserIsSum(f, owner, t, n);
      SumByUserAppend(f, owner, t, s[|s| - 1], n);
      assert t + [s[|s| - 1]] == s;
    }
  }
}
