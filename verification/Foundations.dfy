/** Machine integer ranges and the optional value used by every other module. */
module Numbers {
  const U16_MAX := 0xFFFF
  const U32_MAX := 0xFFFF_FFFF
  const U64_MAX := 0xFFFF_FFFF_FFFF_FFFF
  const I32_MAX := 0x7FFF_FFFF

  type byte = x: int | 0 <= x < 256
  type u16 = x: int | 0 <= x <= U16_MAX
  type u32 = x: int | 0 <= x <= U32_MAX
  type u64 = x: int | 0 <= x <= U64_MAX

  function Min(a: int, b: int): int { if a <= b then a else b }

  function Max(a: int, b: int): int { if a >= b then a else b }

  /** `u64::saturating_add` */
  function SaturatingAdd64(a: u64, b: u64): u64 { Min(a + b, U64_MAX) }

  /** `u64::saturating_sub` */
  function SaturatingSub64(a: u64, b: u64): u64 { Max(a - b, 0) }

  /** `u64::saturating_mul` */
  function SaturatingMul64(a: nat, b: u64): u64
  {
    assert a * b >= 0;
    Min(a * b, U64_MAX)
  }

  /** The `as i32` cast of a `u32`: two's complement reinterpretation. */
  function AsI32(x: u32): int { if x <= I32_MAX then x else x - (U32_MAX + 1) }

  function CeilDiv(a: nat, b: nat): nat
    requires b > 0
  {
    (a + b - 1) / b
  }
}

/** Products and quotients, stated one step at a time. */
module Arithmetic {
  lemma MulMonotone(a: int, b: int, c: int)
    requires a <= b && 0 <= c
    ensures a * c <= b * c && c * a <= c * b
  {
    assert (b - a) * c >= 0;
  }

  lemma MulCancel(a: int, b: int, c: int)
    requires a * c < b * c && 0 < c
    ensures a < b
  {
    if b <= a { MulMonotone(b, a, c); }
  }

  lemma Divide(x: int, d: int)
    requires d > 0
    ensures (x / d) * d <= x < (x / d) * d + d
  {
    assert x == (x / d) * d + x % d;
  }

  lemma DivideBelow(x: int, d: int, bound: int)
    requires d > 0 && x < bound * d
    ensures x / d < bound
  {
    Divide(x, d);
    MulCancel(x / d, bound, d);
  }

  lemma DivideAtLeast(x: int, d: int, bound: int)
    requires d > 0 && bound * d <= x
    ensures bound <= x / d
  {
    Divide(x, d);
    assert (x / d + 1) * d == (x / d) * d + d;
    MulCancel(bound, x / d + 1, d);
  }
}

module Options {
  datatype Option<+T> = None | Some(value: T)
}

/** A state taken through a sequence of steps. */
module Folds {
  function Fold<S, E>(step: (S, E) -> S, start: S, events: seq<E>): S {
    if events == [] then start
    else step(Fold(step, start, events[..|events| - 1]), events[|events| - 1])
  }

  lemma FoldMore<S, E>(step: (S, E) -> S, start: S, events: seq<E>, last: E)
    ensures Fold(step, start, events + [last]) == step(Fold(step, start, events), last)
  {
    assert (events + [last])[..|events|] == events;
  }

  lemma {:induction false} FoldConcat<S, E>(step: (S, E) -> S, start: S, first: seq<E>, second: seq<E>)
    ensures Fold(step, start, first + second) == Fold(step, Fold(step, start, first), second)
    decreases |second|
  {
    if second == [] {
      assert first + second == first;
    } else {
      var init, last := second[..|second| - 1], second[|second| - 1];
      FoldConcat(step, start, first, init);
      FoldMore(step, start, first + init, last);
      assert first + second == (first + init) + [last];
    }
  }
}

/**
 * In-order selection of elements. `Subsequence(a, b)` says that `a` is `b` with
 * some positions left out: nothing reordered, repeated or altered.
 */
module Subsequences {
  ghost predicate Subsequence<T>(a: seq<T>, b: seq<T>)
    decreases |b|
  {
    || a == []
    || (b != [] &&
        (|| (a[|a| - 1] == b[|b| - 1] && Subsequence(a[..|a| - 1], b[..|b| - 1]))
         || Subsequence(a, b[..|b| - 1])))
  }

  lemma {:induction false} Associative<T>(a: seq<T>, b: seq<T>, c: seq<T>)
    ensures (a + b) + c == a + (b + c)
  {
  }

  lemma {:induction false} Reflexive<T>(a: seq<T>)
    ensures Subsequence(a, a)
  {
    if a != [] { Reflexive(a[..|a| - 1]); }
  }

  lemma {:induction false} ExtendRight<T>(a: seq<T>, b: seq<T>, x: T)
    requires Subsequence(a, b)
    ensures Subsequence(a, b + [x])
  {
    assert (b + [x])[..|b|] == b;
  }

  lemma {:induction false} ExtendBoth<T>(a: seq<T>, b: seq<T>, x: T)
    requires Subsequence(a, b)
    ensures Subsequence(a + [x], b + [x])
  {
    assert (a + [x])[..|a|] == a && (b + [x])[..|b|] == b;
  }

  lemma {:induction false} Transitive<T>(a: seq<T>, b: seq<T>, c: seq<T>)
    requires Subsequence(a, b) && Subsequence(b, c)
    ensures Subsequence(a, c)
    decreases |c|
  {
    if a == [] || b == [] {
    } else {
      var c' := c[..|c| - 1];
      if b[|b| - 1] == c[|c| - 1] && Subsequence(b[..|b| - 1], c') {
        if a[|a| - 1] == b[|b| - 1] && Subsequence(a[..|a| - 1], b[..|b| - 1]) {
          Transitive(a[..|a| - 1], b[..|b| - 1], c');
        } else {
          Transitive(a, b[..|b| - 1], c');
        }
      } else {
        Transitive(a, b, c');
      }
    }
  }

  lemma {:induction false} Prefix<T>(a: seq<T>, n: nat)
    requires n <= |a|
    ensures Subsequence(a[..n], a)
    decreases |a|
  {
    if n == |a| {
      assert a[..n] == a;
      Reflexive(a);
    } else {
      var a' := a[..|a| - 1];
      Prefix(a', n);
      assert a'[..n] == a[..n];
      ExtendRight(a[..n], a', a[|a| - 1]);
      assert a' + [a[|a| - 1]] == a;
    }
  }

  lemma {:induction false} Concatenate<T>(a: seq<T>, b: seq<T>, tail: seq<T>)
    requires Subsequence(a, b)
    ensures Subsequence(a + tail, b + tail)
    decreases |tail|
  {
    if tail == [] {
      assert a + tail == a && b + tail == b;
    } else {
      var init, last := tail[..|tail| - 1], tail[|tail| - 1];
      Concatenate(a, b, init);
      ExtendBoth(a + init, b + init, last);
      assert a + tail == a + init + [last] && b + tail == b + init + [last];
    }
  }

  /** Removing one inner element leaves a subsequence. */
  lemma {:induction false} RemoveOne<T>(left: seq<T>, x: T, right: seq<T>)
    ensures Subsequence(left + right, left + [x] + right)
  {
    Reflexive(left);
    ExtendRight(left, left, x);
    Concatenate(left, left + [x], right);
  }

  function MapSeq<A, B>(f: A -> B, a: seq<A>): (r: seq<B>)
    ensures |r| == |a|
    ensures forall i | 0 <= i < |a| :: r[i] == f(a[i])
  {
    seq(|a|, i requires 0 <= i < |a| => f(a[i]))
  }

  lemma {:induction false} Mapped<A, B>(f: A -> B, a: seq<A>, b: seq<A>)
    requires Subsequence(a, b)
    ensures Subsequence(MapSeq(f, a), MapSeq(f, b))
    decreases |b|
  {
    if a != [] {
      var b' := b[..|b| - 1];
      assert MapSeq(f, b)[..|b| - 1] == MapSeq(f, b');
      if a[|a| - 1] == b[|b| - 1] && Subsequence(a[..|a| - 1], b') {
        Mapped(f, a[..|a| - 1], b');
        assert MapSeq(f, a)[..|a| - 1] == MapSeq(f, a[..|a| - 1]);
      } else {
        Mapped(f, a, b');
      }
    }
  }
}
