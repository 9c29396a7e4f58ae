/** Machine integers and result types shared by the models. */
module Base {

  const U32_MAX: int := 0xFFFF_FFFF

  type byte = x: int | 0 <= x < 0x100
  type u8 = x: int | 0 <= x < 0x100
  type u16 = x: int | 0 <= x < 0x1_0000
  type u32 = x: int | 0 <= x < 0x1_0000_0000
  type u64 = x: int | 0 <= x < 0x1_0000_0000_0000_0000

  datatype Option<+T> = None | Some(value: T)

  datatype Result<+T, +E> = Ok(value: T) | Err(error: E)

  /** Rust's `u32::saturating_add`: the sum, or as close to it as 32 bits get. */
  function SaturatingAdd(a: u32, b: u32): (r: u32)
    ensures r <= a + b && (r < a + b ==> r == U32_MAX)
  {
    if a + b > U32_MAX then U32_MAX else a + b
  }

  /** Rust's `wrapping_add` on `u32`. */
  function WrappingAdd32(a: u32, b: u32): u32 {
    (a + b) % 0x1_0000_0000
  }

  ghost predicate NoDup<T>(s: seq<T>) {
    forall i, j :: 0 <= i < j < |s| ==> s[i] != s[j]
  }

  ghost function Elements<T>(s: seq<T>): set<T> {
    set x | x in s
  }

  /** A duplicate-free sequence has as many elements as positions. */
  lemma {:induction false} NoDupCardinality<T>(s: seq<T>)
    requires NoDup(s)
    ensures |Elements(s)| == |s|
  {
    if s != [] {
      var front, last := s[..|s| - 1], s[|s| - 1];
      NoDupCardinality(front);
      assert s == front + [last];
      assert last !in front;
      assert Elements(s) == Elements(front) + {last};
    }
  }

  /** Conversely, as many elements as positions leave no room for a duplicate. */
  lemma {:induction false} CardinalityNoDup<T>(s: seq<T>)
    requires |Elements(s)| == |s|
    ensures NoDup(s)
  {
    if s != [] {
      var front, last := s[..|s| - 1], s[|s| - 1];
      assert s == front + [last];
      assert Elements(s) == Elements(front) + {last};
      ElementsBounded(front);
      CardinalityNoDup(front);
      assert last !in Elements(front);
    }
  }

  lemma {:induction false} ElementsBounded<T>(s: seq<T>)
    ensures |Elements(s)| <= |s|
  {
    if s != [] {
      var front, last := s[..|s| - 1], s[|s| - 1];
      ElementsBounded(front);
      assert s == front + [last];
      assert Elements(s) == Elements(front) + {last};
    }
  }

  lemma {:induction false} SubsetCardinality<T>(a: set<T>, b: set<T>)
    requires a <= b
    ensures |a| <= |b|
  {
    assert b == a + (b - a);
  }

  /** A duplicate-free sequence drawn from a set is no longer than the set. */
  lemma {:induction false} NoDupBounded<T>(s: seq<T>, bound: set<T>)
    requires NoDup(s)
    requires forall x :: x in s ==> x in bound
    ensures |s| <= |bound|
  {
    NoDupCardinality(s);
    SubsetCardinality(Elements(s), bound);
  }
}
