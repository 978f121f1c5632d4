/** What every contract model shares: machine integer widths, addresses, outcomes of a call. */
module Base {
  const U32_MAX: int := 0xFFFF_FFFF
  const U64_MAX: int := 0xFFFF_FFFF_FFFF_FFFF
  const I128_MAX: int := 0x7FFF_FFFF_FFFF_FFFF_FFFF_FFFF_FFFF_FFFF
  const I128_MIN: int := -I128_MAX - 1

  type U32 = x: int | 0 <= x <= U32_MAX
  type U64 = x: int | 0 <= x <= U64_MAX
  type I128 = x: int | I128_MIN <= x <= I128_MAX

  predicate FitsI128(x: int) {
    I128_MIN <= x <= I128_MAX
  }

  /** Account and contract addresses; only equality matters. */
  type Address = nat

  datatype Option<+T> = None | Some(value: T)

  /** A call either returns a value, or aborts and leaves the storage as it was. */
  datatype Result<+T, +E> = Ok(value: T) | Abort(error: E)

  predicate NoDuplicates<T(==)>(s: seq<T>) {
    forall i, j :: 0 <= i < j < |s| ==> s[i] != s[j]
  }

  /** The elements of s, as a set. */
  function Elements<T>(s: seq<T>): set<T> {
    set x | x in s
  }

  /** s without every occurrence of x, in order: what the list-rebuilding loops compute. */
  function Without<T(==,!new)>(s: seq<T>, x: T): (r: seq<T>)
    ensures forall y :: y in r <==> y in s && y != x
    ensures x !in s ==> r == s
  {
    if s == [] then []
    else
      var r := Without(s[..|s| - 1], x);
      if s[|s| - 1] == x then r else r + [s[|s| - 1]]
  }

  /** The entries before the first x stay where they are, and the rest is treated alike; so all others keep their order. */
  lemma {:induction false} WithoutInOrder<T(!new)>(before: seq<T>, x: T, rest: seq<T>)
    requires x !in before
    ensures Without(before + [x] + rest, x) == before + Without(rest, x)
  {
    var s := before + [x] + rest;
    if rest == [] {
      WithoutLast(before, x, x);
      assert s == before + [x] && Without(rest, x) == [];
    } else {
      var init, last := rest[..|rest| - 1], rest[|rest| - 1];
      WithoutInOrder(before, x, init);
      WithoutLast(before + [x] + init, last, x);
      WithoutLast(init, last, x);
      assert s == before + [x] + init + [last] && rest == init + [last];
    }
  }

  lemma WithoutLast<T(!new)>(s: seq<T>, last: T, x: T)
    ensures Without(s + [last], x) == Without(s, x) + if last == x then [] else [last]
  {
    assert (s + [last])[..|s|] == s;
  }

  lemma WithoutKeepsDistinct<T(!new)>(s: seq<T>, x: T)
    requires NoDuplicates(s)
    ensures NoDuplicates(Without(s, x))
  {
    if s != [] {
      WithoutKeepsDistinct(s[..|s| - 1], x);
      assert s[|s| - 1] !in s[..|s| - 1];
    }
  }

  /** The loop that rebuilds a stored list without x; found tells whether anything was dropped. */
  method RebuildWithout<T(==,!new)>(list: seq<T>, x: T) returns (kept: seq<T>, found: bool)
    ensures kept == Without(list, x) && (found <==> x in list)
  {
    kept, found := [], false;
    for i := 0 to |list|
      invariant kept == Without(list[..i], x)
      invariant found <==> x in list[..i]
    {
      assert list[..i + 1][..i] == list[..i];
      if list[i] != x {
        kept := kept + [list[i]];
      } else {
        found := true;
      }
    }
    assert list[..|list|] == list;
  }
}
