/** Types and sequence operations shared by every component. */
module Base {
  datatype Option<+T> = None | Some(value: T)

  type byte = b: nat | b < 256

  const TWO_32: nat := 0x1_0000_0000

  type u32 = n: nat | n < TWO_32

  /** `s` with the bytes from `at` on overwritten by `data`, as one `memcpy` into a buffer does. */
  function Splice<T>(s: seq<T>, at: nat, data: seq<T>): (r: seq<T>)
    requires at + |data| <= |s|
    ensures |r| == |s|
    ensures forall k | 0 <= k < |s| :: r[k] == if at <= k < at + |data| then data[k - at] else s[k]
  {
    s[..at] + data + s[at + |data|..]
  }

  /** Writing at an address of a memory that may be too small: only the part that fits is written. */
  function Overwrite<T>(mem: seq<T>, address: nat, data: seq<T>): (r: seq<T>)
    ensures |r| == |mem|
    ensures forall a | 0 <= a < |mem| ::
      r[a] == if address <= a < address + |data| then data[a - address] else mem[a]
  {
    if address >= |mem| then mem
    else if address + |data| <= |mem| then Splice(mem, address, data)
    else Splice(mem, address, data[..|mem| - address])
  }

  lemma SpliceMiddle<T>(a: seq<T>, b: seq<T>, c: seq<T>, at: nat, data: seq<T>)
    requires at + |data| <= |b|
    ensures Splice(a + (b + c), |a| + at, data) == a + (Splice(b, at, data) + c)
  {
  }

  ghost predicate NoDuplicates<T>(s: seq<T>) {
    forall i, j | 0 <= i < j < |s| :: s[i] != s[j]
  }

  /** `list_remove_element` of the commons library: drops the first occurrence, if there is one. */
  function Without<T(==)>(s: seq<T>, x: T): seq<T> {
    if s == [] then []
    else if s[0] == x then s[1..]
    else [s[0]] + Without(s[1..], x)
  }

  lemma WithoutAppend<T>(s: seq<T>, t: seq<T>, x: T)
    ensures Without(s + t, x) == if x in s then Without(s, x) + t else s + Without(t, x)
  {
    if s == [] {
      assert s + t == t;
    } else {
      assert (s + t)[1..] == s[1..] + t;
      if s[0] != x {
        WithoutAppend(s[1..], t, x);
      }
    }
  }

  /** On a list without duplicates, removing `x` removes exactly `x` and keeps the order. */
  lemma {:induction false} WithoutDistinct<T>(s: seq<T>, x: T)
    requires NoDuplicates(s)
    ensures NoDuplicates(Without(s, x))
    ensures forall y :: y in Without(s, x) <==> y in s && y != x
    ensures |Without(s, x)| == if x in s then |s| - 1 else |s|
  {
    if s != [] {
      WithoutDistinct(s[1..], x);
      assert s == [s[0]] + s[1..];
      assert s[0] !in s[1..];
      if s[0] != x {
        var rest := Without(s[1..], x);
        forall i, j | 0 <= i < j < |[s[0]] + rest| ensures ([s[0]] + rest)[i] != ([s[0]] + rest)[j] {
          assert ([s[0]] + rest)[j] == rest[j - 1] && rest[j - 1] in rest;
        }
      }
    }
  }
}
