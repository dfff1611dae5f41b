/** Shared vocabulary: optional values, device identifiers and sequence relations. */
module Core {

  /** An optional value, usable with `:-`. */
  datatype Option<+T> = None | Some(value: T)
  {
    predicate IsFailure() { None? }

    function PropagateFailure<U>(): Option<U>
      requires None?
    {
      None
    }

    function Extract(): T
      requires Some?
    {
      value
    }
  }

  /** A device identifier: the canonical lower-case UUID string of the wire protocol. */
  type DeviceId = string

  /** Go's `<` on strings: byte-wise lexicographic order. */
  predicate StringLess(a: string, b: string)
  {
    if a == [] then b != []
    else if b == [] then false
    else if a[0] != b[0] then a[0] < b[0]
    else StringLess(a[1..], b[1..])
  }

  lemma {:induction false} StringLessTrichotomy(a: string, b: string)
    ensures a == b ==> !StringLess(a, b) && !StringLess(b, a)
    ensures a != b ==> StringLess(a, b) != StringLess(b, a)
  {
    if a != [] && b != [] && a[0] == b[0] {
      StringLessTrichotomy(a[1..], b[1..]);
      assert a == [a[0]] + a[1..] && b == [b[0]] + b[1..];
    }
  }

  predicate IsPrefix<T(==)>(s: seq<T>, t: seq<T>)
  {
    |s| <= |t| && s == t[..|s|]
  }
}
