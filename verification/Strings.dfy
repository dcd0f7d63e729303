/** The order of names: Python's sorted() and the database's binary text order agree on it. */
module Strings {

  /** Strings compare by code points, a proper prefix first. */
  predicate StringBefore(a: string, b: string) {
    b != "" && (a == "" || a[0] < b[0] || (a[0] == b[0] && StringBefore(a[1..], b[1..])))
  }

  lemma {:induction false} StringsAreOrdered(a: string, b: string)
    ensures !(StringBefore(a, b) && StringBefore(b, a)) && (a == b || StringBefore(a, b) || StringBefore(b, a))
    ensures !StringBefore(a, a)
  {
    if a != "" {
      if b != "" { StringsAreOrdered(a[1..], b[1..]); } else { StringsAreOrdered(a[1..], ""); }
      assert a == [a[0]] + a[1..] && (b != "" ==> b == [b[0]] + b[1..]);
    }
  }

  lemma {:induction false} StringsTransitive(a: string, b: string, c: string)
    requires StringBefore(a, b) && StringBefore(b, c)
    ensures StringBefore(a, c)
  {
    if a != "" && a[0] == b[0] == c[0] { StringsTransitive(a[1..], b[1..], c[1..]); }
  }
}
