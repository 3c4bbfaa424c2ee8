/**
 * The order in which SQLite's default BINARY collation sorts TEXT values, on
 * strings of code points: compare character by character from the left; the
 * first differing character decides, and a proper prefix sorts first. (For
 * UTF-8 text, comparing the bytes gives the same order as comparing the code
 * points.) Dafny's own `<=` on sequences is the prefix relation, not this order.
 */
module LexOrder {

  /** `a` sorts at or before `b` in ascending order. */
  predicate LexLe(a: string, b: string)
  {
    a == [] || (b != [] && (a[0] < b[0] || (a[0] == b[0] && LexLe(a[1..], b[1..]))))
  }

  lemma {:induction false} LexLeReflexive(a: string)
    ensures LexLe(a, a)
  {
    if a != [] {
      LexLeReflexive(a[1..]);
    }
  }

  lemma {:induction false} LexLeTotal(a: string, b: string)
    ensures LexLe(a, b) || LexLe(b, a)
  {
    if a != [] && b != [] && a[0] == b[0] {
      LexLeTotal(a[1..], b[1..]);
    }
  }

  lemma {:induction false} LexLeTransitive(a: string, b: string, c: string)
    requires LexLe(a, b) && LexLe(b, c)
    ensures LexLe(a, c)
  {
    if a != [] && a[0] == b[0] && b[0] == c[0] {
      LexLeTransitive(a[1..], b[1..], c[1..]);
    }
  }

  lemma {:induction false} LexLeAntisymmetric(a: string, b: string)
    requires LexLe(a, b) && LexLe(b, a)
    ensures a == b
  {
    if a != [] && b != [] {
      LexLeAntisymmetric(a[1..], b[1..]);
      assert a == [a[0]] + a[1..] && b == [b[0]] + b[1..];
    }
  }

  /** A prefix sorts first, so the prefix order is contained in this one. */
  lemma {:induction false} PrefixLexLe(a: string, b: string)
    requires a <= b
    ensures LexLe(a, b)
  {
    if a != [] {
      PrefixLexLe(a[1..], b[1..]);
    }
  }
}
