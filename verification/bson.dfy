/** The scalar types of the document store that the model needs, and the
    order in which the store compares strings and nulls when it sorts. */
module Bson {
  import opened Wrappers

  /** A document identifier (a 12-byte ObjectId), modelled by its numeric value. */
  type ObjectId = nat

  /** A date, as milliseconds since the Unix epoch. */
  type Timestamp = int

  /** Binary comparison of strings, character by character, a proper prefix
      first: the store's default ("simple") collation. */
  predicate StringLe(a: string, b: string)
    decreases |a|
  {
    |a| == 0 || (|b| > 0 && (a[0] < b[0] || (a[0] == b[0] && StringLe(a[1..], b[1..]))))
  }

  /** Ascending order on a string field that may be missing: a missing
      (null) value sorts before every string, as in BSON comparison order. */
  predicate NullableStringLe(a: Option<string>, b: Option<string>) {
    a.None? || (b.Some? && StringLe(a.value, b.value))
  }

  lemma {:induction false} StringLeTotal(a: string, b: string)
    ensures StringLe(a, b) || StringLe(b, a)
    decreases |a|
  {
    if |a| > 0 && |b| > 0 && a[0] == b[0] {
      StringLeTotal(a[1..], b[1..]);
    }
  }

  lemma {:induction false} StringLeTransitive(a: string, b: string, c: string)
    requires StringLe(a, b) && StringLe(b, c)
    ensures StringLe(a, c)
    decreases |a|
  {
    if |a| > 0 && |b| > 0 && |c| > 0 && a[0] == b[0] && b[0] == c[0] {
      StringLeTransitive(a[1..], b[1..], c[1..]);
    }
  }

  lemma {:induction false} StringLeAntisymmetric(a: string, b: string)
    requires StringLe(a, b) && StringLe(b, a)
    ensures a == b
    decreases |a|
  {
    if |a| > 0 {
      StringLeAntisymmetric(a[1..], b[1..]);
      assert a == [a[0]] + a[1..] && b == [b[0]] + b[1..];
    }
  }

  /** The category order is a total order: any two values compare, the
      comparison chains, and two values that compare both ways are equal. */
  lemma NullableStringLeTotalOrder(a: Option<string>, b: Option<string>, c: Option<string>)
    ensures NullableStringLe(a, b) || NullableStringLe(b, a)
    ensures NullableStringLe(a, b) && NullableStringLe(b, c) ==> NullableStringLe(a, c)
    ensures NullableStringLe(a, b) && NullableStringLe(b, a) ==> a == b
  {
    if a.Some? && b.Some? {
      StringLeTotal(a.value, b.value);
      if StringLe(a.value, b.value) && StringLe(b.value, a.value) {
        StringLeAntisymmetric(a.value, b.value);
      }
      if c.Some? && StringLe(a.value, b.value) && StringLe(b.value, c.value) {
        StringLeTransitive(a.value, b.value, c.value);
      }
    }
  }
}
