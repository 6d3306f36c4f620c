/**
  String comparison as JavaScript's relational operators perform it on two
  strings: the shorter of two strings where one is a prefix of the other is
  the smaller, otherwise the first differing character decides.

  JavaScript evaluates `a <= b` as `!(b < a)` and `a >= b` as `!(a < b)`, so
  the strict order `LexLt` is the primitive and `LexLe` is derived from it the
  same way.
 */
module LexOrder {

  /** `a` is a proper prefix of `b`. */
  predicate ProperPrefix(a: string, b: string)
  {
    |a| < |b| && a == b[..|a|]
  }

  /** `a` and `b` agree before position `k`, and there `a` has the smaller character. */
  predicate SmallerAt(a: string, b: string, k: nat)
  {
    k < |a| && k < |b| && a[..k] == b[..k] && a[k] < b[k]
  }

  /**
    `a < b` on JavaScript strings: a proper prefix is smaller, and only a
    non-empty string can have anything below it.
   */
  predicate LexLt(a: string, b: string)
    ensures ProperPrefix(a, b) ==> LexLt(a, b)
    ensures LexLt(a, b) ==> |b| > 0
    decreases |a|
  {
    if |b| == 0 then false
    else if |a| == 0 then true
    else if a[0] != b[0] then a[0] < b[0]
    else
      assert ProperPrefix(a, b) ==> ProperPrefix(a[1..], b[1..]) by {
        if ProperPrefix(a, b) {
          assert a[1..] == b[..|a|][1..] == b[1..][..|a| - 1];
        }
      }
      LexLt(a[1..], b[1..])
  }

  /**
    `a <= b` on JavaScript strings, evaluated as `!(b < a)`: the strings are
    equal or `a` is strictly smaller.
   */
  predicate LexLe(a: string, b: string)
    ensures LexLe(a, b) <==> a == b || LexLt(a, b)
  {
    LexLtTrichotomy(a, b);
    LexLtAsymmetric(a, b);
    LexLtIrreflexive(a);
    !LexLt(b, a)
  }

  /**
    The JavaScript definition read from the other side: `a < b` when both
    strings agree before position `k` and `a` has the smaller character there.
   */
  lemma {:induction false} LexLtAtFirstDifference(a: string, b: string, k: nat)
    requires SmallerAt(a, b, k)
    ensures LexLt(a, b)
    decreases k
  {
    if k > 0 {
      assert a[0] == a[..k][0] == b[..k][0] == b[0];
      assert a[1..][..k - 1] == a[..k][1..] == b[..k][1..] == b[1..][..k - 1];
      LexLtAtFirstDifference(a[1..], b[1..], k - 1);
    }
  }

  /**
    Both directions of JavaScript's definition: `a < b` exactly when `a` is a
    proper prefix of `b`, or the strings first differ at a position where `a`
    has the smaller character.
   */
  lemma {:induction false} LexLtCharacterization(a: string, b: string)
    ensures LexLt(a, b) <==> ProperPrefix(a, b) || exists k: nat :: SmallerAt(a, b, k)
    decreases |a|
  {
    if exists k: nat :: SmallerAt(a, b, k) {
      var k: nat :| SmallerAt(a, b, k);
      LexLtAtFirstDifference(a, b, k);
    }
    if LexLt(a, b) && |a| > 0 {
      if a[0] != b[0] {
        assert SmallerAt(a, b, 0);
      } else {
        LexLtCharacterization(a[1..], b[1..]);
        if ProperPrefix(a[1..], b[1..]) {
          assert a == [a[0]] + a[1..] && b[..|a|] == [b[0]] + b[1..][..|a| - 1];
        } else {
          var k: nat :| SmallerAt(a[1..], b[1..], k);
          assert a[..k + 1] == [a[0]] + a[1..][..k];
          assert b[..k + 1] == [b[0]] + b[1..][..k];
          assert SmallerAt(a, b, k + 1);
        }
      }
    }
  }

  /** No string precedes itself. */
  lemma {:induction false} LexLtIrreflexive(a: string)
    ensures !LexLt(a, a)
    decreases |a|
  {
    if |a| > 0 {
      LexLtIrreflexive(a[1..]);
    }
  }

  /** The strict order is transitive. */
  lemma {:induction false} LexLtTransitive(a: string, b: string, c: string)
    requires LexLt(a, b) && LexLt(b, c)
    ensures LexLt(a, c)
    decreases |a|
  {
    if |a| > 0 && a[0] == b[0] && b[0] == c[0] {
      LexLtTransitive(a[1..], b[1..], c[1..]);
    }
  }

  /** Any two strings are equal or ordered one way or the other. */
  lemma {:induction false} LexLtTrichotomy(a: string, b: string)
    ensures LexLt(a, b) || a == b || LexLt(b, a)
    decreases |a|
  {
    if |a| > 0 && |b| > 0 && a[0] == b[0] {
      LexLtTrichotomy(a[1..], b[1..]);
      if a[1..] == b[1..] {
        assert a == [a[0]] + a[1..] && b == [b[0]] + b[1..];
      }
    }
  }

  /** The strict order is asymmetric. */
  lemma LexLtAsymmetric(a: string, b: string)
    ensures LexLt(a, b) ==> !LexLt(b, a)
  {
    if LexLt(a, b) && LexLt(b, a) {
      LexLtTransitive(a, b, a);
      LexLtIrreflexive(a);
    }
  }

  /** `<=` is reflexive. */
  lemma LexLeReflexive(a: string)
    ensures LexLe(a, a)
  {
    LexLtIrreflexive(a);
  }

  /** `<=` is transitive: the property the date filter's reasoning rests on. */
  lemma LexLeTransitive(a: string, b: string, c: string)
    requires LexLe(a, b) && LexLe(b, c)
    ensures LexLe(a, c)
  {
    if LexLt(c, a) {
      LexLtTrichotomy(a, b);
      if LexLt(a, b) {
        LexLtTransitive(c, a, b);
      }
    }
  }

  /** `<=` is total: of two strings, one is at most the other. */
  lemma LexLeTotal(a: string, b: string)
    ensures LexLe(a, b) || LexLe(b, a)
  {
    if LexLt(a, b) {
      LexLtAsymmetric(a, b);
    }
  }

  /** `<=` is antisymmetric, so on strings it is a total order. */
  lemma LexLeAntisymmetric(a: string, b: string)
    requires LexLe(a, b) && LexLe(b, a)
    ensures a == b
  {
    LexLtTrichotomy(a, b);
  }

  /** Two fixed-width `YYYY-MM-DD` dates compare as the days they name. */
  lemma IsoDatesExample()
    ensures LexLt("2025-01-05", "2025-01-10")
    ensures LexLe("2025-01-10", "2025-01-10")
    ensures !LexLe("2025-01-10", "2025-01-05")
  {
    LexLtAtFirstDifference("2025-01-05", "2025-01-10", 8);
    LexLtAsymmetric("2025-01-05", "2025-01-10");
    LexLtIrreflexive("2025-01-10");
  }
}
