/** JavaScript strings: sequences of UTF-16 code units, compared unit by unit. */
module JsStrings {
  newtype CodeUnit = x: int | 0 <= x < 0x1_0000

  type Str = seq<CodeUnit>

  /** The `<` of JavaScript on strings. */
  predicate Lt(a: Str, b: Str) {
    if b == [] then false
    else if a == [] then true
    else a[0] < b[0] || (a[0] == b[0] && Lt(a[1..], b[1..]))
  }

  /** Less is what is a proper prefix, or has the smaller unit where the two first differ. */
  lemma {:induction false} LtIsLexicographic(a: Str, b: Str)
    ensures Lt(a, b) <==> exists k: nat :: LessFrom(a, b, k)
  {
    if a != [] && b != [] && a[0] == b[0] {
      LtIsLexicographic(a[1..], b[1..]);
      if Lt(a[1..], b[1..]) {
        var k: nat :| LessFrom(a[1..], b[1..], k);
        assert forall j :: 0 < j <= k ==> a[..j] == [a[0]] + a[1..][..j - 1];
        assert a[..k + 1] == [a[0]] + a[1..][..k] && b[..k + 1] == [b[0]] + b[1..][..k];
        assert LessFrom(a, b, k + 1);
      }
      if k: nat :| LessFrom(a, b, k) {
        assert k > 0;
        assert a[1..][..k - 1] == a[..k][1..] && b[1..][..k - 1] == b[..k][1..];
        assert LessFrom(a[1..], b[1..], k - 1);
      }
    } else if a == [] && b != [] {
      assert LessFrom(a, b, 0);
    } else if a != [] && b != [] && a[0] < b[0] {
      assert LessFrom(a, b, 0);
    } else {
      assert forall k :: 0 < k <= |a| && k <= |b| ==> a[..k][0] == a[0] && b[..k][0] == b[0];
    }
  }

  /** The first `k` units agree, and then it is decided. */
  predicate LessFrom(a: Str, b: Str, k: nat) {
    && k <= |a| && k < |b| && a[..k] == b[..k]
    && (k < |a| ==> a[k] < b[k])
  }

  lemma {:induction false} LtIrreflexive(a: Str)
    ensures !Lt(a, a)
  {
    if a != [] {
      LtIrreflexive(a[1..]);
    }
  }

  lemma {:induction false} LtTransitive(a: Str, b: Str, c: Str)
    requires Lt(a, b) && Lt(b, c)
    ensures Lt(a, c)
  {
    if a != [] && a[0] == b[0] && b[0] == c[0] {
      LtTransitive(a[1..], b[1..], c[1..]);
    }
  }

  lemma {:induction false} LtTotal(a: Str, b: Str)
    ensures a == b || Lt(a, b) || Lt(b, a)
  {
    if a != [] && b != [] && a[0] == b[0] {
      LtTotal(a[1..], b[1..]);
      assert a == [a[0]] + a[1..] && b == [b[0]] + b[1..];
    }
  }

  lemma LtAsymmetric(a: Str, b: Str)
    requires Lt(a, b)
    ensures !Lt(b, a) && a != b
  {
    LtIrreflexive(a);
    if Lt(b, a) {
      LtTransitive(a, b, a);
    }
  }
}
