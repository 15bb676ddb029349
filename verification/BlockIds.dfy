/** The block IDs of an Azure upload: `base64(fmt.Sprintf("%05d", i))`. */
module BlockIds {
  import opened Bits

  // ---------------------------------------------------------------- %05d

  function Digit(d: nat): Byte
    requires d < 10
  {
    (48 + d) as Byte
  }

  function Decimal(n: nat): Bytes {
    if n < 10 then [Digit(n)] else Decimal(n / 10) + [Digit(n % 10)]
  }

  function Zeros(n: nat): Bytes {
    seq(n, _ => 48)
  }

  function Padded(n: nat): Bytes {
    var digits := Decimal(n);
    if |digits| < 5 then Zeros(5 - |digits|) + digits else digits
  }

  /** The number that a string of digits stands for. */
  function Value(s: Bytes): int {
    if s == [] then 0 else 10 * Value(s[..|s| - 1]) + (s[|s| - 1] as int - 48)
  }

  lemma {:induction false} ValueOfDecimal(n: nat)
    ensures Value(Decimal(n)) == n
  {
    if n >= 10 {
      ValueOfDecimal(n / 10);
      assert Decimal(n)[..|Decimal(n)| - 1] == Decimal(n / 10);
    } else {
      assert Value(Decimal(n)[..0]) == 0;
    }
  }

  lemma {:induction false} ZerosDoNotCount(k: nat, s: Bytes)
    ensures Value(Zeros(k) + s) == Value(s)
    decreases |s|, k
  {
    if s != [] {
      assert (Zeros(k) + s)[..k + |s| - 1] == Zeros(k) + s[..|s| - 1];
      ZerosDoNotCount(k, s[..|s| - 1]);
    } else if k > 0 {
      assert (Zeros(k) + s)[..k - 1] == Zeros(k - 1) + s;
      ZerosDoNotCount(k - 1, s);
    }
  }

  /** At least five digits that stand for the number. */
  lemma PaddedIsDecimal(n: nat)
    ensures |Padded(n)| >= 5 && Value(Padded(n)) == n
    ensures forall k :: 0 <= k < |Padded(n)| ==> 48 <= Padded(n)[k] <= 57
  {
    ValueOfDecimal(n);
    DecimalDigits(n);
    ZerosDoNotCount(if |Decimal(n)| < 5 then 5 - |Decimal(n)| else 0, Decimal(n));
  }

  lemma {:induction false} DecimalDigits(n: nat)
    ensures forall k :: 0 <= k < |Decimal(n)| ==> 48 <= Decimal(n)[k] <= 57
  {
    if n >= 10 {
      DecimalDigits(n / 10);
    }
  }

  lemma PaddedInjective(i: nat, j: nat)
    ensures Padded(i) == Padded(j) <==> i == j
  {
    ValueOfDecimal(i);
    ValueOfDecimal(j);
    ZerosDoNotCount(if |Decimal(i)| < 5 then 5 - |Decimal(i)| else 0, Decimal(i));
    ZerosDoNotCount(if |Decimal(j)| < 5 then 5 - |Decimal(j)| else 0, Decimal(j));
    assert Value(Padded(i)) == i && Value(Padded(j)) == j;
  }

  lemma PaddedLength(n: nat)
    requires n < 1000000
    ensures 5 <= |Padded(n)| <= 6
  {
    assert n / 10 < 100000 && n / 10 / 10 < 10000 && n / 10 / 10 / 10 < 1000 && n / 10 / 10 / 10 / 10 < 100;
    assert |Decimal(n / 10 / 10 / 10 / 10)| <= 2;
    assert |Decimal(n / 10 / 10 / 10)| <= 3;
    assert |Decimal(n / 10 / 10)| <= 4;
    assert |Decimal(n / 10)| <= 5;
  }

  // ---------------------------------------------------------------- base64

  const PAD := '='

  function Sextet(v: nat): char
    requires v < 64
  {
    if v < 26 then 'A' + v as char
    else if v < 52 then 'a' + (v - 26) as char
    else if v < 62 then '0' + (v - 52) as char
    else if v == 62 then '+'
    else '/'
  }

  lemma SextetInjective(v: nat, w: nat)
    requires v < 64 && w < 64
    ensures Sextet(v) == Sextet(w) <==> v == w
    ensures Sextet(v) != PAD && Sextet(w) != PAD
  {
  }

  function First(a: nat): nat { a / 4 }
  function Second(a: nat, b: nat): nat { a % 4 * 16 + b / 16 }
  function Third(b: nat, c: nat): nat { b % 16 * 4 + c / 64 }
  function Fourth(c: nat): nat { c % 64 }

  lemma SextetsFit(a: nat, b: nat, c: nat)
    requires a < 256 && b < 256 && c < 256
    ensures First(a) < 64 && Second(a, b) < 64 && Third(b, c) < 64 && Fourth(c) < 64
  {
  }

  /** The sextets are the bits of the bytes, in order. */
  lemma SextetsAreBits(a: nat, b: nat, c: nat)
    requires a < 256 && b < 256 && c < 256
    ensures (First(a) * 64 + Second(a, b)) * 4096 + Third(b, c) * 64 + Fourth(c) == (a * 256 + b) * 256 + c
  {
  }

  lemma SextetsTell(a: nat, b: nat, c: nat, x: nat, y: nat, z: nat)
    requires a < 256 && b < 256 && c < 256 && x < 256 && y < 256 && z < 256
    requires First(a) == First(x) && Second(a, b) == Second(x, y)
    ensures a == x
    ensures Third(b, c) == Third(y, z) ==> b == y
    ensures Third(b, c) == Third(y, z) && Fourth(c) == Fourth(z) ==> c == z
  {
  }

  function At(s: Bytes, k: nat): nat {
    if k < |s| then s[k] as nat else 0
  }

  /** The four characters for the first three bytes, of which there may be fewer. */
  function Group(s: Bytes): (r: string)
    requires s != []
    ensures |r| == 4
  {
    var a, b, c := At(s, 0), At(s, 1), At(s, 2);
    SextetsFit(a, b, c);
    [Sextet(First(a)), Sextet(Second(a, b)),
     if |s| > 1 then Sextet(Third(b, c)) else PAD, if |s| > 2 then Sextet(Fourth(c)) else PAD]
  }

  function Base64(s: Bytes): string
    decreases |s|
  {
    if s == [] then [] else Group(s) + Base64(if |s| > 3 then s[3..] else [])
  }

  lemma GroupTells(s: Bytes, t: Bytes)
    requires s != [] && t != [] && Group(s) == Group(t)
    ensures if |s| < 3 then |t| == |s| else |t| >= 3
    ensures forall k :: 0 <= k < 3 && k < |s| ==> s[k] == t[k]
  {
    hide Sextet;
    var g, h := Group(s), Group(t);
    var a, b, c := At(s, 0), At(s, 1), At(s, 2);
    var x, y, z := At(t, 0), At(t, 1), At(t, 2);
    SextetsFit(a, b, c);
    SextetsFit(x, y, z);
    assert g[0] == h[0] && g[1] == h[1] && g[2] == h[2] && g[3] == h[3];
    SextetInjective(First(a), First(x));
    SextetInjective(Second(a, b), Second(x, y));
    SextetInjective(Third(b, c), Third(y, z));
    SextetInjective(Fourth(c), Fourth(z));
    SextetsTell(a, b, c, x, y, z);
  }

  lemma {:induction false} Base64Injective(s: Bytes, t: Bytes)
    ensures Base64(s) == Base64(t) <==> s == t
    decreases |s|
  {
    if s != [] && t != [] && Base64(s) == Base64(t) {
      assert Base64(s)[..4] == Group(s) && Base64(t)[..4] == Group(t);
      GroupTells(s, t);
      var u, v := if |s| > 3 then s[3..] else [], if |t| > 3 then t[3..] else [];
      assert Base64(s)[4..] == Base64(u) && Base64(t)[4..] == Base64(v);
      Base64Injective(u, v);
      assert s == s[..if |s| > 3 then 3 else |s|] + u && t == t[..if |t| > 3 then 3 else |t|] + v;
    }
  }

  // ---------------------------------------------------------------- the IDs

  function BlockId(i: nat): string {
    Base64(Padded(i))
  }

  /** As the service is sent them. */
  lemma FirstBlockIds()
    ensures BlockId(0) == "MDAwMDA=" && BlockId(1) == "MDAwMDE="
  {
    BlockIdOfDigit(0);
    BlockIdOfDigit(1);
  }

  lemma BlockIdOfDigit(d: nat)
    requires d < 10
    ensures BlockId(d) == "MDAwMD" + [Sextet(d % 16 * 4)] + "=" || d >= 10
  {
    var s: Bytes := [48, 48, 48, 48, (48 + d) as Byte];
    assert Padded(d) == s;
    var t: Bytes := [48, (48 + d) as Byte];
    assert s[3..] == t;
    assert Base64(s) == Group(s) + (Group(t) + Base64([]));
  }

  lemma BlockIdsDiffer(i: nat, j: nat)
    ensures BlockId(i) == BlockId(j) <==> i == j
  {
    PaddedInjective(i, j);
    Base64Injective(Padded(i), Padded(j));
  }

  /** They have one length for the first million blocks: padding makes up for the sixth digit. */
  lemma BlockIdsAreEven(i: nat)
    requires i < 1000000
    ensures |BlockId(i)| == 8
  {
    PaddedLength(i);
    var s := Padded(i);
    assert Base64(s[3..]) == Group(s[3..]) + Base64([]);
  }
}
