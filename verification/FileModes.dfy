/** File modes as octal strings: `strconv.FormatInt(…, 8)` out, `fileModeFrom` in. */
module FileModes {
  import opened Wrappers

  /** `os.FileMode` is an unsigned 32-bit number. */
  newtype FileMode = x: int | 0 <= x < 0x1_0000_0000

  const DEFAULT_MODE: FileMode := 484 // 0744

  const LIMIT := 0x8000_0000

  function Digit(d: nat): char
    requires d < 8
  {
    '0' + d as char
  }

  function Octal(n: nat): string {
    if n < 8 then [Digit(n)] else Octal(n / 8) + [Digit(n % 8)]
  }

  /** The value of a string of octal digits. */
  function Magnitude(s: string): Option<nat> {
    if s == "" then None
    else
      var last := s[|s| - 1];
      if !('0' <= last <= '7') then None
      else
        var digit := (last - '0') as nat;
        if |s| == 1 then Some(digit)
        else
          var rest := Magnitude(s[..|s| - 1]);
          if rest.None? then None else Some(8 * rest.value + digit)
  }

  /** `strconv.ParseInt(s, 8, 32)`: an optional sign, and a value that fits into 32 bits. */
  function ParseOctal(s: string): Option<int> {
    var negative := s != "" && s[0] == '-';
    var digits := if s != "" && (s[0] == '-' || s[0] == '+') then s[1..] else s;
    var n := Magnitude(digits);
    if n.None? then None
    else if negative then (if n.value <= LIMIT then Some(-(n.value as int)) else None)
    else if n.value < LIMIT then Some(n.value)
    else None
  }

  /** What does not parse is 0744; what is negative wraps around. */
  function FileModeFrom(s: string): FileMode {
    var mode := ParseOctal(s);
    if mode.None? then DEFAULT_MODE else (mode.value % 0x1_0000_0000) as FileMode
  }

  predicate Bit(mode: FileMode, weight: nat)
    requires weight > 0
  {
    (mode as nat / weight) % 2 == 1
  }

  /** None of the type bits: directory, symbolic link, device, named pipe, socket. */
  predicate IsRegular(mode: FileMode) {
    !(Bit(mode, 0x8000_0000) || Bit(mode, 0x800_0000) || Bit(mode, 0x400_0000) || Bit(mode, 0x200_0000)
      || Bit(mode, 0x100_0000))
  }

  /** Permissions alone are a regular file's; a directory, a symbolic link, a device, a named pipe and a
      socket are none, by bits 31, 27, 26, 25 and 24. */
  lemma SpecialsAreNotRegular(permissions: FileMode)
    requires permissions as nat < 0x100_0000
    ensures IsRegular(permissions)
    ensures !IsRegular(0x8000_0000 + permissions) && !IsRegular(0x800_0000 + permissions)
    ensures !IsRegular(0x400_0000 + permissions) && !IsRegular(0x200_0000 + permissions)
    ensures !IsRegular(0x100_0000 + permissions)
  {
  }

  /** Exactly the modes with none of these bits are regular. */
  lemma RegularIff(mode: FileMode)
    ensures IsRegular(mode) <==> mode as nat < 0x8000_0000 && (mode as nat / 0x100_0000) % 16 == 0
  {
    var top := mode as nat / 0x100_0000;
    Halves(mode as nat, top);
    FourBits(top);
  }

  lemma Halves(n: nat, top: nat)
    requires n < 0x1_0000_0000 && top == n / 0x100_0000
    ensures n / 0x200_0000 == top / 2 && n / 0x400_0000 == top / 4
    ensures n / 0x800_0000 == top / 8 && n / 0x8000_0000 == top / 128 && (top / 128 == 1 <==> n >= 0x8000_0000)
  {
  }

  lemma FourBits(top: nat)
    requires top < 256
    ensures top % 16 == 0 <==> top % 2 != 1 && top / 2 % 2 != 1 && top / 4 % 2 != 1 && top / 8 % 2 != 1
    ensures top / 128 % 2 == 1 <==> top / 128 == 1
  {
    var a, b, c, d := top / 2, top / 4, top / 8, top / 16;
    NextBit(top, a);
    NextBit(a, b);
    NextBit(b, c);
    NextBit(c, d);
  }

  lemma NextBit(n: nat, half: nat)
    requires half == n / 2
    ensures n == 2 * half + n % 2 && (n % 2 != 1 <==> n % 2 == 0)
  {
  }

  lemma {:induction false} MagnitudeOfOctal(n: nat)
    ensures Magnitude(Octal(n)) == Some(n)
    ensures forall k :: 0 <= k < |Octal(n)| ==> '0' <= Octal(n)[k] <= '7'
  {
    if n >= 8 {
      MagnitudeOfOctal(n / 8);
      var front, last := Octal(n / 8), Digit(n % 8);
      assert (front + [last])[..|front|] == front;
    }
  }

  predicate Octals(s: string) {
    s != "" && forall k :: 0 <= k < |s| ==> '0' <= s[k] <= '7'
  }

  lemma {:induction false} MagnitudeIff(s: string)
    ensures Magnitude(s).Some? <==> Octals(s)
  {
    if |s| > 1 {
      MagnitudeIff(s[..|s| - 1]);
    }
  }

  /** Three digits are three groups of permission bits. */
  lemma ThreeDigits(a: nat, b: nat, c: nat)
    requires a < 8 && b < 8 && c < 8
    ensures FileModeFrom(['0' + a as char, '0' + b as char, '0' + c as char]) as nat == a * 64 + b * 8 + c
  {
    var s := ['0' + a as char, '0' + b as char, '0' + c as char];
    assert s[..2][..1] == ['0' + a as char] && s[..2][1] == s[1];
    assert Magnitude(s[..2][..1]) == Some(a) && Magnitude(s[..2]) == Some(8 * a + b);
    assert Magnitude(s) == Some(8 * (8 * a + b) + c);
  }

  /** Zeros in front do not count. */
  lemma {:induction false} LeadingZero(s: string)
    requires Octals(s)
    ensures Magnitude("0" + s) == Magnitude(s)
  {
    MagnitudeIff(s);
    assert ("0" + s)[..|s|] == "0" + s[..|s| - 1];
    if |s| > 1 {
      LeadingZero(s[..|s| - 1]);
    } else {
      assert Magnitude("0") == Some(0);
    }
  }

  /** What is no octal number, with or without a sign, or does not fit into 32 bits with its sign, is 0744. */
  lemma OddModesAreDefault(s: string)
    ensures Magnitude(s).Some? <==> Octals(s)
    ensures !Octals(s) && (s == "" || s[0] !in {'-', '+'} || !Octals(s[1..])) ==>
              FileModeFrom(s) as nat == 7 * 64 + 4 * 8 + 4
    ensures Magnitude(s).Some? && Magnitude(s).value >= LIMIT ==> FileModeFrom(s) as nat == 7 * 64 + 4 * 8 + 4
    ensures Magnitude(s).Some? && Magnitude(s).value < LIMIT ==> FileModeFrom(s) as nat == Magnitude(s).value
  {
    hide Magnitude;
    MagnitudeIff(s);
    if s != "" {
      MagnitudeIff(s[1..]);
    }
  }

  lemma SignedModes(s: string)
    requires Magnitude(s).Some?
    ensures FileModeFrom("+" + s) == FileModeFrom(s)
    ensures Magnitude(s).value > LIMIT ==> FileModeFrom("-" + s) as nat == 7 * 64 + 4 * 8 + 4
  {
    hide Magnitude;
    MagnitudeIff(s);
    assert ("+" + s)[1..] == s && ("-" + s)[1..] == s;
  }

  /** A printed mode is read back as itself exactly when it is below 2^31. */
  lemma ModeRoundTrip(mode: FileMode)
    ensures FileModeFrom(Octal(mode as nat)) == mode <==> mode as nat < LIMIT
  {
    MagnitudeOfOctal(mode as nat);
    assert Octal(mode as nat)[0] != '-' && Octal(mode as nat)[0] != '+';
  }

  /** Regular files are below: the highest bit is the one for directories. */
  lemma RegularRoundTrip(mode: FileMode)
    requires IsRegular(mode)
    ensures FileModeFrom(Octal(mode as nat)) == mode
  {
    assert mode as nat < LIMIT;
    ModeRoundTrip(mode);
  }

  lemma Wrapped(n: nat)
    requires 0 < n <= LIMIT
    ensures (-(n as int)) % 0x1_0000_0000 == 0x1_0000_0000 - n
  {
  }

  /** A negative octal number becomes its two's complement. */
  lemma NegativeModeWraps(n: nat)
    requires 0 < n <= LIMIT
    ensures FileModeFrom("-" + Octal(n)) as nat == 0x1_0000_0000 - n
  {
    hide Octal, Magnitude;
    MagnitudeOfOctal(n);
    var s := "-" + Octal(n);
    assert s[1..] == Octal(n);
    assert ParseOctal(s) == Some(-(n as int));
    Wrapped(n);
  }
}
