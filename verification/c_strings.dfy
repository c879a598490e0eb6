/** The C library pieces the parameter code leans on: NUL-terminated strings, sprintf("%d") and
    strtol as section 7.22.1.4 of ISO/IEC 9899:2011 defines it. */
module CStrings {

  const NUL: char := '\0'

  datatype Option<T> = None | Some(value: T)

  /** Width of the platform's long. */
  datatype Abi = Ilp32 | Lp64

  function LongMax(abi: Abi): int {
    if abi.Ilp32? then 0x7fff_ffff else 0x7fff_ffff_ffff_ffff
  }

  predicate IsInt32(n: int) { -0x8000_0000 <= n <= 0x7fff_ffff }

  /** Conversion of a long to a 32-bit int. */
  function ToInt32(n: int): int {
    (n + 0x8000_0000) % 0x1_0000_0000 - 0x8000_0000
  }

  predicate Lacks(s: string, c: char) { forall i :: 0 <= i < |s| ==> s[i] != c }

  /** Index of the first c, or the length. */
  function IndexOf(s: string, c: char): (i: nat)
    ensures i <= |s| && (i < |s| ==> s[i] == c)
    ensures forall k :: 0 <= k < i ==> s[k] != c
  {
    if s == [] || s[0] == c then 0 else 1 + IndexOf(s[1..], c)
  }

  lemma IndexOfIs(s: string, c: char, i: nat)
    requires i <= |s| && (i < |s| ==> s[i] == c)
    requires forall k :: 0 <= k < i ==> s[k] != c
    ensures IndexOf(s, c) == i
  {
  }

  /** What a C function sees of a buffer: everything before the first NUL. */
  function CStr(s: string): (r: string)
    ensures Lacks(r, NUL)
  {
    s[..IndexOf(s, NUL)]
  }

  lemma CStrOfNulFree(s: string)
    requires Lacks(s, NUL)
    ensures CStr(s) == s
  {
    IndexOfIs(s, NUL, |s|);
  }

  /** A buffer ends at its first NUL. */
  lemma CStrCuts(s: string, rest: string)
    requires forall i :: 0 <= i < |s| ==> s[i] != '\0'
    ensures CStr(s) == s && CStr(s + ['\0'] + rest) == s
  {
    CStrOfNulFree(s);
    IndexOfIs(s + ['\0'] + rest, NUL, |s|);
  }

  /** A long becomes the int with the same low 32 bits. */
  lemma ToInt32Wraps(n: int)
    ensures -0x8000_0000 <= ToInt32(n) <= 0x7fff_ffff && (ToInt32(n) - n) % 0x1_0000_0000 == 0
    ensures -0x8000_0000 <= n <= 0x7fff_ffff ==> ToInt32(n) == n
  {
  }

  /** The character at a position, which is the terminator at the end. */
  function At(s: string, i: nat): char {
    if i < |s| then s[i] else NUL
  }

  // ---------- printing ----------

  function DigitChar(d: nat): char
    requires d < 10
  {
    '0' + d as char
  }

  function Digits(n: nat): (s: string)
    ensures |s| > 0
  {
    if n < 10 then [DigitChar(n)] else Digits(n / 10) + [DigitChar(n % 10)]
  }

  /** sprintf("%d") */
  function Print(n: int): string {
    if n < 0 then ['-'] + Digits(-n) else Digits(n)
  }

  // ---------- strtol ----------

  predicate IsSpace(c: char) {
    c == ' ' || ('\t' <= c <= '\r')
  }

  /** Value of a character as a digit; 99 when it is none in any base up to 16. */
  function DigitValue(c: char): nat {
    if '0' <= c <= '9' then (c - '0') as nat
    else if 'a' <= c <= 'f' then (c - 'a') as nat + 10
    else if 'A' <= c <= 'F' then (c - 'A') as nat + 10
    else 99
  }

  predicate AllDigits(s: string, base: nat) {
    forall i :: 0 <= i < |s| ==> DigitValue(s[i]) < base
  }

  function SpaceRun(s: string): (n: nat)
    ensures n <= |s|
    ensures forall i :: 0 <= i < n ==> IsSpace(s[i])
    ensures n < |s| ==> !IsSpace(s[n])
  {
    if s != [] && IsSpace(s[0]) then 1 + SpaceRun(s[1..]) else 0
  }

  function DigitRun(s: string, base: nat): (n: nat)
    ensures n <= |s| && (n < |s| ==> DigitValue(s[n]) >= base)
    ensures forall i :: 0 <= i < n ==> DigitValue(s[i]) < base
  {
    if s != [] && DigitValue(s[0]) < base then 1 + DigitRun(s[1..], base) else 0
  }

  function Magnitude(s: string, base: nat): nat
    requires AllDigits(s, base)
  {
    if s == [] then 0 else Magnitude(s[..|s| - 1], base) * base + DigitValue(s[|s| - 1])
  }

  function Clamp(n: int, abi: Abi): int {
    if n > LongMax(abi) then LongMax(abi) else if n < -LongMax(abi) - 1 then -LongMax(abi) - 1 else n
  }

  /** Converted value and number of characters consumed; nothing is consumed when there is no
      number. */
  datatype Parsed = Parsed(value: int, end: nat)

  /** The base strtol settles on for digits that start at s, and the length of the prefix that
      announces it. */
  function EffectiveBase(s: string, base: nat): (r: (nat, nat))
    ensures r.1 <= |s|
  {
    if base != 0 then (base, 0)
    else if |s| >= 3 && s[0] == '0' && (s[1] == 'x' || s[1] == 'X') && DigitValue(s[2]) < 16 then (16, 2)
    else if s != [] && s[0] == '0' then (8, 0)
    else (10, 0)
  }

  /** The unsigned number at the start of s, and its length; length 0 when there is none. */
  function Number(s: string, base: nat): (r: (nat, nat))
    ensures r.1 <= |s|
  {
    var (b, prefix) := EffectiveBase(s, base);
    var n := DigitRun(s[prefix..], b);
    if n == 0 then (0, 0) else (Magnitude(s[prefix..][..n], b), prefix + n)
  }

  /** Position after white space, and whether a sign stands there. */
  function SignAt(s: string): (r: (nat, nat))
    ensures r.0 + r.1 <= |s| && r.1 <= 1 && (r.1 == 1 ==> r.0 < |s|)
  {
    var sp := SpaceRun(s);
    (sp, if sp < |s| && (s[sp] == '-' || s[sp] == '+') then 1 else 0)
  }

  /** strtol for the bases used here, 0 and 10. */
  function Strtol(s: string, base: nat, abi: Abi): (r: Parsed)
    ensures r.end <= |s|
  {
    var (sp, sign) := SignAt(s);
    var (m, used) := Number(s[sp + sign..], base);
    if used == 0 then Parsed(0, 0)
    else Parsed(Clamp(if sign == 1 && s[sp] == '-' then 0 - m else m, abi), sp + sign + used)
  }

  // ---------- round trip ----------

  lemma {:induction false} DigitsAreDigits(n: nat)
    ensures AllDigits(Digits(n), 10) && Magnitude(Digits(n), 10) == n
    ensures n > 0 ==> Digits(n)[0] != '0'
    ensures n == 0 ==> Digits(n) == ['0']
  {
    if n >= 10 {
      DigitsAreDigits(n / 10);
      var s := Digits(n);
      assert s[..|s| - 1] == Digits(n / 10);
    } else {
      assert Digits(n)[..0] == [];
    }
  }

  lemma DigitRunIs(s: string, base: nat, n: nat)
    requires n <= |s| && (n < |s| ==> DigitValue(s[n]) >= base)
    requires forall i :: 0 <= i < n ==> DigitValue(s[i]) < base
    ensures DigitRun(s, base) == n
  {
  }

  lemma SpaceRunIs(s: string, n: nat)
    requires n <= |s| && (forall i :: 0 <= i < n ==> IsSpace(s[i])) && (n < |s| ==> !IsSpace(s[n]))
    ensures SpaceRun(s) == n
  {
  }

  lemma NumberOfDigits(n: nat, rest: string, base: nat)
    requires rest != [] ==> DigitValue(rest[0]) >= 10
    requires base == 10 || (base == 0 && rest == [])
    ensures Number(Digits(n) + rest, base) == (n, |Digits(n)|)
  {
    var ds := Digits(n);
    var s := ds + rest;
    DigitsAreDigits(n);
    assert s[0..] == s && s[..|ds|] == ds;
    if base == 0 && n == 0 {
      assert EffectiveBase(s, base) == (8, 0);
      DigitRunIs(s, 8, 1);
      assert s[0..][..1] == ['0'] && ['0'][..0] == [];
      assert Magnitude(['0'], 8) == 0;
    } else {
      assert DigitValue(ds[0]) < 10;
      assert EffectiveBase(s, base) == (10, 0);
      DigitRunIs(s, 10, |ds|);
    }
  }

  /** strtol, given where the sign and the number stand. */
  lemma StrtolIs(s: string, base: nat, abi: Abi, sp: nat, sign: nat, m: nat, used: nat)
    requires SignAt(s) == (sp, sign) && Number(s[sp + sign..], base) == (m, used)
    ensures Strtol(s, base, abi) ==
            if used == 0 then Parsed(0, 0)
            else Parsed(Clamp(if sign == 1 && s[sp] == '-' then 0 - m else m, abi), sp + sign + used)
  {
  }

  lemma SignOfPrint(n: int, rest: string)
    ensures SignAt(Print(n) + rest) == (0, if n < 0 then 1 else 0)
  {
    var m: nat := if n < 0 then -n else n;
    DigitsAreDigits(m);
    assert DigitValue(Digits(m)[0]) < 10;
    SpaceRunIs(Print(n) + rest, 0);
  }

  /** A number followed by anything that is not a digit reads back exactly, in base 10 and, when
      nothing follows, also with the base left to the prefix. */
  lemma PrintParses(n: int, rest: string, base: nat, abi: Abi)
    requires IsInt32(n) && (rest != [] ==> DigitValue(rest[0]) >= 10)
    requires base == 10 || (base == 0 && rest == [])
    ensures Strtol(Print(n) + rest, base, abi) == Parsed(n, |Print(n)|)
  {
    hide Number, SignAt, Strtol;
    var m: nat := if n < 0 then -n else n;
    var s := Print(n) + rest;
    var sign := if n < 0 then 1 else 0;
    SignOfPrint(n, rest);
    assert s[0 + sign..] == Digits(m) + rest;
    NumberOfDigits(m, rest, base);
    StrtolIs(s, base, abi, 0, sign, m, |Digits(m)|);
  }

  /** strtol in base 10, on any number of any size: blanks are passed over, then an optional sign, and
      the digits are read up to what is no digit; the value stays within the platform's long. */
  lemma StrtolReads(blanks: string, sign: string, n: nat, rest: string, abi: Abi)
    requires forall i :: 0 <= i < |blanks| ==> blanks[i] == ' ' || '\t' <= blanks[i] <= '\r'
    requires sign == "" || sign == "+" || sign == "-"
    requires rest != [] ==> !('0' <= rest[0] <= '9')
    ensures var max := if abi.Ilp32? then 0x7fff_ffff else 0x7fff_ffff_ffff_ffff;
            var value := if sign == "-" then 0 - n else n;
            Strtol(blanks + sign + Digits(n) + rest, 10, abi) ==
            Parsed(if value > max then max else if value < -max - 1 then -max - 1 else value,
                   |blanks| + |sign| + |Digits(n)|)
  {
    hide Number, SignAt, Strtol;
    var s := blanks + sign + Digits(n) + rest;
    SignIs(blanks, sign, Digits(n) + rest, n);
    assert s == blanks + sign + (Digits(n) + rest);
    assert s[|blanks| + |sign|..] == Digits(n) + rest;
    NumberOfDigits(n, rest, 10);
    StrtolIs(s, 10, abi, |blanks|, |sign|, n, |Digits(n)|);
  }

  lemma SignIs(blanks: string, sign: string, tail: string, n: nat)
    requires forall i :: 0 <= i < |blanks| ==> blanks[i] == ' ' || '\t' <= blanks[i] <= '\r'
    requires sign == "" || sign == "+" || sign == "-"
    requires |tail| >= |Digits(n)| && tail[..|Digits(n)|] == Digits(n)
    ensures SignAt(blanks + sign + tail) == (|blanks|, |sign|)
  {
    DigitsAreDigits(n);
    assert tail[0] == Digits(n)[0] && DigitValue(tail[0]) < 10;
    SpaceRunIs(blanks + sign + tail, |blanks|);
  }

  /** With no digit where the number should be, strtol reads 0 and consumes nothing. */
  lemma StrtolOfNoNumber(s: string, base: nat, abi: Abi)
    requires s == "" || (s[0] !in {' ', '+', '-'} && !('\t' <= s[0] <= '\r') && !('0' <= s[0] <= '9'))
    requires base == 10 || base == 0
    ensures Strtol(s, base, abi) == Parsed(0, 0)
  {
    hide DigitRun, SpaceRun, Magnitude, EffectiveBase, Strtol;
    SpaceRunIs(s, 0);
    assert s[0..] == s;
    TenByDefault(s, base);
    DigitRunIs(s, 10, 0);
    StrtolIs(s, base, abi, 0, 0, 0, 0);
  }

  lemma TenByDefault(s: string, base: nat)
    requires (s == "" || s[0] != '0') && (base == 10 || base == 0)
    ensures EffectiveBase(s, base) == (10, 0)
  {
  }

  /** With the base left to the prefix, "0x" before a digit announces base 16. */
  lemma StrtolReadsHex(abi: Abi)
    ensures Strtol("0x1F", 0, abi) == Parsed(31, 4)
  {
    hide DigitRun, SpaceRun, Strtol;
    var s := "0x1F";
    assert EffectiveBase(s, 0) == (16, 2);
    assert s[0..] == s && s[2..] == "1F" && s[2..][..2] == "1F" && "1F"[..1] == "1" && "1"[..0] == "";
    DigitRunIs(s[2..], 16, 2);
    SpaceRunIs(s, 0);
    StrtolIs(s, 0, abi, 0, 0, 31, 4);
  }

  /** Otherwise a leading '0' announces base 8. */
  lemma StrtolReadsOctal(abi: Abi)
    ensures Strtol("010", 0, abi) == Parsed(8, 3)
  {
    hide DigitRun, SpaceRun, Strtol;
    var s := "010";
    assert EffectiveBase(s, 0) == (8, 0);
    assert s[0..] == s && s[..3] == s && s[..2] == "01" && "01"[..1] == "0" && "0"[..0] == "";
    DigitRunIs(s, 8, 3);
    SpaceRunIs(s, 0);
    StrtolIs(s, 0, abi, 0, 0, 8, 3);
  }

  // ---------- strtol looks no further than the first comma ----------

  lemma NumberLocal(p: string, q: string)
    requires q != [] && q[0] == ','
    ensures Number(p + q, 10) == Number(p, 10)
  {
    var n := DigitRun(p, 10);
    assert p[0..] == p && (p + q)[0..] == p + q;
    DigitRunIs(p + q, 10, n);
    assert (p + q)[..n] == p[..n];
  }

  lemma SignLocal(p: string, q: string)
    requires q != [] && q[0] == ','
    ensures SignAt(p + q) == SignAt(p)
  {
    SpaceRunIs(p + q, SpaceRun(p));
  }

  lemma StrtolLocal(p: string, q: string, abi: Abi)
    requires q != [] && q[0] == ','
    ensures Strtol(p + q, 10, abi) == Strtol(p, 10, abi)
  {
    SignLocal(p, q);
    var (sp, sign) := SignAt(p);
    assert (p + q)[sp + sign..] == p[sp + sign..] + q;
    NumberLocal(p[sp + sign..], q);
    var (m, used) := Number(p[sp + sign..], 10);
    StrtolIs(p, 10, abi, sp, sign, m, used);
    StrtolIs(p + q, 10, abi, sp, sign, m, used);
  }
}
