/** The pieces of std::string and the C library that the servers rely on:
    find and rfind, the decimal text of an integer and atoi, and what appending
    a NUL-terminated buffer keeps of it. */
module Text {

  datatype Option<+T> = None | Some(value: T)

  // ---------------------------------------------------------------- searching

  predicate OccursAt(s: string, pat: string, k: nat) {
    k + |pat| <= |s| && s[k..k + |pat|] == pat
  }

  predicate Contains(s: string, pat: string) {
    exists k: nat | k <= |s| :: OccursAt(s, pat, k)
  }

  /** `k` is the first match at or after `start`. */
  predicate FirstAt(s: string, pat: string, start: nat, k: nat) {
    start <= k <= |s| && OccursAt(s, pat, k) && forall j :: start <= j < k ==> !OccursAt(s, pat, j)
  }

  /** std::string::find: the first match at or after `start`, or npos. */
  function Find(s: string, pat: string, start: nat := 0): (r: Option<nat>)
    ensures r.Some? ==> FirstAt(s, pat, start, r.value)
  {
    if k: nat :| k <= |s| && FirstAt(s, pat, start, k) then Some(k) else None
  }

  lemma {:induction false} FirstExists(s: string, pat: string, start: nat, k: nat)
    requires start <= k && OccursAt(s, pat, k)
    ensures exists j: nat :: j <= k && FirstAt(s, pat, start, j)
    decreases k
  {
    if j :| start <= j < k && OccursAt(s, pat, j) {
      FirstExists(s, pat, start, j);
    } else {
      assert FirstAt(s, pat, start, k);
    }
  }

  /** No match is overlooked. */
  lemma FindNone(s: string, pat: string, start: nat)
    ensures Find(s, pat, start).None? <==> forall k: nat :: start <= k ==> !OccursAt(s, pat, k)
  {
    if k: nat :| start <= k && OccursAt(s, pat, k) {
      FirstExists(s, pat, start, k);
    }
  }

  /** The position `find` reports is the only first match. */
  lemma FindIs(s: string, pat: string, start: nat, p: nat)
    requires FirstAt(s, pat, start, p)
    ensures Find(s, pat, start) == Some(p)
  {
  }

  /** std::string::rfind of one character. */
  function RFind(s: string, c: char): (r: Option<nat>)
    ensures r.None? <==> c !in s
    ensures r.Some? ==> r.value < |s| && s[r.value] == c && c !in s[r.value + 1..]
  {
    if s == "" then None
    else if s[|s| - 1] == c then Some(|s| - 1)
    else
      assert s == s[..|s| - 1] + [s[|s| - 1]];
      RFind(s[..|s| - 1], c)
  }

  /** The position `rfind` reports is the only one with no later match. */
  lemma {:induction false} RFindIs(s: string, c: char, p: nat)
    requires p < |s| && s[p] == c && c !in s[p + 1..]
    ensures RFind(s, c) == Some(p)
  {
  }

  // ------------------------------------------------------------------ numbers

  predicate IsDigit(c: char) { '0' <= c <= '9' }

  predicate IsSpace(c: char) { c in {' ', '\t', '\n', '\r', '\U{0B}', '\U{0C}'} }

  function DigitChar(d: nat): (c: char)
    requires d < 10
    ensures IsDigit(c) && DigitValue(c) == d
  {
    (d + '0' as int) as char
  }

  function DigitValue(c: char): (d: nat)
    requires IsDigit(c)
    ensures d < 10
  {
    c as int - '0' as int
  }

  function Digits(n: nat): (s: string)
    ensures s != "" && forall c :: c in s ==> IsDigit(c)
    ensures if n == 0 then s == "0" else s[0] != '0'
  {
    if n < 10 then [DigitChar(n)] else Digits(n / 10) + [DigitChar(n % 10)]
  }

  /** std::to_string */
  function ToString(n: int): (s: string)
    ensures s != "" && forall c :: c in s ==> IsDigit(c) || c == '-'
  {
    if n < 0 then "-" + Digits(-n) else Digits(n)
  }

  function LeadingNumber(s: string, acc: nat): nat {
    if s == "" || !IsDigit(s[0]) then acc
    else LeadingNumber(s[1..], 10 * acc + DigitValue(s[0]))
  }

  /** atoi: blanks, an optional sign, digits up to the first other character.
      The value is not cut to 32 bits: beyond them C leaves atoi undefined. */
  function Atoi(s: string): int {
    if s == "" then 0
    else if IsSpace(s[0]) then Atoi(s[1..])
    else if s[0] == '-' then 0 - LeadingNumber(s[1..], 0)
    else if s[0] == '+' then LeadingNumber(s[1..], 0)
    else LeadingNumber(s, 0)
  }

  lemma {:induction false} DigitsRead(n: nat, rest: string)
    ensures LeadingNumber(Digits(n) + rest, 0) == LeadingNumber(rest, n)
  {
    if n < 10 {
      assert (Digits(n) + rest)[1..] == rest;
    } else {
      var last := [DigitChar(n % 10)];
      assert Digits(n) + rest == Digits(n / 10) + (last + rest);
      DigitsRead(n / 10, last + rest);
      assert (last + rest)[1..] == rest;
    }
  }

  lemma AtoiNumber(n: nat, rest: string)
    requires rest == "" || !IsDigit(rest[0])
    ensures LeadingNumber(Digits(n) + rest, 0) == n
    ensures IsDigit((Digits(n) + rest)[0])
  {
    DigitsRead(n, rest);
    assert (Digits(n) + rest)[0] == Digits(n)[0];
  }

  predicate NoDigit(rest: string) { rest == "" || !IsDigit(rest[0]) }

  lemma {:induction false} AtoiBlanks(blanks: string, t: string)
    requires forall c :: c in blanks ==> IsSpace(c)
    ensures Atoi(blanks + t) == Atoi(t)
  {
    if blanks == "" {
      assert blanks + t == t;
    } else {
      assert (blanks + t)[1..] == blanks[1..] + t;
      AtoiBlanks(blanks[1..], t);
    }
  }

  /** atoi skips blanks, takes one sign and reads the digits up to the first other character. */
  lemma AtoiReads(blanks: string, sign: string, n: nat, rest: string)
    requires (forall c :: c in blanks ==> IsSpace(c)) && sign in {"", "+", "-"} && NoDigit(rest)
    ensures Atoi(blanks + (sign + (Digits(n) + rest))) == if sign == "-" then 0 - n else n
  {
    var digits := Digits(n) + rest;
    AtoiBlanks(blanks, sign + digits);
    AtoiNumber(n, rest);
    if sign == "" {
      assert sign + digits == digits;
    } else {
      assert (sign + digits)[1..] == digits;
    }
  }

  /** Without digits there it gives 0. */
  lemma AtoiNothing(blanks: string, sign: string, rest: string)
    requires (forall c :: c in blanks ==> IsSpace(c)) && sign in {"", "+", "-"} && NoDigit(rest)
    requires sign == "" && rest != "" ==> !IsSpace(rest[0]) && rest[0] != '+' && rest[0] != '-'
    ensures Atoi(blanks + (sign + rest)) == 0
  {
    AtoiBlanks(blanks, sign + rest);
    if sign == "" {
      assert sign + rest == rest;
    } else {
      assert (sign + rest)[1..] == rest;
    }
  }

  /** atoi undoes to_string, whatever non-digit text follows. */
  lemma AtoiToString(n: int, rest: string)
    requires NoDigit(rest)
    ensures Atoi(ToString(n) + rest) == n
  {
    hide Atoi, Digits;
    var sign, digits := if n < 0 then "-" else "", Digits(if n < 0 then -n else n);
    assert ToString(n) + rest == "" + (sign + (digits + rest));
    AtoiReads("", sign, if n < 0 then -n else n, rest);
  }

  // ------------------------------------------------------- 32- and 64-bit words

  predicate FitsInt(n: int) { -0x8000_0000 <= n < 0x8000_0000 }

  /** Conversion to a 64-bit size_t. */
  function ToSize(n: int): (r: nat)
    ensures r < 0x1_0000_0000_0000_0000
    ensures (r - n) % 0x1_0000_0000_0000_0000 == 0
    ensures 0 <= n < 0x1_0000_0000_0000_0000 ==> r == n
  {
    n % 0x1_0000_0000_0000_0000
  }

  /** Conversion to a 32-bit two's complement int. */
  function ToInt(n: int): (r: int)
    ensures FitsInt(r) && (r - n) % 0x1_0000_0000 == 0
    ensures FitsInt(n) ==> r == n
  {
    var low := n % 0x1_0000_0000;
    if low < 0x8000_0000 then low else low - 0x1_0000_0000
  }

  // -------------------------------------------------- chunks read as C strings

  const NUL := '\0'

  /** What `text += buffer` appends when `buffer` is a char array: the bytes before the first NUL. */
  function CStr(bytes: string): (r: string)
    ensures r <= bytes && NUL !in r
    ensures r == bytes <==> NUL !in bytes
    ensures r != bytes ==> bytes[|r|] == NUL
  {
    if bytes == "" || bytes[0] == NUL then "" else [bytes[0]] + CStr(bytes[1..])
  }

  function Concat(chunks: seq<string>): string {
    if chunks == [] then "" else chunks[0] + Concat(chunks[1..])
  }

  function CStrings(chunks: seq<string>): (r: seq<string>)
    ensures |r| == |chunks|
  {
    seq(|chunks|, i requires 0 <= i < |chunks| => CStr(chunks[i]))
  }

  /** Reading chunks through C strings loses nothing exactly when no NUL was sent. */
  lemma {:induction false} ChunksSurvive(chunks: seq<string>)
    ensures |Concat(CStrings(chunks))| <= |Concat(chunks)|
    ensures Concat(CStrings(chunks)) == Concat(chunks) <==> NUL !in Concat(chunks)
  {
    if chunks != [] {
      assert CStrings(chunks)[1..] == CStrings(chunks[1..]);
      ChunksSurvive(chunks[1..]);
      var kept, rest := CStr(chunks[0]), Concat(CStrings(chunks[1..]));
      if kept == chunks[0] {
        if kept + rest == chunks[0] + Concat(chunks[1..]) {
          assert rest == (chunks[0] + Concat(chunks[1..]))[|kept|..] == Concat(chunks[1..]);
        }
      } else {
        assert NUL in chunks[0];
        assert |kept| < |chunks[0]|;
      }
    }
  }
}
