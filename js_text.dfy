/** The pieces of JavaScript's string semantics the handlers rely on: the `\s` class,
    `String.prototype.trim`, ASCII upper-casing, `slice(-n)` and `parseInt` with no radix
    (ECMA-262, sections 12.2, 12.3, 22.1.3.32 and 19.2.5). */
module JsText {
  import opened Wrappers

  /** JavaScript white space and line terminators: the `\s` regular-expression class and
      what `trim` removes. */
  predicate IsSpace(c: char) {
    c == '\t' || c == '\n' || c == '\U{B}' || c == '\U{C}' || c == '\r' || c == ' '
    || c == '\U{A0}' || c == '\U{1680}' || ('\U{2000}' <= c <= '\U{200A}')
    || c == '\U{2028}' || c == '\U{2029}' || c == '\U{202F}' || c == '\U{205F}'
    || c == '\U{3000}' || c == '\U{FEFF}'
  }

  predicate IsDigit(c: char) {
    '0' <= c <= '9'
  }

  predicate NoSpace(s: string) {
    forall k :: 0 <= k < |s| ==> !IsSpace(s[k])
  }

  /** Removes leading white space: the result is the longest suffix of `s` that does not start
      with white space. */
  function TrimStart(s: string): (r: string)
    ensures |r| <= |s| && r == s[|s| - |r|..]
    ensures forall i :: 0 <= i < |s| - |r| ==> IsSpace(s[i])
    ensures r != [] ==> !IsSpace(r[0])
  {
    if s != [] && IsSpace(s[0]) then TrimStart(s[1..]) else s
  }

  /** Removes trailing white space. */
  function TrimEnd(s: string): (r: string)
    ensures |r| <= |s| && r == s[..|r|]
    ensures forall i :: |r| <= i < |s| ==> IsSpace(s[i])
    ensures r != [] ==> !IsSpace(r[|r| - 1])
  {
    if s != [] && IsSpace(s[|s| - 1]) then TrimEnd(s[..|s| - 1]) else s
  }

  /** `String.prototype.trim`. */
  function Trim(s: string): string {
    TrimEnd(TrimStart(s))
  }

  predicate AllSpace(s: string) {
    forall k :: 0 <= k < |s| ==> IsSpace(s[k])
  }

  /** No white space at either end. */
  predicate Trimmed(t: string) {
    t == [] || (!IsSpace(t[0]) && !IsSpace(t[|t| - 1]))
  }

  /** `t` is what is left of `s` once the white space at both ends, and nothing else, is
      removed. */
  ghost predicate TrimOf(t: string, s: string) {
    Trimmed(t) && exists i :: 0 <= i <= |s| && TrimAt(t, s, i)
  }

  /** `t` sits at position `i` of `s`, with only white space around it. */
  predicate TrimAt(t: string, s: string, i: int) {
    0 <= i <= |s| - |t| && s[i..i + |t|] == t && AllSpace(s[..i]) && AllSpace(s[i + |t|..])
  }

  /** Leading white space up to a non-space character (or the end) is what `TrimStart` skips. */
  lemma {:induction false} TrimStartAt(s: string, i: nat)
    requires i <= |s| && AllSpace(s[..i]) && (i < |s| ==> !IsSpace(s[i]))
    ensures TrimStart(s) == s[i..]
    decreases i
  {
    if i > 0 {
      var head := s[..i];
      assert IsSpace(head[0]);
      var s' := s[1..];
      var rest := s'[..i - 1];
      assert AllSpace(rest) by {
        forall k | 0 <= k < |rest| ensures IsSpace(rest[k]) {
          assert rest[k] == head[k + 1];
        }
      }
      assert i - 1 < |s'| ==> s'[i - 1] == s[i];
      TrimStartAt(s', i - 1);
      assert s'[i - 1..] == s[i..];
    }
  }

  /** Trailing white space after a non-space character (or from the start) is what `TrimEnd`
      drops. */
  lemma {:induction false} TrimEndAt(s: string, j: nat)
    requires j <= |s| && AllSpace(s[j..]) && (j > 0 ==> !IsSpace(s[j - 1]))
    ensures TrimEnd(s) == s[..j]
    decreases |s| - j
  {
    if j < |s| {
      var tail := s[j..];
      assert IsSpace(tail[|s| - 1 - j]);
      var s' := s[..|s| - 1];
      var rest := s'[j..];
      assert AllSpace(rest) by {
        forall k | 0 <= k < |rest| ensures IsSpace(rest[k]) {
          assert rest[k] == tail[k];
        }
      }
      assert j > 0 ==> s'[j - 1] == s[j - 1];
      TrimEndAt(s', j);
      assert s'[..j] == s[..j];
    }
  }

  /** What `TrimStart` skips is white space. */
  lemma TrimStartSkipsSpace(s: string)
    ensures AllSpace(s[..|s| - |TrimStart(s)|])
  {
    var head := s[..|s| - |TrimStart(s)|];
    forall k | 0 <= k < |head| ensures IsSpace(head[k]) {
      assert head[k] == s[k];
    }
  }

  /** What `TrimEnd` drops is white space. */
  lemma TrimEndDropsSpace(u: string)
    ensures AllSpace(u[|TrimEnd(u)|..])
  {
    var tail := u[|TrimEnd(u)|..];
    forall k | 0 <= k < |tail| ensures IsSpace(tail[k]) {
      assert tail[k] == u[|TrimEnd(u)| + k];
    }
  }

  /** `trim` removes white space at both ends and nothing else. */
  lemma TrimIsTrimOf(s: string)
    ensures TrimOf(Trim(s), s)
  {
    var u := TrimStart(s);
    var r := TrimEnd(u);
    var i := |s| - |u|;
    TrimStartSkipsSpace(s);
    TrimEndDropsSpace(u);
    assert s[i..i + |r|] == r && s[i + |r|..] == u[|r|..];
    if r != [] {
      assert r[0] == u[0];
    }
    assert TrimAt(r, s, i);
  }

  /** Only white space on both sides of position `j` makes the whole string white space,
      which `trim` removes entirely. */
  lemma TrimAllSpace(s: string, j: int)
    requires 0 <= j <= |s| && AllSpace(s[..j]) && AllSpace(s[j..])
    ensures Trim(s) == []
  {
    var head := s[..j];
    var tail := s[j..];
    var all := s[..|s|];
    assert AllSpace(all) by {
      forall k | 0 <= k < |all| ensures IsSpace(all[k]) {
        if k < j {
          assert all[k] == head[k];
        } else {
          assert all[k] == tail[k - j];
        }
      }
    }
    TrimStartAt(s, |s|);
  }

  /** `TrimStart` stops where `t` begins. */
  lemma TrimAroundStart(t: string, s: string, j: int)
    requires t != [] && !IsSpace(t[0]) && TrimAt(t, s, j)
    ensures TrimStart(s) == s[j..]
  {
    assert s[j] == t[0];
    TrimStartAt(s, j);
  }

  /** `TrimEnd` stops where `t` ends. */
  lemma TrimAroundEnd(t: string, v: string)
    requires t != [] && !IsSpace(t[|t| - 1]) && |t| <= |v| && v[..|t|] == t && AllSpace(v[|t|..])
    ensures TrimEnd(v) == t
  {
    assert v[|t| - 1] == t[|t| - 1];
    TrimEndAt(v, |t|);
  }

  /** A trimmed non-empty string with only white space around it is what `trim` leaves. */
  lemma TrimAround(t: string, s: string, j: int)
    requires t != [] && Trimmed(t) && TrimAt(t, s, j)
    ensures t == Trim(s)
  {
    TrimAroundStart(t, s, j);
    var v := s[j..];
    assert v[..|t|] == s[j..j + |t|] && v[|t|..] == s[j + |t|..];
    TrimAroundEnd(t, v);
  }

  /** Only one string is `s` with the white space at its ends removed. */
  lemma TrimOfUnique(t: string, s: string)
    requires TrimOf(t, s)
    ensures t == Trim(s)
  {
    var j :| 0 <= j <= |s| && TrimAt(t, s, j);
    if t == [] {
      assert s[j + |t|..] == s[j..];
      TrimAllSpace(s, j);
    } else {
      TrimAround(t, s, j);
    }
  }

  /** `trim` removes exactly the white space at both ends: its result is the one string that
      `TrimOf` describes. */
  lemma TrimCharacterized(s: string, t: string)
    ensures TrimOf(t, s) <==> t == Trim(s)
  {
    TrimIsTrimOf(s);
    if TrimOf(t, s) {
      TrimOfUnique(t, s);
    }
  }

  /** A string without white space is its own trim, and trimming twice is trimming once. */
  lemma TrimProperties(s: string)
    ensures NoSpace(s) ==> Trim(s) == s
    ensures Trim(Trim(s)) == Trim(s)
  {
    var t := TrimStart(s);
    var r := Trim(s);
    if r != [] {
      assert r[0] == t[0];
    }
  }

  function UpperChar(c: char): char {
    if 'a' <= c <= 'z' then (c as int - 32) as char else c
  }

  /** `toUpperCase` on the ASCII letters; every other character is kept. */
  function ToUpper(s: string): (r: string)
    ensures |r| == |s|
  {
    seq(|s|, i requires 0 <= i < |s| => UpperChar(s[i]))
  }

  /** `s.slice(-n)` for n > 0: the last n characters, or all of `s` when it is shorter. */
  function Last(s: string, n: nat): (r: string)
    ensures |r| == if |s| < n then |s| else n
    ensures r == s[|s| - |r|..]
  {
    if |s| < n then s else s[|s| - n..]
  }

  predicate IsRadixDigit(c: char, radix: nat) {
    if radix == 16 then IsDigit(c) || 'a' <= c <= 'f' || 'A' <= c <= 'F'
    else if radix == 8 then '0' <= c <= '7'
    else if radix == 2 then c == '0' || c == '1'
    else IsDigit(c)
  }

  function DigitValue(c: char): nat {
    if IsDigit(c) then c as int - '0' as int
    else if 'a' <= c <= 'f' then c as int - 'a' as int + 10
    else if 'A' <= c <= 'F' then c as int - 'A' as int + 10
    else 0
  }

  /** The length of the longest prefix of `s` made of digits of the radix. */
  function LeadingDigits(s: string, radix: nat): (n: nat)
    ensures n <= |s|
    ensures forall i :: 0 <= i < n ==> IsRadixDigit(s[i], radix)
    ensures n < |s| ==> !IsRadixDigit(s[n], radix)
  {
    if s != [] && IsRadixDigit(s[0], radix) then 1 + LeadingDigits(s[1..], radix) else 0
  }

  /** The value of a numeral, most significant digit first. */
  function DigitsValue(ds: string, radix: nat): nat {
    if ds == [] then 0 else DigitsValue(ds[..|ds| - 1], radix) * radix + DigitValue(ds[|ds| - 1])
  }

  /** `parseInt(s)` with no radix: skip leading white space, read an optional sign, read a
      `0x`/`0X` prefix as radix 16 and otherwise use radix 10, then take the longest run of
      digits; `None` stands for NaN (no digit at all). */
  function ParseInt(s: string): Option<int> {
    var t := TrimStart(s);
    var negative := |t| > 0 && t[0] == '-';
    var u := if |t| > 0 && (t[0] == '-' || t[0] == '+') then t[1..] else t;
    var hex := |u| >= 2 && u[0] == '0' && (u[1] == 'x' || u[1] == 'X');
    var radix := if hex then 16 else 10;
    var v := if hex then u[2..] else u;
    var n := LeadingDigits(v, radix);
    var value: int := DigitsValue(v[..n], radix);
    if n == 0 then None else if negative then Some(-value) else Some(value)
  }

  predicate AllDigits(s: string) {
    forall k :: 0 <= k < |s| ==> IsDigit(s[k])
  }

  predicate AllRadixDigits(s: string, radix: nat) {
    forall k :: 0 <= k < |s| ==> IsRadixDigit(s[k], radix)
  }

  /** The radix a `0x`, `0o` or `0b` prefix selects, by its letter; 0 for any other character. */
  function PrefixRadix(c: char): nat {
    if c == 'x' || c == 'X' then 16 else if c == 'o' || c == 'O' then 8 else if c == 'b' || c == 'B' then 2 else 0
  }

  /** A magnitude with a sign. */
  function Signed(negative: bool, n: nat): int {
    var m: int := n;
    if negative then -m else m
  }

  /** `Number(s)` on a string, for the strings it reads as an integer written without a
      fraction or an exponent. White space at both ends is ignored; white space alone is 0;
      a decimal numeral may carry a sign; an unsigned `0x`, `0o` or `0b` numeral is read in
      radix 16, 8 or 2. `None` is NaN; it also stands for the fraction, exponent and
      `Infinity` forms, which this reading leaves out. */
  function NumberOf(s: string): Option<int> {
    NumberOfTrimmed(Trim(s))
  }

  /** `Number` once the white space at the ends is gone. */
  function NumberOfTrimmed(t: string): Option<int> {
    if t == [] then Some(0)
    else if |t| >= 2 && t[0] == '0' && PrefixRadix(t[1]) != 0 then
      var ds := t[2..];
      if ds != [] && AllRadixDigits(ds, PrefixRadix(t[1])) then Some(DigitsValue(ds, PrefixRadix(t[1]))) else None
    else
      var ds := if t[0] == '-' || t[0] == '+' then t[1..] else t;
      if ds == [] || !AllDigits(ds) then None else Some(Signed(t[0] == '-', DigitsValue(ds, 10)))
  }

  /** A trimmed string with white space around it trims to itself. */
  lemma TrimSurrounded(before: string, t: string, after: string)
    requires AllSpace(before) && AllSpace(after) && Trimmed(t)
    ensures Trim(before + t + after) == t
  {
    var s := before + t + after;
    assert s[..|before|] == before && s[|before|..|before| + |t|] == t && s[|before| + |t|..] == after;
    assert TrimAt(t, s, |before|);
    TrimOfUnique(t, s);
  }

  /** White space alone reads as 0. */
  lemma NumberOfBlank(s: string)
    requires AllSpace(s)
    ensures NumberOf(s) == Some(0)
  {
    assert s[..|s|] == s && s[|s|..] == [];
    TrimAllSpace(s, |s|);
  }

  /** A signed decimal numeral has no white space at its ends. */
  lemma SignedNumeralTrimmed(sign: string, ds: string)
    requires sign == "" || sign == "+" || sign == "-"
    requires ds != [] && AllDigits(ds)
    ensures Trimmed(sign + ds)
  {
    var t := sign + ds;
    assert t[|t| - 1] == ds[|ds| - 1];
    assert t[0] == if sign == "" then ds[0] else sign[0];
  }

  /** Without white space around it, a signed decimal numeral reads as its value. */
  lemma SignedNumeralValue(sign: string, ds: string)
    requires sign == "" || sign == "+" || sign == "-"
    requires ds != [] && AllDigits(ds)
    ensures NumberOfTrimmed(sign + ds) == Some(Signed(sign == "-", DigitsValue(ds, 10)))
  {
    var t := sign + ds;
    if sign == "" {
      assert t == ds;
      assert |t| >= 2 ==> IsDigit(t[1]);
    } else {
      assert t[0] == sign[0] && t[1..] == ds;
    }
  }

  /** A decimal numeral, with or without a sign and with white space around it, reads as its
      value. */
  lemma NumberOfDecimal(before: string, sign: string, ds: string, after: string)
    requires AllSpace(before) && AllSpace(after)
    requires sign == "" || sign == "+" || sign == "-"
    requires ds != [] && AllDigits(ds)
    ensures NumberOf(before + sign + ds + after) == Some(Signed(sign == "-", DigitsValue(ds, 10)))
  {
    assert before + sign + ds + after == before + (sign + ds) + after;
    SignedNumeralTrimmed(sign, ds);
    TrimSurrounded(before, sign + ds, after);
    SignedNumeralValue(sign, ds);
  }

  /** A numeral with a `0x`, `0o` or `0b` prefix, with white space around it, reads as its
      value in that radix. */
  lemma NumberOfPrefixed(before: string, letter: char, ds: string, after: string)
    requires AllSpace(before) && AllSpace(after) && PrefixRadix(letter) != 0
    requires ds != [] && AllRadixDigits(ds, PrefixRadix(letter))
    ensures NumberOf(before + ['0', letter] + ds + after) == Some(DigitsValue(ds, PrefixRadix(letter)))
  {
    var t := ['0', letter] + ds;
    assert before + ['0', letter] + ds + after == before + t + after;
    assert t[|t| - 1] == ds[|ds| - 1];
    assert IsRadixDigit(ds[|ds| - 1], PrefixRadix(letter));
    TrimSurrounded(before, t, after);
    assert t[2..] == ds;
  }

  /** The digit run at the head of a numeral followed by a non-digit is the numeral. */
  lemma LeadingDecimal(ds: string, rest: string)
    requires AllDigits(ds)
    requires rest == [] || !IsDigit(rest[0])
    ensures LeadingDigits(ds + rest, 10) == |ds|
  {
    var s := ds + rest;
    var n := LeadingDigits(s, 10);
    assert forall i :: 0 <= i < |ds| ==> IsRadixDigit(s[i], 10) by {
      forall i | 0 <= i < |ds| ensures IsRadixDigit(s[i], 10) {
        assert s[i] == ds[i];
      }
    }
    assert |s| > |ds| ==> !IsRadixDigit(s[|ds|], 10) by {
      if |s| > |ds| {
        assert s[|ds|] == rest[0];
      }
    }
  }

  /** Without leading white space, sign or hexadecimal prefix, `parseInt` reads the
      leading decimal digits. */
  lemma ParseIntPlain(s: string)
    requires s != [] && TrimStart(s) == s && s[0] != '-' && s[0] != '+'
    requires |s| >= 2 ==> s[1] != 'x' && s[1] != 'X'
    ensures ParseInt(s) == if LeadingDigits(s, 10) == 0 then None else Some(DigitsValue(s[..LeadingDigits(s, 10)], 10))
  {
  }

  /** A plain decimal numeral parses to its value; anything after the numeral is ignored. */
  lemma ParseIntDecimal(ds: string, rest: string)
    requires ds != [] && AllDigits(ds)
    requires rest == [] || (!IsDigit(rest[0]) && rest[0] != 'x' && rest[0] != 'X')
    ensures ParseInt(ds + rest) == Some(DigitsValue(ds, 10))
  {
    var s := ds + rest;
    assert s[0] == ds[0] && IsDigit(ds[0]);
    assert TrimStart(s) == s;
    assert |s| >= 2 ==> s[1] != 'x' && s[1] != 'X' by {
      if |s| >= 2 && |ds| == 1 {
        assert s[1] == rest[0];
      }
      if |s| >= 2 && |ds| > 1 {
        assert s[1] == ds[1];
      }
    }
    LeadingDecimal(ds, rest);
    assert s[..|ds|] == ds;
    ParseIntPlain(s);
  }
}

/** Document identifiers. */
module ObjectIds {
  import JsText

  /** An identifier as the handlers receive and store it: the hexadecimal form of a 12-byte
      object id. */
  type Id = string

  predicate IsLowerHex(c: char) {
    JsText.IsDigit(c) || 'a' <= c <= 'f'
  }

  /** The model's reading of the object-id validity test: 24 lower-case hexadecimal digits. */
  predicate ValidId(s: string) {
    |s| == 24 && forall k :: 0 <= k < |s| ==> IsLowerHex(s[k])
  }
}
