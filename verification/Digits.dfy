/** itoa and atoi (lib.c): printing in place and reading back. */
module Digits {
  import opened Arith

  const INT_MAX := 0x7fff_ffff
  const INT_MIN := -0x8000_0000

  // The text of a number

  /** The character for a remainder, which may be negative. */
  function DigitChar(d: int): char
    requires -36 < d < 36
  {
    if d < 10 then ('0' as int + d) as char else ('A' as int + d - 10) as char
  }

  function WithSign(n: nat, neg: bool): int {
    var i: int := n;
    if neg then -i else i
  }

  /** The digits of `v`, or of `-v`, most significant first. */
  function DigitsOf(v: nat, base: nat, neg: bool): (s: string)
    requires 2 <= base <= 36
    ensures |s| >= 1
  {
    (if v < base then [] else DigitsOf(Quot(v, base), base, neg)) + [DigitChar(WithSign(Rem(v, base), neg))]
  }

  /** The digits of any number: a negative one has negative remainders. */
  function Signed(v: int, base: nat): string
    requires 2 <= base <= 36
  {
    if v < 0 then DigitsOf(-v, base, true) else DigitsOf(v, base, false)
  }

  /** `-v` in 32 bits: the smallest int stays as it is. */
  function Negated(v: int): int {
    if v == INT_MIN then v else -v
  }

  function Text(v: int, base: nat): string
    requires 2 <= base <= 36
  {
    if v < 0 && base == 10 then "-" + Signed(Negated(v), base) else Signed(v, base)
  }

  /** The number of a text: spaces, a sign, digits, and then anything. */
  predicate IsSpace(c: char) {
    c == ' ' || c == '\t' || c as int == 11 || c as int == 12 || c == '\r' || c == '\n'
  }

  predicate IsDigit(c: char) {
    '0' <= c <= '9'
  }

  function DropSpaces(s: string): string {
    if s != [] && IsSpace(s[0]) then DropSpaces(s[1..]) else s
  }

  /** What atoi makes of the digits from `s` on, after having read `num`. */
  function Read(s: string, num: nat): (r: int)
    ensures r >= 0
  {
    if s == [] || !IsDigit(s[0]) then num else Read(s[1..], num * 10 + (s[0] as int - '0' as int))
  }

  function Number(s: string): int {
    var t := DropSpaces(s);
    if t != [] && t[0] == '-' then -Read(t[1..], 0)
    else if t != [] && t[0] == '+' then Read(t[1..], 0)
    else Read(t, 0)
  }

  // Any base

  /** What a character stands for; those below '0' stand for negative numbers. */
  function DigitValue(c: char): int {
    if c <= '9' then c as int - '0' as int else c as int - 'A' as int + 10
  }

  function ValueIn(s: string, base: nat): int {
    if s == [] then 0 else ValueIn(s[..|s| - 1], base) * base + DigitValue(s[|s| - 1])
  }

  lemma ValueAppend(s: string, c: char, base: nat)
    ensures ValueIn(s + [c], base) == ValueIn(s, base) * base + DigitValue(c)
  {
    assert (s + [c])[..|s|] == s;
  }

  lemma SignStep(v: nat, q: nat, r: nat, base: nat, neg: bool)
    requires v == base * q + r
    ensures WithSign(q, neg) * base + WithSign(r, neg) == WithSign(v, neg)
  {
    var m: int := q;
    assert (-m) * base == -(base * m);
  }

  lemma {:induction false} DigitsRead(v: nat, base: nat, neg: bool)
    requires 2 <= base <= 36
    ensures ValueIn(DigitsOf(v, base, neg), base) == WithSign(v, neg)
  {
    var q, r := Quot(v, base), Rem(v, base);
    var head := if v < base then [] else DigitsOf(q, base, neg);
    QuotRem(v, base);
    ValueAppend(head, DigitChar(WithSign(r, neg)), base);
    if v >= base { DigitsRead(q, base, neg); }
    assert ValueIn(head, base) == WithSign(q, neg);
    SignStep(v, q, r, base, neg);
  }

  /** In every base the digits of a number have its value, also those that come from negative remainders. */
  lemma SignedReads(v: int, base: nat)
    requires 2 <= base <= 36
    ensures ValueIn(Signed(v, base), base) == v
  {
    DigitsRead(if v < 0 then -v else v, base, v < 0);
  }

  // Round trips

  predicate AllDigits(s: string) {
    forall i :: 0 <= i < |s| ==> IsDigit(s[i])
  }

  /** Reading one digit more. */
  lemma {:induction false} ReadAppend(s: string, c: char, num: nat)
    requires AllDigits(s) && IsDigit(c)
    ensures Read(s + [c], num) == Read(s, num) * 10 + (c as int - '0' as int)
  {
    if s == [] {
      assert [c][1..] == [];
    } else {
      assert (s + [c])[1..] == s[1..] + [c];
      ReadAppend(s[1..], c, num * 10 + (s[0] as int - '0' as int));
    }
  }

  // What atoi accepts

  lemma {:induction false} ReadIs(ds: string)
    requires AllDigits(ds)
    ensures Read(ds, 0) == ValueIn(ds, 10)
  {
    if ds != [] {
      var n := |ds| - 1;
      assert ds == ds[..n] + [ds[n]];
      ReadIs(ds[..n]);
      ReadAppend(ds[..n], ds[n], 0);
      ValueAppend(ds[..n], ds[n], 10);
    }
  }

  lemma {:induction false} ReadStops(ds: string, rest: string, num: nat)
    requires AllDigits(ds) && (rest == [] || !IsDigit(rest[0]))
    ensures Read(ds + rest, num) == Read(ds, num)
  {
    if ds == [] {
      assert ds + rest == rest;
    } else {
      assert (ds + rest)[0] == ds[0] && (ds + rest)[1..] == ds[1..] + rest;
      ReadStops(ds[1..], rest, num * 10 + (ds[0] as int - '0' as int));
    }
  }

  lemma {:induction false} SpacesDropped(sp: string, t: string)
    requires (forall i :: 0 <= i < |sp| ==> IsSpace(sp[i])) && (t == [] || !IsSpace(t[0]))
    ensures DropSpaces(sp + t) == t
  {
    if sp == [] {
      assert sp + t == t;
    } else {
      assert (sp + t)[0] == sp[0] && (sp + t)[1..] == sp[1..] + t;
      SpacesDropped(sp[1..], t);
    }
  }

  /** Spaces, a sign or none, digits, and then something that is no digit: atoi returns the
      number of the digits, with the sign. */
  lemma NumberReads(sp: string, sign: string, ds: string, rest: string)
    requires forall i :: 0 <= i < |sp| ==> IsSpace(sp[i])
    requires sign == "" || sign == "-" || sign == "+"
    requires AllDigits(ds) && (rest == [] || !IsDigit(rest[0]))
    requires sign + ds == "" && rest != "" ==> !IsSpace(rest[0]) && rest[0] != '-' && rest[0] != '+'
    ensures Number(sp + (sign + (ds + rest))) == if sign == "-" then -ValueIn(ds, 10) else ValueIn(ds, 10)
  {
    var t := sign + (ds + rest);
    SpacesDropped(sp, t);
    ReadStops(ds, rest, 0);
    ReadIs(ds);
    assert sign != "" ==> t[0] == sign[0] && t[1..] == ds + rest;
    assert sign == "" ==> t == ds + rest;
    assert ds != "" ==> (ds + rest)[0] == ds[0] && IsDigit(ds[0]);
    assert ds == "" ==> ds + rest == rest;
  }

  // Printing and reading back

  lemma {:induction false} ReadDigits(v: nat)
    ensures AllDigits(DigitsOf(v, 10, false)) && Read(DigitsOf(v, 10, false), 0) == v
  {
    var c := DigitChar(Rem(v, 10));
    QuotRem(v, 10);
    if v < 10 {
      assert DigitsOf(v, 10, false) == [c] && [c][1..] == [];
    } else {
      ReadDigits(Quot(v, 10));
      ReadAppend(DigitsOf(Quot(v, 10), 10, false), c, 0);
    }
  }

  /** Negative remainders give no digits: the first one ends the reading. */
  lemma {:induction false} NegativeDigits(v: nat)
    ensures forall i :: 0 <= i < |DigitsOf(v, 10, true)| ==> '\0' < DigitsOf(v, 10, true)[i] <= '0'
    ensures v > 0 ==> DigitsOf(v, 10, true)[0] < '0'
  {
    if v >= 10 {
      NegativeDigits(Quot(v, 10));
    }
  }

  /** atoi undoes itoa, for every number but the smallest int. */
  lemma NumberOfText(v: int)
    ensures Number(Text(v, 10)) == v <==> v != INT_MIN
  {
    if v == INT_MIN {
      NegativeDigits(-INT_MIN);
      assert Text(v, 10)[0] == '-' && Text(v, 10)[1..] == DigitsOf(-INT_MIN, 10, true);
    } else {
      var n: nat := if v < 0 then -v else v;
      var d := DigitsOf(n, 10, false);
      ReadDigits(n);
      assert IsDigit(d[0]);
      if v < 0 {
        assert Text(v, 10)[0] == '-' && Text(v, 10)[1..] == d;
      }
    }
  }

  /** Without a superfluous zero, sign or space, and with nothing behind the digits. */
  predicate PlainDigits(s: string) {
    s != [] && AllDigits(s) && (s[0] == '0' ==> |s| == 1)
  }

  predicate Canonical(s: string) {
    PlainDigits(s) || (s != [] && s[0] == '-' && PlainDigits(s[1..]) && s != "-0")
  }

  lemma {:induction false} QuotTen(q: nat, r: nat)
    requires r < 10
    ensures Quot(q * 10 + r, 10) == q && Rem(q * 10 + r, 10) == r
  {
    if q > 0 {
      QuotTen(q - 1, r);
    }
  }

  lemma DigitsOfAppend(v: nat, c: char)
    requires v > 0 && IsDigit(c)
    ensures DigitsOf(v * 10 + (c as int - '0' as int), 10, false) == DigitsOf(v, 10, false) + [c]
  {
    QuotTen(v, c as int - '0' as int);
  }

  lemma {:induction false} DigitsOfRead(s: string)
    requires PlainDigits(s)
    ensures DigitsOf(Read(s, 0), 10, false) == s && (Read(s, 0) == 0 <==> s == "0")
  {
    var n := |s| - 1;
    assert s == s[..n] + [s[n]];
    ReadAppend(s[..n], s[n], 0);
    if n == 0 {
    } else {
      DigitsOfRead(s[..n]);
      DigitsOfAppend(Read(s[..n], 0), s[n]);
    }
  }

  lemma {:induction false} DigitsPlain(v: nat)
    ensures PlainDigits(DigitsOf(v, 10, false)) && (DigitsOf(v, 10, false) == "0" <==> v == 0)
  {
    var s, c := DigitsOf(v, 10, false), DigitChar(Rem(v, 10));
    if v >= 10 {
      var t := DigitsOf(Quot(v, 10), 10, false);
      DigitsPlain(Quot(v, 10));
      assert s == t + [c] && s[0] == t[0] && |s| >= 2;
    } else {
      assert s == [c] && (c == '0' <==> v == 0);
    }
  }

  /** itoa undoes atoi on exactly the texts that itoa writes for other numbers than the
      smallest int. */
  lemma TextOfNumberIff(s: string)
    ensures Text(Number(s), 10) == s <==> Canonical(s) && Number(s) != INT_MIN
  {
    var v := Number(s);
    NumberOfText(v);
    if v != INT_MIN {
      DigitsPlain(if v < 0 then -v else v);
      assert v < 0 ==> Text(v, 10)[1..] == DigitsOf(-v, 10, false);
      if PlainDigits(s) {
        assert IsDigit(s[0]);
        DigitsOfRead(s);
      } else if Canonical(s) {
        DigitsOfRead(s[1..]);
        assert s == "-" + s[1..];
      }
    }
  }

  // The code

  /** The digits as the first loop of itoa leaves them. */
  function Backwards(v: nat, base: nat, neg: bool): (s: string)
    requires 2 <= base <= 36
    ensures |s| >= 1
  {
    [DigitChar(WithSign(Rem(v, base), neg))] + if v < base then [] else Backwards(Quot(v, base), base, neg)
  }

  function Reversed(s: string): string {
    seq(|s|, i requires 0 <= i < |s| => s[|s| - 1 - i])
  }

  lemma {:induction false} ReversedBackwards(v: nat, base: nat, neg: bool)
    requires 2 <= base <= 36
    ensures |Backwards(v, base, neg)| == |DigitsOf(v, base, neg)|
    ensures Reversed(Backwards(v, base, neg)) == DigitsOf(v, base, neg)
  {
    if v >= base {
      ReversedBackwards(Quot(v, base), base, neg);
      var b, c := Backwards(Quot(v, base), base, neg), DigitChar(WithSign(Rem(v, base), neg));
      assert Reversed([c] + b) == Reversed(b) + [c];
    }
  }

  /** The second loop of itoa, between two pointers. */
  method ReverseInPlace(str: array<char>, from: nat, to: nat)
    requires from < to <= str.Length
    modifies str
    ensures str[from..to] == Reversed(old(str[from..to]))
    ensures forall k :: 0 <= k < from || to <= k < str.Length ==> str[k] == old(str[k])
  {
    var p1, p2 := from, to - 1;
    while p1 < p2
      invariant from <= p1 <= p2 + 1 <= to && p1 + p2 == from + to - 1
      invariant forall k :: from <= k < p1 || p2 < k < to ==> str[k] == old(str[from + to - 1 - k])
      invariant forall k :: 0 <= k < from || p1 <= k <= p2 || to <= k < str.Length ==> str[k] == old(str[k])
    {
      var tmp := str[p1];
      str[p1] := str[p2];
      str[p2] := tmp;
      p1 := p1 + 1;
      p2 := p2 - 1;
    }
    Mirrored(old(str[..]), str[..], from, to);
  }

  lemma Mirrored(was: string, now: string, from: nat, to: nat)
    requires from < to <= |was| == |now| && forall k :: from <= k < to ==> now[k] == was[from + to - 1 - k]
    ensures now[from..to] == Reversed(was[from..to])
  {
  }

  lemma OneDigit(done: string, v: nat, base: nat, neg: bool)
    requires 2 <= base <= 36
    ensures var next := done + [DigitChar(WithSign(Rem(v, base), neg))];
      done + Backwards(v, base, neg) == if Quot(v, base) == 0 then next else next + Backwards(Quot(v, base), base, neg)
  {
  }

  /** The body of the first loop of itoa. */
  method PutDigit(v: int, str: array<char>, base: nat, p: nat, ghost m: nat, ghost neg: bool) returns (quotient: int)
    requires 2 <= base <= 36 && p < str.Length && v == WithSign(m, neg)
    modifies str
    ensures quotient == WithSign(Quot(m, base), neg)
    ensures str[..] == old(str[..])[p := DigitChar(WithSign(Rem(m, base), neg))]
  {
    var remainder;
    quotient, remainder := Divide(v, base);
    str[p] := if remainder < 10 then ('0' as int + remainder) as char else ('A' as int + remainder - 10) as char;
  }

  /** The first loop of itoa: digits from position `at` on. `n` is the number without its sign. */
  method PutDigits(value: int, str: array<char>, base: nat, at: nat, ghost n: nat) returns (p: nat)
    requires 2 <= base <= 36 && value == WithSign(n, value < 0)
    requires at + |Backwards(n, base, value < 0)| <= str.Length
    modifies str
    ensures p == at + |Backwards(n, base, value < 0)|
    ensures str[at..p] == Backwards(n, base, value < 0)
    ensures forall k :: 0 <= k < at || p <= k < str.Length ==> str[k] == old(str[k])
  {
    var v := value;
    p := at;
    ghost var all, done: string, m := Backwards(n, base, value < 0), [], n;
    while true
      invariant v == WithSign(m, value < 0)
      invariant p == at + |done|
      invariant done + Backwards(m, base, value < 0) == all
      invariant str[at..p] == done
      invariant forall k :: 0 <= k < at || p <= k < str.Length ==> str[k] == old(str[k])
      decreases m
    {
      OneDigit(done, m, base, value < 0);
      var quotient := PutDigit(v, str, base, p, m, value < 0);
      done := done + [str[p]];
      p := p + 1;
      if quotient == 0 {
        break;
      }
      v, m := quotient, Quot(m, base);
    }
  }

  /** Both loops of itoa, and the NUL. */
  method PutNumber(value: int, str: array<char>, base: nat, start: nat) returns (p: nat)
    requires 2 <= base <= 36 && start + |Signed(value, base)| < str.Length
    modifies str
    ensures p == start + |Signed(value, base)| && str[start..p] == Signed(value, base) && str[p] == '\0'
    ensures forall k :: 0 <= k < start || p < k < str.Length ==> str[k] == old(str[k])
  {
    ghost var n: nat := if value < 0 then -value else value;
    ReversedBackwards(n, base, value < 0);
    p := PutDigits(value, str, base, start, n);
    str[p] := '\0';
    assert str[start..p] == Backwards(n, base, value < 0);
    ReverseInPlace(str, start, p);
  }

  /** itoa: the text, its length, and a NUL behind it. */
  method Itoa(value: int, str: array<char>, base: nat) returns (len: nat)
    requires INT_MIN <= value <= INT_MAX && 2 <= base <= 36
    requires |Text(value, base)| < str.Length
    modifies str
    ensures len == |Text(value, base)|
    ensures str[..len] == Text(value, base) && str[len] == '\0'
    ensures forall k :: len < k < str.Length ==> str[k] == old(str[k])
  {
    var v: int, start := value, 0;
    ghost var prefix := if value < 0 && base == 10 then "-" else "";
    assert Text(value, base) == prefix + Signed(if prefix == "-" then Negated(value) else value, base);
    if value < 0 && base == 10 {
      v := if value == INT_MIN then value else -value;   // -value in 32 bits
      str[0] := '-';
      start := 1;
    }
    len := PutNumber(v, str, base, start);
    assert str[..len] == str[..start] + str[start..len];
    assert str[..start] == prefix;
  }

  /** The characters before the NUL. */
  function CString(s: string): string
    requires '\0' in s
  {
    if s[0] == '\0' then [] else [s[0]] + CString(s[1..])
  }

  /** The loop of atoi over the digits. */
  method ReadNumber(str: array<char>, from: nat) returns (num: int)
    requires from < str.Length && '\0' in str[from..]
    ensures num == Read(CString(str[from..]), 0)
  {
    num := 0;
    var i := from;
    while str[i] != '\0' && IsDigit(str[i])
      invariant i < str.Length && '\0' in str[i..] && num >= 0
      invariant Read(CString(str[i..]), num) == Read(CString(str[from..]), 0)
      decreases str.Length - i
    {
      num := num * 10 + (str[i] as int - '0' as int);
      i := i + 1;
    }
  }

  lemma {:induction false} CStringIs(t: string, rest: string)
    requires '\0' !in t
    ensures CString(t + ['\0'] + rest) == t
  {
    var s := t + ['\0'] + rest;
    if t != [] {
      assert s[0] == t[0] && s[1..] == t[1..] + ['\0'] + rest;
      CStringIs(t[1..], rest);
    } else {
      assert s[0] == '\0';
    }
  }

  lemma TextHasNoNul(v: int)
    ensures '\0' !in Text(v, 10)
  {
    var n: nat := if v < 0 then -v else v;
    ReadDigits(n);
    NegativeDigits(n);
    assert forall i :: 0 <= i < |DigitsOf(n, 10, false)| ==> IsDigit(DigitsOf(n, 10, false)[i]);
  }

  /** atoi on the buffer that itoa has filled gives the number back, the smallest int aside. */
  lemma BufferRoundTrip(v: int, buffer: string)
    requires var t := Text(v, 10); |t| < |buffer| && buffer[..|t|] == t && buffer[|t|] == '\0'
    ensures '\0' in buffer && (Number(CString(buffer)) == v <==> v != INT_MIN)
  {
    var t := Text(v, 10);
    TextHasNoNul(v);
    assert buffer == t + ['\0'] + buffer[|t| + 1..];
    CStringIs(t, buffer[|t| + 1..]);
    NumberOfText(v);
  }

  /** atoi */
  method Atoi(str: array<char>) returns (num: int)
    requires '\0' in str[..]
    ensures num == Number(CString(str[..]))
  {
    var i := 0;
    assert str[0..] == str[..];
    while IsSpace(str[i])
      invariant i < str.Length && '\0' in str[i..]
      invariant DropSpaces(CString(str[i..])) == DropSpaces(CString(str[..]))
      decreases str.Length - i
    {
      i := i + 1;
    }
    var sign := 1;
    if str[i] == '-' {
      i := i + 1;
      sign := -1;
    } else if str[i] == '+' {
      i := i + 1;
    }
    num := ReadNumber(str, i);
    num := num * sign;
  }
}
