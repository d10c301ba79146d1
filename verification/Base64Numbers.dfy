/** What an unpadded base64 string stands for: read as one number it is the bytes read as one number, filled with zero
    bits up to a whole character (section 4 of RFC 4648); and which strings are read back. */
module Base64Numbers {
  import opened Text
  import opened Base64

  const UPPER: string := "ABCDEFGHIJKLMNOPQRSTUVWXYZ"
  const LOWER: string := "abcdefghijklmnopqrstuvwxyz"
  const DIGITS: string := "0123456789"

  /** Table 1 of RFC 4648. */
  const ALPHABET: string := UPPER + LOWER + DIGITS + "+/"

  lemma UpperAt(v: nat)
    requires v < 26
    ensures |UPPER| == 26 && UPPER[v] == ('A' as int + v) as char
  {
  }

  lemma LowerAt(v: nat)
    requires v < 26
    ensures |LOWER| == 26 && LOWER[v] == ('a' as int + v) as char
  {
  }

  lemma DigitAt(v: nat)
    requires v < 10
    ensures |DIGITS| == 10 && DIGITS[v] == ('0' as int + v) as char
  {
  }

  lemma RunsAreJoined(v: nat, upper: string, lower: string, digits: string, rest: string)
    requires |upper| == 26 && |lower| == 26 && |digits| == 10 && |rest| == 2 && v < 64
    ensures |upper + lower + digits + rest| == 64
    ensures (upper + lower + digits + rest)[v]
            == if v < 26 then upper[v] else if v < 52 then lower[v - 26] else if v < 62 then digits[v - 52]
               else rest[v - 62]
  {
  }

  /** The character for each value, and the value of each character. */
  lemma AlphabetIs(v: Sextet)
    ensures |ALPHABET| == 64 && EncodeSextet(v) == ALPHABET[v]
  {
    UpperAt(if v < 26 then v else 0);
    LowerAt(if 26 <= v < 52 then v - 26 else 0);
    DigitAt(if 52 <= v < 62 then v - 52 else 0);
    RunsAreJoined(v, UPPER, LOWER, DIGITS, "+/");
  }

  lemma AlphabetReads(c: char)
    ensures InAlphabet(c) <==> c in ALPHABET
    ensures InAlphabet(c) ==> |ALPHABET| == 64 && ALPHABET[DecodeSextet(c)] == c
  {
    if InAlphabet(c) { AlphabetIs(DecodeSextet(c)); }
    if c in ALPHABET {
      var i :| 0 <= i < |ALPHABET| && ALPHABET[i] == c;
      AlphabetIs(0);
      AlphabetIs(i);
    }
  }

  // ----- as numbers -----

  /** `high`, followed by the bytes as digits to base 256. */
  function InBytes(high: nat, bytes: seq<Byte>): nat
    decreases |bytes|
  {
    if bytes == [] then high else InBytes(high * 256 + bytes[0], bytes[1..])
  }

  /** `high`, followed by the characters as digits to base 64. */
  function InText(high: nat, s: string): nat
    requires Readable(s)
    decreases |s|
  {
    if s == "" then high else InText(high * 64 + DecodeSextet(s[0]), s[1..])
  }

  /** What the zero bits at the end of the last character multiply by. */
  function Fill(bytes: nat): nat { if bytes % 3 == 1 then 16 else if bytes % 3 == 2 then 4 else 1 }

  function FourDigits(high: nat, a: nat, b: nat, c: nat, d: nat): nat { (((high * 64 + a) * 64 + b) * 64 + c) * 64 + d }

  function ThreeBytes(high: nat, a: nat, b: nat, c: nat): nat { ((high * 256 + a) * 256 + b) * 256 + c }

  lemma TextStep(high: nat, c: char, rest: string)
    requires InAlphabet(c) && Readable(rest)
    ensures Readable([c] + rest) && InText(high, [c] + rest) == InText(high * 64 + DecodeSextet(c), rest)
  {
    assert ([c] + rest)[1..] == rest;
  }

  lemma TextOfFour(high: nat, s: string, rest: string)
    requires |s| == 4 && Readable(s) && Readable(rest)
    ensures Readable(s + rest)
    ensures InText(high, s + rest)
            == InText(FourDigits(high, DecodeSextet(s[0]), DecodeSextet(s[1]), DecodeSextet(s[2]), DecodeSextet(s[3])),
                      rest)
  {
    var d := [s[3]] + rest;
    var c := [s[2]] + d;
    var b := [s[1]] + c;
    assert s + rest == [s[0]] + b;
    var n0: nat := high * 64 + DecodeSextet(s[0]);
    var n1: nat := n0 * 64 + DecodeSextet(s[1]);
    TextStep(n1 * 64 + DecodeSextet(s[2]), s[3], rest);
    TextStep(n1, s[2], d);
    TextStep(n0, s[1], c);
    TextStep(high, s[0], b);
  }

  lemma ByteStep(high: nat, a: Byte, rest: seq<Byte>)
    ensures InBytes(high, [a] + rest) == InBytes(high * 256 + a, rest)
  {
    assert ([a] + rest)[1..] == rest;
  }

  lemma BytesOfThree(high: nat, a: Byte, b: Byte, c: Byte, rest: seq<Byte>)
    ensures InBytes(high, [a, b, c] + rest) == InBytes(ThreeBytes(high, a, b, c), rest)
  {
    assert [a, b, c] + rest == [a] + ([b] + ([c] + rest));
    var n0: nat := high * 256 + a;
    ByteStep(n0 * 256 + b, c, rest);
    ByteStep(n0, b, [c] + rest);
    ByteStep(high, a, [b] + ([c] + rest));
  }

  /** Four characters hold three bytes. */
  lemma GroupNumber(high: nat, a: Byte, b: Byte, c: Byte)
    ensures FourDigits(high, a / 4, a % 4 * 16 + b / 16, b % 16 * 4 + c / 64, c % 64) == ThreeBytes(high, a, b, c)
  {
  }

  lemma OneByte(high: nat, a: Byte)
    ensures InText(high, Encode([a])) == InBytes(high, [a]) * 16
  {
    var s := Encode([a]);
    var n: nat := high * 64 + DecodeSextet(s[0]);
    assert s == [s[0]] + ([s[1]] + "");
    TextStep(n, s[1], "");
    TextStep(high, s[0], [s[1]] + "");
    assert [a] == [a] + [];
    ByteStep(high, a, []);
  }

  lemma TwoBytes(high: nat, a: Byte, b: Byte)
    ensures InText(high, Encode([a, b])) == InBytes(high, [a, b]) * 4
  {
    var s := Encode([a, b]);
    var n0: nat := high * 64 + DecodeSextet(s[0]);
    var n1: nat := n0 * 64 + DecodeSextet(s[1]);
    assert s == [s[0]] + ([s[1]] + ([s[2]] + ""));
    TextStep(n1, s[2], "");
    TextStep(n0, s[1], [s[2]] + "");
    TextStep(high, s[0], [s[1]] + ([s[2]] + ""));
    assert [a, b] == [a] + ([b] + []);
    ByteStep(high * 256 + a, b, []);
    ByteStep(high, a, [b] + []);
  }

  lemma GroupText(high: nat, a: Byte, b: Byte, c: Byte, rest: string)
    requires Readable(rest)
    ensures Readable(EncodeGroup(a, b, c) + rest)
    ensures InText(high, EncodeGroup(a, b, c) + rest) == InText(ThreeBytes(high, a, b, c), rest)
  {
    TextOfFour(high, EncodeGroup(a, b, c), rest);
    GroupNumber(high, a, b, c);
  }

  lemma EncodeStep(bytes: seq<Byte>)
    requires |bytes| >= 3
    ensures Encode(bytes) == EncodeGroup(bytes[0], bytes[1], bytes[2]) + Encode(bytes[3..])
  {
  }

  lemma FirstThree(bytes: seq<Byte>)
    requires |bytes| >= 3
    ensures bytes == [bytes[0], bytes[1], bytes[2]] + bytes[3..]
  {
  }

  lemma SameFill(n: nat)
    requires n >= 3
    ensures Fill(n) == Fill(n - 3)
  {
  }

  /** The text of a byte string is the same number, filled with zero bits. */
  lemma {:induction false} EncodedNumber(high: nat, bytes: seq<Byte>)
    ensures InText(high, Encode(bytes)) == InBytes(high, bytes) * Fill(|bytes|)
    decreases |bytes|
  {
    if |bytes| == 1 {
      assert bytes == [bytes[0]];
      OneByte(high, bytes[0]);
    } else if |bytes| == 2 {
      assert bytes == [bytes[0], bytes[1]];
      TwoBytes(high, bytes[0], bytes[1]);
    } else if |bytes| >= 3 {
      var a, b, c, rest := bytes[0], bytes[1], bytes[2], bytes[3..];
      EncodeStep(bytes);
      FirstThree(bytes);
      SameFill(|bytes|);
      BytesOfThree(high, a, b, c, rest);
      GroupText(high, a, b, c, Encode(rest));
      EncodedNumber(ThreeBytes(high, a, b, c), rest);
    }
  }

  /** In as few characters as hold it. */
  lemma {:induction false} EncodedLength(bytes: seq<Byte>)
    ensures |Encode(bytes)| == (8 * |bytes| + 5) / 6
    decreases |bytes|
  {
    if |bytes| >= 3 {
      EncodeStep(bytes);
      EncodedLength(bytes[3..]);
    }
  }

  // ----- what is read -----

  /** What the bits left over in the last character can hold. */
  function Leftover(n: nat): nat { if n % 4 == 2 then 16 else if n % 4 == 3 then 4 else 1 }

  lemma SameLeftover(n: nat)
    requires n >= 4
    ensures Leftover(n) == Leftover(n - 4)
  {
  }

  /** Four characters are read as three bytes. */
  lemma GroupReads(high: nat, s: string)
    requires |s| == 4 && Readable(s)
    ensures ThreeBytes(high, First(s[0], s[1]), Second(s[1], s[2]), Third(s[2], s[3]))
            == FourDigits(high, DecodeSextet(s[0]), DecodeSextet(s[1]), DecodeSextet(s[2]), DecodeSextet(s[3]))
  {
  }

  lemma ShortRuns(high: nat, s: string)
    requires Readable(s) && 2 <= |s| <= 3
    ensures DecodeRun(s).Some? && |DecodeRun(s).value| == |s| - 1
    ensures InBytes(high, DecodeRun(s).value) == InText(high, s) / Leftover(|s|)
  {
    var n0: nat := high * 64 + DecodeSextet(s[0]);
    var b0 := First(s[0], s[1]);
    if |s| == 2 {
      assert s == [s[0]] + ([s[1]] + "");
      TextStep(n0, s[1], "");
      TextStep(high, s[0], [s[1]] + "");
      assert [b0] == [b0] + [];
      ByteStep(high, b0, []);
    } else {
      ThreeLeft(high, s);
    }
  }

  lemma ThreeLeft(high: nat, s: string)
    requires Readable(s) && |s| == 3
    ensures InBytes(high, [First(s[0], s[1]), Second(s[1], s[2])]) == InText(high, s) / 4
  {
    var n0: nat := high * 64 + DecodeSextet(s[0]);
    var n1: nat := n0 * 64 + DecodeSextet(s[1]);
    var b0, b1 := First(s[0], s[1]), Second(s[1], s[2]);
    assert s == [s[0]] + ([s[1]] + ([s[2]] + ""));
    TextStep(n1, s[2], "");
    TextStep(n0, s[1], [s[2]] + "");
    TextStep(high, s[0], [s[1]] + ([s[2]] + ""));
    assert [b0, b1] == [b0] + ([b1] + []);
    ByteStep(high * 256 + b0, b1, []);
    ByteStep(high, b0, [b1] + []);
  }

  lemma DecodeStep(s: string)
    requires Readable(s) && |s| >= 4
    ensures var r := DecodeRun(s[4..]);
            DecodeRun(s) == if r.None? then None
                            else Some([First(s[0], s[1]), Second(s[1], s[2]), Third(s[2], s[3])] + r.value)
  {
  }

  /** A run of alphabet characters is read unless one is left over by itself. */
  lemma {:induction false} DecodedLength(s: string)
    requires Readable(s)
    ensures DecodeRun(s).Some? <==> |s| % 4 != 1
    ensures DecodeRun(s).Some? ==> |DecodeRun(s).value| == 3 * |s| / 4
    decreases |s|
  {
    if 2 <= |s| <= 3 {
      ShortRuns(0, s);
    } else if |s| >= 4 {
      DecodeStep(s);
      DecodedLength(s[4..]);
    }
  }

  lemma GroupBytes(high: nat, group: string, bytes: seq<Byte>, rest: string)
    requires |group| == 4 && Readable(group) && Readable(rest)
    ensures var a, b, c := First(group[0], group[1]), Second(group[1], group[2]), Third(group[2], group[3]);
            Readable(group + rest)
            && InBytes(high, [a, b, c] + bytes) == InBytes(ThreeBytes(high, a, b, c), bytes)
            && InText(high, group + rest) == InText(ThreeBytes(high, a, b, c), rest)
  {
    TextOfFour(high, group, rest);
    GroupReads(high, group);
    BytesOfThree(high, First(group[0], group[1]), Second(group[1], group[2]), Third(group[2], group[3]), bytes);
  }

  /** It is read as the same number, without the bits that fill no byte. */
  lemma {:induction false} DecodedNumber(high: nat, s: string)
    requires Readable(s) && DecodeRun(s).Some?
    ensures InBytes(high, DecodeRun(s).value) == InText(high, s) / Leftover(|s|)
    decreases |s|
  {
    if 2 <= |s| <= 3 {
      ShortRuns(high, s);
    } else if |s| >= 4 {
      var group, rest := s[..4], s[4..];
      assert s == group + rest;
      DecodeStep(s);
      SameLeftover(|s|);
      GroupBytes(high, group, DecodeRun(rest).value, rest);
      DecodedNumber(ThreeBytes(high, First(s[0], s[1]), Second(s[1], s[2]), Third(s[2], s[3])), rest);
    }
  }

  predicate IsBreak(c: char) { c == '\r' || c == '\n' }

  /** Only line breaks are skipped, and nothing moves. */
  lemma {:induction false} StripOfAppend(a: string, b: string)
    ensures StripBreaks(a + b) == StripBreaks(a) + StripBreaks(b)
    decreases |a|
  {
    if a == "" {
      assert a + b == b;
    } else {
      assert (a + b)[1..] == a[1..] + b;
      StripOfAppend(a[1..], b);
    }
  }

  lemma StripOfOne(c: char)
    ensures StripBreaks([c]) == if IsBreak(c) then "" else [c]
  {
    assert [c][1..] == "";
  }

  lemma {:induction false} StrippedHolds(s: string, c: char)
    ensures c in StripBreaks(s) <==> c in s && !IsBreak(c)
  {
    if s != "" {
      assert s == [s[0]] + s[1..];
      StrippedHolds(s[1..], c);
    }
  }

  /** A string is read exactly when all but its line breaks is in the alphabet and leaves no character by itself. */
  lemma DecodedExactlyWhen(s: string)
    ensures Decode(s).Some? <==>
              (forall c | c in s :: c in ALPHABET || c == '\r' || c == '\n') && |StripBreaks(s)| % 4 != 1
  {
    var t := StripBreaks(s);
    forall c ensures c in t <==> c in s && !IsBreak(c) { StrippedHolds(s, c); }
    forall c: char ensures InAlphabet(c) <==> c in ALPHABET { AlphabetReads(c); }
    assert Readable(t) <==> forall c | c in s && !IsBreak(c) :: InAlphabet(c) by {
      if Readable(t) {
        forall c | c in s && !IsBreak(c) ensures InAlphabet(c) { var i :| 0 <= i < |t| && t[i] == c; }
      }
      if forall c | c in s && !IsBreak(c) :: InAlphabet(c) {
        forall i | 0 <= i < |t| ensures InAlphabet(t[i]) { assert t[i] in t; }
      }
    }
    if Readable(t) { DecodedLength(t); }
  }
}
