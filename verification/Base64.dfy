/** The standard base64 alphabet without padding: section 4 of RFC 4648, padding omitted as section 3.2 allows. */
module Base64 {
  import opened Text

  type Sextet = v: int | 0 <= v < 64

  predicate InAlphabet(c: char) {
    'A' <= c <= 'Z' || 'a' <= c <= 'z' || '0' <= c <= '9' || c == '+' || c == '/'
  }

  function EncodeSextet(v: Sextet): (c: char)
    ensures InAlphabet(c) && DecodeSextet(c) == v
  {
    if v < 26 then ('A' as int + v) as char
    else if v < 52 then ('a' as int + v - 26) as char
    else if v < 62 then ('0' as int + v - 52) as char
    else if v == 62 then '+' else '/'
  }

  function DecodeSextet(c: char): Sextet
    requires InAlphabet(c)
  {
    if 'A' <= c <= 'Z' then c as int - 'A' as int
    else if 'a' <= c <= 'z' then c as int - 'a' as int + 26
    else if '0' <= c <= '9' then c as int - '0' as int + 52
    else if c == '+' then 62 else 63
  }

  function Encode(bytes: seq<Byte>): (s: string)
    ensures Readable(s)
  {
    if |bytes| < 3 then EncodeRest(bytes)
    else EncodeGroup(bytes[0], bytes[1], bytes[2]) + Encode(bytes[3..])
  }

  function EncodeRest(bytes: seq<Byte>): (s: string)
    requires |bytes| < 3
    ensures Readable(s)
  {
    if bytes == [] then ""
    else if |bytes| == 1 then
      [EncodeSextet(bytes[0] / 4), EncodeSextet(bytes[0] % 4 * 16)]
    else
      [EncodeSextet(bytes[0] / 4), EncodeSextet(bytes[0] % 4 * 16 + bytes[1] / 16),
       EncodeSextet(bytes[1] % 16 * 4)]
  }

  function EncodeGroup(a: Byte, b: Byte, c: Byte): (s: string)
    ensures |s| == 4 && Readable(s)
  {
    [EncodeSextet(a / 4), EncodeSextet(a % 4 * 16 + b / 16),
     EncodeSextet(b % 16 * 4 + c / 64), EncodeSextet(c % 64)]
  }

  /** Line breaks are skipped wherever they stand. */
  function StripBreaks(s: string): string {
    if s == "" then ""
    else if s[0] == '\r' || s[0] == '\n' then StripBreaks(s[1..])
    else [s[0]] + StripBreaks(s[1..])
  }

  predicate Readable(s: string) { forall i | 0 <= i < |s| :: InAlphabet(s[i]) }

  function First(c: char, d: char): Byte
    requires InAlphabet(c) && InAlphabet(d)
  {
    DecodeSextet(c) * 4 + DecodeSextet(d) / 16
  }

  function Second(c: char, d: char): Byte
    requires InAlphabet(c) && InAlphabet(d)
  {
    DecodeSextet(c) % 16 * 16 + DecodeSextet(d) / 4
  }

  function Third(c: char, d: char): Byte
    requires InAlphabet(c) && InAlphabet(d)
  {
    DecodeSextet(c) % 4 * 64 + DecodeSextet(d)
  }

  lemma GroupComesBack(a: Byte, b: Byte, c: Byte)
    ensures var s := EncodeGroup(a, b, c);
            First(s[0], s[1]) == a && Second(s[1], s[2]) == b && Third(s[2], s[3]) == c
  {
  }

  /** The bytes of a run of alphabet characters; leftover bits of the last group are ignored, and a single
      leftover character is an error. */
  function DecodeRun(s: string): Option<seq<Byte>>
    requires Readable(s)
  {
    if s == "" then Some([])
    else if |s| == 1 then None
    else
      var b0 := First(s[0], s[1]);
      if |s| == 2 then Some([b0])
      else
        var b1 := Second(s[1], s[2]);
        if |s| == 3 then Some([b0, b1])
        else
          var b2 := Third(s[2], s[3]);
          var rest := DecodeRun(s[4..]);
          if rest.None? then None else Some([b0, b1, b2] + rest.value)
  }

  function Decode(s: string): Option<seq<Byte>> {
    var t := StripBreaks(s);
    if Readable(t) then DecodeRun(t) else None
  }

  lemma {:induction false} StripOfReadable(s: string)
    requires Readable(s)
    ensures StripBreaks(s) == s
  {
    if s != "" {
      assert InAlphabet(s[0]);
      StripOfReadable(s[1..]);
    }
  }

  lemma LastGroupComesBack(bytes: seq<Byte>)
    requires 1 <= |bytes| <= 2
    ensures DecodeRun(Encode(bytes)) == Some(bytes)
  {
    var s := Encode(bytes);
    if |bytes| == 1 {
      assert |s| == 2 && First(s[0], s[1]) == bytes[0];
      assert bytes == [bytes[0]];
    } else {
      assert |s| == 3 && First(s[0], s[1]) == bytes[0] && Second(s[1], s[2]) == bytes[1];
      assert bytes == [bytes[0], bytes[1]];
    }
  }

  lemma DecodeGroup(head: string, rest: string)
    requires |head| == 4 && Readable(head) && Readable(rest) && DecodeRun(rest).Some?
    ensures DecodeRun(head + rest)
            == Some([First(head[0], head[1]), Second(head[1], head[2]), Third(head[2], head[3])]
                    + DecodeRun(rest).value)
  {
    assert (head + rest)[4..] == rest;
  }

  lemma {:induction false} DecodeRunOfEncode(bytes: seq<Byte>)
    ensures DecodeRun(Encode(bytes)) == Some(bytes)
  {
    if 1 <= |bytes| <= 2 {
      LastGroupComesBack(bytes);
    } else if |bytes| >= 3 {
      GroupComesBack(bytes[0], bytes[1], bytes[2]);
      DecodeRunOfEncode(bytes[3..]);
      DecodeGroup(EncodeGroup(bytes[0], bytes[1], bytes[2]), Encode(bytes[3..]));
      assert bytes == [bytes[0], bytes[1], bytes[2]] + bytes[3..];
    }
  }

  /** Every byte string comes back. */
  lemma DecodeOfEncode(bytes: seq<Byte>)
    ensures Decode(Encode(bytes)) == Some(bytes)
  {
    StripOfReadable(Encode(bytes));
    DecodeRunOfEncode(bytes);
  }
}
