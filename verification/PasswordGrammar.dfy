/** Which strings are read as password hashes, and what each field may look like. */
module PasswordGrammar {
  import opened Text
  import opened Base64
  import opened Password

  // ----- numbers -----

  predicate Blank(c: char) { c == ' ' || c == '\t' }

  /** Blanks, a sign or none, a numeral as long as it can be, and what is left. */
  predicate Spelled(s: string, blanks: string, sign: string, digits: string, rest: string) {
    && s == blanks + (sign + (digits + rest))
    && (forall c | c in blanks :: Blank(c))
    && digits != "" && AllDigits(digits) && (rest == "" || !IsDigit(rest[0]))
  }

  ghost predicate ReadsNat(s: string, n: int, rest: string) {
    exists blanks, digits :: Spelled(s, blanks, "", digits, rest) && Value(digits) == n
  }

  function Signed(sign: string, n: int): int { if sign == "-" then -n else n }

  ghost predicate ReadsInt(s: string, n: int, rest: string) {
    exists blanks, sign, digits :: Spelled(s, blanks, sign, digits, rest)
      && (sign == "" || sign == "+" || sign == "-") && n == Signed(sign, Value(digits))
  }

  lemma {:induction false} SkipSpacesIs(blanks: string, rest: string)
    requires (forall c | c in blanks :: Blank(c)) && (rest == "" || !Blank(rest[0]))
    ensures SkipSpaces(blanks + rest) == rest
  {
    if blanks == "" {
      assert blanks + rest == rest;
    } else {
      assert (blanks + rest)[1..] == blanks[1..] + rest;
      assert blanks[0] in blanks;
      SkipSpacesIs(blanks[1..], rest);
    }
  }

  lemma {:induction false} SkippedSpaces(s: string) returns (blanks: string)
    ensures s == blanks + SkipSpaces(s) && forall c | c in blanks :: Blank(c)
    ensures SkipSpaces(s) == "" || !Blank(SkipSpaces(s)[0])
  {
    if s != "" && Blank(s[0]) {
      var more := SkippedSpaces(s[1..]);
      blanks := [s[0]] + more;
    } else {
      blanks := "";
    }
  }

  lemma LeadingDigits(digits: string, rest: string)
    requires digits != "" && AllDigits(digits) && (rest == "" || !IsDigit(rest[0]))
    ensures var t := digits + rest;
            IsDigit(t[0]) && DigitPrefix(t) == |digits| && t[..|digits|] == digits && t[|digits|..] == rest
  {
    DigitsThenRest(digits, rest);
    assert digits[0] in digits;
  }

  lemma ReadsDigits(t: string) returns (digits: string, rest: string)
    requires DigitPrefix(t) > 0
    ensures t == digits + rest && digits == t[..DigitPrefix(t)] && rest == t[DigitPrefix(t)..]
    ensures digits != "" && AllDigits(digits) && (rest == "" || !IsDigit(rest[0]))
  {
    digits, rest := t[..DigitPrefix(t)], t[DigitPrefix(t)..];
  }

  /** %d into an unsigned variable reads exactly the numbers below the limit, blanks before them skipped. */
  lemma ScanUintExactlyWhen(s: string, limit: int, n: int, rest: string)
    ensures ScanUint(s, limit) == Some(Scanned(n, rest)) <==> ReadsNat(s, n, rest) && n < limit
  {
    if ScanUint(s, limit) == Some(Scanned(n, rest)) {
      var blanks := SkippedSpaces(s);
      var digits, left := ReadsDigits(SkipSpaces(s));
      assert Spelled(s, blanks, "", digits, left) by { assert "" + (digits + left) == digits + left; }
    }
    if ReadsNat(s, n, rest) && n < limit {
      var blanks, digits :| Spelled(s, blanks, "", digits, rest) && Value(digits) == n;
      assert "" + (digits + rest) == digits + rest;
      LeadingDigits(digits, rest);
      SkipSpacesIs(blanks, digits + rest);
    }
  }

  /** %d into an int, with a sign or without, within 64 bits. */
  lemma ScanIntExactlyWhen(s: string, n: int, rest: string)
    ensures ScanInt(s) == Some(Scanned(n, rest)) <==>
              ReadsInt(s, n, rest) && -0x8000_0000_0000_0000 <= n <= 0x7fff_ffff_ffff_ffff
  {
    if ScanInt(s) == Some(Scanned(n, rest)) {
      ScannedIntReads(s, n, rest);
    }
    if ReadsInt(s, n, rest) {
      var blanks, sign, digits :| Spelled(s, blanks, sign, digits, rest)
        && (sign == "" || sign == "+" || sign == "-") && n == Signed(sign, Value(digits));
      SpelledIntScans(s, blanks, sign, digits, rest);
    }
  }

  lemma ScannedIntReads(s: string, n: int, rest: string)
    requires ScanInt(s) == Some(Scanned(n, rest))
    ensures ReadsInt(s, n, rest) && -0x8000_0000_0000_0000 <= n <= 0x7fff_ffff_ffff_ffff
  {
    var blanks := SkippedSpaces(s);
    var sign, u := SplitSign(SkipSpaces(s));
    var digits, left := ReadsDigits(u);
    assert Spelled(s, blanks, sign, digits, left);
  }

  lemma SplitSign(t: string) returns (sign: string, u: string)
    ensures t == sign + u && (sign == "" || sign == "+" || sign == "-")
    ensures sign == "-" <==> t != "" && t[0] == '-'
    ensures u == if t != "" && (t[0] == '-' || t[0] == '+') then t[1..] else t
  {
    if t != "" && (t[0] == '-' || t[0] == '+') {
      sign, u := [t[0]], t[1..];
    } else {
      sign, u := "", t;
    }
  }

  lemma SpelledIntScans(s: string, blanks: string, sign: string, digits: string, rest: string)
    requires Spelled(s, blanks, sign, digits, rest) && (sign == "" || sign == "+" || sign == "-")
    ensures var n := Signed(sign, Value(digits));
            ScanInt(s) == if -0x8000_0000_0000_0000 <= n <= 0x7fff_ffff_ffff_ffff then Some(Scanned(n, rest)) else None
  {
    var u := digits + rest;
    var t := sign + u;
    LeadingDigits(digits, rest);
    if sign == "" { assert t == u; } else { assert t[0] == sign[0] && t[1..] == u; }
    SkipSpacesIs(blanks, t);
  }

  // ----- fields -----

  /** `v=` and a number that fits 64 bits; what follows it does not matter. */
  ghost predicate VersionField(field: string, v: int) {
    && "v=" <= field && -0x8000_0000_0000_0000 <= v <= 0x7fff_ffff_ffff_ffff
    && exists rest :: ReadsInt(field[2..], v, rest)
  }

  lemma VersionExactlyWhen(field: string, v: int)
    ensures ScanVersion(field) == Some(v) <==> VersionField(field, v)
  {
    if "v=" <= field {
      var s := field[2..];
      if ScanInt(s).Some? {
        ScanIntExactlyWhen(s, ScanInt(s).value.value, ScanInt(s).value.rest);
      }
      if VersionField(field, v) {
        var rest :| ReadsInt(s, v, rest);
        ScanIntExactlyWhen(s, v, rest);
      }
    }
  }

  /** `m=`, `,t=` and `,p=`, each with a number that fits its variable; what follows the last does not matter. */
  ghost predicate CostsField(field: string, memory: int, time: int, threads: int) {
    && "m=" <= field && memory < 0x1_0000_0000 && time < 0x1_0000_0000 && threads < 0x100
    && exists a, b, rest ::
         ReadsNat(field[2..], memory, ",t=" + a) && ReadsNat(a, time, ",p=" + b) && ReadsNat(b, threads, rest)
  }

  lemma ScanLiteralIs(s: string, literal: string, rest: string)
    ensures ScanLiteral(s, literal) == Some(rest) <==> s == literal + rest
  {
  }

  lemma ScannedCosts(field: string, p: Params)
    requires ScanParams(field) == Some(p)
    ensures CostsField(field, p.memory, p.time, p.threads) && p.saltLen == 0 && p.keyLen == 0
  {
    var s := field[2..];
    var m := ScanUint(s, UINT32).value;
    var a := ScanLiteral(m.rest, ",t=").value;
    var t := ScanUint(a, UINT32).value;
    var b := ScanLiteral(t.rest, ",p=").value;
    var k := ScanUint(b, UINT8).value;
    ScanLiteralIs(m.rest, ",t=", a);
    ScanLiteralIs(t.rest, ",p=", b);
    ScanUintExactlyWhen(s, UINT32, m.value, m.rest);
    ScanUintExactlyWhen(a, UINT32, t.value, t.rest);
    ScanUintExactlyWhen(b, UINT8, k.value, k.rest);
  }

  lemma ReadCostsScan(field: string, p: Params)
    requires CostsField(field, p.memory, p.time, p.threads) && p.saltLen == 0 && p.keyLen == 0
    ensures ScanParams(field) == Some(p)
  {
    var s := field[2..];
    var a, b, rest :|
      ReadsNat(s, p.memory, ",t=" + a) && ReadsNat(a, p.time, ",p=" + b) && ReadsNat(b, p.threads, rest);
    ScanLiteralIs(field, "m=", s);
    ScanUintExactlyWhen(s, UINT32, p.memory, ",t=" + a);
    ScanLiteralIs(",t=" + a, ",t=", a);
    ScanUintExactlyWhen(a, UINT32, p.time, ",p=" + b);
    ScanLiteralIs(",p=" + b, ",p=", b);
    ScanUintExactlyWhen(b, UINT8, p.threads, rest);
  }

  lemma CostsExactlyWhen(field: string, p: Params)
    ensures ScanParams(field) == Some(p) <==>
              CostsField(field, p.memory, p.time, p.threads) && p.saltLen == 0 && p.keyLen == 0
  {
    if ScanParams(field) == Some(p) { ScannedCosts(field, p); }
    if CostsField(field, p.memory, p.time, p.threads) && p.saltLen == 0 && p.keyLen == 0 { ReadCostsScan(field, p); }
  }

  // ----- whole strings -----

  function Assembled(algorithm: string, version: string, costs: string, salt: string, key: string): string {
    "$" + algorithm + "$" + version + "$" + costs + "$" + salt + "$" + key
  }

  lemma AssembledIsJoined(algorithm: string, version: string, costs: string, salt: string, key: string)
    ensures Join(["", algorithm, version, costs, salt, key], '$') == Assembled(algorithm, version, costs, salt, key)
  {
    JoinOfSix("", algorithm, version, costs, salt, key);
    assert "" + "$" == "$";
  }

  lemma SplitOfAssembled(algorithm: string, version: string, costs: string, salt: string, key: string)
    requires NoDollar(algorithm) && NoDollar(version) && NoDollar(costs) && NoDollar(salt) && NoDollar(key)
    ensures Split(Assembled(algorithm, version, costs, salt, key), '$') == ["", algorithm, version, costs, salt, key]
  {
    AssembledIsJoined(algorithm, version, costs, salt, key);
    SplitOfJoin(["", algorithm, version, costs, salt, key], '$');
  }

  /** Five fields, each after a dollar sign. */
  ghost predicate SixFields(encoded: string) {
    exists a, v, c, s, k :: NoDollar(a) && NoDollar(v) && NoDollar(c) && NoDollar(s) && NoDollar(k)
                            && encoded == Assembled(a, v, c, s, k)
  }

  lemma SixFieldsExactlyWhen(encoded: string)
    ensures SixFields(encoded) <==> |Split(encoded, '$')| == 6 && Split(encoded, '$')[0] == ""
  {
    var f := Split(encoded, '$');
    if |f| == 6 && f[0] == "" {
      JoinOfSplit(encoded, '$');
      assert f == ["", f[1], f[2], f[3], f[4], f[5]];
      AssembledIsJoined(f[1], f[2], f[3], f[4], f[5]);
      assert forall i | 0 <= i < 6 :: f[i] in f;
    }
    if SixFields(encoded) {
      var a, v, c, s, k :| NoDollar(a) && NoDollar(v) && NoDollar(c) && NoDollar(s) && NoDollar(k)
                           && encoded == Assembled(a, v, c, s, k);
      SplitOfAssembled(a, v, c, s, k);
    }
  }

  /** What is not of that shape is malformed. */
  lemma OtherShapesAreMalformed(encoded: string)
    requires !SixFields(encoded)
    ensures DecodeHash(encoded) == Err(Malformed)
  {
    SixFieldsExactlyWhen(encoded);
  }

  /** What is of that shape is read field by field, and refused by the first that will not do. */
  lemma VersionIsRead(algorithm: string, version: string, costs: string, saltText: string, keyText: string)
    requires NoDollar(algorithm) && NoDollar(version) && NoDollar(costs) && NoDollar(saltText) && NoDollar(keyText)
    ensures var r := DecodeHash(Assembled(algorithm, version, costs, saltText, keyText));
            && (algorithm != "argon2id" ==> r == Err(OtherAlgorithm))
            && (algorithm == "argon2id" && (forall v :: !VersionField(version, v)) ==> r == Err(Malformed))
            && (algorithm == "argon2id" ==> forall v | v != 19 && VersionField(version, v) :: r == Err(OtherVersion))
            && (algorithm == "argon2id" && VersionField(version, 19) ==>
                  r == DecodeFields(version, costs, saltText, keyText))
  {
    SplitOfAssembled(algorithm, version, costs, saltText, keyText);
    forall v ensures ScanVersion(version) == Some(v) <==> VersionField(version, v) { VersionExactlyWhen(version, v); }
  }

  lemma FieldsAreRead(version: string, costs: string, saltText: string, keyText: string)
    requires NoDollar(version) && NoDollar(costs) && NoDollar(saltText) && NoDollar(keyText)
    requires VersionField(version, 19)
    ensures var r := DecodeHash(Assembled("argon2id", version, costs, saltText, keyText));
            var salt, key := Decode(saltText), Decode(keyText);
            && ((forall m, t, p :: !CostsField(costs, m, t, p)) ==> r == Err(Malformed))
            && (forall m, t, p | CostsField(costs, m, t, p) ::
                  r == if m == 0 || t == 0 || p == 0 then Err(OutOfRange)
                       else if salt.None? || salt.value == [] then Err(BadSalt)
                       else if key.None? || key.value == [] then Err(BadKey)
                       else Ok(Decoded(Params(m, t, p, |salt.value| % 0x1_0000_0000, |key.value| % 0x1_0000_0000),
                                       salt.value, key.value)))
  {
    VersionIsRead("argon2id", version, costs, saltText, keyText);
    VersionExactlyWhen(version, 19);
    if ScanParams(costs).Some? { ScannedCosts(costs, ScanParams(costs).value); }
    forall m, t, p | CostsField(costs, m, t, p)
      ensures m >= 0 && t >= 0 && p >= 0 && ScanParams(costs) == Some(Params(m, t, p, 0, 0))
    {
      ReadCostsScan(costs, Params(m, t, p, 0, 0));
    }
  }

  lemma Nineteen()
    ensures "v=" + Format(ARGON2_VERSION) == "v=19"
  {
    assert "19"[..1] == "1" && "1"[..0] == "" && Value("1") == 1;
    FormatOfValue("19");
    assert "v=" + "19" == "v=19";
  }

  /** A printed hash is of that shape: the algorithm, version 19, the costs, the salt and the key. */
  lemma PrintedShape(p: Params, salt: seq<Byte>, key: seq<Byte>)
    ensures Print(p, salt, key) == Assembled("argon2id", "v=19", ParamsField(p), Encode(salt), Encode(key))
  {
    Nineteen();
    PrintIsJoined(p, salt, key);
    AssembledIsJoined("argon2id", "v=19", ParamsField(p), Encode(salt), Encode(key));
  }

  lemma NumeralHolds(n: nat, c: char)
    requires !IsDigit(c)
    ensures c !in Format(n)
  {
  }

  /** The costs are the memory, the time and the threads, each a plain numeral after its letter, in this order. */
  lemma PrintedCosts(p: Params)
    ensures Split(ParamsField(p), ',') == ["m=" + Format(p.memory), "t=" + Format(p.time), "p=" + Format(p.threads)]
  {
    var m, t, k := "m=" + Format(p.memory), "t=" + Format(p.time), "p=" + Format(p.threads);
    NumeralHolds(p.memory, ',');
    NumeralHolds(p.time, ',');
    NumeralHolds(p.threads, ',');
    assert ParamsField(p) == m + "," + (t + "," + k) by { CommasIn(m, Format(p.time), Format(p.threads)); }
    SplitAtSeparator(m, t + "," + k, ',');
    SplitAtSeparator(t, k, ',');
    SplitOfPlain(k, ',');
  }

  lemma CommasIn(m: string, t: string, k: string)
    ensures m + ",t=" + t + ",p=" + k == m + "," + ("t=" + t + "," + ("p=" + k))
  {
  }
}
