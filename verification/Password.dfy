/** The PHC string a password hash is kept in (internal/auth/password.go): printing, parsing, verifying. */
module Password {
  import opened Text
  import opened Base64

  const UINT32: int := 0x1_0000_0000
  const UINT8: int := 0x100
  const INT64_MAX: int := 0x7fff_ffff_ffff_ffff

  /** argon2.Version */
  const ARGON2_VERSION: nat := 0x13

  datatype Params = Params(memory: nat, time: nat, threads: nat, saltLen: nat, keyLen: nat)

  datatype Error = Malformed | OtherAlgorithm | OtherVersion | OutOfRange | BadSalt | BadKey | Mismatch | Weak

  type Result<+T> = Fallible<T, Error>

  datatype Decoded = Decoded(params: Params, salt: seq<Byte>, key: seq<Byte>)

  // ----- fmt.Sscanf, as far as decodeHash uses it -----

  datatype Scanned = Scanned(value: int, rest: string)

  function DigitPrefix(s: string): (n: nat)
    ensures n <= |s| && AllDigits(s[..n]) && (n < |s| ==> !IsDigit(s[n]))
  {
    if s == "" || !IsDigit(s[0]) then 0
    else
      var n := DigitPrefix(s[1..]);
      assert s[..1 + n] == [s[0]] + s[1..][..n];
      1 + n
  }

  function SkipSpaces(s: string): string {
    if s != "" && (s[0] == ' ' || s[0] == '\t') then SkipSpaces(s[1..]) else s
  }

  /** %d into an unsigned variable: spaces, then at least one digit; what follows the digits is left unread. */
  function ScanUint(s: string, limit: int): (r: Option<Scanned>)
    ensures r.Some? ==> 0 <= r.value.value < limit
  {
    var t := SkipSpaces(s);
    var n := DigitPrefix(t);
    if n == 0 || Value(t[..n]) >= limit then None else Some(Scanned(Value(t[..n]), t[n..]))
  }

  /** %d into an int: a sign may precede the digits. */
  function ScanInt(s: string): Option<Scanned> {
    var t := SkipSpaces(s);
    var negative := t != "" && t[0] == '-';
    var u := if t != "" && (t[0] == '-' || t[0] == '+') then t[1..] else t;
    var n := DigitPrefix(u);
    var v: int := Value(u[..n]);
    if n == 0 || v > INT64_MAX + (if negative then 1 else 0) then None
    else Some(Scanned(if negative then -v else v, u[n..]))
  }

  function ScanLiteral(s: string, literal: string): Option<string> {
    if literal <= s then Some(s[|literal|..]) else None
  }

  /** Sscanf(field, "v=%d"): trailing text is not an error. */
  function ScanVersion(field: string): Option<int> {
    var a := ScanLiteral(field, "v=");
    if a.None? then None
    else
      var v := ScanInt(a.value);
      if v.None? then None else Some(v.value.value)
  }

  /** Sscanf(field, "m=%d,t=%d,p=%d") into a uint32, a uint32 and a uint8. */
  function ScanParams(field: string): Option<Params> {
    var a := ScanLiteral(field, "m=");
    var m := if a.None? then None else ScanUint(a.value, UINT32);
    var b := if m.None? then None else ScanLiteral(m.value.rest, ",t=");
    var t := if b.None? then None else ScanUint(b.value, UINT32);
    var c := if t.None? then None else ScanLiteral(t.value.rest, ",p=");
    var p := if c.None? then None else ScanUint(c.value, UINT8);
    if p.None? then None else Some(Params(m.value.value, t.value.value, p.value.value, 0, 0))
  }

  // ----- the encoded hash -----

  function Print(p: Params, salt: seq<Byte>, key: seq<Byte>): string {
    "$argon2id$v=" + Format(ARGON2_VERSION) + "$m=" + Format(p.memory) + ",t=" + Format(p.time)
    + ",p=" + Format(p.threads) + "$" + Encode(salt) + "$" + Encode(key)
  }

  function DecodeHash(encoded: string): Result<Decoded> {
    var fields := Split(encoded, '$');
    if |fields| != 6 || fields[0] != "" then Err(Malformed)
    else if fields[1] != "argon2id" then Err(OtherAlgorithm)
    else DecodeFields(fields[2], fields[3], fields[4], fields[5])
  }

  function DecodeFields(version: string, costs: string, saltText: string, keyText: string): Result<Decoded> {
    var v := ScanVersion(version);
    if v.None? then Err(Malformed)
    else if v.value != ARGON2_VERSION then Err(OtherVersion)
    else
      var p := ScanParams(costs);
      if p.None? then Err(Malformed)
      else if p.value.memory == 0 || p.value.time == 0 || p.value.threads == 0 then Err(OutOfRange)
      else
        var salt, key := Decode(saltText), Decode(keyText);
        if salt.None? || salt.value == [] then Err(BadSalt)
        else if key.None? || key.value == [] then Err(BadKey)
        else Ok(Decoded(p.value.(saltLen := Truncated(|salt.value|), keyLen := Truncated(|key.value|)),
                        salt.value, key.value))
  }

  /** Conversion to uint32. */
  function Truncated(n: nat): (r: nat)
    ensures r < UINT32 && (n < UINT32 ==> r == n)
  {
    n % 0x1_0000_0000
  }

  // ----- the round trip -----

  lemma {:induction false} DigitsThenRest(digits: string, rest: string)
    requires AllDigits(digits) && (rest == "" || !IsDigit(rest[0]))
    ensures DigitPrefix(digits + rest) == |digits|
  {
    if digits == "" {
      assert digits + rest == rest;
    } else {
      assert (digits + rest)[1..] == digits[1..] + rest;
      assert digits[0] in digits;
      DigitsThenRest(digits[1..], rest);
    }
  }

  lemma ScanUintOfFormat(n: nat, rest: string, limit: int)
    requires n < limit && (rest == "" || !IsDigit(rest[0]))
    ensures ScanUint(Format(n) + rest, limit) == Some(Scanned(n, rest))
  {
    var s := Format(n) + rest;
    assert s[0] == Format(n)[0] && Format(n)[0] in Format(n);
    DigitsThenRest(Format(n), rest);
    ValueOfFormat(n);
    assert s[..|Format(n)|] == Format(n);
  }

  lemma ScanVersionOfPrint()
    ensures ScanVersion("v=" + Format(ARGON2_VERSION)) == Some(ARGON2_VERSION)
  {
    var d := Format(ARGON2_VERSION);
    ScanLiteralOf("v=", d);
    assert d[0] in d;
    assert d + "" == d;
    DigitsThenRest(d, "");
    ValueOfFormat(ARGON2_VERSION);
    assert d[..|d|] == d;
  }

  lemma ScanLiteralOf(literal: string, rest: string)
    ensures ScanLiteral(literal + rest, literal) == Some(rest)
  {
    assert (literal + rest)[|literal|..] == rest;
  }

  function ParamsField(p: Params): string {
    "m=" + Format(p.memory) + ",t=" + Format(p.time) + ",p=" + Format(p.threads)
  }

  lemma Nested(a: string, b: string, c: string, d: string, e: string, f: string)
    ensures a + b + c + d + e + f == a + (b + (c + (d + (e + f))))
  {
    Associates(a + b + c + d, e, f);
    Associates(a + b + c, d, e + f);
    Associates(a + b, c, d + (e + f));
    Associates(a, b, c + (d + (e + f)));
  }

  lemma Associates(a: string, b: string, c: string)
    ensures a + b + c == a + (b + c)
  {
  }

  predicate Representable(p: Params) { p.memory < UINT32 && p.time < UINT32 && p.threads < UINT8 }

  lemma ScanParamsOfPrint(p: Params)
    requires Representable(p)
    ensures ScanParams(ParamsField(p)) == Some(p.(saltLen := 0, keyLen := 0))
  {
    var threads := Format(p.threads);
    var time := Format(p.time) + (",p=" + threads);
    var memory := Format(p.memory) + (",t=" + time);
    Nested("m=", Format(p.memory), ",t=", Format(p.time), ",p=", threads);
    ScanLiteralOf("m=", memory);
    ScanUintOfFormat(p.memory, ",t=" + time, UINT32);
    ScanLiteralOf(",t=", time);
    ScanUintOfFormat(p.time, ",p=" + threads, UINT32);
    ScanLiteralOf(",p=", threads);
    ScanUintOfFormat(p.threads, "", UINT8);
    assert threads + "" == threads;
  }

  // ----- the fields of a printed hash -----

  predicate NoDollar(s: string) { '$' !in s }

  lemma NoDollarInConcat(a: string, b: string)
    requires NoDollar(a) && NoDollar(b)
    ensures NoDollar(a + b)
  {
  }

  lemma NoDollarInParams(p: Params)
    ensures NoDollar(ParamsField(p))
  {
    var m, t, k := Format(p.memory), Format(p.time), Format(p.threads);
    NoDollarInConcat("m=", m);
    NoDollarInConcat("m=" + m, ",t=");
    NoDollarInConcat("m=" + m + ",t=", t);
    NoDollarInConcat("m=" + m + ",t=" + t, ",p=");
    NoDollarInConcat("m=" + m + ",t=" + t + ",p=", k);
  }

  function PrintFields(p: Params, salt: seq<Byte>, key: seq<Byte>): seq<string> {
    ["", "argon2id", "v=" + Format(ARGON2_VERSION), ParamsField(p), Encode(salt), Encode(key)]
  }

  lemma JoinOfSix(a: string, b: string, c: string, d: string, e: string, f: string)
    ensures Join([a, b, c, d, e, f], '$') == a + "$" + b + "$" + c + "$" + d + "$" + e + "$" + f
  {
    var ef := e + "$" + f;
    var def := d + "$" + ef;
    var cdef := c + "$" + def;
    var bcdef := b + "$" + cdef;
    assert [e, f][1..] == [f];
    assert [d, e, f][1..] == [e, f];
    assert [c, d, e, f][1..] == [d, e, f];
    assert [b, c, d, e, f][1..] == [c, d, e, f];
    assert [a, b, c, d, e, f][1..] == [b, c, d, e, f];
    assert Join([e, f], '$') == ef;
    assert Join([d, e, f], '$') == def;
    assert Join([c, d, e, f], '$') == cdef;
    assert Join([b, c, d, e, f], '$') == bcdef;
    Slide(a + "$", b, cdef);
    Slide(a + "$" + b + "$", c, def);
    Slide(a + "$" + b + "$" + c + "$", d, ef);
    Slide(a + "$" + b + "$" + c + "$" + d + "$", e, f);
  }

  lemma Slide(x: string, piece: string, rest: string)
    ensures x + (piece + "$" + rest) == x + piece + "$" + rest
  {
  }

  lemma ParamsSlide(x: string, m: string, t: string, k: string)
    ensures x + "$m=" + m + ",t=" + t + ",p=" + k == x + "$" + ("m=" + m + ",t=" + t + ",p=" + k)
  {
    assert "$m=" == "$" + "m=";
    Associates(x, "$", "m=");
    var y := x + "$";
    Associates(y, "m=", m);
    Associates(y, "m=" + m, ",t=");
    Associates(y, "m=" + m + ",t=", t);
    Associates(y, "m=" + m + ",t=" + t, ",p=");
    Associates(y, "m=" + m + ",t=" + t + ",p=", k);
  }

  lemma PrintIsJoined(p: Params, salt: seq<Byte>, key: seq<Byte>)
    ensures Print(p, salt, key) == Join(PrintFields(p, salt, key), '$')
  {
    var v := Format(ARGON2_VERSION);
    var head := "" + "$" + "argon2id" + "$" + ("v=" + v);
    assert "$argon2id$v=" == "" + "$" + "argon2id" + "$" + "v=";
    Associates("" + "$" + "argon2id" + "$", "v=", v);
    ParamsSlide(head, Format(p.memory), Format(p.time), Format(p.threads));
    JoinOfSix("", "argon2id", "v=" + v, ParamsField(p), Encode(salt), Encode(key));
  }

  lemma PrintedFields(p: Params, salt: seq<Byte>, key: seq<Byte>)
    ensures Split(Print(p, salt, key), '$') == PrintFields(p, salt, key)
  {
    NoDollarInConcat("v=", Format(ARGON2_VERSION));
    NoDollarInParams(p);
    assert NoDollar(Encode(salt)) && NoDollar(Encode(key));
    PrintIsJoined(p, salt, key);
    SplitOfJoin(PrintFields(p, salt, key), '$');
  }

  predicate Usable(p: Params, salt: seq<Byte>, key: seq<Byte>) {
    p.memory > 0 && p.time > 0 && p.threads > 0 && salt != [] && key != []
  }

  lemma DecodeOfReadableFields(version: string, costs: string, saltText: string, keyText: string,
                               p: Params, salt: seq<Byte>, key: seq<Byte>)
    requires ScanVersion(version) == Some(ARGON2_VERSION) && ScanParams(costs) == Some(p)
    requires Decode(saltText) == Some(salt) && Decode(keyText) == Some(key)
    requires |salt| < UINT32 && |key| < UINT32
    ensures var d := DecodeFields(version, costs, saltText, keyText);
            if Usable(p, salt, key) then d == Ok(Decoded(p.(saltLen := |salt|, keyLen := |key|), salt, key))
            else d.Err?
  {
  }

  /** For every parameter set the fields can hold: the printed string parses exactly when no cost is zero and
      neither the salt nor the key is empty, and then to the same parameters, salt and key, with the salt's
      and the key's own lengths. */
  lemma DecodeOfPrint(p: Params, salt: seq<Byte>, key: seq<Byte>)
    requires Representable(p) && |salt| < UINT32 && |key| < UINT32
    ensures DecodeHash(Print(p, salt, key)).Ok? <==> Usable(p, salt, key)
    ensures Usable(p, salt, key) ==>
              DecodeHash(Print(p, salt, key)) == Ok(Decoded(p.(saltLen := |salt|, keyLen := |key|), salt, key))
  {
    PrintedFields(p, salt, key);
    ScanVersionOfPrint();
    ScanParamsOfPrint(p);
    DecodeOfEncode(salt);
    DecodeOfEncode(key);
    DecodeOfReadableFields("v=" + Format(ARGON2_VERSION), ParamsField(p), Encode(salt), Encode(key),
                           p.(saltLen := 0, keyLen := 0), salt, key);
  }

  /** Whatever DecodeHash accepts, from wherever it came, has costs in range and lengths that are the
      lengths of what was decoded. */
  lemma DecodeAcceptsOnlyUsable(encoded: string)
    requires DecodeHash(encoded).Ok?
    ensures var d := DecodeHash(encoded).value;
            && Representable(d.params) && Usable(d.params, d.salt, d.key)
            && d.params.saltLen == Truncated(|d.salt|) && d.params.keyLen == Truncated(|d.key|)
  {
  }

  // ----- hashing and verifying -----

  /** argon2.IDKey, uninterpreted: password, salt, time, memory, threads, key length. */
  type KeyFunction = (string, seq<Byte>, nat, nat, nat, nat) -> seq<Byte>

  function Derive(argon: KeyFunction, password: string, salt: seq<Byte>, p: Params): seq<Byte> {
    argon(password, salt, p.time, p.memory, p.threads, p.keyLen)
  }

  /** hashWith, given the salt it drew. */
  function HashWith(argon: KeyFunction, password: string, p: Params, salt: seq<Byte>): string {
    Print(p, salt, Derive(argon, password, salt, p))
  }

  function VerifyPassword(argon: KeyFunction, encoded: string, password: string): Result<()> {
    var d := DecodeHash(encoded);
    if d.Err? then Err(d.error)
    else if Derive(argon, password, d.value.salt, d.value.params) != d.value.key then Err(Mismatch)
    else Ok(())
  }

  /** A hash written under any usable parameters, not only the current ones, keeps the key derived from the password,
      its salt and those parameters, and verifies exactly the passwords from which the same key is derived: in
      particular the one it was made from. */
  lemma VerifyOfHash(argon: KeyFunction, password: string, p: Params, salt: seq<Byte>, guess: string)
    requires Representable(p) && p.memory > 0 && p.time > 0 && p.threads > 0
    requires 0 < p.saltLen < UINT32 && |salt| == p.saltLen
    requires 0 < p.keyLen < UINT32 && |argon(password, salt, p.time, p.memory, p.threads, p.keyLen)| == p.keyLen
    ensures var key := argon(password, salt, p.time, p.memory, p.threads, p.keyLen);
            var encoded := HashWith(argon, password, p, salt);
            && DecodeHash(encoded) == Ok(Decoded(p, salt, key))
            && VerifyPassword(argon, encoded, guess)
               == (if argon(guess, salt, p.time, p.memory, p.threads, p.keyLen) == key then Ok(()) else Err(Mismatch))
  {
    DecodeOfPrint(p, salt, argon(password, salt, p.time, p.memory, p.threads, p.keyLen));
  }

  /** A string that is not a hash lets nobody in; one that is, exactly those from whose password its key is derived. */
  lemma VerifyExactlyWhen(argon: KeyFunction, encoded: string, guess: string)
    ensures VerifyPassword(argon, encoded, guess) == Ok(()) <==>
              && DecodeHash(encoded).Ok?
              && var d := DecodeHash(encoded).value;
                 argon(guess, d.salt, d.params.time, d.params.memory, d.params.threads, Truncated(|d.key|)) == d.key
    ensures DecodeHash(encoded).Err? ==> VerifyPassword(argon, encoded, guess) == Err(DecodeHash(encoded).error)
  {
    if DecodeHash(encoded).Ok? { DecodeAcceptsOnlyUsable(encoded); }
  }

  // ----- the hash of a new password -----

  const MIN_PASSWORD_LENGTH: nat := 8
  const MAX_PASSWORD_LENGTH: nat := 1024

  const DEFAULT_PARAMS: Params := Params(9 * 1024, 4, 1, 16, 32)

  /** HashPassword, given the salt it drew. */
  function HashPassword(argon: KeyFunction, password: string, salt: seq<Byte>): Result<string> {
    if |password| < MIN_PASSWORD_LENGTH || |password| > MAX_PASSWORD_LENGTH then Err(Weak)
    else Ok(HashWith(argon, password, DEFAULT_PARAMS, salt))
  }

  /** Passwords of eight to 1024 bytes are hashed, and the hash lets in whoever derives the same key. */
  lemma HashedPasswordVerifies(argon: KeyFunction, password: string, salt: seq<Byte>, guess: string)
    requires |salt| == 16 && |argon(password, salt, 4, 9216, 1, 32)| == 32
    ensures var r := HashPassword(argon, password, salt);
            if 8 <= |password| <= 1024 then
              r.Ok?
              && VerifyPassword(argon, r.value, guess)
                 == (if argon(guess, salt, 4, 9216, 1, 32) == argon(password, salt, 4, 9216, 1, 32) then Ok(())
                     else Err(Mismatch))
            else r == Err(Weak)
  {
    VerifyOfHash(argon, password, DEFAULT_PARAMS, salt, guess);
  }
}
