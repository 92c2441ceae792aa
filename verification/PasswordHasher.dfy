/**
 Passwords: what registration stores and what login checks. The inner hash round is any deterministic
 function, and the salt is whatever the generator returned.
 */
module PasswordHasher {
  import opened Wrappers
  import opened Bits

  datatype HexError = InvalidLength

  /** A row of the users table */
  datatype Credentials = Credentials(passwordHash: string, salt: string)

  const DIGITS := "0123456789abcdef"

  predicate IsHexDigit(c: char) { '0' <= c <= '9' || 'a' <= c <= 'f' || 'A' <= c <= 'F' }

  predicate AllHex(hex: string) { forall i :: 0 <= i < |hex| ==> IsHexDigit(hex[i]) }

  predicate IsLowerHexDigit(c: char) { '0' <= c <= '9' || 'a' <= c <= 'f' }

  predicate AllLowerHex(hex: string) { forall i :: 0 <= i < |hex| ==> IsLowerHexDigit(hex[i]) }

  function HexValue(c: char): (v: nat)
    requires IsHexDigit(c)
    ensures v < 16
  {
    if c <= '9' then (c - '0') as nat
    else if c <= 'F' then (c - 'A') as nat + 10
    else (c - 'a') as nat + 10
  }

  /** The two base-16 digits of `16 * high + rest`. */
  function HexDigits(high: nat, rest: nat): (hex: string)
    requires 16 * high + rest < 256
    ensures |hex| == 2 && AllHex(hex) && AllLowerHex(hex)
    decreases rest
  {
    if rest < 16 then [DIGITS[high], DIGITS[rest]] else HexDigits(high + 1, rest - 16)
  }

  /** A byte in base 16, with a zero in front when it has one digit. */
  function HexOfByte(b: Byte): (hex: string)
    ensures |hex| == 2 && AllHex(hex) && AllLowerHex(hex)
  {
    HexDigits(0, b)
  }

  function HexOf(data: Bytes): (hex: string)
    ensures |hex| == 2 * |data| && AllHex(hex) && AllLowerHex(hex)
  {
    if data == [] then "" else HexOf(data[..|data| - 1]) + HexOfByte(data[|data| - 1])
  }

  method ToHex(data: Bytes) returns (hex: string)
    ensures hex == HexOf(data)
  {
    hex := "";
    for n := 0 to |data|
      invariant hex == HexOf(data[..n])
    {
      assert data[..n + 1][..n] == data[..n];
      hex := hex + HexOfByte(data[n]);
    }
    assert data[..|data|] == data;
  }

  function ByteOf(high: char, low: char): Byte
    requires IsHexDigit(high) && IsHexDigit(low)
  {
    HexValue(high) * 16 + HexValue(low)
  }

  /**
   What reading a byte yields once the stream has been given a character that is no hex digit. The stream
   is used for the whole string, so this may depend on everything written to it so far.
   */
  type Stream = string -> Byte

  /** The bytes that the pairs of digits stand for; from the first malformed pair on, what the stream yields. */
  function BytesOf(hex: string, stream: Stream): (bytes: Bytes)
    ensures |bytes| == |hex| / 2
  {
    if |hex| < 2 then []
    else
      BytesOf(hex[..|hex| - 2], stream)
      + [if AllHex(hex) then ByteOf(hex[|hex| - 2], hex[|hex| - 1]) else stream(hex)]
  }

  method FromHex(hex: string, stream: Stream) returns (result: Result<Bytes, HexError>)
    ensures result.Err? <==> |hex| % 2 != 0
    ensures result.Ok? ==> result.value == BytesOf(hex, stream)
  {
    if |hex| % 2 != 0 {
      return Err(InvalidLength);
    }
    var bytes: Bytes := [];
    var i := 0;
    while i < |hex|
      invariant 0 <= i <= |hex| && i % 2 == 0
      invariant bytes == BytesOf(hex[..i], stream)
    {
      var written := hex[..i + 2];
      assert written[..i] == hex[..i];
      var byteValue := if AllHex(written) then ByteOf(written[i], written[i + 1]) else stream(written);
      bytes := bytes + [byteValue];
      i := i + 2;
    }
    assert hex[..i] == hex;
    result := Ok(bytes);
  }

  /** The comparison looks at every byte before it answers. */
  method ConstantTimeCompare(a: Bytes, b: Bytes) returns (equal: bool)
    ensures equal <==> a == b
  {
    if |a| != |b| {
      return false;
    }
    var result := 0;
    for n := 0 to |a|
      invariant result == 0 <==> a[..n] == b[..n]
    {
      XorBitsZero(a[n], b[n]);
      OrBitsZero(result, XorBits(a[n], b[n]));
      assert a[..n + 1] == a[..n] + [a[n]] && b[..n + 1] == b[..n] + [b[n]];
      result := OrBits(result, XorBits(a[n], b[n]));
    }
    assert a[..|a|] == a && b[..|b|] == b;
    equal := result == 0;
  }

  type Round = (Bytes, nat) -> Bytes

  function Slow(round: Round, input: Bytes, iterations: nat): Bytes {
    if iterations == 0 then input else round(Slow(round, input, iterations - 1), iterations - 1)
  }

  /** A hash for each number up to the iteration count: the first is the input, `round` leads to the next. */
  ghost predicate IsTrace(round: Round, input: Bytes, iterations: nat, trace: seq<Bytes>) {
    && |trace| == iterations + 1 && trace[0] == input
    && forall i :: 0 <= i < iterations ==> trace[i + 1] == round(trace[i], i)
  }

  lemma {:induction false} SlowTrace(round: Round, input: Bytes, iterations: nat) returns (trace: seq<Bytes>)
    ensures IsTrace(round, input, iterations, trace) && trace[iterations] == Slow(round, input, iterations)
  {
    if iterations == 0 {
      trace := [input];
    } else {
      trace := SlowTrace(round, input, iterations - 1);
      trace := trace + [round(trace[iterations - 1], iterations - 1)];
    }
  }

  lemma {:induction false} TraceEndsInSlow(round: Round, input: Bytes, iterations: nat, trace: seq<Bytes>)
    requires IsTrace(round, input, iterations, trace)
    ensures trace[iterations] == Slow(round, input, iterations)
  {
    if iterations > 0 {
      TraceEndsInSlow(round, input, iterations - 1, trace[..iterations]);
    }
  }

  method SlowHash(round: Round, input: Bytes, iterations: nat) returns (hash: Bytes)
    ensures hash == Slow(round, input, iterations)
    ensures exists trace :: IsTrace(round, input, iterations, trace) && hash == trace[iterations]
  {
    ghost var trace := SlowTrace(round, input, iterations);
    hash := input;
    for i := 0 to iterations
      invariant hash == Slow(round, input, i)
    {
      hash := round(hash, i);
    }
  }

  method HashPassword(round: Round, password: Bytes, generatedSalt: Bytes, iterations: nat)
    returns (salt: Bytes, hash: Bytes)
    ensures salt == generatedSalt && hash == Slow(round, password + salt, iterations)
  {
    salt := generatedSalt;
    var combined := password + salt;
    hash := SlowHash(round, combined, iterations);
  }

  method VerifyPassword(round: Round, password: Bytes, salt: Bytes, expectedHash: Bytes, iterations: nat)
    returns (ok: bool)
    ensures ok <==> Slow(round, password + salt, iterations) == expectedHash
  {
    var combined := password + salt;
    var actualHash := SlowHash(round, combined, iterations);
    ok := ConstantTimeCompare(actualHash, expectedHash);
  }

  /** What registration stores */
  function Stored(round: Round, password: Bytes, salt: Bytes, iterations: nat): Credentials {
    Credentials(HexOf(Slow(round, password + salt, iterations)), HexOf(salt))
  }

  method Register(round: Round, password: Bytes, generatedSalt: Bytes, iterations: nat) returns (row: Credentials)
    ensures row == Stored(round, password, generatedSalt, iterations)
    ensures row.passwordHash == HexOf(Slow(round, password + generatedSalt, iterations))
    ensures row.salt == HexOf(generatedSalt)
  {
    var salt, hash := HashPassword(round, password, generatedSalt, iterations);
    var hashHex := ToHex(hash);
    var saltHex := ToHex(salt);
    row := Credentials(hashHex, saltHex);
  }

  /** The password check of login, on any row. */
  method Login(round: Round, row: Credentials, password: Bytes, iterations: nat, stream: Stream)
    returns (result: Result<bool, HexError>)
    ensures result.Err? <==> |row.salt| % 2 != 0 || |row.passwordHash| % 2 != 0
    ensures result.Ok? ==>
      (result.value <==>
         Slow(round, password + BytesOf(row.salt, stream), iterations) == BytesOf(row.passwordHash, stream))
  {
    var salt := FromHex(row.salt, stream);
    var hash := FromHex(row.passwordHash, stream);
    if salt.Err? || hash.Err? {
      return Err(InvalidLength);
    }
    var ok := VerifyPassword(round, password, salt.value, hash.value, iterations);
    result := Ok(ok);
  }

  lemma {:induction false} HexDigitsBack(high: nat, rest: nat)
    requires 16 * high + rest < 256
    ensures ByteOf(HexDigits(high, rest)[0], HexDigits(high, rest)[1]) == 16 * high + rest
    decreases rest
  {
    if rest < 16 {
      DigitBack(high);
      DigitBack(rest);
    } else {
      HexDigitsBack(high + 1, rest - 16);
    }
  }

  /** What a digit is worth, in either case. */
  lemma DigitIsWorth(c: char)
    requires IsHexDigit(c)
    ensures c == DIGITS[HexValue(c)] || c == "0123456789ABCDEF"[HexValue(c)]
  {
    if c <= '9' {
      assert HexValue(c) == (c - '0') as nat;
    }
  }

  /** A pair of digits is read as sixteen times the first and the second. */
  lemma {:induction false} BytesAt(hex: string, k: nat, stream: Stream)
    requires 2 * k + 1 < |hex| && |hex| % 2 == 0 && AllHex(hex)
    ensures BytesOf(hex, stream)[k] == 16 * HexValue(hex[2 * k]) + HexValue(hex[2 * k + 1])
  {
    var n := |hex| - 2;
    if 2 * k + 1 < n {
      BytesAt(hex[..n], k, stream);
    }
  }

  /** Byte `k` is written as the digits of its quotient and its remainder by 16. */
  lemma {:induction false} HexAt(data: Bytes, k: nat)
    requires k < |data|
    ensures HexOf(data)[2 * k] == DIGITS[data[k] / 16] && HexOf(data)[2 * k + 1] == DIGITS[data[k] % 16]
  {
    var n := |data| - 1;
    if k < n {
      HexAt(data[..n], k);
    } else {
      HexOfByteIs(data[n]);
    }
  }

  lemma HexOfByteIs(b: Byte)
    ensures HexOfByte(b) == [DIGITS[b / 16], DIGITS[b % 16]]
  {
    HexDigitsOf(0, b, b / 16, b % 16);
  }

  lemma DigitBack(d: nat)
    requires d < 16
    ensures IsHexDigit(DIGITS[d]) && HexValue(DIGITS[d]) == d
  {
  }

  lemma BytesOfAppend(hex: string, pair: string, stream: Stream)
    requires |pair| == 2 && AllHex(hex) && AllHex(pair)
    ensures BytesOf(hex + pair, stream) == BytesOf(hex, stream) + [ByteOf(pair[0], pair[1])]
  {
    assert (hex + pair)[..|hex|] == hex;
    assert AllHex(hex + pair);
  }

  /** Reading back what was written gives every byte string again. */
  lemma {:induction false} HexRoundTrip(data: Bytes, stream: Stream)
    ensures BytesOf(HexOf(data), stream) == data
  {
    if data == [] {
      assert HexOf(data) == "";
    } else {
      var n := |data| - 1;
      HexRoundTrip(data[..n], stream);
      OneByteMore(data[..n], data[n], stream);
      assert data == data[..n] + [data[n]];
    }
  }

  lemma OneByteMore(front: Bytes, b: Byte, stream: Stream)
    requires BytesOf(HexOf(front), stream) == front
    ensures BytesOf(HexOf(front + [b]), stream) == front + [b]
  {
    HexOfAppend(front, b);
    BytesOfAppend(HexOf(front), HexOfByte(b), stream);
    HexDigitsBack(0, b);
  }

  lemma EvenDouble(n: nat)
    ensures 2 * n % 2 == 0
  {
  }

  lemma LastPair(hex: string)
    requires |hex| >= 2 && AllLowerHex(hex)
    ensures var n := |hex| - 2; AllLowerHex(hex[..n]) && hex == hex[..n] + [hex[n], hex[n + 1]]
    ensures IsLowerHexDigit(hex[|hex| - 2]) && IsLowerHexDigit(hex[|hex| - 1])
  {
  }

  lemma {:induction false} LowerHexBack(hex: string, length: nat, stream: Stream)
    requires |hex| == 2 * length && AllLowerHex(hex)
    ensures HexOf(BytesOf(hex, stream)) == hex
  {
    if hex == "" {
      assert BytesOf(hex, stream) == [];
    } else {
      var n := |hex| - 2;
      LastPair(hex);
      LowerHexBack(hex[..n], length - 1, stream);
      OnePairMore(hex[..n], hex[n], hex[n + 1], stream);
    }
  }

  /** And writing what was read gives a string again exactly when it is lower-case hex of even length. */
  lemma {:induction false} BytesRoundTrip(hex: string, stream: Stream)
    ensures HexOf(BytesOf(hex, stream)) == hex <==> |hex| % 2 == 0 && AllLowerHex(hex)
  {
    if |hex| % 2 == 0 && AllLowerHex(hex) {
      LowerHexBack(hex, |hex| / 2, stream);
    }
  }

  lemma {:induction false} OnePairMore(front: string, c: char, d: char, stream: Stream)
    requires AllLowerHex(front) && IsLowerHexDigit(c) && IsLowerHexDigit(d)
    requires HexOf(BytesOf(front, stream)) == front
    ensures HexOf(BytesOf(front + [c, d], stream)) == front + [c, d]
  {
    LowerIsHex(front);
    PairForth(c, d);
    BytesOfAppend(front, [c, d], stream);
    HexOfAppend(BytesOf(front, stream), ByteOf(c, d));
  }

  lemma LowerIsHex(hex: string)
    requires AllLowerHex(hex)
    ensures AllHex(hex)
  {
    forall i | 0 <= i < |hex| ensures IsHexDigit(hex[i]) {
      assert IsLowerHexDigit(hex[i]);
    }
  }

  lemma HexOfAppend(data: Bytes, b: Byte)
    ensures HexOf(data + [b]) == HexOf(data) + HexOfByte(b)
  {
    assert (data + [b])[..|data|] == data;
  }

  lemma PairForth(c: char, d: char)
    requires IsLowerHexDigit(c) && IsLowerHexDigit(d)
    ensures HexOfByte(ByteOf(c, d)) == [c, d]
  {
    DigitForth(c);
    DigitForth(d);
    HexDigitsOf(0, ByteOf(c, d), HexValue(c), HexValue(d));
  }

  lemma {:induction false} HexDigitsOf(high: nat, rest: nat, h: nat, l: nat)
    requires 16 * high + rest == 16 * h + l && high <= h < 16 && l < 16
    ensures HexDigits(high, rest) == [DIGITS[h], DIGITS[l]]
    decreases rest
  {
    if rest >= 16 {
      HexDigitsOf(high + 1, rest - 16, h, l);
    }
  }

  lemma DigitForth(c: char)
    requires IsLowerHexDigit(c)
    ensures DIGITS[HexValue(c)] == c
  {
  }

  /**
   After registration the row can always be read, and login accepts an attempt exactly when its salted
   hash is that of the registered password; in particular it accepts the password itself.
   */
  lemma RegisterThenLogin(round: Round, password: Bytes, attempt: Bytes, salt: Bytes, iterations: nat, stream: Stream)
    ensures var row := Stored(round, password, salt, iterations);
      && |row.passwordHash| % 2 == 0 && |row.salt| % 2 == 0
      && (Slow(round, attempt + BytesOf(row.salt, stream), iterations) == BytesOf(row.passwordHash, stream) <==>
          Slow(round, attempt + salt, iterations) == Slow(round, password + salt, iterations))
      && Slow(round, password + BytesOf(row.salt, stream), iterations) == BytesOf(row.passwordHash, stream)
  {
    EvenDouble(|salt|);
    EvenDouble(|Slow(round, password + salt, iterations)|);
    HexRoundTrip(salt, stream);
    HexRoundTrip(Slow(round, password + salt, iterations), stream);
  }
}
