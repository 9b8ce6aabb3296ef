/** Administrator passwords: the PBKDF2 loop nest against section 5.2 of RFC 8018, the comparison that
    accumulates differences, and the stored hash format. The pseudorandom function (HMAC-SHA-256 in
    the program) and base64url are parameters. */
module Password {
  import opened Text
  import opened Bits
  import opened Utf8
  import Auth
  import Xau1

  const HASH_BYTES: nat := 32
  const TWO32: nat := 0x1_0000_0000
  const ADMIN_PASSWORD_SCHEME := "pbkdf2-sha256"
  const ADMIN_PASSWORD_ITERATIONS: nat := 120_000

  type Prf = (seq<byte>, seq<byte>) -> seq<byte>

  ghost predicate IsPrf(prf: Prf) {
    forall key, text :: |prf(key, text)| == HASH_BYTES
  }

  function XorByte(a: byte, b: byte): (r: byte)
    ensures r == Xor(a, b)
  {
    XorBound(a, b, 8);
    Xor(a, b)
  }

  // ---------------------------------------------------------------- RFC 8018, section 5.2

  /** U_j of block i. */
  ghost function Chain(prf: Prf, password: seq<byte>, salt: seq<byte>, i: nat, j: nat): seq<byte>
    requires 1 <= i < TWO32 && j >= 1
  {
    if j == 1 then prf(password, salt + Xau1.U32(i)) else prf(password, Chain(prf, password, salt, i, j - 1))
  }

  function XorBytes(a: seq<byte>, b: seq<byte>): (r: seq<byte>)
    requires |a| == |b|
    ensures |r| == |a|
  {
    seq(|a|, k requires 0 <= k < |a| => XorByte(a[k], b[k]))
  }

  /** F(P, S, c, i) = U_1 xor U_2 xor ... xor U_c. */
  ghost function Block(prf: Prf, password: seq<byte>, salt: seq<byte>, c: nat, i: nat): (r: seq<byte>)
    requires IsPrf(prf) && 1 <= i < TWO32 && c >= 1
    ensures |r| == HASH_BYTES
  {
    if c == 1 then Chain(prf, password, salt, i, 1)
    else XorBytes(Block(prf, password, salt, c - 1, i), Chain(prf, password, salt, i, c))
  }

  ghost function Blocks(prf: Prf, password: seq<byte>, salt: seq<byte>, c: nat, l: nat): (r: seq<byte>)
    requires IsPrf(prf) && l < TWO32 && c >= 1
    ensures |r| == HASH_BYTES * l
  {
    if l == 0 then [] else Blocks(prf, password, salt, c, l - 1) + Block(prf, password, salt, c, l)
  }

  function BlockCount(length: nat): (l: nat)
    ensures HASH_BYTES * l >= length && (l > 0 ==> HASH_BYTES * (l - 1) < length)
  {
    (length + 31) / 32
  }

  /** The standard's function: it refuses to derive more than 2^32 - 1 blocks. */
  ghost function Rfc8018(prf: Prf, password: seq<byte>, salt: seq<byte>, c: nat, length: nat): Result<seq<byte>, string>
    requires IsPrf(prf) && c >= 1 && length >= 1
  {
    if length > (TWO32 - 1) * HASH_BYTES then Err("derived key too long")
    else Ok(Blocks(prf, password, salt, c, BlockCount(length))[..length])
  }

  // ---------------------------------------------------------------- the program

  /** The program writes the block number truncated to 32 bits. */
  ghost function FirstOf(prf: Prf, password: seq<byte>, salt: seq<byte>, i: nat): seq<byte> {
    prf(password, salt + Xau1.U32(i % TWO32))
  }

  ghost function ChainOf(prf: Prf, password: seq<byte>, salt: seq<byte>, i: nat, j: nat): seq<byte>
    requires j >= 1
  {
    if j == 1 then FirstOf(prf, password, salt, i) else prf(password, ChainOf(prf, password, salt, i, j - 1))
  }

  ghost function BlockOf(prf: Prf, password: seq<byte>, salt: seq<byte>, c: nat, i: nat): (r: seq<byte>)
    requires IsPrf(prf) && c >= 1
    ensures |r| == HASH_BYTES
  {
    if c == 1 then ChainOf(prf, password, salt, i, 1)
    else XorBytes(BlockOf(prf, password, salt, c - 1, i), ChainOf(prf, password, salt, i, c))
  }

  ghost function BlocksOf(prf: Prf, password: seq<byte>, salt: seq<byte>, c: nat, l: nat): (r: seq<byte>)
    requires IsPrf(prf) && c >= 1
    ensures |r| == HASH_BYTES * l
  {
    if l == 0 then [] else BlocksOf(prf, password, salt, c, l - 1) + BlockOf(prf, password, salt, c, l)
  }

  ghost function Derived(prf: Prf, password: seq<byte>, salt: seq<byte>, c: nat, length: nat): Result<seq<byte>, string>
    requires IsPrf(prf)
  {
    if c == 0 || length == 0 then Err("invalid pbkdf2 parameters")
    else Ok(BlocksOf(prf, password, salt, c, BlockCount(length))[..length])
  }

  /** block[k] ^= u[k] for every k. */
  method XorInto(block: array<byte>, u: seq<byte>)
    requires block.Length == |u|
    modifies block
    ensures block[..] == XorBytes(old(block[..]), u)
  {
    hide XorByte, Xor;
    for k := 0 to block.Length
      invariant forall j :: 0 <= j < k ==> block[j] == XorByte(old(block[j]), u[j])
      invariant forall j :: k <= j < block.Length ==> block[j] == old(block[j])
    {
      block[k] := XorByte(block[k], u[k]);
    }
  }

  method DeriveBlock(prf: Prf, password: seq<byte>, salt: seq<byte>, iterations: nat, blockIndex: nat)
    returns (r: seq<byte>)
    requires IsPrf(prf) && iterations >= 1
    ensures r == BlockOf(prf, password, salt, iterations, blockIndex)
  {
    hide XorBytes;
    var u := prf(password, salt + Xau1.U32(blockIndex % TWO32));
    var block := new byte[|u|](k requires 0 <= k < |u| => u[k]);
    assert block[..] == u;
    for j := 1 to iterations
      invariant fresh(block) && block.Length == HASH_BYTES
      invariant u == ChainOf(prf, password, salt, blockIndex, j)
      invariant block[..] == BlockOf(prf, password, salt, j, blockIndex)
    {
      u := prf(password, u);
      XorInto(block, u);
    }
    r := block[..];
  }

  method Pbkdf2HmacSha256(prf: Prf, password: seq<byte>, salt: seq<byte>, iterations: nat, outputLen: nat)
    returns (r: Result<seq<byte>, string>)
    requires IsPrf(prf)
    ensures r == Derived(prf, password, salt, iterations, outputLen)
  {
    if iterations == 0 || outputLen == 0 {
      return Err("invalid pbkdf2 parameters");
    }
    var output: seq<byte> := [];
    var blocks := BlockCount(outputLen);
    for blockIndex := 1 to blocks + 1
      invariant output == BlocksOf(prf, password, salt, iterations, blockIndex - 1)
    {
      var block := DeriveBlock(prf, password, salt, iterations, blockIndex);
      output := output + block;
    }
    r := Ok(output[..outputLen]);
  }

  // ---------------------------------------------------------------- the program against the standard

  lemma {:induction false} ChainIsStandard(prf: Prf, password: seq<byte>, salt: seq<byte>, i: nat, j: nat)
    requires 1 <= i < TWO32 && j >= 1
    ensures ChainOf(prf, password, salt, i, j) == Chain(prf, password, salt, i, j)
  {
    if j > 1 {
      ChainIsStandard(prf, password, salt, i, j - 1);
    }
  }

  lemma {:induction false} BlockIsStandard(prf: Prf, password: seq<byte>, salt: seq<byte>, c: nat, i: nat)
    requires IsPrf(prf) && 1 <= i < TWO32 && c >= 1
    ensures BlockOf(prf, password, salt, c, i) == Block(prf, password, salt, c, i)
  {
    ChainIsStandard(prf, password, salt, i, c);
    if c > 1 {
      BlockIsStandard(prf, password, salt, c - 1, i);
    }
  }

  lemma {:induction false} BlocksAreStandard(prf: Prf, password: seq<byte>, salt: seq<byte>, c: nat, l: nat)
    requires IsPrf(prf) && l < TWO32 && c >= 1
    ensures BlocksOf(prf, password, salt, c, l) == Blocks(prf, password, salt, c, l)
  {
    if l > 0 {
      BlocksAreStandard(prf, password, salt, c, l - 1);
      BlockIsStandard(prf, password, salt, c, l);
    }
  }

  /** The program computes the standard's function exactly when the length is one the standard allows. */
  lemma DerivedMeetsStandard(prf: Prf, password: seq<byte>, salt: seq<byte>, c: nat, length: nat)
    requires IsPrf(prf) && c >= 1 && length >= 1
    ensures Derived(prf, password, salt, c, length) == Rfc8018(prf, password, salt, c, length)
      <==> length <= (TWO32 - 1) * HASH_BYTES
  {
    if length <= (TWO32 - 1) * HASH_BYTES {
      BlocksAreStandard(prf, password, salt, c, BlockCount(length));
    }
  }

  /** Beyond the standard's limit the program goes on, and its output repeats: block 2^32 + i is block i. */
  lemma {:induction false} BlocksRepeat(prf: Prf, password: seq<byte>, salt: seq<byte>, c: nat, i: nat)
    requires IsPrf(prf) && c >= 1
    ensures BlockOf(prf, password, salt, c, TWO32 + i) == BlockOf(prf, password, salt, c, i)
  {
    ChainRepeats(prf, password, salt, i, c);
    if c > 1 {
      BlocksRepeat(prf, password, salt, c - 1, i);
    }
  }

  lemma {:induction false} ChainRepeats(prf: Prf, password: seq<byte>, salt: seq<byte>, i: nat, j: nat)
    requires j >= 1
    ensures ChainOf(prf, password, salt, TWO32 + i, j) == ChainOf(prf, password, salt, i, j)
  {
    if j > 1 {
      ChainRepeats(prf, password, salt, i, j - 1);
    } else {
      assert (TWO32 + i) % TWO32 == i % TWO32;
    }
  }

  // ---------------------------------------------------------------- comparing

  function ByteAt(s: seq<byte>, k: nat): byte {
    if k < |s| then s[k] else 0
  }

  /** True exactly for equal byte strings, whatever their lengths. */
  method ConstantTimeEq(left: seq<byte>, right: seq<byte>) returns (equal: bool)
    ensures equal <==> left == right
  {
    hide Xor, Or;
    var maxLen := if |left| >= |right| then |left| else |right|;
    var diff: nat := Xor(|left|, |right|);
    XorIsZero(|left|, |right|);
    for k := 0 to maxLen
      invariant diff == 0 <==> |left| == |right| && forall j :: 0 <= j < k ==> ByteAt(left, j) == ByteAt(right, j)
    {
      XorIsZero(ByteAt(left, k), ByteAt(right, k));
      OrIsZero(diff, Xor(ByteAt(left, k), ByteAt(right, k)));
      diff := Or(diff, Xor(ByteAt(left, k), ByteAt(right, k)));
    }
    equal := diff == 0;
    if equal {
      assert forall j :: 0 <= j < |left| ==> ByteAt(left, j) == left[j] && ByteAt(right, j) == right[j];
    }
  }

  // ---------------------------------------------------------------- stored hashes

  /** The library functions a stored hash depends on. */
  datatype Library = Library(
    prf: Prf,
    utf8: string -> seq<byte>,
    encode64: seq<byte> -> string,
    decode64: string -> Option<seq<byte>>)

  ghost predicate LibraryLaws(lib: Library) {
    && IsPrf(lib.prf)
    && forall bytes :: lib.decode64(lib.encode64(bytes)) == Some(bytes) && '$' !in lib.encode64(bytes)
  }

  function PasswordAllowed(password: string): bool {
    8 <= |password| <= 128
  }

  function StoredHash(iterations: string, salt: string, digest: string): string {
    ADMIN_PASSWORD_SCHEME + "$" + iterations + "$" + salt + "$" + digest
  }

  lemma IterationsText()
    ensures Decimal(ADMIN_PASSWORD_ITERATIONS) == "120000"
    ensures forall salt: string, digest: string ::
      StoredHash("120000", salt, digest) == "pbkdf2-sha256$120000$" + salt + "$" + digest
  {
    assert Decimal(12) == "12" && Decimal(120) == "120";
    assert Decimal(1200) == Decimal(120) + "0";
    assert Decimal(12000) == Decimal(1200) + "0";
    assert Decimal(120000) == Decimal(12000) + "0";
    forall salt: string, digest: string
      ensures StoredHash("120000", salt, digest) == "pbkdf2-sha256$120000$" + salt + "$" + digest
    {
      assert "pbkdf2-sha256" + "$" + "120000" + "$" == "pbkdf2-sha256$120000$";
    }
  }

  /** `salt` is what the random generator returned. */
  method HashAdminPassword(lib: Library, password: string, salt: seq<byte>) returns (r: Result<string, string>)
    requires LibraryLaws(lib)
    ensures r.Ok? <==> 8 <= |password| <= 128
    ensures r.Err? ==> r.error == "invalid_password"
    ensures r.Ok? ==>
      r.value == "pbkdf2-sha256$120000$" + lib.encode64(salt) + "$"
                 + lib.encode64(Derived(lib.prf, lib.utf8(password), salt, 120_000, 32).value)
    ensures r.Ok? ==>
      r.value == StoredHash(Decimal(ADMIN_PASSWORD_ITERATIONS), lib.encode64(salt),
                            lib.encode64(Derived(lib.prf, lib.utf8(password), salt, ADMIN_PASSWORD_ITERATIONS, 32).value))
  {
    hide BlocksOf, Decimal;
    IterationsText();
    if !PasswordAllowed(password) {
      return Err("invalid_password");
    }
    var derived := Pbkdf2HmacSha256(lib.prf, lib.utf8(password), salt, ADMIN_PASSWORD_ITERATIONS, 32);
    r := Ok(StoredHash(Decimal(ADMIN_PASSWORD_ITERATIONS), lib.encode64(salt), lib.encode64(derived.value)));
  }

  /** The decision of the check on every stored text. */
  ghost function Verified(lib: Library, password: string, encoded: string): Result<bool, string>
    requires LibraryLaws(lib)
  {
    var parts := Split(encoded, '$');
    if |parts| != 4 || parts[0] != ADMIN_PASSWORD_SCHEME then Ok(false)
    else if ParseUnsigned(parts[1], TWO32 - 1).None? then Err("invalid admin password hash")
    else if lib.decode64(parts[2]).None? then Err("invalid admin password salt")
    else if lib.decode64(parts[3]).None? then Err("invalid admin password digest")
    else
      var expected := lib.decode64(parts[3]).value;
      match Derived(lib.prf, lib.utf8(password), lib.decode64(parts[2]).value,
                    ParseUnsigned(parts[1], TWO32 - 1).value, |expected|)
      case Ok(actual) => Ok(actual == expected)
      case Err(error) => Err(error)
  }

  method VerifyAdminPassword(lib: Library, password: string, encoded: string) returns (r: Result<bool, string>)
    requires LibraryLaws(lib)
    ensures r == Verified(lib, password, encoded)
  {
    hide BlocksOf, Split;
    var parts := Split(encoded, '$');
    if |parts| != 4 || parts[0] != ADMIN_PASSWORD_SCHEME {
      return Ok(false);
    }
    var iterations := ParseUnsigned(parts[1], TWO32 - 1);
    if iterations.None? {
      return Err("invalid admin password hash");
    }
    var salt := lib.decode64(parts[2]);
    if salt.None? {
      return Err("invalid admin password salt");
    }
    var expected := lib.decode64(parts[3]);
    if expected.None? {
      return Err("invalid admin password digest");
    }
    var actual := Pbkdf2HmacSha256(lib.prf, lib.utf8(password), salt.value, iterations.value, |expected.value|);
    if actual.Err? {
      return Err(actual.error);
    }
    var equal := ConstantTimeEq(actual.value, expected.value);
    r := Ok(equal);
  }

  lemma StoredHashParts(iterations: string, salt: string, digest: string)
    requires '$' !in iterations && '$' !in salt && '$' !in digest
    ensures Split(StoredHash(iterations, salt, digest), '$') == [ADMIN_PASSWORD_SCHEME, iterations, salt, digest]
  {
    var parts := [ADMIN_PASSWORD_SCHEME, iterations, salt, digest];
    assert parts[3..] == [digest] && Join(parts[3..], '$') == digest;
    assert parts[2..][1..] == parts[3..];
    assert Join(parts[2..], '$') == salt + "$" + digest;
    assert parts[1..][1..] == parts[2..];
    assert Join(parts[1..], '$') == iterations + "$" + (salt + "$" + digest);
    assert Join(parts, '$') == ADMIN_PASSWORD_SCHEME + "$" + (iterations + "$" + (salt + "$" + digest));
    assert StoredHash(iterations, salt, digest) == Join(parts, '$');
    SplitJoin(parts, '$');
  }

  /** A stored hash accepts exactly the passwords with the same derived key; in particular always the
      password it was made from. */
  lemma StoredHashVerifies(lib: Library, password: string, salt: seq<byte>, attempt: string)
    requires LibraryLaws(lib)
    ensures
      var n := ADMIN_PASSWORD_ITERATIONS;
      var key := Derived(lib.prf, lib.utf8(password), salt, n, 32).value;
      var stored := StoredHash(Decimal(n), lib.encode64(salt), lib.encode64(key));
      && Verified(lib, attempt, stored) == Ok(Derived(lib.prf, lib.utf8(attempt), salt, n, 32).value == key)
      && Verified(lib, password, stored) == Ok(true)
  {
    hide BlocksOf, Split, Decimal, StoredHash;
    var n := ADMIN_PASSWORD_ITERATIONS;
    var key := Derived(lib.prf, lib.utf8(password), salt, n, 32).value;
    DecimalNotIn(n, '$');
    StoredHashParts(Decimal(n), lib.encode64(salt), lib.encode64(key));
    ParseDecimal(n, TWO32 - 1);
  }

  /** The stored text has the four parts, and its digest is the key derived with its salt and iterations. */
  ghost predicate StoredFor(lib: Library, password: string, encoded: string, iterations: string, salt: string, digest: string)
    requires LibraryLaws(lib)
  {
    && '$' !in iterations && '$' !in salt && '$' !in digest
    && encoded == "pbkdf2-sha256$" + iterations + "$" + salt + "$" + digest
    && ParseUnsigned(iterations, 0xFFFF_FFFF).Some? && lib.decode64(salt).Some? && lib.decode64(digest).Some?
    && Derived(lib.prf, lib.utf8(password), lib.decode64(salt).value, ParseUnsigned(iterations, 0xFFFF_FFFF).value,
               |lib.decode64(digest).value|) == Ok(lib.decode64(digest).value)
  }

  /** A stored text accepts a password exactly when it is of this form; a text of another scheme or with
      another number of parts is refused without an error. */
  lemma AcceptedExactly(lib: Library, password: string, encoded: string)
    requires LibraryLaws(lib)
    ensures Verified(lib, password, encoded) == Ok(true)
      <==> exists iterations, salt, digest :: StoredFor(lib, password, encoded, iterations, salt, digest)
    ensures Verified(lib, password, encoded).Err? ==>
      |Split(encoded, '$')| == 4 && Split(encoded, '$')[0] == "pbkdf2-sha256"
  {
    hide BlocksOf, Split, ParseUnsigned, Derived;
    var parts := Split(encoded, '$');
    if |parts| == 4 && parts[0] == ADMIN_PASSWORD_SCHEME {
      PartsOf(encoded);
      assert Verified(lib, password, encoded) == Ok(true) ==> StoredFor(lib, password, encoded, parts[1], parts[2], parts[3]);
    }
    forall iterations, salt, digest | StoredFor(lib, password, encoded, iterations, salt, digest)
      ensures Verified(lib, password, encoded) == Ok(true)
    {
      StoredHashParts(iterations, salt, digest);
      SchemeFirst(iterations, salt, digest);
    }
  }

  lemma SchemeFirst(iterations: string, salt: string, digest: string)
    ensures StoredHash(iterations, salt, digest) == "pbkdf2-sha256$" + iterations + "$" + salt + "$" + digest
  {
    assert "pbkdf2-sha256" + "$" == "pbkdf2-sha256$";
  }

  lemma JoinFour(parts: seq<string>)
    requires |parts| == 4
    ensures Join(parts, '$') == parts[0] + "$" + parts[1] + "$" + parts[2] + "$" + parts[3]
  {
    assert parts[3..] == [parts[3]] && Join(parts[3..], '$') == parts[3];
    assert parts[2..][1..] == parts[3..];
    assert Join(parts[2..], '$') == parts[2] + "$" + parts[3];
    assert parts[1..][1..] == parts[2..];
    assert Join(parts[1..], '$') == parts[1] + "$" + (parts[2] + "$" + parts[3]);
    assert Join(parts, '$') == parts[0] + "$" + (parts[1] + "$" + (parts[2] + "$" + parts[3]));
  }

  lemma PartsOf(encoded: string)
    requires |Split(encoded, '$')| == 4
    ensures
      var parts := Split(encoded, '$');
      && '$' !in parts[1] && '$' !in parts[2] && '$' !in parts[3]
      && (parts[0] == "pbkdf2-sha256" ==> encoded == "pbkdf2-sha256$" + parts[1] + "$" + parts[2] + "$" + parts[3])
  {
    hide Split, Join;
    var parts := Split(encoded, '$');
    JoinSplit(encoded, '$');
    JoinFour(parts);
    Auth.PartsHoldNoSeparator(encoded, '$');
    assert parts[1] in parts && parts[2] in parts && parts[3] in parts;
    assert "pbkdf2-sha256" + "$" == "pbkdf2-sha256$";
  }
}
