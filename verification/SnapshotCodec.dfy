/**
  How a snapshot is stored: cut into chunks, written as hex, wrapped in an encryption envelope
  that names the key version, and kept under an index; and what the store's capacity bounds.
*/
module SnapshotCodec {
  import opened Wrappers

  type Byte = b: int | 0 <= b < 256

  // Hex

  function HexDigit(n: int): char
    requires 0 <= n < 16
  {
    "0123456789abcdef"[n]
  }

  function DigitValue(c: char): Option<int> {
    if '0' <= c <= '9' then Some(c as int - '0' as int)
    else if 'a' <= c <= 'f' then Some(c as int - 'a' as int + 10)
    else if 'A' <= c <= 'F' then Some(c as int - 'A' as int + 10)
    else None
  }

  function Hex(data: seq<Byte>): string {
    if data == [] then "" else [HexDigit(data[0] / 16), HexDigit(data[0] % 16)] + Hex(data[1..])
  }

  function FromHex(s: string): Option<seq<Byte>> {
    if s == "" then Some([])
    else if |s| == 1 then None
    else
      match (DigitValue(s[0]), DigitValue(s[1]), FromHex(s[2..]))
      case (Some(high), Some(low), Some(rest)) =>
        if 0 <= high < 16 && 0 <= low < 16 then Some([(16 * high + low) as Byte] + rest) else None
      case _ => None
  }

  lemma {:induction false} HexDigitValue(n: int)
    requires 0 <= n < 16
    ensures DigitValue(HexDigit(n)) == Some(n)
    ensures HexDigit(n) != 'E'
  {
  }

  lemma {:induction false} HexRoundTrip(data: seq<Byte>)
    ensures FromHex(Hex(data)) == Some(data)
    ensures !("ENC:" <= Hex(data))
  {
    if data != [] {
      var high, low := data[0] / 16, data[0] % 16;
      HexDigitValue(high);
      HexDigitValue(low);
      HexRoundTrip(data[1..]);
      assert Hex(data)[2..] == Hex(data[1..]);
      assert 16 * high + low == data[0];
      assert Hex(data)[0] == HexDigit(high) && Hex(data)[1] == HexDigit(low);
      assert [data[0]] + data[1..] == data;
      assert Hex(data)[0] != "ENC:"[0];
    }
  }

  /** The character is a digit of this value: a decimal one, or one of a to f in either case. */
  predicate IsDigit(c: char, value: int) {
    0 <= value < 16 && (c == "0123456789abcdef"[value] || c == "0123456789ABCDEF"[value])
  }

  lemma {:induction false} DigitValueIs(c: char, value: int)
    ensures DigitValue(c) == Some(value) <==> IsDigit(c, value)
  {
  }

  predicate IsHexOf(s: string, data: seq<Byte>) {
    |s| == 2 * |data|
    && forall i :: 0 <= i < |data| ==> IsDigit(s[2 * i], data[i] / 16) && IsDigit(s[2 * i + 1], data[i] % 16)
  }

  lemma {:induction false} IsHexOfTail(s: string, data: seq<Byte>)
    requires |s| >= 2 && data != []
    ensures IsHexOf(s, data)
            <==> IsDigit(s[0], data[0] / 16) && IsDigit(s[1], data[0] % 16) && IsHexOf(s[2..], data[1..])
  {
    if IsDigit(s[0], data[0] / 16) && IsDigit(s[1], data[0] % 16) && IsHexOf(s[2..], data[1..]) {
      forall i | 0 <= i < |data| ensures IsDigit(s[2 * i], data[i] / 16) && IsDigit(s[2 * i + 1], data[i] % 16) {
        if i > 0 {
          assert s[2..][2 * (i - 1)] == s[2 * i] && s[2..][2 * (i - 1) + 1] == s[2 * i + 1];
          assert data[1..][i - 1] == data[i];
        }
      }
    }
    if IsHexOf(s, data) {
      assert IsDigit(s[2 * 0], data[0] / 16) && IsDigit(s[2 * 0 + 1], data[0] % 16);
      forall i | 0 <= i < |data[1..]|
        ensures IsDigit(s[2..][2 * i], data[1..][i] / 16) && IsDigit(s[2..][2 * i + 1], data[1..][i] % 16)
      {
        assert IsDigit(s[2 * (i + 1)], data[i + 1] / 16) && IsDigit(s[2 * (i + 1) + 1], data[i + 1] % 16);
      }
    }
  }

  lemma {:induction false} TwoDigits(high: int, low: int, b: Byte)
    requires 0 <= high < 16 && 0 <= low < 16
    ensures 16 * high + low == b <==> high == b / 16 && low == b % 16
  {
  }

  lemma {:induction false} FromHexPair(s: string, high: int, low: int, rest: seq<Byte>)
    requires |s| >= 2 && IsDigit(s[0], high) && IsDigit(s[1], low) && FromHex(s[2..]) == Some(rest)
    ensures FromHex(s) == Some([16 * high + low] + rest)
  {
    DigitValueIs(s[0], high);
    DigitValueIs(s[1], low);
  }

  lemma {:induction false} FromHexNeeds(s: string)
    requires |s| >= 2 && FromHex(s).Some?
    ensures DigitValue(s[0]).Some? && DigitValue(s[1]).Some? && FromHex(s[2..]).Some?
  {
  }

  lemma {:induction false} FromHexTail(s: string, data: seq<Byte>)
    requires |s| >= 2 && data != []
    ensures FromHex(s) == Some(data)
            <==> IsDigit(s[0], data[0] / 16) && IsDigit(s[1], data[0] % 16) && FromHex(s[2..]) == Some(data[1..])
  {
    if FromHex(s) == Some(data) {
      FromHexNeeds(s);
      var high, low, rest := DigitValue(s[0]).value, DigitValue(s[1]).value, FromHex(s[2..]).value;
      DigitValueIs(s[0], high);
      DigitValueIs(s[1], low);
      FromHexPair(s, high, low, rest);
      assert data[0] == 16 * high + low && data[1..] == rest;
      TwoDigits(high, low, data[0]);
    }
    if IsDigit(s[0], data[0] / 16) && IsDigit(s[1], data[0] % 16) && FromHex(s[2..]) == Some(data[1..]) {
      FromHexPair(s, data[0] / 16, data[0] % 16, data[1..]);
      TwoDigits(data[0] / 16, data[0] % 16, data[0]);
      assert [data[0]] + data[1..] == data;
    }
  }

  /** A text decodes to bytes exactly if it has two digits for each, the high one first. */
  lemma {:induction false} FromHexIff(s: string, data: seq<Byte>)
    ensures FromHex(s) == Some(data) <==> IsHexOf(s, data)
    decreases |s|
  {
    if |s| >= 2 && data != [] {
      FromHexIff(s[2..], data[1..]);
      IsHexOfTail(s, data);
      FromHexTail(s, data);
    }
  }

  // Chunks

  function Cut(data: seq<Byte>, size: nat): seq<seq<Byte>>
    requires size > 0
  {
    if data == [] then []
    else if |data| <= size then [data]
    else [data[..size]] + Cut(data[size..], size)
  }

  /** `[data[i:i+size] for i in range(0, len(data), size)] or [b""]`. */
  function Chunks(data: seq<Byte>, size: nat): seq<seq<Byte>>
    requires size > 0
  {
    if Cut(data, size) == [] then [[]] else Cut(data, size)
  }

  function Concat(parts: seq<seq<Byte>>): seq<Byte> {
    if parts == [] then [] else parts[0] + Concat(parts[1..])
  }

  lemma {:induction false} ChunksJoin(data: seq<Byte>, size: nat)
    requires size > 0
    ensures Concat(Chunks(data, size)) == data && Chunks(data, size) != []
    ensures forall c :: c in Chunks(data, size) ==> |c| <= size
  {
    CutJoins(data, size);
    CutSizes(data, size);
    if data == [] {
      ConcatCons([], []);
    }
  }

  /** Every part but the last has the size, and none is empty. */
  predicate AreFull(parts: seq<seq<Byte>>, size: nat) {
    && (forall i :: 0 <= i < |parts| - 1 ==> |parts[i]| == size)
    && forall i :: 0 <= i < |parts| ==> |parts[i]| > 0
  }

  lemma {:induction false} FullCons(head: seq<Byte>, rest: seq<seq<Byte>>, size: nat)
    requires |head| == size > 0 && AreFull(rest, size)
    ensures AreFull([head] + rest, size)
  {
    var parts := [head] + rest;
    forall i | 0 <= i < |parts| ensures |parts[i]| > 0 && (i < |parts| - 1 ==> |parts[i]| == size) {
      if i > 0 {
        assert parts[i] == rest[i - 1];
      }
    }
  }

  lemma {:induction false} CutIsFull(data: seq<Byte>, size: nat)
    requires size > 0
    ensures AreFull(Cut(data, size), size)
    decreases |data|
  {
    if |data| > size {
      CutIsFull(data[size..], size);
      FullCons(data[..size], Cut(data[size..], size), size);
    }
  }

  /** Every chunk but the last is as long as allowed, and none is empty unless there is nothing to store. */
  lemma {:induction false} ChunksAreFull(data: seq<Byte>, size: nat)
    requires size > 0
    ensures if data == [] then Chunks(data, size) == [[]] else AreFull(Chunks(data, size), size)
  {
    CutIsFull(data, size);
  }

  lemma {:induction false} ConcatCons(head: seq<Byte>, rest: seq<seq<Byte>>)
    ensures Concat([head] + rest) == head + Concat(rest)
  {
    assert ([head] + rest)[1..] == rest;
  }

  lemma {:induction false} CutJoins(data: seq<Byte>, size: nat)
    requires size > 0
    ensures Concat(Cut(data, size)) == data
    decreases |data|
  {
    if |data| > size {
      CutJoins(data[size..], size);
      ConcatCons(data[..size], Cut(data[size..], size));
    } else if data != [] {
      ConcatCons(data, []);
    }
  }

  lemma {:induction false} CutSizes(data: seq<Byte>, size: nat)
    requires size > 0
    ensures forall c :: c in Cut(data, size) ==> |c| <= size
    ensures Cut(data, size) == [] <==> data == []
    decreases |data|
  {
    if |data| > size {
      CutSizes(data[size..], size);
    }
  }

  // Envelopes

  datatype CryptoError = InvalidEnvelope | KeyUnavailable(version: string) | DecryptionFailed | BadHex | ChunksMissing

  /** Authenticated encryption (AES-GCM, section 7 of NIST SP 800-38D); every encryption draws its own nonce. */
  datatype Cipher = Cipher(enc: (string, string, int) -> string, dec: (string, string) -> Option<string>)

  /** Decrypting with the key used gives the plaintext back. */
  ghost predicate Sound(c: Cipher) {
    forall p, s, n :: c.dec(c.enc(p, s, n), s) == Some(p)
  }

  /** A ciphertext carries a nonce and a tag, so it is longer than its plaintext. */
  ghost predicate Shrinks(c: Cipher) {
    forall e, s :: c.dec(e, s).Some? ==> |c.dec(e, s).value| < |e|
  }

  function EncryptIfNeeded(c: Cipher, value: string, secret: string, version: string, nonce: int): string {
    if value == "" || "ENC:" <= value then value
    else "ENC:v" + version + ":" + c.enc(value, secret, nonce)
  }

  /** The part before the first ':' and the part after it. */
  function SplitColon(s: string): Option<(string, string)> {
    if s == "" then None
    else if s[0] == ':' then Some(("", s[1..]))
    else
      match SplitColon(s[1..])
      case None => None
      case Some((marker, encoded)) => Some(([s[0]] + marker, encoded))
  }

  function SelectKey(version: string, secret: string, keyring: map<string, string>): string {
    if version in keyring && keyring[version] != "" then keyring[version]
    else if version == "1" then secret
    else ""
  }

  function Opened(r: Option<string>): Result<string, CryptoError> {
    match r
    case Some(p) => Ok(p)
    case None => Err(DecryptionFailed)
  }

  function DecryptIfNeeded(c: Cipher, value: string, secret: string, keyring: map<string, string>)
    : Result<string, CryptoError>
  {
    if "ENC:v" <= value then
      match SplitColon(value[4..])
      case None => Err(InvalidEnvelope)
      case Some((marker, encoded)) =>
        var version := if "v" <= marker then marker[1..] else marker;
        var selected := SelectKey(version, secret, keyring);
        if selected == "" then Err(KeyUnavailable(version)) else Opened(c.dec(encoded, selected))
    else if "ENC:" <= value then Opened(c.dec(value[4..], secret))
    else Ok(value)
  }

  function Reencrypt(c: Cipher, value: string, legacySecret: string, activeVersion: string,
                     keyring: map<string, string>, nonce: int): Result<string, CryptoError>
  {
    if activeVersion !in keyring || keyring[activeVersion] == "" then Err(KeyUnavailable(activeVersion))
    else
      match DecryptIfNeeded(c, value, legacySecret, keyring)
      case Err(e) => Err(e)
      case Ok(plain) => Ok(EncryptIfNeeded(c, plain, keyring[activeVersion], activeVersion, nonce))
  }

  lemma {:induction false} SplitColonFirst(marker: string, encoded: string)
    requires ':' !in marker
    ensures SplitColon(marker + ":" + encoded) == Some((marker, encoded))
  {
    var s := marker + ":" + encoded;
    if marker != "" {
      assert s[0] == marker[0] && marker[0] in marker;
      assert s[1..] == marker[1..] + ":" + encoded;
      assert [marker[0]] + marker[1..] == marker;
      SplitColonFirst(marker[1..], encoded);
    }
  }

  lemma {:induction false} SplitColonParts(s: string)
    ensures match SplitColon(s)
            case None => ':' !in s
            case Some((marker, encoded)) => s == marker + ":" + encoded && ':' !in marker
  {
    if s != "" && s[0] != ':' {
      SplitColonParts(s[1..]);
      assert s == [s[0]] + s[1..];
    }
  }

  /** An envelope opens with any keyring that still holds the version it names. */
  lemma {:induction false} EnvelopeOpens(c: Cipher, plain: string, key: string, version: string, nonce: int,
                      secret: string, keyring: map<string, string>)
    requires Sound(c) && plain != "" && !("ENC:" <= plain)
    requires ':' !in version && version in keyring && keyring[version] == key && key != ""
    ensures DecryptIfNeeded(c, EncryptIfNeeded(c, plain, key, version, nonce), secret, keyring) == Ok(plain)
  {
    var encoded := c.enc(plain, key, nonce);
    var value := EncryptIfNeeded(c, plain, key, version, nonce);
    assert value == "ENC:" + ("v" + version + ":" + encoded);
    assert value[4..] == "v" + version + ":" + encoded;
    SplitColonFirst("v" + version, encoded);
    assert ("v" + version)[1..] == version;
  }

  /** What looks like an envelope never decrypts to itself. */
  lemma {:induction false} EnvelopeIsNotFixed(c: Cipher, value: string, secret: string, keyring: map<string, string>)
    requires Shrinks(c) && "ENC:" <= value
    ensures DecryptIfNeeded(c, value, secret, keyring) != Ok(value)
  {
    SplitColonParts(value[4..]);
  }

  /** Encrypting and decrypting gives the value back if and only if it did not look encrypted already. */
  lemma {:induction false} EncryptRoundTripIff(c: Cipher, value: string, key: string, version: string, nonce: int,
                            secret: string, keyring: map<string, string>)
    requires Sound(c) && Shrinks(c)
    requires ':' !in version && version in keyring && keyring[version] == key && key != ""
    ensures DecryptIfNeeded(c, EncryptIfNeeded(c, value, key, version, nonce), secret, keyring) == Ok(value)
            <==> !("ENC:" <= value)
  {
    if "ENC:" <= value {
      EnvelopeIsNotFixed(c, value, secret, keyring);
    } else if value != "" {
      EnvelopeOpens(c, value, key, version, nonce, secret, keyring);
    }
  }

  /**
    Main result. Re-encryption under the active key preserves what a value decrypts to if and only if
    that plaintext does not itself look like an envelope.
  */
  lemma {:induction false} ReencryptPreservesIff(c: Cipher, value: string, secret: string, activeVersion: string,
                              keyring: map<string, string>, nonce: int)
    requires Sound(c) && Shrinks(c) && ':' !in activeVersion
    requires Reencrypt(c, value, secret, activeVersion, keyring, nonce).Ok?
    ensures var plain := DecryptIfNeeded(c, value, secret, keyring);
            plain.Ok?
            && (DecryptIfNeeded(c, Reencrypt(c, value, secret, activeVersion, keyring, nonce).value, secret, keyring)
                == plain
                <==> !("ENC:" <= plain.value))
  {
    var plain := DecryptIfNeeded(c, value, secret, keyring).value;
    EncryptRoundTripIff(c, plain, keyring[activeVersion], activeVersion, nonce, secret, keyring);
  }

  // What the envelope is, and what each form of a stored value decrypts to

  /** An envelope of the text under a key: it names the version, and what follows decrypts to the text. */
  ghost predicate IsEnvelope(c: Cipher, envelope: string, plain: string, key: string, version: string) {
    exists encoded :: envelope == "ENC:v" + version + ":" + encoded && c.dec(encoded, key) == Some(plain)
  }

  /** Only an empty value and one that looks encrypted stay as they are; any other is put into an envelope. */
  lemma {:induction false} EncryptionIs(c: Cipher, value: string, key: string, version: string, nonce: int)
    requires Sound(c)
    ensures var result := EncryptIfNeeded(c, value, key, version, nonce);
            if value == "" || "ENC:" <= value then result == value else IsEnvelope(c, result, value, key, version)
  {
    assert c.dec(c.enc(value, key, nonce), key) == Some(value);
  }

  /** The key of a version: its own one, and for version 1 without one the legacy secret. */
  predicate IsKeyOf(version: string, secret: string, keyring: map<string, string>, key: string) {
    && key != ""
    && if version in keyring && keyring[version] != "" then key == keyring[version]
       else version == "1" && key == secret
  }

  predicate HasKey(version: string, secret: string, keyring: map<string, string>) {
    (version in keyring && keyring[version] != "") || (version == "1" && secret != "")
  }

  lemma {:induction false} VersionedAnswer(c: Cipher, version: string, encoded: string, secret: string,
                                           keyring: map<string, string>)
    requires ':' !in version
    ensures var r := DecryptIfNeeded(c, "ENC:v" + version + ":" + encoded, secret, keyring);
            && (!HasKey(version, secret, keyring) ==> r == Err(KeyUnavailable(version)))
            && (forall key :: IsKeyOf(version, secret, keyring, key) ==>
                  r == if c.dec(encoded, key).Some? then Ok(c.dec(encoded, key).value) else Err(DecryptionFailed))
  {
    var value := "ENC:v" + version + ":" + encoded;
    assert value == "ENC:" + ("v" + version + ":" + encoded);
    assert value[4..] == ("v" + version) + ":" + encoded;
    SplitColonFirst("v" + version, encoded);
    assert ("v" + version)[1..] == version;
  }

  /**
    An envelope without a version is opened with the legacy secret, one without a ':' is invalid, and other
    text is itself.
  */
  lemma {:induction false} OtherAnswers(c: Cipher, value: string, secret: string, keyring: map<string, string>)
    ensures var r := DecryptIfNeeded(c, value, secret, keyring);
            && (!("ENC:" <= value) ==> r == Ok(value))
            && ("ENC:" <= value && !("ENC:v" <= value) ==>
                  r == if c.dec(value[4..], secret).Some? then Ok(c.dec(value[4..], secret).value)
                       else Err(DecryptionFailed))
            && ("ENC:v" <= value && ':' !in value[4..] ==> r == Err(InvalidEnvelope))
  {
    SplitColonParts(value[if |value| < 4 then 0 else 4..]);
  }

  /**
    Re-encryption needs the active key and a value that decrypts, and then leaves an envelope of the active
    version.
  */
  lemma {:induction false} ReencryptAnswer(c: Cipher, value: string, secret: string, active: string,
                                           keyring: map<string, string>, nonce: int)
    requires Sound(c)
    ensures var r, plain := Reencrypt(c, value, secret, active, keyring, nonce), DecryptIfNeeded(c, value, secret,
                                                                                                 keyring);
            var known := active in keyring && keyring[active] != "";
            && (!known ==> r == Err(KeyUnavailable(active)))
            && (known && plain.Err? ==> r == plain)
            && (known && plain.Ok? ==> r.Ok?
                                       && if plain.value == "" || "ENC:" <= plain.value then r.value == plain.value
                                          else IsEnvelope(c, r.value, plain.value, keyring[active], active))
  {
    var plain := DecryptIfNeeded(c, value, secret, keyring);
    if plain.Ok? && active in keyring {
      EncryptionIs(c, plain.value, keyring[active], active, nonce);
    }
  }

  // The stored chunks of one snapshot

  datatype Chunk = Chunk(backup: string, index: nat, data: string, byteSize: nat)

  /** Chunk `i` is encrypted with the `i`-th nonce. */
  function Stored(c: Cipher, backup: string, parts: seq<seq<Byte>>, from: nat, key: string, version: string,
                  nonce: nat -> int): (rows: seq<Chunk>)
    ensures |rows| == |parts|
  {
    if parts == [] then []
    else
      [StoredPart(c, backup, parts[0], from, key, version, nonce(from))]
      + Stored(c, backup, parts[1..], from + 1, key, version, nonce)
  }

  /** The row of a part: its backup, its index, its encrypted hex text and its size. */
  function StoredPart(c: Cipher, backup: string, part: seq<Byte>, index: nat, key: string, version: string, nonce: int)
    : Chunk
  {
    Chunk(backup, index, EncryptIfNeeded(c, Hex(part), key, version, nonce), |part|)
  }

  lemma {:induction false} StoredAt(c: Cipher, backup: string, parts: seq<seq<Byte>>, from: nat, key: string,
                                    version: string, nonce: nat -> int, i: nat, part: seq<Byte>, index: nat, row: Chunk)
    requires i < |parts| && parts[i] == part && index == from + i
    requires row == StoredPart(c, backup, part, index, key, version, nonce(index))
    ensures Stored(c, backup, parts, from, key, version, nonce)[i] == row
    decreases i
  {
    if i > 0 {
      StoredAt(c, backup, parts[1..], from + 1, key, version, nonce, i - 1, part, index, row);
    }
  }

  lemma {:induction false} StoredRow(c: Cipher, backup: string, parts: seq<seq<Byte>>, from: nat, key: string,
                                     version: string, nonce: nat -> int, i: nat)
    requires i < |parts|
    ensures Stored(c, backup, parts, from, key, version, nonce)[i]
            == Chunk(backup, from + i, EncryptIfNeeded(c, Hex(parts[i]), key, version, nonce(from + i)), |parts[i]|)
  {
    var row := StoredPart(c, backup, parts[i], from + i, key, version, nonce(from + i));
    StoredAt(c, backup, parts, from, key, version, nonce, i, parts[i], from + i, row);
  }

  function DecodeAll(c: Cipher, rows: seq<Chunk>, secret: string, keyring: map<string, string>)
    : Result<seq<Byte>, CryptoError>
  {
    if rows == [] then Ok([])
    else
      match DecryptIfNeeded(c, rows[0].data, secret, keyring)
      case Err(e) => Err(e)
      case Ok(hex) =>
        match FromHex(hex)
        case None => Err(BadHex)
        case Some(part) =>
          match DecodeAll(c, rows[1..], secret, keyring)
          case Err(e) => Err(e)
          case Ok(rest) => Ok(part + rest)
  }

  function Decode(c: Cipher, rows: seq<Chunk>, secret: string, keyring: map<string, string>)
    : Result<seq<Byte>, CryptoError>
  {
    if rows == [] then Err(ChunksMissing) else DecodeAll(c, rows, secret, keyring)
  }

  /** A row decrypts to the hex text of the part. */
  predicate DecodesTo(c: Cipher, row: Chunk, part: seq<Byte>, secret: string, keyring: map<string, string>) {
    var text := DecryptIfNeeded(c, row.data, secret, keyring);
    text.Ok? && FromHex(text.value) == Some(part)
  }

  predicate AllDecode(c: Cipher, rows: seq<Chunk>, parts: seq<seq<Byte>>, secret: string, keyring: map<string, string>)
    {
    |rows| == |parts| && forall i :: 0 <= i < |rows| ==> DecodesTo(c, rows[i], parts[i], secret, keyring)
  }

  /**
    Rows decode to the parts they hold, joined in their order; without rows, or with one that fails, there is
    no snapshot.
  */
  lemma {:induction false} DecodeIs(c: Cipher, rows: seq<Chunk>, secret: string, keyring: map<string, string>)
    ensures forall parts :: rows != [] && AllDecode(c, rows, parts, secret, keyring) ==>
                              Decode(c, rows, secret, keyring) == Ok(Concat(parts))
    ensures Decode(c, rows, secret, keyring).Ok? ==>
              rows != [] && exists parts :: AllDecode(c, rows, parts, secret, keyring)
  {
    forall parts | rows != [] && AllDecode(c, rows, parts, secret, keyring)
      ensures Decode(c, rows, secret, keyring) == Ok(Concat(parts))
    {
      PartsDecode(c, rows, parts, secret, keyring);
    }
    if DecodeAll(c, rows, secret, keyring).Ok? {
      var parts := PartsOf(c, rows, secret, keyring);
    }
  }

  lemma {:induction false} PartsDecode(c: Cipher, rows: seq<Chunk>, parts: seq<seq<Byte>>, secret: string,
                                       keyring: map<string, string>)
    requires AllDecode(c, rows, parts, secret, keyring)
    ensures DecodeAll(c, rows, secret, keyring) == Ok(Concat(parts))
  {
    if rows != [] {
      assert DecodesTo(c, rows[0], parts[0], secret, keyring);
      PartsDecode(c, rows[1..], parts[1..], secret, keyring);
    }
  }

  lemma {:induction false} PartsOf(c: Cipher, rows: seq<Chunk>, secret: string, keyring: map<string, string>)
    returns (parts: seq<seq<Byte>>)
    requires DecodeAll(c, rows, secret, keyring).Ok?
    ensures AllDecode(c, rows, parts, secret, keyring)
    decreases |rows|
  {
    if rows == [] {
      parts := [];
    } else {
      var rest := PartsOf(c, rows[1..], secret, keyring);
      parts := [FromHex(DecryptIfNeeded(c, rows[0].data, secret, keyring).value).value] + rest;
      forall i | 0 <= i < |rows| ensures DecodesTo(c, rows[i], parts[i], secret, keyring) {
        if i > 0 {
          assert DecodesTo(c, rows[1..][i - 1], rest[i - 1], secret, keyring);
        }
      }
    }
  }

  /** `ORDER BY chunk_index`: the rows of the table, with rising indexes. */
  predicate Lists<T(==)>(rows: seq<T>, table: set<T>, index: T -> nat) {
    && (forall r :: r in rows ==> r in table)
    && (forall r :: r in table ==> r in rows)
    && forall i, j :: 0 <= i < j < |rows| ==> index(rows[i]) < index(rows[j])
  }

  function Elements<T>(rows: seq<T>): set<T> {
    set r | r in rows
  }

  lemma {:induction false} HeadsAgree<T(!new)>(rows: seq<T>, stored: seq<T>, index: T -> nat, from: nat)
    requires Lists(rows, Elements(stored), index) && stored != []
    requires forall i :: 0 <= i < |stored| ==> index(stored[i]) == from + i
    ensures rows != [] && rows[0] == stored[0]
  {
    assert stored[0] in Elements(stored);
    var j :| 0 <= j < |rows| && rows[j] == stored[0];
    assert rows[0] in rows;
    var i :| 0 <= i < |stored| && stored[i] == rows[0];
  }

  lemma {:induction false} TailsList<T(!new)>(rows: seq<T>, stored: seq<T>, index: T -> nat, from: nat)
    requires Lists(rows, Elements(stored), index) && stored != [] && rows != [] && rows[0] == stored[0]
    requires forall i :: 0 <= i < |stored| ==> index(stored[i]) == from + i
    ensures Lists(rows[1..], Elements(stored[1..]), index)
  {
    var tail, rest := rows[1..], stored[1..];
    forall r | r in tail ensures r in Elements(rest) {
      var j :| 0 <= j < |tail| && tail[j] == r;
      assert index(rows[0]) < index(rows[j + 1]);
      assert rows[j + 1] in rows;
      var i :| 0 <= i < |stored| && stored[i] == r;
      assert rest[i - 1] == r;
    }
    forall r | r in Elements(rest) ensures r in tail {
      var i :| 0 <= i < |rest| && rest[i] == r;
      assert stored[i + 1] == r && r in Elements(stored);
      var j :| 0 <= j < |rows| && rows[j] == r;
      assert index(stored[0]) == from && index(r) == from + i + 1;
      assert tail[j - 1] == r;
    }
    forall i, j | 0 <= i < j < |tail| ensures index(tail[i]) < index(tail[j]) {
      assert tail[i] == rows[i + 1] && tail[j] == rows[j + 1];
    }
  }

  lemma {:induction false} EmptyOrMember<T(!new)>(rows: seq<T>)
    ensures rows == [] || exists r :: r in rows
  {
    if rows != [] {
      assert rows[0] in rows;
    }
  }

  /** There is only one way to list rows whose indexes count from `from`. */
  lemma {:induction false} ListingIsUnique<T(!new)>(rows: seq<T>, stored: seq<T>, index: T -> nat, from: nat)
    requires Lists(rows, Elements(stored), index)
    requires forall i :: 0 <= i < |stored| ==> index(stored[i]) == from + i
    ensures rows == stored
    decreases |stored|
  {
    if stored == [] {
      EmptyOrMember(rows);
    } else {
      HeadsAgree(rows, stored, index, from);
      TailsList(rows, stored, index, from);
      ListingIsUnique(rows[1..], stored[1..], index, from + 1);
      assert rows == [rows[0]] + rows[1..] && stored == [stored[0]] + stored[1..];
    }
  }

  lemma {:induction false} DecodeStored(c: Cipher, backup: string, parts: seq<seq<Byte>>, from: nat, key: string,
                                        version: string, nonce: nat -> int, secret: string,
                                        keyring: map<string, string>)
    requires Sound(c) && ':' !in version && version in keyring && keyring[version] == key && key != ""
    ensures DecodeAll(c, Stored(c, backup, parts, from, key, version, nonce), secret, keyring) == Ok(Concat(parts))
    decreases |parts|
  {
    if parts != [] {
      var rows := Stored(c, backup, parts, from, key, version, nonce);
      HexRoundTrip(parts[0]);
      if Hex(parts[0]) != "" {
        EnvelopeOpens(c, Hex(parts[0]), key, version, nonce(from), secret, keyring);
      }
      assert rows[1..] == Stored(c, backup, parts[1..], from + 1, key, version, nonce);
      DecodeStored(c, backup, parts[1..], from + 1, key, version, nonce, secret, keyring);
    }
  }

  /**
    Main result. Whatever the bytes and the chunk size, storing a snapshot and reading its chunks
    back in index order, with any keyring that still holds the key version used, is the identity.
  */
  lemma {:induction false} StoreAndDecode(c: Cipher, backup: string, data: seq<Byte>, size: nat, key: string,
                                          version: string, nonce: nat -> int, rows: seq<Chunk>, secret: string,
                                          keyring: map<string, string>)
    requires size > 0 && Sound(c) && ':' !in version && version in keyring && keyring[version] == key && key != ""
    requires Lists(rows, Elements(Stored(c, backup, Chunks(data, size), 0, key, version, nonce)), (r: Chunk) => r.index)
    ensures Decode(c, rows, secret, keyring) == Ok(data)
  {
    var stored := Stored(c, backup, Chunks(data, size), 0, key, version, nonce);
    forall i | 0 <= i < |stored| ensures stored[i].index == i {
      StoredRow(c, backup, Chunks(data, size), 0, key, version, nonce, i);
    }
    ListingIsUnique(rows, stored, (r: Chunk) => r.index, 0);
    ChunksJoin(data, size);
    DecodeStored(c, backup, Chunks(data, size), 0, key, version, nonce, secret, keyring);
  }
}
