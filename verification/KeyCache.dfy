/** The end-to-end key manager: known public keys, a cache of derived shared keys, and the encryption of
    message payloads. The key agreement and the sealed box are parameters. */
module KeyCache {
  import opened Prelude

  type Bytes = seq<Byte>
  type PeerId = string

  const KEY_SIZE := 32
  const NONCE_SIZE := 24

  /** The cryptography the manager is built on. */
  datatype Crypto = Crypto(
    shared: (Bytes, Bytes) -> Bytes,
    publicOf: Bytes -> Bytes,
    seal: (Bytes, Bytes, Bytes) -> Bytes,
    open: (Bytes, Bytes, Bytes) -> Option<Bytes>)

  /** Both sides derive the same key. */
  ghost predicate Agrees(c: Crypto) {
    forall a, b :: c.shared(a, c.publicOf(b)) == c.shared(b, c.publicOf(a))
  }

  /** Opening undoes sealing under the same nonce and key. */
  ghost predicate Opens(c: Crypto) {
    forall text, nonce, key :: c.open(c.seal(text, nonce, key), nonce, key) == Some(text)
  }

  datatype Message = Message(sender: PeerId, recipient: PeerId, payload: Bytes, nonce: Bytes, keyId: Bytes)

  datatype KeyError = NoSharedKey | NotEncrypted | MissingSender | BadHex | TooShort | DecryptFailed | BadKey | BadPayload | NotSaved | Crash

  // --------------------------------------------------------------------- hex

  function HexDigit(n: nat): Byte
    requires n < 16
  {
    if n < 10 then 48 + n else 87 + n
  }

  /** Both letter cases are read. */
  function HexValue(c: Byte): Option<nat> {
    if 48 <= c <= 57 then Some(c - 48)
    else if 97 <= c <= 102 then Some(c - 87)
    else if 65 <= c <= 70 then Some(c - 55)
    else None
  }

  function HexPair(b: Byte): Bytes {
    [HexDigit(b / 16), HexDigit(b % 16)]
  }

  function ToHex(b: Bytes): Bytes {
    if b == [] then [] else HexPair(b[0]) + ToHex(b[1..])
  }

  function FromHex(h: Bytes): Option<Bytes> {
    if h == [] then Some([])
    else if |h| == 1 then None
    else
      var high, low, rest := HexValue(h[0]), HexValue(h[1]), FromHex(h[2..]);
      if high.None? || low.None? || rest.None? then None
      else Some([HexByte(high.value, low.value)] + rest.value)
  }

  function HexByte(high: nat, low: nat): Byte {
    (high * 16 + low) % 256
  }

  lemma {:induction false} HexRoundTrip(b: Bytes)
    ensures FromHex(ToHex(b)) == Some(b) && |ToHex(b)| == 2 * |b|
  {
    hide ToHex, FromHex, HexPair;
    if b == [] {
      NoHex();
      ShortHex([]);
    } else {
      var first, rest := b[0], b[1..];
      HexRoundTrip(rest);
      ToHexStep(first, rest);
      PairRead(first, ToHex(rest));
      assert [first] + rest == b;
    }
  }

  /** Two digits read as the byte they were written for. */
  lemma PairRead(x: Byte, h: Bytes)
    ensures |HexPair(x)| == 2
    ensures FromHex(h).Some? ==> FromHex(HexPair(x) + h) == Some([x] + FromHex(h).value)
  {
    DigitRoundTrip(x / 16);
    DigitRoundTrip(x % 16);
    hide HexDigit, HexValue;
    var all := HexPair(x) + h;
    assert all[0] == HexDigit(x / 16) && all[1] == HexDigit(x % 16) && all[2..] == h;
    assert HexByte(x / 16, x % 16) == x;
  }

  lemma DigitRoundTrip(n: nat)
    requires n < 16
    ensures HexValue(HexDigit(n)) == Some(n)
  {
  }

  lemma {:induction false} HexPrefix(a: Bytes, b: Bytes)
    ensures ToHex(a + b) == ToHex(a) + ToHex(b)
  {
    hide ToHex, HexPair;
    if a == [] {
      assert a + b == b;
      assert ToHex(a) == [] by { NoHex(); }
    } else {
      var first, rest := a[0], a[1..];
      HexPrefix(rest, b);
      ToHexStep(first, rest);
      ToHexStep(first, rest + b);
      assert [first] + rest == a;
      assert [first] + (rest + b) == a + b;
      assert HexPair(first) + (ToHex(rest) + ToHex(b)) == (HexPair(first) + ToHex(rest)) + ToHex(b);
    }
  }

  lemma NoHex()
    ensures ToHex([]) == []
  {
  }

  lemma ToHexStep(first: Byte, rest: Bytes)
    ensures ToHex([first] + rest) == HexPair(first) + ToHex(rest)
  {
    assert ([first] + rest)[1..] == rest;
  }

  predicate AllDigits(h: Bytes) {
    forall i :: 0 <= i < |h| ==> HexValue(h[i]).Some?
  }

  /** Text is hex exactly when it has an even number of characters, all of them digits; two make a byte. */
  lemma {:induction false} HexExactly(h: Bytes)
    ensures FromHex(h).Some? <==> |h| % 2 == 0 && AllDigits(h)
    ensures FromHex(h).Some? ==> |FromHex(h).value| == |h| / 2
    decreases |h|
  {
    hide FromHex, AllDigits, HexValue;
    if |h| < 2 {
      ShortHex(h);
    } else {
      FromHexStep(h);
      DigitsStep(h);
      HexExactly(h[2..]);
    }
  }

  lemma ShortHex(h: Bytes)
    requires |h| < 2
    ensures FromHex(h).Some? <==> |h| == 0
    ensures |h| == 0 ==> FromHex(h) == Some([]) && AllDigits(h)
  {
  }

  lemma FromHexStep(h: Bytes)
    requires |h| >= 2
    ensures FromHex(h).Some? <==> HexValue(h[0]).Some? && HexValue(h[1]).Some? && FromHex(h[2..]).Some?
    ensures FromHex(h).Some? ==> |FromHex(h).value| == 1 + |FromHex(h[2..]).value|
  {
    hide HexValue;
  }

  lemma DigitsStep(h: Bytes)
    requires |h| >= 2
    ensures AllDigits(h) <==> HexValue(h[0]).Some? && HexValue(h[1]).Some? && AllDigits(h[2..])
  {
    hide HexValue;
    assert h == [h[0], h[1]] + h[2..];
    assert forall i :: 0 <= i < |h| - 2 ==> h[2..][i] == h[i + 2];
    if AllDigits(h[2..]) && HexValue(h[0]).Some? && HexValue(h[1]).Some? {
      forall i | 0 <= i < |h|
        ensures HexValue(h[i]).Some?
      {
        if i >= 2 {
          assert h[i] == h[2..][i - 2];
        }
      }
    }
  }

  // ---------------------------------------------------------- sealed payloads

  /** The nonce and the sealed text, in hex. */
  function Encrypt(c: Crypto, text: Bytes, nonce: Bytes, key: Bytes): Bytes {
    ToHex(nonce + c.seal(text, nonce, key))
  }

  function Decrypt(c: Crypto, payload: Bytes, key: Bytes): Result<Bytes, KeyError> {
    var raw := FromHex(payload);
    if raw.None? then Err(BadHex)
    else if |raw.value| < NONCE_SIZE then Err(TooShort)
    else
      var text := c.open(raw.value[NONCE_SIZE..], raw.value[..NONCE_SIZE], key);
      if text.None? then Err(DecryptFailed) else Ok(text.value)
  }

  lemma DecryptUndoesEncrypt(c: Crypto, text: Bytes, nonce: Bytes, key: Bytes)
    requires Opens(c) && |nonce| == NONCE_SIZE
    ensures Decrypt(c, Encrypt(c, text, nonce, key), key) == Ok(text)
    ensures |Encrypt(c, text, nonce, key)| >= 2 * NONCE_SIZE
    ensures Encrypt(c, text, nonce, key)[..2 * NONCE_SIZE] == ToHex(nonce)
  {
    var sealed := c.seal(text, nonce, key);
    HexRoundTrip(nonce + sealed);
    HexRoundTrip(nonce);
    HexPrefix(nonce, sealed);
    assert (nonce + sealed)[NONCE_SIZE..] == sealed && (nonce + sealed)[..NONCE_SIZE] == nonce;
    assert c.open(c.seal(text, nonce, key), nonce, key) == Some(text);
  }

  // ------------------------------------------------------------- the manager

  type Keys = map<PeerId, Bytes>

  /** What a keys file adds: the entries that are 32 bytes of hex. */
  function Loaded(known: Keys, file: map<PeerId, Bytes>): Keys {
    known + map p | p in file && ValidKey(file[p]) :: FromHex(file[p]).value
  }

  predicate ValidKey(hex: Bytes) {
    FromHex(hex).Some? && |FromHex(hex).value| == KEY_SIZE
  }

  /** A key is imported from exactly 64 hex digits. */
  lemma ValidKeyExactly(hex: Bytes)
    ensures ValidKey(hex) <==> |hex| == 64 && AllDigits(hex)
  {
    HexExactly(hex);
  }

  /** Every cached key is the one its peer's current public key gives. */
  ghost predicate CacheAgrees(c: Crypto, private: Bytes, known: Keys, cache: Keys) {
    forall p :: p in cache ==> p in known && cache[p] == c.shared(private, known[p])
  }

  /** Public keys have 32 bytes. */
  ghost predicate Sized(known: Keys) {
    forall p :: p in known ==> |known[p]| == 32
  }

  /** The key the manager should use for a peer. */
  function KeyFor(c: Crypto, private: Bytes, known: Keys, p: PeerId): Result<Bytes, KeyError> {
    if p in known then Ok(c.shared(private, known[p])) else Err(NoSharedKey)
  }

  class Manager {
    const crypto: Crypto
    const private: Bytes
    var knownKeys: Keys
    var sharedCache: Keys

    ghost predicate Valid()
      reads this
    {
      CacheAgrees(crypto, private, knownKeys, sharedCache) && Sized(knownKeys)
    }

    constructor (crypto: Crypto, private: Bytes, file: map<PeerId, Bytes>)
      ensures Valid() && this.crypto == crypto && this.private == private
      ensures knownKeys == Loaded(map[], file) && sharedCache == map[]
    {
      this.crypto, this.private := crypto, private;
      knownKeys, sharedCache := Loaded(map[], file), map[];
    }

    /** Cached or derived, it is always the key for the peer's current public key. */
    method GetSharedKey(p: PeerId) returns (r: Result<Bytes, KeyError>)
      requires Valid()
      modifies this`sharedCache
      ensures Valid() && r == KeyFor(crypto, private, knownKeys, p)
      ensures sharedCache == if r.Ok? then old(sharedCache)[p := r.value] else old(sharedCache)
    {
      if p in sharedCache {
        assert sharedCache == sharedCache[p := sharedCache[p]];
        return Ok(sharedCache[p]);
      }
      if p !in knownKeys {
        return Err(NoSharedKey);
      }
      var shared := crypto.shared(private, knownKeys[p]);
      sharedCache := sharedCache[p := shared];
      return Ok(shared);
    }

    /** A new key for a peer forgets what was derived from the old one. `saved` says whether the keys file
        could be written; the key counts even if it could not. */
    method SetPeerKey(p: PeerId, key: Bytes, saved: bool) returns (r: Result<(), KeyError>)
      requires Valid() && |key| == 32
      modifies this`knownKeys, this`sharedCache
      ensures Valid() && knownKeys == old(knownKeys)[p := key] && sharedCache == old(sharedCache) - {p}
      ensures r == if saved then Ok(()) else Err(NotSaved)
    {
      knownKeys := knownKeys[p := key];
      sharedCache := sharedCache - {p};
      if !saved {
        return Err(NotSaved);
      }
      return Ok(());
    }

    /** A key that is not 32 bytes of hex changes nothing; a valid one is in use even if saving it fails. */
    method ImportKeyFromHex(p: PeerId, hex: Bytes, saved: bool) returns (r: Result<(), KeyError>)
      requires Valid()
      modifies this`knownKeys, this`sharedCache
      ensures Valid()
      ensures r == if !ValidKey(hex) then Err(BadKey) else if !saved then Err(NotSaved) else Ok(())
      ensures ValidKey(hex) ==> knownKeys == old(knownKeys)[p := FromHex(hex).value] && sharedCache == old(sharedCache) - {p}
      ensures !ValidKey(hex) ==> knownKeys == old(knownKeys) && sharedCache == old(sharedCache)
    {
      var raw := FromHex(hex);
      if raw.None? || |raw.value| != KEY_SIZE {
        return Err(BadKey);
      }
      r := SetPeerKey(p, raw.value, saved);
    }

    /** A key exchange takes 32 bytes. `payload` is the hex text of the message, if it parses; `spare` is
        what the decoded slice's backing array holds behind its end: a shorter key is filled up from
        there, and if that is not enough the handler ends in a run-time panic. A failure to save the key
        goes unreported. */
    method HandleKeyExchangeMessage(sender: PeerId, payload: Option<Bytes>, spare: Bytes, saved: bool)
      returns (r: Result<(), KeyError>)
      requires Valid()
      modifies this`knownKeys, this`sharedCache
      ensures Valid()
      ensures r == (if payload.None? then Err(BadPayload)
                    else if FromHex(payload.value).None? then Err(BadHex)
                    else if |FromHex(payload.value).value| + |spare| < KEY_SIZE then Err(Crash) else Ok(()))
      ensures r.Ok? ==> knownKeys == old(knownKeys)[sender := (FromHex(payload.value).value + spare)[..KEY_SIZE]]
                        && sharedCache == old(sharedCache) - {sender}
      ensures r.Err? ==> knownKeys == old(knownKeys) && sharedCache == old(sharedCache)
    {
      if payload.None? {
        return Err(BadPayload);
      }
      var raw := FromHex(payload.value);
      if raw.None? {
        return Err(BadHex);
      }
      if |raw.value| + |spare| < KEY_SIZE {
        return Err(Crash);
      }
      var _ := SetPeerKey(sender, (raw.value + spare)[..KEY_SIZE], saved);
      return Ok(());
    }

    /** Loading a keys file over a filled cache does not touch the cache, so agreement can be lost. It is
        kept by a file that has no new key for a cached peer, and when different keys give different
        shared keys, by no other file. */
    method LoadKnownKeys(file: map<PeerId, Bytes>)
      requires Valid()
      modifies this`knownKeys
      ensures knownKeys == Loaded(old(knownKeys), file) && Sized(knownKeys)
      ensures NoNewKey(old(knownKeys), sharedCache, file) ==> Valid()
      ensures Separates(crypto, private) ==> (Valid() <==> NoNewKey(old(knownKeys), sharedCache, file))
      ensures Valid() <==> ReloadAgrees(crypto, private, sharedCache, file)
    {
      ReloadExactly(crypto, private, knownKeys, sharedCache, file);
      knownKeys := Loaded(knownKeys, file);
    }

    /** Broadcasts are left alone; anything else is sealed for its recipient. */
    method EncryptMessage(m: Message, nonce: Bytes) returns (r: Result<Message, KeyError>)
      requires Valid() && |nonce| == NONCE_SIZE
      modifies this`sharedCache
      ensures Valid()
      ensures r == Encrypted(crypto, private, knownKeys, m, nonce)
    {
      if m.recipient == "" {
        return Ok(m);
      }
      var key := GetSharedKey(m.recipient);
      if key.Err? {
        return Err(key.error);
      }
      EncryptedLength(crypto, m.payload, nonce, key.value);
      var payload := Encrypt(crypto, m.payload, nonce, key.value);
      var hex := ToHex(crypto.publicOf(private));
      return Ok(m.(payload := payload, nonce := payload[..2 * NONCE_SIZE], keyId := Head(hex)));
    }

    /** Only sealed messages with a known sender are opened; the message then carries no seal. */
    method DecryptMessage(m: Message) returns (r: Result<Message, KeyError>)
      requires Valid()
      modifies this`sharedCache
      ensures Valid()
      ensures r == Decrypted(crypto, private, knownKeys, m)
    {
      if m.nonce == [] {
        return Err(NotEncrypted);
      }
      if m.sender == "" {
        return Err(MissingSender);
      }
      var key := GetSharedKey(m.sender);
      if key.Err? {
        return Err(NoSharedKey);
      }
      var text := Decrypt(crypto, m.payload, key.value);
      if text.Err? {
        return Err(text.error);
      }
      return Ok(m.(payload := text.value, nonce := [], keyId := []));
    }
  }

  /** The file says nothing about a cached peer that would change its derived key. */
  ghost predicate ReloadAgrees(c: Crypto, private: Bytes, cache: Keys, file: map<PeerId, Bytes>) {
    forall p :: p in cache && p in file && ValidKey(file[p]) ==> cache[p] == c.shared(private, FromHex(file[p]).value)
  }

  /** The file has no other key than the known one for a peer whose shared key is cached. */
  ghost predicate NoNewKey(known: Keys, cache: Keys, file: map<PeerId, Bytes>)
    requires forall p :: p in cache ==> p in known
  {
    forall p :: p in cache && p in file && ValidKey(file[p]) ==> FromHex(file[p]).value == known[p]
  }

  /** Different public keys give different shared keys. */
  ghost predicate Separates(c: Crypto, private: Bytes) {
    forall a, b :: c.shared(private, a) == c.shared(private, b) ==> a == b
  }

  lemma ReloadExactly(c: Crypto, private: Bytes, known: Keys, cache: Keys, file: map<PeerId, Bytes>)
    requires CacheAgrees(c, private, known, cache)
    ensures CacheAgrees(c, private, Loaded(known, file), cache) <==> ReloadAgrees(c, private, cache, file)
    ensures NoNewKey(known, cache, file) ==> ReloadAgrees(c, private, cache, file)
    ensures Separates(c, private) && ReloadAgrees(c, private, cache, file) ==> NoNewKey(known, cache, file)
  {
    hide FromHex;
  }

  /** A changed key in the file for a cached peer: the cache keeps what the old key gave. */
  lemma ReloadLosesAgreement(c: Crypto, private: Bytes, p: PeerId, before: Bytes, after: Bytes)
    requires |after| == KEY_SIZE && c.shared(private, before) != c.shared(private, after)
    ensures
      var known, cache: Keys := map[p := before], map[p := c.shared(private, before)];
      && CacheAgrees(c, private, known, cache)
      && !CacheAgrees(c, private, Loaded(known, map[p := ToHex(after)]), cache)
  {
    HexRoundTrip(after);
    var known: Keys, file := map[p := before], map[p := ToHex(after)];
    assert p in file && ValidKey(file[p]);
    assert Loaded(known, file)[p] == after;
  }

  /** Two keys for which that happens, under a key agreement that both sides compute alike. */
  lemma TwoKeysLoseAgreement()
    ensures
      var c := Crypto((a, b) => Mixed(a, b), a => a, (text, nonce, key) => text, (sealed, nonce, key) => Some(sealed));
      var before, after: Bytes := seq(KEY_SIZE, _ => 1), seq(KEY_SIZE, _ => 2);
      && Agrees(c) && Opens(c)
      && CacheAgrees(c, before, map["bob" := before], map["bob" := c.shared(before, before)])
      && !CacheAgrees(c, before, Loaded(map["bob" := before], map["bob" := ToHex(after)]), map["bob" := c.shared(before, before)])
  {
    hide ToHex, Loaded;
    var c := Crypto((a, b) => Mixed(a, b), a => a, (text, nonce, key) => text, (sealed, nonce, key) => Some(sealed));
    var before, after: Bytes := seq(KEY_SIZE, _ => 1), seq(KEY_SIZE, _ => 2);
    assert c.shared(before, before)[0] == 2 && c.shared(before, after)[0] == 3;
    ReloadLosesAgreement(c, before, "bob", before, after);
  }

  /** A symmetric mixture of two keys. */
  function Mixed(a: Bytes, b: Bytes): Bytes {
    seq(KEY_SIZE, i requires 0 <= i < KEY_SIZE => Sum(At(a, i), At(b, i)))
  }

  function At(b: Bytes, i: nat): nat {
    if i < |b| then b[i] else 0
  }

  function Sum(x: nat, y: nat): Byte {
    (x + y) % 256
  }

  /** The first eight characters. */
  function Head(hex: Bytes): Bytes {
    if |hex| <= 8 then hex else hex[..8]
  }

  lemma EncryptedLength(c: Crypto, text: Bytes, nonce: Bytes, key: Bytes)
    requires |nonce| == NONCE_SIZE
    ensures |Encrypt(c, text, nonce, key)| >= 2 * NONCE_SIZE
  {
    HexRoundTrip(nonce + c.seal(text, nonce, key));
  }

  function Encrypted(c: Crypto, private: Bytes, known: Keys, m: Message, nonce: Bytes): Result<Message, KeyError>
    requires |nonce| == NONCE_SIZE
  {
    if m.recipient == "" then Ok(m)
    else
      var key :- KeyFor(c, private, known, m.recipient);
      EncryptedLength(c, m.payload, nonce, key);
      var payload := Encrypt(c, m.payload, nonce, key);
      Ok(m.(payload := payload, nonce := payload[..2 * NONCE_SIZE], keyId := Head(ToHex(c.publicOf(private)))))
  }

  function Decrypted(c: Crypto, private: Bytes, known: Keys, m: Message): Result<Message, KeyError> {
    if m.nonce == [] then Err(NotEncrypted)
    else if m.sender == "" then Err(MissingSender)
    else
      var key :- KeyFor(c, private, known, m.sender);
      var text :- Decrypt(c, m.payload, key);
      Ok(m.(payload := text, nonce := [], keyId := []))
  }

  /** Two peers that know each other's public keys: what one seals for the other, the other opens, and the
      message comes back with its payload and without seal. A broadcast is never sealed, so never opened. */
  lemma PeerUndoesEncryption(c: Crypto, a: Bytes, b: Bytes, knownA: Keys, knownB: Keys, m: Message, nonce: Bytes)
    requires Agrees(c) && Opens(c) && |nonce| == NONCE_SIZE
    requires m.recipient in knownA && knownA[m.recipient] == c.publicOf(b)
    requires m.sender in knownB && knownB[m.sender] == c.publicOf(a)
    requires m.recipient != "" && m.sender != ""
    ensures Encrypted(c, a, knownA, m, nonce).Ok?
    ensures Decrypted(c, b, knownB, Encrypted(c, a, knownA, m, nonce).value) == Ok(m.(nonce := [], keyId := []))
  {
    var key := c.shared(a, c.publicOf(b));
    assert key == c.shared(b, c.publicOf(a));
    DecryptUndoesEncrypt(c, m.payload, nonce, key);
    HexRoundTrip(nonce);
  }

  /** A sealed message names the sender's public key by the first eight digits of its hex form, carries the
      nonce in hex, and is otherwise as it was. */
  lemma SealedEnvelope(c: Crypto, private: Bytes, known: Keys, m: Message, nonce: Bytes)
    requires |nonce| == NONCE_SIZE && m.recipient != "" && |c.publicOf(private)| == 32
    ensures Encrypted(c, private, known, m, nonce).Ok? <==> m.recipient in known
    ensures
      var r := Encrypted(c, private, known, m, nonce);
      r.Ok? ==>
        && |r.value.keyId| == 8 && r.value.keyId <= ToHex(c.publicOf(private))
        && r.value.nonce == ToHex(nonce)
        && r.value.payload == ToHex(nonce + c.seal(m.payload, nonce, c.shared(private, known[m.recipient])))
        && r.value.sender == m.sender && r.value.recipient == m.recipient
  {
    HexRoundTrip(c.publicOf(private));
    HexRoundTrip(nonce);
    if m.recipient in known {
      HexPrefix(nonce, c.seal(m.payload, nonce, c.shared(private, known[m.recipient])));
    }
  }

  /** A message is opened exactly when it is sealed, its sender is named and known, its payload is hex of at
      least a nonce, and the box opens; only payload and seal change. */
  lemma OpensExactly(c: Crypto, private: Bytes, known: Keys, m: Message)
    ensures
      var r, raw := Decrypted(c, private, known, m), FromHex(m.payload);
      && (r.Ok? <==>
            && m.nonce != [] && m.sender != "" && m.sender in known && raw.Some? && |raw.value| >= 24
            && c.open(raw.value[24..], raw.value[..24], c.shared(private, known[m.sender])).Some?)
      && (r.Ok? ==> r.value == Message(m.sender, m.recipient,
                      c.open(raw.value[24..], raw.value[..24], c.shared(private, known[m.sender])).value, [], []))
  {
    hide FromHex;
  }
}
