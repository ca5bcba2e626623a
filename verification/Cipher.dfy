/**
 Stored credentials and their keys: src/infrastructure/security/cipher.py and keys.py. AES-GCM and UTF-8
 are functions assumed to be inverse pairs; everything about the stored text is spelled out.
 */
module Cipher {
  import opened Common
  import opened Base64Url

  const SEPARATOR := '$'
  const KEY_SIZE := 32

  type Key = k: seq<Byte> | |k| == KEY_SIZE witness seq(KEY_SIZE, _ => 0)

  // ---- Text: splitting and numbers ---------------------------------------------------------

  /** text.split("$", max) */
  function Split(text: string, max: nat): (fields: seq<string>)
    ensures 1 <= |fields| <= max + 1
    ensures forall i | 0 <= i < |fields| && i < max :: SEPARATOR !in fields[i]
  {
    if max == 0 || text == "" then [text]
    else if text[0] == SEPARATOR then [""] + Split(text[1..], max - 1)
    else
      var rest := Split(text[1..], max);
      [[text[0]] + rest[0]] + rest[1..]
  }

  function Join3(a: string, b: string, c: string): string {
    a + [SEPARATOR] + b + [SEPARATOR] + c
  }

  lemma {:induction false} SplitField(field: string, rest: string, max: nat)
    requires SEPARATOR !in field && max > 0
    ensures Split(field + [SEPARATOR] + rest, max) == [field] + Split(rest, max - 1)
    decreases |field|
  {
    var text := field + [SEPARATOR] + rest;
    if field == "" {
      assert text[1..] == rest;
    } else {
      assert text[1..] == field[1..] + [SEPARATOR] + rest;
      SplitField(field[1..], rest, max);
      assert [field[0]] + field[1..] == field;
    }
  }

  /** Splitting undoes joining exactly when the first two fields are free of the separator. */
  lemma SplitInvertsJoin(a: string, b: string, c: string)
    ensures Split(Join3(a, b, c), 2) == [a, b, c] <==> SEPARATOR !in a && SEPARATOR !in b
  {
    var fields := Split(Join3(a, b, c), 2);
    if SEPARATOR !in a && SEPARATOR !in b {
      assert Join3(a, b, c) == a + [SEPARATOR] + (b + [SEPARATOR] + c);
      SplitField(a, b + [SEPARATOR] + c, 2);
      SplitField(b, c, 1);
    }
    assert SEPARATOR !in fields[0] && (|fields| > 1 ==> SEPARATOR !in fields[1]);
  }

  function Digit(d: int): char
    requires 0 <= d < 10
  {
    '0' + d as char
  }

  function Digits(n: nat): (text: string)
    ensures text != "" && forall c <- text :: '0' <= c <= '9'
  {
    if n < 10 then [Digit(n)] else Digits(n / 10) + [Digit(n % 10)]
  }

  /** str(n) */
  function Decimal(n: int): string {
    if n < 0 then "-" + Digits(-n) else Digits(n)
  }

  /** Digits, with single underscores allowed between them. */
  function Number(text: string): Option<nat> {
    if text == "" || !('0' <= text[|text| - 1] <= '9') then None
    else
      var d: nat := text[|text| - 1] as int - '0' as int;
      if |text| == 1 then Some(d)
      else
        match Number(if text[|text| - 2] == '_' then text[..|text| - 2] else text[..|text| - 1])
        case None => None
        case Some(n) => Some(n * 10 + d)
  }

  /** int(text), for ASCII text; None is a ValueError. */
  function ParseInt(text: string): Option<int> {
    var t := Strip(text);
    var signed := t != "" && (t[0] == '-' || t[0] == '+');
    match Number(if signed then t[1..] else t)
    case None => None
    case Some(n) =>
      var value: int := if signed && t[0] == '-' then 0 - n else n;
      Some(value)
  }

  lemma {:induction false} NumberOfDigits(n: nat)
    ensures Number(Digits(n)) == Some(n)
  {
    if n >= 10 {
      NumberOfDigits(n / 10);
      var text := Digits(n);
      assert text[..|text| - 1] == Digits(n / 10);
      assert text[|text| - 2] == Digits(n / 10)[|text| - 2];
    }
  }

  /** A version number is read back from its text, which holds no separator. */
  lemma DecimalRoundTrip(n: int)
    ensures ParseInt(Decimal(n)) == Some(n)
    ensures SEPARATOR !in Decimal(n)
  {
    if n < 0 {
      SignedRoundTrip(n);
    } else {
      DigitsRoundTrip(n);
    }
  }

  lemma DigitsRoundTrip(n: nat)
    ensures ParseInt(Digits(n)) == Some(n) && SEPARATOR !in Digits(n)
  {
    hide Digits, Number, Strip;
    var text := Digits(n);
    NumberOfDigits(n);
    assert text[0] in text && text[|text| - 1] in text;
    NoSpaces(text);
  }

  lemma SignedRoundTrip(n: int)
    requires n < 0
    ensures ParseInt(Decimal(n)) == Some(n) && SEPARATOR !in Decimal(n)
  {
    hide Digits, Number, Strip;
    var digits, text := Digits(-n), Decimal(n);
    NumberOfDigits(-n);
    assert digits[|digits| - 1] in digits && text[|text| - 1] == digits[|digits| - 1];
    NoSpaces(text);
    assert text[1..] == digits;
  }

  lemma NoSpaces(text: string)
    requires text != "" && (text[0] == '-' || text[0] == '+' || '0' <= text[0] <= '9')
    requires '0' <= text[|text| - 1] <= '9'
    ensures Strip(text) == text
  {
  }

  /** Reading numbers: one digit more is ten times the number plus the digit; one underscore may stand between. */
  lemma NumberTold(text: string, d: int)
    requires 0 <= d < 10
    ensures Number([Digit(d)]) == Some(d)
    ensures Number(text).Some? ==>
              && Number(text + [Digit(d)]) == Some(Number(text).value * 10 + d)
              && Number(text + "_" + [Digit(d)]) == Some(Number(text).value * 10 + d)
    ensures Number("") == None && Number(text + "_") == None
  {
    if Number(text).Some? {
      assert (text + [Digit(d)])[..|text|] == text;
      assert (text + "_" + [Digit(d)])[..|text|] == text;
    }
  }

  /** A number may carry a sign. */
  lemma SignTold(n: nat)
    ensures ParseInt("+" + Digits(n)) == Some(n)
    ensures ParseInt("-" + Digits(n)).Some? && ParseInt("-" + Digits(n)).value == 0 - n
  {
    hide Digits, Number, Strip;
    var digits := Digits(n);
    NumberOfDigits(n);
    assert digits[|digits| - 1] in digits;
    assert ("+" + digits)[1..] == digits && ("-" + digits)[1..] == digits;
    NoSpaces("+" + digits);
    NoSpaces("-" + digits);
  }

  // ---- Keys --------------------------------------------------------------------------------

  datatype Settings = Settings(key: string, version: int, legacy: seq<(string, string)>)

  datatype Keyring = Keyring(keys: map<int, Key>, current: int) {
    predicate Valid() { current in keys }
  }

  datatype KeyError = NotAKey | NotAVersion

  /** The text configured for a version: the last legacy entry naming it, or else the current key. */
  function KeyText(settings: Settings, version: int): Option<string>
    decreases |settings.legacy|
  {
    var n := |settings.legacy|;
    if n == 0 then
      if version == settings.version then Some(settings.key) else None
    else if ParseInt(settings.legacy[n - 1].0) == Some(version) then Some(settings.legacy[n - 1].1)
    else KeyText(settings.(legacy := settings.legacy[..n - 1]), version)
  }

  /** Of several legacy entries for one version the last counts; the current key only where there is none. */
  lemma {:induction false} KeyTextTold(settings: Settings, version: int, text: string)
    ensures KeyText(settings, version) == Some(text) <==>
            (exists i | 0 <= i < |settings.legacy| :: LastNaming(settings.legacy, i, version, text))
            || (NoneNames(settings.legacy, version) && version == settings.version && text == settings.key)
    decreases |settings.legacy|
  {
    hide ParseInt;
    var n := |settings.legacy|;
    if n > 0 {
      if ParseInt(settings.legacy[n - 1].0) == Some(version) {
        assert LastNaming(settings.legacy, n - 1, version, settings.legacy[n - 1].1);
      } else {
        hide LastNaming, NoneNames;
        KeyTextTold(settings.(legacy := settings.legacy[..n - 1]), version, text);
        SameNaming(settings.legacy, version, text);
      }
    }
  }

  /** Entry i names the version, and no entry after it does. */
  ghost predicate LastNaming(legacy: seq<(string, string)>, i: nat, version: int, text: string)
    requires i < |legacy|
  {
    && ParseInt(legacy[i].0) == Some(version) && legacy[i].1 == text
    && forall j | i < j < |legacy| :: ParseInt(legacy[j].0) != Some(version)
  }

  ghost predicate NoneNames(legacy: seq<(string, string)>, version: int) {
    forall entry <- legacy :: ParseInt(entry.0) != Some(version)
  }

  lemma SameNaming(legacy: seq<(string, string)>, version: int, text: string)
    requires legacy != [] && ParseInt(legacy[|legacy| - 1].0) != Some(version)
    ensures var init := legacy[..|legacy| - 1];
            && (NoneNames(legacy, version) <==> NoneNames(init, version))
            && ((exists i | 0 <= i < |legacy| :: LastNaming(legacy, i, version, text)) <==>
                (exists i | 0 <= i < |init| :: LastNaming(init, i, version, text)))
  {
    hide ParseInt;
    var init := legacy[..|legacy| - 1];
    assert legacy == init + [legacy[|legacy| - 1]];
    if i :| 0 <= i < |legacy| && LastNaming(legacy, i, version, text) {
      assert LastNaming(init, i, version, text);
    }
    if i :| 0 <= i < |init| && LastNaming(init, i, version, text) {
      assert LastNaming(legacy, i, version, text);
    }
  }

  ghost predicate Usable(decodeKey: string -> Option<Key>, settings: Settings) {
    && decodeKey(settings.key).Some?
    && forall entry <- settings.legacy :: ParseInt(entry.0).Some? && decodeKey(entry.1).Some?
  }

  ghost predicate Holds(decodeKey: string -> Option<Key>, settings: Settings, keys: map<int, Key>) {
    && (forall v :: v in keys <==> KeyText(settings, v).Some?)
    && (forall v <- keys :: decodeKey(KeyText(settings, v).value) == Some(keys[v]))
  }

  /** Keys from the environment; decodeKey is strict base64 of 32 bytes. */
  class EnvKeyProvider {
    var keys: map<int, Key>
    var current: int

    constructor (version: int, key: Key)
      ensures keys == map[version := key] && current == version
    {
      keys := map[version := key];
      current := version;
    }

    static method Create(decodeKey: string -> Option<Key>, settings: Settings)
      returns (r: Result<EnvKeyProvider, KeyError>)
      ensures r.Ok? <==> Usable(decodeKey, settings)
      ensures r.Ok? ==> fresh(r.value) && r.value.View().Valid() && r.value.current == settings.version
      ensures r.Ok? ==> Holds(decodeKey, settings, r.value.keys)
    {
      var key := decodeKey(settings.key);
      if key == None {
        return Err(NotAKey);
      }
      var provider := new EnvKeyProvider(settings.version, key.value);
      assert settings.(legacy := settings.legacy[..0]) == settings.(legacy := []);
      for i := 0 to |settings.legacy|
        invariant provider.current == settings.version && provider.View().Valid()
        invariant Usable(decodeKey, settings.(legacy := settings.legacy[..i]))
        invariant Holds(decodeKey, settings.(legacy := settings.legacy[..i]), provider.keys)
      {
        var (versionText, raw) := settings.legacy[i];
        assert settings.legacy[i] in settings.legacy;
        var version := ParseInt(versionText);
        if version == None {
          return Err(NotAVersion);
        }
        var decoded := decodeKey(raw);
        if decoded == None {
          return Err(NotAKey);
        }
        AddLegacy(decodeKey, settings, i, provider.keys, version.value, decoded.value);
        provider.keys := provider.keys[version.value := decoded.value];
      }
      assert settings.legacy[..|settings.legacy|] == settings.legacy;
      return Ok(provider);
    }

    function View(): Keyring
      reads this
    {
      Keyring(keys, current)
    }
  }

  lemma AddLegacy(decodeKey: string -> Option<Key>, settings: Settings, i: nat,
                  keys: map<int, Key>, version: int, key: Key)
    requires i < |settings.legacy|
    requires Usable(decodeKey, settings.(legacy := settings.legacy[..i]))
    requires Holds(decodeKey, settings.(legacy := settings.legacy[..i]), keys)
    requires ParseInt(settings.legacy[i].0) == Some(version) && decodeKey(settings.legacy[i].1) == Some(key)
    ensures Usable(decodeKey, settings.(legacy := settings.legacy[..i + 1]))
    ensures Holds(decodeKey, settings.(legacy := settings.legacy[..i + 1]), keys[version := key])
  {
    hide ParseInt;
    var before, after := settings.(legacy := settings.legacy[..i]), settings.(legacy := settings.legacy[..i + 1]);
    assert settings.legacy[..i + 1][..i] == settings.legacy[..i];
    assert forall v :: KeyText(after, v) == if v == version then Some(settings.legacy[i].1) else KeyText(before, v);
    assert settings.legacy[..i + 1] == settings.legacy[..i] + [settings.legacy[i]];
  }

  // ---- Encrypting and decrypting -------------------------------------------------------------

  /** AES-GCM and UTF-8. */
  datatype Primitives = Primitives(
    seal: (Key, seq<Byte>, seq<Byte>) -> seq<Byte>,
    open: (Key, seq<Byte>, seq<Byte>) -> Option<seq<Byte>>,
    utf8: string -> seq<Byte>,
    fromUtf8: seq<Byte> -> Option<string>)

  /** Opening undoes sealing under the same key and nonce, and fails under another key. */
  ghost predicate Sound(p: Primitives) {
    && (forall k, n, m :: p.open(k, n, p.seal(k, n, m)) == Some(m))
    && (forall k, other, n, m | k != other :: p.open(other, n, p.seal(k, n, m)) == None)
    && (forall s :: p.fromUtf8(p.utf8(s)) == Some(s))
  }

  function Encrypt(p: Primitives, ring: Keyring, nonce: seq<Byte>, plain: string): string
    requires ring.Valid()
  {
    Stored(p, ring.current, ring.keys[ring.current], nonce, plain)
  }

  function Stored(p: Primitives, version: int, key: Key, nonce: seq<Byte>, plain: string): string {
    Join3(Decimal(version), Encode(nonce), Encode(p.seal(key, nonce, p.utf8(plain))))
  }

  /** PortalError for anything wrong with the text or the key; plaintext that is not UTF-8 raises its own error. */
  datatype DecryptError = PortalError | UnicodeDecodeError

  function Decrypt(p: Primitives, ring: Keyring, stored: string): Result<string, DecryptError> {
    var fields := Split(stored, 2);
    if |fields| != 3 then Err(PortalError)
    else
      var version := ParseInt(fields[0]);
      if version == None || version.value !in ring.keys then Err(PortalError)
      else
        var nonce, sealed := Decode(fields[1]), Decode(fields[2]);
        if nonce == None || sealed == None then Err(PortalError)
        else
          match p.open(ring.keys[version.value], nonce.value, sealed.value)
          case None => Err(PortalError)
          case Some(bytes) =>
            match p.fromUtf8(bytes)
            case None => Err(UnicodeDecodeError)
            case Some(text) => Ok(text)
  }

  function NeedsRotation(ring: Keyring, stored: string): bool {
    match ParseInt(Split(stored, 1)[0])
    case None => true
    case Some(version) => version != ring.current
  }

  /** The three fields of a stored credential are read back as they were written. */
  lemma StoredFields(p: Primitives, version: int, key: Key, nonce: seq<Byte>, plain: string)
    ensures var text, sealed := Stored(p, version, key, nonce, plain), p.seal(key, nonce, p.utf8(plain));
            && Split(text, 2) == [Decimal(version), Encode(nonce), Encode(sealed)]
            && Split(text, 1)[0] == Decimal(version)
            && ParseInt(Decimal(version)) == Some(version)
            && Decode(Encode(nonce)) == Some(nonce) && Decode(Encode(sealed)) == Some(sealed)
  {
    hide Split, Decimal, ParseInt, Encode, Decode;
    var sealed := p.seal(key, nonce, p.utf8(plain));
    var a, b, c := Decimal(version), Encode(nonce), Encode(sealed);
    DecimalRoundTrip(version);
    SplitInvertsJoin(a, b, c);
    assert Join3(a, b, c) == a + [SEPARATOR] + (b + [SEPARATOR] + c);
    SplitField(a, b + [SEPARATOR] + c, 1);
    RoundTrip(nonce);
    RoundTrip(sealed);
  }

  /** Text in fewer than three fields, or whose version is no number or has no key, is refused. */
  lemma MalformedIsRefused(p: Primitives, ring: Keyring, version: string, rest: string)
    requires SEPARATOR !in version
    ensures Decrypt(p, ring, version) == Err(PortalError)
    ensures SEPARATOR !in rest ==> Decrypt(p, ring, version + [SEPARATOR] + rest) == Err(PortalError)
    ensures ParseInt(version) == None || ParseInt(version).value !in ring.keys ==>
              Decrypt(p, ring, version + [SEPARATOR] + rest) == Err(PortalError)
  {
    hide ParseInt;
    WholeField(version, 2);
    SplitField(version, rest, 2);
    if SEPARATOR !in rest {
      WholeField(rest, 1);
    }
  }

  lemma {:induction false} WholeField(field: string, max: nat)
    requires SEPARATOR !in field
    ensures Split(field, max) == [field]
    decreases |field|
  {
    if max > 0 && field != "" {
      WholeField(field[1..], max);
      assert [field[0]] + field[1..] == field;
    }
  }

  /** Three fields under a known version: what the key opens, if it opens and is text. */
  lemma WellFormedIsOpened(p: Primitives, ring: Keyring, version: int, nonce: seq<Byte>, sealed: seq<Byte>)
    requires version in ring.keys
    ensures Decrypt(p, ring, Join3(Decimal(version), Encode(nonce), Encode(sealed))) ==
            match p.open(ring.keys[version], nonce, sealed)
            case None => Err(PortalError)
            case Some(bytes) =>
              if p.fromUtf8(bytes) == None then Err(UnicodeDecodeError) else Ok(p.fromUtf8(bytes).value)
  {
    hide Split, Decimal, ParseInt, Encode, Decode;
    DecimalRoundTrip(version);
    SplitInvertsJoin(Decimal(version), Encode(nonce), Encode(sealed));
    RoundTrip(nonce);
    RoundTrip(sealed);
  }

  /** Any text wants re-encryption unless what stands before its first separator is the current version. */
  lemma NeedsRotationTold(ring: Keyring, version: string, rest: string)
    requires SEPARATOR !in version
    ensures NeedsRotation(ring, version) <==> ParseInt(version) != Some(ring.current)
    ensures NeedsRotation(ring, version + [SEPARATOR] + rest) <==> ParseInt(version) != Some(ring.current)
  {
    hide ParseInt;
    WholeField(version, 1);
    SplitField(version, rest, 1);
  }

  /** A stored credential can be read exactly under the keyrings that bind its version to its key. */
  lemma ReadableIff(p: Primitives, ring: Keyring, version: int, key: Key, nonce: seq<Byte>, plain: string)
    requires Sound(p)
    ensures Decrypt(p, ring, Stored(p, version, key, nonce, plain))
         == if version in ring.keys && ring.keys[version] == key then Ok(plain) else Err(PortalError)
  {
    hide Split, Decimal, ParseInt, Encode, Decode, Stored;
    StoredFields(p, version, key, nonce, plain);
  }

  /** And wants re-encryption exactly when its version is not the current one. */
  lemma NeedsRotationIff(p: Primitives, ring: Keyring, version: int, key: Key, nonce: seq<Byte>, plain: string)
    ensures NeedsRotation(ring, Stored(p, version, key, nonce, plain)) <==> version != ring.current
  {
    hide Split, Decimal, ParseInt, Encode, Decode, Stored;
    StoredFields(p, version, key, nonce, plain);
  }

  // ---- Runs --------------------------------------------------------------------------------

  /** A stored credential with what it was made from. */
  datatype Credential = Credential(version: int, key: Key, nonce: seq<Byte>, plain: string) {
    function Text(p: Primitives): string { Stored(p, version, key, nonce, plain) }
  }

  datatype State = State(ring: Keyring, credentials: seq<Credential>)

  /** Restarting with other keys, storing a credential, and encrypting one anew. */
  datatype Step =
    | Rotate(ring: Keyring)
    | Store(nonce: seq<Byte>, plain: string)
    | Reencrypt(index: nat, nonce: seq<Byte>)

  /** The credential whose text Encrypt writes. */
  function Made(ring: Keyring, nonce: seq<Byte>, plain: string): (c: Credential)
    requires ring.Valid()
    ensures forall p: Primitives :: c.Text(p) == Encrypt(p, ring, nonce, plain)
  {
    Credential(ring.current, ring.keys[ring.current], nonce, plain)
  }

  function Apply(p: Primitives, state: State, step: Step): State
    requires state.ring.Valid()
  {
    match step
    case Rotate(ring) => state.(ring := ring)
    case Store(nonce, plain) => state.(credentials := state.credentials + [Made(state.ring, nonce, plain)])
    case Reencrypt(i, nonce) =>
      if i >= |state.credentials| then state
      else
        match Decrypt(p, state.ring, state.credentials[i].Text(p))
        case Err(_) => state
        case Ok(plain) => state.(credentials := state.credentials[i := Made(state.ring, nonce, plain)])
  }

  /** The new keyring still binds every version to the key it was bound to. */
  predicate Keeps(was: Keyring, next: Keyring) {
    next.Valid() && forall v <- was.keys :: v in next.keys && next.keys[v] == was.keys[v]
  }

  ghost predicate CarefulRun(p: Primitives, state: State, steps: seq<Step>)
    requires state.ring.Valid()
    decreases |steps|
  {
    steps == [] ||
    ((steps[0].Rotate? ==> Keeps(state.ring, steps[0].ring)) && CarefulRun(p, Apply(p, state, steps[0]), steps[1..]))
  }

  function ApplyAll(p: Primitives, state: State, steps: seq<Step>): State
    requires state.ring.Valid() && CarefulRun(p, state, steps)
    decreases |steps|
  {
    if steps == [] then state else ApplyAll(p, Apply(p, state, steps[0]), steps[1..])
  }

  ghost predicate AllReadable(p: Primitives, state: State) {
    forall c <- state.credentials :: Decrypt(p, state.ring, c.Text(p)) == Ok(c.plain)
  }

  ghost predicate Bound(ring: Keyring, c: Credential) {
    c.version in ring.keys && ring.keys[c.version] == c.key
  }

  ghost predicate AllBound(state: State) {
    state.ring.Valid() && forall c <- state.credentials :: Bound(state.ring, c)
  }

  /** What is encrypted decrypts to the same, and needs no rotation. */
  lemma EncryptRoundTrip(p: Primitives, ring: Keyring, nonce: seq<Byte>, plain: string)
    requires Sound(p) && ring.Valid()
    ensures Decrypt(p, ring, Encrypt(p, ring, nonce, plain)) == Ok(plain)
    ensures !NeedsRotation(ring, Encrypt(p, ring, nonce, plain))
  {
    hide Decrypt, NeedsRotation, Stored;
    ReadableIff(p, ring, ring.current, ring.keys[ring.current], nonce, plain);
    NeedsRotationIff(p, ring, ring.current, ring.keys[ring.current], nonce, plain);
  }

  /** All credentials can be read if and only if the keyring has the keys they were made with. */
  lemma ReadableIffBound(p: Primitives, state: State)
    requires Sound(p) && state.ring.Valid()
    ensures AllReadable(p, state) <==> AllBound(state)
  {
    forall c <- state.credentials
      ensures Decrypt(p, state.ring, c.Text(p)) == if Bound(state.ring, c) then Ok(c.plain) else Err(PortalError)
    {
      ReadableIff(p, state.ring, c.version, c.key, c.nonce, c.plain);
    }
  }

  lemma StepKeepsReadable(p: Primitives, state: State, step: Step)
    requires Sound(p) && AllBound(state)
    requires step.Rotate? ==> Keeps(state.ring, step.ring)
    ensures AllBound(Apply(p, state, step))
    ensures Plains(state) <= Plains(Apply(p, state, step))
  {
    hide Decrypt, Stored;
    ReadableIffBound(p, state);
    var after := Apply(p, state, step);
    forall c <- after.credentials ensures Bound(after.ring, c) {
      if c in state.credentials {
        assert Bound(state.ring, c);
      }
    }
    if step.Reencrypt? && step.index < |state.credentials| {
      assert state.credentials[step.index] in state.credentials;
    }
  }

  function Plains(state: State): seq<string> {
    seq(|state.credentials|, i requires 0 <= i < |state.credentials| => state.credentials[i].plain)
  }

  /** Across any number of key changes, everything ever stored can be read, and reads as it was stored. */
  lemma {:induction false} EveryCredentialReads(p: Primitives, state: State, steps: seq<Step>)
    requires Sound(p) && AllBound(state) && CarefulRun(p, state, steps)
    ensures var end := ApplyAll(p, state, steps);
            AllBound(end) && AllReadable(p, end) && Plains(state) <= Plains(end)
    decreases |steps|
  {
    if steps == [] {
      ReadableIffBound(p, state);
    } else {
      StepKeepsReadable(p, state, steps[0]);
      EveryCredentialReads(p, Apply(p, state, steps[0]), steps[1..]);
    }
  }

  /** Encrypting anew makes a credential current and keeps what it says. */
  lemma ReencryptionSettles(p: Primitives, state: State, i: nat, nonce: seq<Byte>)
    requires Sound(p) && AllBound(state) && i < |state.credentials|
    ensures var after := Apply(p, state, Reencrypt(i, nonce));
            && !NeedsRotation(after.ring, after.credentials[i].Text(p))
            && Decrypt(p, after.ring, after.credentials[i].Text(p)) == Ok(state.credentials[i].plain)
  {
    hide Decrypt, Stored, NeedsRotation;
    ReadableIffBound(p, state);
    assert state.credentials[i] in state.credentials;
    var made := Made(state.ring, nonce, state.credentials[i].plain);
    ReadableIff(p, state.ring, made.version, made.key, nonce, made.plain);
    NeedsRotationIff(p, state.ring, made.version, made.key, nonce, made.plain);
  }

  /**
   What a rotation asks of the settings: every version that had a key is named by a legacy entry,
   and every entry naming it carries that key; or it stays the current version, with its key.
   */
  lemma RotationKeepsKeys(decodeKey: string -> Option<Key>, was: Keyring, settings: Settings, next: Keyring)
    requires Usable(decodeKey, settings) && Holds(decodeKey, settings, next.keys) && next.current == settings.version
    ensures Keeps(was, next) <==>
            forall v <- was.keys :: KeyText(settings, v).Some?
              && decodeKey(KeyText(settings, v).value) == Some(was.keys[v])
  {
    hide KeyText;
    CurrentHasText(settings);
  }

  lemma {:induction false} CurrentHasText(settings: Settings)
    ensures KeyText(settings, settings.version).Some?
    decreases |settings.legacy|
  {
    hide ParseInt;
    if settings.legacy != [] {
      CurrentHasText(settings.(legacy := settings.legacy[..|settings.legacy| - 1]));
    }
  }
}
