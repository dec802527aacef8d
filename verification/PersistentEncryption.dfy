/** Encryption of stored payloads with a choice of key providers
    (internal/control/persistent_encryption.go). */
module PersistentEncryption {
  import opened Text
  import opened Wrappers

  newtype byte = x: int | 0 <= x < 256

  type Bytes = seq<byte>

  datatype Error =
    | VaultUnreadable(message: string) | VaultEmpty
    | VaultRequired(provider: string) | CommandRequired(provider: string) | UnknownProvider(provider: string)
    | NoEntropy | CommandFailed(message: string) | ShorterThanNonce | NotAuthentic
    | VaultMissing | CommandMissing

  datatype Result<T> = Ok(value: T) | Err(error: Error)

  // Framing

  function Ascii(s: string): (r: Bytes)
    ensures |r| == |s|
  {
    seq(|s|, i requires 0 <= i < |s| => (s[i] as int % 256) as byte)
  }

  const LOCAL_PREFIX := Ascii("supadupa:v1:aesgcm:")
  const VAULT_PREFIX := Ascii("supadupa:v1:vault-file:aesgcm:")
  const COMMAND_PREFIX := Ascii("supadupa:v1:kms-command:")

  /** A payload starts with at most one of the prefixes: they differ in the byte after "supadupa:v1:". */
  lemma PrefixesApart(payload: Bytes)
    ensures !(LOCAL_PREFIX <= payload && VAULT_PREFIX <= payload)
    ensures !(LOCAL_PREFIX <= payload && COMMAND_PREFIX <= payload)
    ensures !(VAULT_PREFIX <= payload && COMMAND_PREFIX <= payload)
  {
    assert LOCAL_PREFIX[12] == 97 && VAULT_PREFIX[12] == 118 && COMMAND_PREFIX[12] == 107;
  }

  lemma PrefixesDiffer()
    ensures LOCAL_PREFIX != VAULT_PREFIX && LOCAL_PREFIX != COMMAND_PREFIX && VAULT_PREFIX != COMMAND_PREFIX
  {
    PrefixesApart(LOCAL_PREFIX);
    PrefixesApart(VAULT_PREFIX);
  }

  // Ciphers

  const NONCE_SIZE: nat := 12

  /** What the code calls but does not contain: SHA-256, AES-GCM and the KMS command. `salt` is
      whatever else an encryption command's answer depends on. */
  datatype Primitives = Primitives(
    hash: string -> Bytes,
    seal: (Bytes, Bytes, Bytes) -> Bytes,
    open: (Bytes, Bytes, Bytes) -> Option<Bytes>,
    commandEncrypt: (string, Bytes, nat) -> Result<Bytes>,
    commandDecrypt: (string, Bytes) -> Result<Bytes>)

  /** Opening inverts sealing, and decrypting with a command inverts encrypting with it. */
  ghost predicate Inverts(p: Primitives) {
    && (forall key, nonce, plaintext :: p.open(key, nonce, p.seal(key, nonce, plaintext)) == Some(plaintext))
    && (forall command, plaintext, salt ::
          var c := p.commandEncrypt(command, plaintext, salt);
          c.Ok? ==> p.commandDecrypt(command, c.value) == Ok(plaintext))
  }

  /** Nothing sealed with one key opens with another. */
  ghost predicate Authentic(p: Primitives) {
    forall key, other, nonce, plaintext ::
      key != other ==> p.open(other, nonce, p.seal(key, nonce, plaintext)) == None
  }

  datatype Cipher = AesGcm(name: string, prefix: Bytes, key: Bytes) | Command(command: string)

  function Prefix(c: Cipher): Bytes {
    if c.AesGcm? then c.prefix else COMMAND_PREFIX
  }

  /** `nonce` is what the random source gives, if it does; `salt` the command's. */
  datatype Entropy = Entropy(nonce: Option<Bytes>, salt: nat)

  ghost predicate GoodEntropy(e: Entropy) {
    e.nonce.Some? ==> |e.nonce.value| == NONCE_SIZE
  }

  function Encrypted(p: Primitives, c: Cipher, plaintext: Bytes, e: Entropy): Result<Bytes> {
    match c
    case AesGcm(_, prefix, key) =>
      if e.nonce.None? then Err(NoEntropy)
      else Ok(prefix + (e.nonce.value + p.seal(key, e.nonce.value, plaintext)))
    case Command(command) =>
      var answer := p.commandEncrypt(command, plaintext, e.salt);
      if answer.Err? then answer else Ok(COMMAND_PREFIX + answer.value)
  }

  function DecryptedBy(p: Primitives, c: Cipher, payload: Bytes): Result<Bytes> {
    if !(Prefix(c) <= payload) then Ok(payload)
    else
      var encrypted := payload[|Prefix(c)|..];
      match c
      case Command(command) => p.commandDecrypt(command, encrypted)
      case AesGcm(_, _, key) =>
        if |encrypted| < NONCE_SIZE then Err(ShorterThanNonce)
        else
          match p.open(key, encrypted[..NONCE_SIZE], encrypted[NONCE_SIZE..])
          case None => Err(NotAuthentic)
          case Some(plaintext) => Ok(plaintext)
  }

  /** Decrypting inverts encrypting, with the prefix and the nonce in between. */
  lemma FramingUndone(p: Primitives, c: Cipher, plaintext: Bytes, e: Entropy)
    requires Inverts(p) && GoodEntropy(e) && Encrypted(p, c, plaintext, e).Ok?
    ensures Prefix(c) <= Encrypted(p, c, plaintext, e).value
    ensures DecryptedBy(p, c, Encrypted(p, c, plaintext, e).value) == Ok(plaintext)
  {
    var payload := Encrypted(p, c, plaintext, e).value;
    if c.AesGcm? {
      var nonce := e.nonce.value;
      var body := nonce + p.seal(c.key, nonce, plaintext);
      assert payload[|c.prefix|..] == body;
      assert body[..NONCE_SIZE] == nonce && body[NONCE_SIZE..] == p.seal(c.key, nonce, plaintext);
    } else {
      var answer := p.commandEncrypt(c.command, plaintext, e.salt);
      assert payload[|COMMAND_PREFIX|..] == answer.value;
    }
  }

  /** Both use the same prefix, but with different keys. */
  predicate OtherKey(c: Cipher, other: Cipher) {
    c.AesGcm? && other.AesGcm? && c.prefix == other.prefix && c.key != other.key
  }

  /** What a key wrote, another key under the same prefix refuses. */
  lemma OtherKeyFails(p: Primitives, c: Cipher, other: Cipher, plaintext: Bytes, e: Entropy)
    requires Authentic(p) && GoodEntropy(e) && Encrypted(p, c, plaintext, e).Ok?
    requires OtherKey(c, other)
    ensures DecryptedBy(p, other, Encrypted(p, c, plaintext, e).value) == Err(NotAuthentic)
  {
    var payload, nonce := Encrypted(p, c, plaintext, e).value, e.nonce.value;
    var body := nonce + p.seal(c.key, nonce, plaintext);
    assert payload[|c.prefix|..] == body;
    assert body[..NONCE_SIZE] == nonce && body[NONCE_SIZE..] == p.seal(c.key, nonce, plaintext);
  }

  lemma OpensOnlyWithItsKey(p: Primitives, c: Cipher, plaintext: Bytes, e: Entropy)
    ensures Inverts(p) && GoodEntropy(e) && Encrypted(p, c, plaintext, e).Ok? ==>
              DecryptedBy(p, c, Encrypted(p, c, plaintext, e).value) == Ok(plaintext)
    ensures Authentic(p) && GoodEntropy(e) && Encrypted(p, c, plaintext, e).Ok? ==>
              forall other :: OtherKey(c, other) ==>
                DecryptedBy(p, other, Encrypted(p, c, plaintext, e).value) == Err(NotAuthentic)
  {
    hide *;
    if GoodEntropy(e) && Encrypted(p, c, plaintext, e).Ok? {
      if Inverts(p) { FramingUndone(p, c, plaintext, e); }
      if Authentic(p) {
        forall other | OtherKey(c, other) { OtherKeyFails(p, c, other, plaintext, e); }
      }
    }
  }

  method EncryptWith(p: Primitives, c: Cipher, plaintext: Bytes, e: Entropy) returns (result: Result<Bytes>)
    ensures result == Encrypted(p, c, plaintext, e)
    ensures Inverts(p) && GoodEntropy(e) && result.Ok? ==> DecryptedBy(p, c, result.value) == Ok(plaintext)
    ensures Authentic(p) && GoodEntropy(e) && result.Ok? && c.AesGcm? ==>
              forall other :: OtherKey(c, other) ==> DecryptedBy(p, other, result.value) == Err(NotAuthentic)
  {
    OpensOnlyWithItsKey(p, c, plaintext, e);
    match c
    case AesGcm(_, prefix, key) =>
      if e.nonce.None? { return Err(NoEntropy); }
      var nonce := e.nonce.value;
      var ciphertext := p.seal(key, nonce, plaintext);
      var payload: Bytes := [];
      payload := payload + prefix;
      payload := payload + nonce;
      payload := payload + ciphertext;
      assert payload == prefix + (nonce + ciphertext);
      return Ok(payload);
    case Command(command) =>
      var ciphertext := p.commandEncrypt(command, plaintext, e.salt);
      if ciphertext.Err? { return ciphertext; }
      var payload: Bytes := [];
      payload := payload + COMMAND_PREFIX;
      payload := payload + ciphertext.value;
      assert payload == COMMAND_PREFIX + ciphertext.value;
      return Ok(payload);
  }

  // Configuration

  /** The environment variables, and what reading the vault key file would give. */
  datatype Environment = Environment(
    secretKey: string, vaultKeyFile: string, vaultMaterial: Result<string>, kmsCommand: string, kmsProvider: string)

  function LocalCipher(p: Primitives, secret: string): Cipher {
    var trimmed := TrimSpace(secret);
    AesGcm("local", LOCAL_PREFIX, p.hash(if trimmed == "" then "supadupa-local-development-secret-key" else trimmed))
  }

  function VaultFileCipher(p: Primitives, material: Result<string>): Result<Cipher> {
    if material.Err? then Err(material.error)
    else if TrimSpace(material.value) == "" then Err(VaultEmpty)
    else Ok(AesGcm("vault-file", VAULT_PREFIX, p.hash(TrimSpace(material.value))))
  }

  datatype Router = Router(active: Cipher, local: Cipher, vault: Option<Cipher>, command: Option<Cipher>)

  /** Unless a provider is named, the command comes before the vault file, and that before the local key. */
  function Chosen(provider: string, local: Cipher, vault: Option<Cipher>, command: Option<Cipher>): Result<Cipher> {
    if provider == "" then Ok(if command.Some? then command.value else if vault.Some? then vault.value else local)
    else if provider in {"local", "env", "secret-key"} then Ok(local)
    else if provider in {"vault", "vault-file", "file"} then
      if vault.Some? then Ok(vault.value) else Err(VaultRequired(provider))
    else if provider in {"kms", "command", "kms-command"} then
      if command.Some? then Ok(command.value) else Err(CommandRequired(provider))
    else Err(UnknownProvider(provider))
  }

  function Configured(p: Primitives, env: Environment): Result<Router> {
    var local := LocalCipher(p, env.secretKey);
    var vaulted := VaultFileCipher(p, env.vaultMaterial);
    var command := TrimSpace(env.kmsCommand);
    if TrimSpace(env.vaultKeyFile) != "" && vaulted.Err? then Err(vaulted.error)
    else
      var vault := if TrimSpace(env.vaultKeyFile) != "" then Some(vaulted.value) else None;
      var kms := if command != "" then Some(Command(command)) else None;
      match Chosen(ToLower(TrimSpace(env.kmsProvider)), local, vault, kms)
      case Err(e) => Err(e)
      case Ok(active) => Ok(Router(active, local, vault, kms))
  }

  function Decrypted(p: Primitives, r: Router, payload: Bytes): Result<Bytes> {
    if LOCAL_PREFIX <= payload then DecryptedBy(p, r.local, payload)
    else if VAULT_PREFIX <= payload then
      if r.vault.None? then Err(VaultMissing) else DecryptedBy(p, r.vault.value, payload)
    else if COMMAND_PREFIX <= payload then
      if r.command.None? then Err(CommandMissing) else DecryptedBy(p, r.command.value, payload)
    else Ok(payload)
  }

  // What configurations can read

  /** The configuration has the very cipher, in the place its prefix leads to. */
  predicate Provides(r: Router, c: Cipher) {
    || (Prefix(c) == LOCAL_PREFIX && r.local == c)
    || (Prefix(c) == VAULT_PREFIX && r.vault == Some(c))
    || (Prefix(c) == COMMAND_PREFIX && r.command == Some(c))
  }

  /** The ciphers that configurations have. */
  predicate Known(c: Cipher) {
    || c.Command?
    || (c.name == "local" && c.prefix == LOCAL_PREFIX)
    || (c.name == "vault-file" && c.prefix == VAULT_PREFIX)
  }

  /** The shape every configuration has. */
  predicate WellFormed(r: Router) {
    && Known(r.local) && Prefix(r.local) == LOCAL_PREFIX
    && (r.vault.Some? ==> Known(r.vault.value) && Prefix(r.vault.value) == VAULT_PREFIX)
    && (r.command.Some? ==> r.command.value.Command?)
    && Provides(r, r.active)
  }

  lemma ConfiguredWellFormed(p: Primitives, env: Environment)
    requires Configured(p, env).Ok?
    ensures WellFormed(Configured(p, env).value)
  {}

  lemma ActiveIsKnown(r: Router)
    requires WellFormed(r)
    ensures Known(r.active)
  {}

  /** The payload is what a cipher of some configuration made of the plaintext. */
  ghost predicate Wrote(p: Primitives, c: Cipher, plaintext: Bytes, e: Entropy, payload: Bytes) {
    Known(c) && GoodEntropy(e) && Encrypted(p, c, plaintext, e) == Ok(payload)
  }

  /** The answer that a configuration owes to what the cipher wrote. */
  ghost predicate ReadsBack(reader: Router, c: Cipher, plaintext: Bytes, answer: Result<Bytes>) {
    && (Provides(reader, c) ==> answer == Ok(plaintext))
    && (c.AesGcm? && !Provides(reader, c) ==> answer.Err?)
    && (c.Command? && reader.command.None? ==> answer == Err(CommandMissing))
  }

  /** What one configuration writes, another reads back if it provides the cipher used; if
      that was a key, only then; and never without the provider. */
  lemma ReadableIff(p: Primitives, c: Cipher, reader: Router, plaintext: Bytes, e: Entropy)
    requires Inverts(p) && Authentic(p) && Known(c) && WellFormed(reader)
    requires GoodEntropy(e) && Encrypted(p, c, plaintext, e).Ok?
    ensures ReadsBack(reader, c, plaintext, Decrypted(p, reader, Encrypted(p, c, plaintext, e).value))
  {
    var payload := Encrypted(p, c, plaintext, e).value;
    FramingUndone(p, c, plaintext, e);
    PrefixesApart(payload);
    PrefixesDiffer();
    if c.AesGcm? {
      if c.prefix == LOCAL_PREFIX && reader.local.key != c.key {
        OtherKeyFails(p, c, reader.local, plaintext, e);
      } else if c.prefix == VAULT_PREFIX && reader.vault.Some? && reader.vault.value.key != c.key {
        OtherKeyFails(p, c, reader.vault.value, plaintext, e);
      }
    }
  }

  lemma ReadsWhatItProvides(p: Primitives, reader: Router, payload: Bytes)
    ensures Inverts(p) && Authentic(p) && WellFormed(reader) ==>
              forall c, plaintext, e :: Wrote(p, c, plaintext, e, payload) ==>
                ReadsBack(reader, c, plaintext, Decrypted(p, reader, payload))
  {
    hide Inverts, Authentic, WellFormed, Decrypted, Encrypted, Provides;
    if Inverts(p) && Authentic(p) && WellFormed(reader) {
      forall c, plaintext, e | Wrote(p, c, plaintext, e, payload)
        ensures ReadsBack(reader, c, plaintext, Decrypted(p, reader, payload))
      {
        ReadableIff(p, c, reader, plaintext, e);
      }
    }
  }

  /** Payloads from before there was encryption pass through every configuration. */
  lemma LegacyPassesThrough(p: Primitives, r: Router, payload: Bytes)
    requires !(LOCAL_PREFIX <= payload) && !(VAULT_PREFIX <= payload) && !(COMMAND_PREFIX <= payload)
    ensures Decrypted(p, r, payload) == Ok(payload)
  {}

  // The router

  class PersistentEncryptionRouter {
    var active: Cipher
    var local: Cipher
    var vault: Option<Cipher>
    var command: Option<Cipher>

    constructor (local: Cipher)
      ensures Value() == Router(local, local, None, None)
    {
      this.active, this.local, this.vault, this.command := local, local, None, None;
    }

    function Value(): Router
      reads this
    {
      Router(active, local, vault, command)
    }

    method Encrypt(p: Primitives, plaintext: Bytes, e: Entropy) returns (result: Result<Bytes>)
      ensures result == Encrypted(p, Value().active, plaintext, e)
    {
      result := EncryptWith(p, active, plaintext, e);
    }

    method Decrypt(p: Primitives, payload: Bytes) returns (result: Result<Bytes>)
      ensures result == Decrypted(p, Value(), payload)
      ensures Inverts(p) && Authentic(p) && WellFormed(Value()) ==>
                forall c, plaintext, e :: Wrote(p, c, plaintext, e, payload) ==> ReadsBack(Value(), c, plaintext, result)
    {
      ReadsWhatItProvides(p, Value(), payload);
      if LOCAL_PREFIX <= payload { return DecryptedBy(p, local, payload); }
      if VAULT_PREFIX <= payload {
        if vault.None? { return Err(VaultMissing); }
        return DecryptedBy(p, vault.value, payload);
      }
      if COMMAND_PREFIX <= payload {
        if command.None? { return Err(CommandMissing); }
        return DecryptedBy(p, command.value, payload);
      }
      return Ok(payload);
    }
  }

  method PersistentEncryptionFromEnv(p: Primitives, env: Environment) returns (result: Result<PersistentEncryptionRouter>)
    ensures result.Err? ==> Configured(p, env) == Err(result.error)
    ensures result.Ok? ==> fresh(result.value) && Configured(p, env) == Ok(result.value.Value())
  {
    var local := LocalCipher(p, env.secretKey);
    var vaultPath, commandValue := TrimSpace(env.vaultKeyFile), TrimSpace(env.kmsCommand);
    var provider := ToLower(TrimSpace(env.kmsProvider));
    var router := new PersistentEncryptionRouter(local);
    if vaultPath != "" {
      var vault := VaultFileCipher(p, env.vaultMaterial);
      if vault.Err? { return Err(vault.error); }
      router.vault := Some(vault.value);
      if provider == "" { router.active := vault.value; }
    }
    if commandValue != "" {
      router.command := Some(Command(commandValue));
      if provider == "" { router.active := Command(commandValue); }
    }
    if provider in {"", "local", "env", "secret-key"} {
      if provider != "" { router.active := local; }
    } else if provider in {"vault", "vault-file", "file"} {
      if router.vault.None? { return Err(VaultRequired(provider)); }
      router.active := router.vault.value;
    } else if provider in {"kms", "command", "kms-command"} {
      if router.command.None? { return Err(CommandRequired(provider)); }
      router.active := router.command.value;
    } else {
      return Err(UnknownProvider(provider));
    }
    return Ok(router);
  }

  // Runs

  datatype Step =
    | Configure(env: Environment)
    | Write(id: string, plaintext: Bytes, entropy: Entropy)

  /** A stored payload, with what it holds and how it was written. */
  datatype Record = Record(payload: Bytes, plaintext: Bytes, cipher: Cipher, entropy: Entropy)

  datatype State = State(router: Result<Router>, records: map<string, Record>)

  function Next(p: Primitives, s: State, step: Step): State {
    match step
    case Configure(env) => s.(router := Configured(p, env))
    case Write(id, plaintext, e) =>
      if s.router.Err? then s
      else
        var payload := Encrypted(p, s.router.value.active, plaintext, e);
        if payload.Err? then s
        else s.(records := s.records[id := Record(payload.value, plaintext, s.router.value.active, e)])
  }

  function After(p: Primitives, env: Environment, steps: seq<Step>): State {
    if steps == [] then State(Configured(p, env), map[])
    else Next(p, After(p, env, steps[..|steps| - 1]), steps[|steps| - 1])
  }

  ghost predicate Writes(steps: seq<Step>) {
    forall step :: step in steps && step.Write? ==> GoodEntropy(step.entropy)
  }

  /** The record is what a known cipher made of its plaintext. */
  ghost predicate Genuine(p: Primitives, record: Record) {
    Wrote(p, record.cipher, record.plaintext, record.entropy, record.payload)
  }

  ghost predicate AllGenuine(p: Primitives, s: State) {
    && (s.router.Ok? ==> WellFormed(s.router.value))
    && forall id :: id in s.records ==> Genuine(p, s.records[id])
  }

  lemma NextGenuine(p: Primitives, s: State, step: Step)
    requires AllGenuine(p, s) && (step.Write? ==> GoodEntropy(step.entropy))
    ensures AllGenuine(p, Next(p, s, step))
  {
    hide Encrypted, Configured, WellFormed, Known, GoodEntropy;
    match step
    case Configure(env) => if Configured(p, env).Ok? { ConfiguredWellFormed(p, env); }
    case Write(_, _, _) => if s.router.Ok? { ActiveIsKnown(s.router.value); }
  }

  lemma {:induction false} RecordsAreGenuine(p: Primitives, env: Environment, steps: seq<Step>)
    requires Writes(steps)
    ensures AllGenuine(p, After(p, env, steps))
  {
    if steps == [] {
      if Configured(p, env).Ok? { ConfiguredWellFormed(p, env); }
      return;
    }
    var init, last := steps[..|steps| - 1], steps[|steps| - 1];
    assert last in steps && forall step :: step in init ==> step in steps;
    RecordsAreGenuine(p, env, init);
    NextGenuine(p, After(p, env, init), last);
  }

  /** Whatever configurations a run went through, what it wrote is readable under a later one
      that provides the ciphers used; what a key wrote, under no other. */
  lemma ReadableAfterRun(p: Primitives, env: Environment, steps: seq<Step>, later: Environment, id: string)
    requires Inverts(p) && Authentic(p) && Writes(steps) && Configured(p, later).Ok?
    requires id in After(p, env, steps).records
    ensures var record, reader := After(p, env, steps).records[id], Configured(p, later).value;
            && (Provides(reader, record.cipher) ==> Decrypted(p, reader, record.payload) == Ok(record.plaintext))
            && (record.cipher.AesGcm? ==>
                  (Decrypted(p, reader, record.payload) == Ok(record.plaintext) <==> Provides(reader, record.cipher)))
            && (record.cipher.Command? && TrimSpace(later.kmsCommand) == "" ==>
                  Decrypted(p, reader, record.payload) == Err(CommandMissing))
  {
    RecordsAreGenuine(p, env, steps);
    ConfiguredWellFormed(p, later);
    var record, reader := After(p, env, steps).records[id], Configured(p, later).value;
    ReadableIff(p, record.cipher, reader, record.plaintext, record.entropy);
  }

  /** Every provider the one has, the other has unchanged. */
  ghost predicate KeysWithin(r: Router, reader: Router) {
    && r.local == reader.local
    && (r.vault.Some? ==> reader.vault == r.vault)
    && (r.command.Some? ==> reader.command == r.command)
  }

  ghost predicate ConfiguredWithin(p: Primitives, env: Environment, reader: Router) {
    Configured(p, env).Ok? ==> KeysWithin(Configured(p, env).value, reader)
  }

  lemma {:induction false} WrittenWithin(p: Primitives, env: Environment, steps: seq<Step>, reader: Router)
    requires ConfiguredWithin(p, env, reader)
    requires forall step :: step in steps && step.Configure? ==> ConfiguredWithin(p, step.env, reader)
    ensures var s := After(p, env, steps);
            && (s.router.Ok? ==> WellFormed(s.router.value) && KeysWithin(s.router.value, reader))
            && forall id :: id in s.records ==> Provides(reader, s.records[id].cipher)
  {
    if steps == [] { return; }
    var init, last := steps[..|steps| - 1], steps[|steps| - 1];
    assert last in steps && forall step :: step in init ==> step in steps;
    WrittenWithin(p, env, init, reader);
    hide Encrypted, Configured;
    if last.Configure? && Configured(p, last.env).Ok? { ConfiguredWellFormed(p, last.env); }
  }

  /** A run whose configurations only ever switch between, or add, providers that a later one
      still has loses no payload. */
  lemma SwitchingProvidersLosesNothing(p: Primitives, env: Environment, steps: seq<Step>, later: Environment, id: string)
    requires Inverts(p) && Authentic(p) && Writes(steps) && Configured(p, later).Ok?
    requires ConfiguredWithin(p, env, Configured(p, later).value)
    requires forall step :: step in steps && step.Configure? ==> ConfiguredWithin(p, step.env, Configured(p, later).value)
    requires id in After(p, env, steps).records
    ensures var record := After(p, env, steps).records[id];
            Decrypted(p, Configured(p, later).value, record.payload) == Ok(record.plaintext)
  {
    WrittenWithin(p, env, steps, Configured(p, later).value);
    ReadableAfterRun(p, env, steps, later, id);
  }
}
