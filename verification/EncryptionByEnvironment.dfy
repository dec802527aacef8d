/** What the environment variables decide (internal/control/persistent_encryption.go:37-126): which
    environments are refused, how each of the others marks and seals what it writes, and which of
    them read what another wrote. */
module EncryptionByEnvironment {
  import opened PersistentEncryption
  import opened Text
  import opened Wrappers

  // The variables

  predicate Set(variable: string) { TrimSpace(variable) != "" }

  function ProviderOf(env: Environment): string { ToLower(TrimSpace(env.kmsProvider)) }

  predicate NamesLocal(env: Environment) { ProviderOf(env) in {"local", "env", "secret-key"} }
  predicate NamesVault(env: Environment) { ProviderOf(env) in {"vault", "vault-file", "file"} }
  predicate NamesCommand(env: Environment) { ProviderOf(env) in {"kms", "command", "kms-command"} }

  predicate NamesUnknown(env: Environment) {
    Set(env.kmsProvider) && !NamesLocal(env) && !NamesVault(env) && !NamesCommand(env)
  }

  predicate WritesByCommand(env: Environment) {
    NamesCommand(env) || (!Set(env.kmsProvider) && Set(env.kmsCommand))
  }

  predicate WritesByVault(env: Environment) {
    NamesVault(env) || (!Set(env.kmsProvider) && Set(env.vaultKeyFile) && !Set(env.kmsCommand))
  }

  predicate WritesLocally(env: Environment) {
    NamesLocal(env) || (!Set(env.kmsProvider) && !Set(env.vaultKeyFile) && !Set(env.kmsCommand))
  }

  /** The text whose hash is the local key. */
  function SecretText(env: Environment): string {
    if Set(env.secretKey) then TrimSpace(env.secretKey) else "supadupa-local-development-secret-key"
  }

  /** The text whose hash is the vault key. */
  function MaterialText(env: Environment): string {
    if env.vaultMaterial.Ok? then TrimSpace(env.vaultMaterial.value) else ""
  }

  // What a configuration does

  function WrittenUnder(p: Primitives, env: Environment, plaintext: Bytes, e: Entropy): Result<Bytes> {
    match Configured(p, env)
    case Err(error) => Err(error)
    case Ok(router) => Encrypted(p, router.active, plaintext, e)
  }

  function ReadUnder(p: Primitives, env: Environment, payload: Bytes): Result<Bytes> {
    match Configured(p, env)
    case Err(error) => Err(error)
    case Ok(router) => Decrypted(p, router, payload)
  }

  lemma FoldedBlank(s: string)
    ensures ToLower(s) == "" <==> s == ""
  {}

  /** An environment is refused exactly if its vault file is named and gives no key, or the
      provider it asks for is unknown or lacks its variable; the vault file is looked at first. */
  lemma RefusedIff(p: Primitives, env: Environment)
    ensures Configured(p, env).Err? <==>
              || (Set(env.vaultKeyFile) && MaterialText(env) == "")
              || (NamesVault(env) && !Set(env.vaultKeyFile))
              || (NamesCommand(env) && !Set(env.kmsCommand))
              || NamesUnknown(env)
    ensures Set(env.vaultKeyFile) && env.vaultMaterial.Err? ==> Configured(p, env) == Err(env.vaultMaterial.error)
    ensures Set(env.vaultKeyFile) && env.vaultMaterial.Ok? && MaterialText(env) == "" ==> Configured(p, env) == Err(VaultEmpty)
    ensures NamesUnknown(env) && (Set(env.vaultKeyFile) ==> MaterialText(env) != "") ==>
              Configured(p, env) == Err(UnknownProvider(ProviderOf(env)))
    ensures NamesVault(env) && !Set(env.vaultKeyFile) ==> Configured(p, env) == Err(VaultRequired(ProviderOf(env)))
    ensures NamesCommand(env) && !Set(env.kmsCommand) && (Set(env.vaultKeyFile) ==> MaterialText(env) != "") ==>
              Configured(p, env) == Err(CommandRequired(ProviderOf(env)))
  {
    FoldedBlank(TrimSpace(env.kmsProvider));
    hide ToLower, TrimSpace;
  }

  /** Every other environment writes in exactly one way. */
  lemma WritesOneWay(p: Primitives, env: Environment)
    requires Configured(p, env).Ok?
    ensures WritesLocally(env) || WritesByVault(env) || WritesByCommand(env)
    ensures !(WritesLocally(env) && WritesByVault(env)) && !(WritesLocally(env) && WritesByCommand(env))
    ensures !(WritesByVault(env) && WritesByCommand(env))
  {
    RefusedIff(p, env);
    FoldedBlank(TrimSpace(env.kmsProvider));
    hide ToLower, TrimSpace, Configured;
  }

  /** How a payload is marked and sealed, byte by byte: the marker of the provider, the nonce, and
      the text sealed with the hash of the trimmed secret, of the development secret if that is
      blank, or of the trimmed vault file; or the marker and what the command answers. */
  lemma PayloadOf(p: Primitives, env: Environment, plaintext: Bytes, e: Entropy)
    requires Configured(p, env).Ok?
    ensures !WritesByCommand(env) && e.nonce.None? ==> WrittenUnder(p, env, plaintext, e) == Err(NoEntropy)
    ensures WritesLocally(env) && e.nonce.Some? ==>
              WrittenUnder(p, env, plaintext, e)
              == Ok(Ascii("supadupa:v1:aesgcm:") + (e.nonce.value + p.seal(p.hash(SecretText(env)), e.nonce.value, plaintext)))
    ensures WritesByVault(env) && e.nonce.Some? ==>
              WrittenUnder(p, env, plaintext, e)
              == Ok(Ascii("supadupa:v1:vault-file:aesgcm:") + (e.nonce.value + p.seal(p.hash(MaterialText(env)), e.nonce.value, plaintext)))
    ensures WritesByCommand(env) ==>
              WrittenUnder(p, env, plaintext, e)
              == match p.commandEncrypt(TrimSpace(env.kmsCommand), plaintext, e.salt)
                 case Err(error) => Err(error)
                 case Ok(answer) => Ok(Ascii("supadupa:v1:kms-command:") + answer)
  {
    WritesOneWay(p, env);
    FoldedBlank(TrimSpace(env.kmsProvider));
    hide ToLower, TrimSpace, Ascii;
  }

  // One configuration reading another's payloads

  lemma ActiveCipher(p: Primitives, env: Environment)
    requires Configured(p, env).Ok?
    ensures WritesLocally(env) ==> Configured(p, env).value.active == AesGcm("local", LOCAL_PREFIX, p.hash(SecretText(env)))
    ensures WritesByVault(env) ==> Configured(p, env).value.active == AesGcm("vault-file", VAULT_PREFIX, p.hash(MaterialText(env)))
    ensures WritesByCommand(env) ==> Configured(p, env).value.active == Command(TrimSpace(env.kmsCommand))
  {
    WritesOneWay(p, env);
    FoldedBlank(TrimSpace(env.kmsProvider));
    hide ToLower, TrimSpace, Ascii;
  }

  lemma CiphersOf(p: Primitives, env: Environment)
    requires Configured(p, env).Ok?
    ensures var r := Configured(p, env).value;
            && r.local == AesGcm("local", LOCAL_PREFIX, p.hash(SecretText(env)))
            && r.vault == (if Set(env.vaultKeyFile) then Some(AesGcm("vault-file", VAULT_PREFIX, p.hash(MaterialText(env)))) else None)
            && r.command == (if Set(env.kmsCommand) then Some(Command(TrimSpace(env.kmsCommand))) else None)
  {
    RefusedIff(p, env);
    hide ToLower, TrimSpace, Ascii;
  }

  /** What one environment wrote locally, another reads exactly if the two secrets hash alike, and
      else refuses as not authentic, whatever provider either of them names. */
  lemma LocalReadIff(p: Primitives, writer: Environment, reader: Environment, plaintext: Bytes, e: Entropy)
    requires Inverts(p) && Authentic(p) && GoodEntropy(e)
    requires Configured(p, reader).Ok? && WritesLocally(writer) && WrittenUnder(p, writer, plaintext, e).Ok?
    ensures ReadUnder(p, reader, WrittenUnder(p, writer, plaintext, e).value)
            == if p.hash(SecretText(writer)) == p.hash(SecretText(reader)) then Ok(plaintext) else Err(NotAuthentic)
  {
    ActiveCipher(p, writer);
    CiphersOf(p, reader);
    hide Configured, WritesLocally, Inverts, Authentic, Encrypted, DecryptedBy;
    var c, local := Configured(p, writer).value.active, Configured(p, reader).value.local;
    FramingUndone(p, c, plaintext, e);
    if c != local { OtherKeyFails(p, c, local, plaintext, e); }
  }

  /** The hash keeps the two trimmed texts apart. */
  predicate ApartBy(p: Primitives, a: string, b: string) { p.hash(TrimSpace(a)) != p.hash(TrimSpace(b)) }

  /** So secrets that are equal once trimmed read each other, a blank secret is the development
      secret, and where the hash keeps two secrets apart neither reads the other's payloads. */
  lemma SecretsApart(p: Primitives, writer: Environment, reader: Environment, plaintext: Bytes, e: Entropy)
    requires Inverts(p) && Authentic(p) && GoodEntropy(e)
    requires Configured(p, reader).Ok? && WritesLocally(writer) && WrittenUnder(p, writer, plaintext, e).Ok?
    ensures var answer := ReadUnder(p, reader, WrittenUnder(p, writer, plaintext, e).value);
            && (TrimSpace(writer.secretKey) == TrimSpace(reader.secretKey) ==> answer == Ok(plaintext))
            && (TrimSpace(writer.secretKey) == "" && TrimSpace(reader.secretKey) == "supadupa-local-development-secret-key" ==>
                  answer == Ok(plaintext))
            && (Set(writer.secretKey) && Set(reader.secretKey) && ApartBy(p, writer.secretKey, reader.secretKey) ==>
                  answer == Err(NotAuthentic))
  {
    LocalReadIff(p, writer, reader, plaintext, e);
    hide Configured, WritesLocally, Inverts, Authentic, Encrypted, TrimSpace, WrittenUnder, ReadUnder;
  }

  /** What one environment wrote with its vault key, another reads exactly if it has a vault file
      whose trimmed text hashes alike. */
  lemma VaultReadIff(p: Primitives, writer: Environment, reader: Environment, plaintext: Bytes, e: Entropy)
    requires Inverts(p) && Authentic(p) && GoodEntropy(e)
    requires Configured(p, reader).Ok? && WritesByVault(writer) && WrittenUnder(p, writer, plaintext, e).Ok?
    ensures ReadUnder(p, reader, WrittenUnder(p, writer, plaintext, e).value)
            == if !Set(reader.vaultKeyFile) then Err(VaultMissing)
               else if p.hash(MaterialText(writer)) == p.hash(MaterialText(reader)) then Ok(plaintext)
               else Err(NotAuthentic)
  {
    ActiveCipher(p, writer);
    CiphersOf(p, reader);
    hide Configured, WritesByVault, Inverts, Authentic, Encrypted, DecryptedBy;
    var c, r := Configured(p, writer).value.active, Configured(p, reader).value;
    FramingUndone(p, c, plaintext, e);
    PrefixesApart(Encrypted(p, c, plaintext, e).value);
    if r.vault.Some? && r.vault.value != c { OtherKeyFails(p, c, r.vault.value, plaintext, e); }
  }

  /** What one environment wrote by its command, another reads if it has the same trimmed command,
      hands to its own command if that is another, and refuses if it has none. */
  lemma CommandRead(p: Primitives, writer: Environment, reader: Environment, plaintext: Bytes, e: Entropy, sent: Bytes)
    requires Inverts(p) && GoodEntropy(e)
    requires Configured(p, reader).Ok? && WritesByCommand(writer) && WrittenUnder(p, writer, plaintext, e).Ok?
    requires p.commandEncrypt(TrimSpace(writer.kmsCommand), plaintext, e.salt) == Ok(sent)
    ensures var answer := ReadUnder(p, reader, WrittenUnder(p, writer, plaintext, e).value);
            if !Set(reader.kmsCommand) then answer == Err(CommandMissing)
            else if TrimSpace(writer.kmsCommand) == TrimSpace(reader.kmsCommand) then answer == Ok(plaintext)
            else answer == p.commandDecrypt(TrimSpace(reader.kmsCommand), sent)
  {
    ActiveCipher(p, writer);
    CiphersOf(p, reader);
    hide Configured, WritesByCommand, Inverts, TrimSpace, Ascii;
    var c := Configured(p, writer).value.active;
    FramingUndone(p, c, plaintext, e);
    var payload := Encrypted(p, c, plaintext, e).value;
    PrefixesApart(payload);
    assert payload[|COMMAND_PREFIX|..] == sent;
  }
}
