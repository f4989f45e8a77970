/** The encryption codec of `src/utils/encryption.py`: whole-file Fernet
    encryption into a ".enc" sibling and decryption back out of one. The
    cipher is abstract: encrypting wraps the content in `Cipher(key, _)`,
    and only the same key unwraps it (the Fernet round trip). */
module Encryption {
  import opened Strings
  import opened PosixPath
  import opened Exceptions
  import opened Artifacts

  /** Fernet decryption of one token. */
  function DecryptToken(key: Key, c: Content): (r: Result<Content>)
    ensures r.Ok? <==> c.Cipher? && c.key == key
    ensures r.Ok? ==> c == Cipher(key, r.value)
  {
    if c.Cipher? && c.key == key then Ok(c.inner) else Err(InvalidToken)
  }

  /** `encrypt_file`: reads `p`, writes its ciphertext to `p + ".enc"`, and
      returns that name; `p` itself is left as it was. */
  function EncryptFile(key: Key, fs: Fs, p: Path): (r: Result<(Path, Fs)>)
    ensures r.Ok? <==> IsFile(fs, p) && !IsDir(fs, p + ".enc")
    ensures r.Ok? ==> r.value.0 == p + ".enc"
    ensures r.Ok? ==> OnlyChanged(fs, r.value.1, p + ".enc")
    ensures r.Ok? ==> r.value.1[p + ".enc"] == File(Cipher(key, fs[p].data))
    ensures r.Ok? ==> r.value.1[p] == fs[p]
  {
    var data :- ReadFile(fs, p);
    var out := p + ".enc";
    var fs' :- WriteFile(fs, out, Cipher(key, data));
    Ok((out, fs'))
  }

  /** `decrypt_file`: refuses any name without the ".enc" suffix before
      touching the file, then writes the plaintext to the name with its last
      four characters removed; the ciphertext stays in place. */
  function DecryptFile(key: Key, fs: Fs, p: Path): (r: Result<(Path, Fs)>)
    ensures !EndsWith(p, ".enc") ==> r == Err(ValueError(NotEnc))
    ensures r.Ok? <==> EndsWith(p, ".enc") && IsFile(fs, p) && DecryptToken(key, fs[p].data).Ok?
                       && Writable(fs, DropLast(p, 4))
    ensures r.Ok? ==> r.value.0 == DropLast(p, 4) && |r.value.0| + 4 == |p|
    ensures r.Ok? ==> OnlyChanged(fs, r.value.1, r.value.0)
    ensures r.Ok? ==> fs[p].data.Cipher? && fs[p].data.key == key
                      && r.value.1[r.value.0] == File(fs[p].data.inner)
    ensures r.Ok? ==> r.value.1[p] == fs[p]
  {
    if !EndsWith(p, ".enc") then Err(ValueError(NotEnc))
    else
      var token :- ReadFile(fs, p);
      var data :- DecryptToken(key, token);
      var out := DropLast(p, 4);
      var fs' :- WriteFile(fs, out, data);
      Ok((out, fs'))
  }

  /** The decrypt name of the encrypt name of any path is that path. */
  lemma EncryptedNameRoundTrip(p: Path)
    ensures EndsWith(p + ".enc", ".enc")
    ensures DropLast(p + ".enc", 4) == p
  {
    EndsWithAppend(p, ".enc");
    DropLastAppend(p, ".enc");
  }

  /** Decrypting a freshly encrypted file with the same key restores the
      original content at the original name, and that is the only effect: the
      filesystem is exactly as encryption left it. */
  lemma EncryptDecryptRoundTrip(key: Key, fs: Fs, p: Path)
    requires EncryptFile(key, fs, p).Ok?
    ensures var fs1 := EncryptFile(key, fs, p).value.1;
            DecryptFile(key, fs1, p + ".enc") == Ok((p, fs1))
  {
    var fs1 := EncryptFile(key, fs, p).value.1;
    EncryptedNameRoundTrip(p);
    assert fs1[p + ".enc"] == File(Cipher(key, fs[p].data));
    assert fs1[p := File(fs[p].data)] == fs1;
  }

  /** A file encrypted under one key does not decrypt under another. */
  lemma WrongKeyFails(key: Key, other: Key, fs: Fs, p: Path)
    requires key != other
    requires EncryptFile(key, fs, p).Ok?
    ensures DecryptFile(other, EncryptFile(key, fs, p).value.1, p + ".enc") == Err(InvalidToken)
  {
    EncryptedNameRoundTrip(p);
  }
}
