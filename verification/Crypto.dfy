/** The record cipher's counter discipline (src/proto/crypto.rs), over an ideal AEAD. */
module Crypto {
  import opened Bytes

  const DIR_CLIENT_TO_SERVER: byte := 0
  const DIR_SERVER_TO_CLIENT: byte := 1

  const NONCE_BYTES := 12
  const TAG_BYTES := 16

  /** `[dir][counter, little endian][0, 0, 0]` */
  function NonceFor(dir: byte, counter: u64): (nonce: seq<byte>)
    ensures |nonce| == NONCE_BYTES
  {
    [dir] + LittleEndian(counter, 8) + [0, 0, 0]
  }

  /** No two (direction, counter) pairs share a nonce (section 4 of RFC 8439 requires it). */
  lemma NonceInjective(dir: byte, counter: u64, dir': byte, counter': u64)
    ensures NonceFor(dir, counter) == NonceFor(dir', counter') <==> dir == dir' && counter == counter'
  {
    var n, n' := NonceFor(dir, counter), NonceFor(dir', counter');
    if n == n' {
      assert n[0] == dir && n'[0] == dir';
      assert n[1..9] == LittleEndian(counter, 8) && n'[1..9] == LittleEndian(counter', 8);
      Powers();
      LittleEndianInjective(counter, counter', 8);
    }
  }

  /** One key's AEAD, by its tables; plaintexts longer than `limit` cannot be sealed. */
  datatype Cipher = Cipher(
    sealings: imap<(seq<byte>, seq<byte>), seq<byte>>,
    openings: imap<(seq<byte>, seq<byte>), seq<byte>>,
    limit: nat)
  {
    function Seal(nonce: seq<byte>, plaintext: seq<byte>): seq<byte> {
      if (nonce, plaintext) in sealings then sealings[(nonce, plaintext)] else []
    }

    function Open(nonce: seq<byte>, ciphertext: seq<byte>): Option<seq<byte>> {
      if (nonce, ciphertext) in openings then Some(openings[(nonce, ciphertext)]) else None
    }

    /** Opening succeeds exactly on what was sealed under the same nonce, and gives it back; the tag adds
        16 bytes (section 2.8 of RFC 8439). */
    ghost predicate Ideal() {
      && (forall n, p :: |n| == NONCE_BYTES ==> |Seal(n, p)| == |p| + TAG_BYTES)
      && (forall n, p :: |n| == NONCE_BYTES ==> Open(n, Seal(n, p)) == Some(p))
      && (forall n, c :: |n| == NONCE_BYTES && Open(n, c).Some? ==> Seal(n, Open(n, c).value) == c)
      && (forall n, p, n', p' :: |n| == |n'| == NONCE_BYTES && Seal(n, p) == Seal(n', p') ==> n == n')
    }
  }

  /** The ideal is consistent: a cipher that carries its nonce in the clear meets it. */
  lemma IdealExists(limit: nat)
    ensures exists c: Cipher :: c.Ideal() && c.limit == limit
  {
    var c := Cipher(
      imap k: (seq<byte>, seq<byte>) | |k.0| == NONCE_BYTES :: k.0 + k.1 + [0, 0, 0, 0],
      imap k: (seq<byte>, seq<byte>) |
        |k.0| == NONCE_BYTES && |k.1| >= TAG_BYTES && k.1 == k.0 + k.1[NONCE_BYTES..|k.1| - 4] + [0, 0, 0, 0] ::
        k.1[NONCE_BYTES..|k.1| - 4],
      limit);
    forall n: seq<byte>, p: seq<byte> | |n| == NONCE_BYTES
      ensures |c.Seal(n, p)| == |p| + TAG_BYTES && c.Open(n, c.Seal(n, p)) == Some(p)
      ensures c.Seal(n, p)[..NONCE_BYTES] == n
    {
      var ct := c.Seal(n, p);
      assert ct == n + p + [0, 0, 0, 0];
      assert ct[NONCE_BYTES..|ct| - 4] == p;
    }
    assert c.Ideal();
  }

  datatype CipherError = Exhausted | SealFailed | OpenFailed

  /** Strictly increasing, all below `bound`. */
  ghost predicate Increasing(used: seq<nat>, bound: nat) {
    && (forall i :: 0 <= i < |used| ==> used[i] < bound)
    && (forall i, j :: 0 <= i < j < |used| ==> used[i] < used[j])
  }

  /** Seals outgoing records; the counter moves before the cipher runs. */
  class Sealer {
    const cipher: Cipher
    const dir: byte
    var counter: u64
    /** The counters records were sealed under. */
    ghost var used: seq<nat>

    ghost predicate Valid()
      reads this
    {
      Increasing(used, counter)
    }

    constructor (cipher: Cipher, dir: byte)
      ensures Valid() && this.cipher == cipher && this.dir == dir && counter == 0 && used == []
    {
      this.cipher, this.dir, this.counter, this.used := cipher, dir, 0, [];
    }

    method Seal(plaintext: seq<byte>) returns (r: Result<seq<byte>, CipherError>)
      requires Valid()
      modifies this
      ensures Valid()
      ensures old(counter) == U64_LIMIT - 1 ==> r == Err(Exhausted) && counter == old(counter)
      ensures old(counter) < U64_LIMIT - 1 ==> counter == old(counter) + 1 && (r.Ok? <==> |plaintext| <= cipher.limit)
      ensures r.Ok? ==> r.value == cipher.Seal(NonceFor(dir, old(counter)), plaintext)
      ensures used == old(used) + (if r.Ok? then [old(counter)] else [])
    {
      var nonce := NonceFor(dir, counter);
      if counter == U64_LIMIT - 1 {
        return Err(Exhausted);
      }
      counter := counter + 1;
      if |plaintext| > cipher.limit {
        return Err(SealFailed);
      }
      used := used + [counter - 1];
      r := Ok(cipher.Seal(nonce, plaintext));
    }
  }

  /** Opens incoming records; the counter moves only past a record that opened. */
  class Opener {
    const cipher: Cipher
    const dir: byte
    var counter: u64

    constructor (cipher: Cipher, dir: byte)
      ensures this.cipher == cipher && this.dir == dir && counter == 0
    {
      this.cipher, this.dir, this.counter := cipher, dir, 0;
    }

    method Open(ciphertext: seq<byte>) returns (r: Result<seq<byte>, CipherError>)
      modifies this
      ensures var plaintext := cipher.Open(NonceFor(dir, old(counter)), ciphertext);
        if plaintext.None? then r == Err(OpenFailed) && counter == old(counter)
        else if old(counter) == U64_LIMIT - 1 then r == Err(Exhausted) && counter == old(counter)
        else r == Ok(plaintext.value) && counter == old(counter) + 1
      ensures cipher.Ideal() && r.Ok? ==> ciphertext == cipher.Seal(NonceFor(dir, old(counter)), r.value)
      ensures cipher.Ideal() && old(counter) < U64_LIMIT - 1 ==>
        forall p :: ciphertext == cipher.Seal(NonceFor(dir, old(counter)), p) ==> r == Ok(p)
    {
      var plaintext := cipher.Open(NonceFor(dir, counter), ciphertext);
      if plaintext.None? {
        return Err(OpenFailed);
      }
      if counter == U64_LIMIT - 1 {
        return Err(Exhausted);
      }
      counter := counter + 1;
      r := Ok(plaintext.value);
    }
  }

  /** Whatever was asked of a sealer, including calls that failed, and of the sealer of the opposite
      direction of the same connection, no nonce was used for two records. */
  lemma NoncesNeverRepeat(dir: byte, used: seq<nat>, bound: u64, dir': byte, used': seq<nat>, bound': u64, i: nat,
                          j: nat)
    requires Increasing(used, bound) && Increasing(used', bound') && i < |used|
    ensures j < |used| && i != j ==> NonceFor(dir, used[i]) != NonceFor(dir, used[j])
    ensures j < |used'| && dir != dir' ==> NonceFor(dir, used[i]) != NonceFor(dir', used'[j])
  {
    if j < |used| && i != j {
      NonceInjective(dir, used[i], dir, used[j]);
    }
    if j < |used'| && dir != dir' {
      NonceInjective(dir, used[i], dir', used'[j]);
    }
  }
}
