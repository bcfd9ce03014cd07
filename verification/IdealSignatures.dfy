/**
 The two halves of what is assumed of signatures, `Sound` and `Unforgeable`, hold together:
 for every run and every set of trusted keys there is a world in which both do.
 */
module IdealSignatures {
  import opened Wrappers
  import opened Signing
  import opened Utf8

  /** A pair of byte strings as one byte string. */
  function Pair(a: Bytes, b: Bytes): Bytes {
    if a == [] then [0] + b else [1, a[0]] + Pair(a[1..], b)
  }

  lemma {:induction false} PairInjective(a: Bytes, b: Bytes, x: Bytes, y: Bytes)
    requires Pair(a, b) == Pair(x, y)
    ensures a == x && b == y
  {
    var p, q := Pair(a, b), Pair(x, y);
    assert p[0] == q[0];
    if a == [] {
      assert b == p[1..] == q[1..] == y;
    } else {
      assert p[1] == q[1];
      assert Pair(a[1..], b) == p[2..] == q[2..] == Pair(x[1..], y);
      PairInjective(a[1..], b, x[1..], y);
      assert a == [a[0]] + a[1..] && x == [x[0]] + x[1..];
    }
  }

  function Chars(b: Bytes): string {
    seq(|b|, i requires 0 <= i < |b| => b[i] as char)
  }

  function Codes(s: string): Bytes {
    seq(|s|, i requires 0 <= i < |s| => s[i] as int % 256)
  }

  /** A world in which a signature is the message under its signer's name. */
  function NamedMessages(): Crypto {
    Crypto(
      keyId := (key: Bytes) => Chars(key),
      publicKey := (seed: Bytes) => seed,
      sign := (seed: Bytes, message: Bytes) => Pair(seed, message),
      check := (key: Bytes, message: Bytes, sig: Bytes) => if sig == Pair(key, message) then Good else Bad,
      encode := (b: Bytes) => Chars(b),
      decode := (s: string) => Some(Codes(s)))
  }

  ghost function SignaturesOf(c: Crypto, run: seq<SigningEvent>): iset<Bytes> {
    iset e | e in run :: SignatureOf(c, e)
  }

  lemma {:induction false} NamedMessagesSound()
    ensures Sound(NamedMessages())
  {
    forall b ensures NamedMessages().decode(NamedMessages().encode(b)) == Some(b) {
      assert Codes(Chars(b)) == b;
    }
  }

  /** Whatever was signed and whichever keys are trusted, some world is sound and unforgeable. */
  lemma {:induction false} SoundAndUnforgeable(trusted: iset<Bytes>, run: seq<SigningEvent>)
    ensures Sound(NamedMessages())
    ensures Unforgeable(NamedMessages(), trusted, run, SignaturesOf(NamedMessages(), run))
  {
    var c := NamedMessages();
    NamedMessagesSound();
    forall publicKey, message, sig | publicKey in trusted && sig in SignaturesOf(c, run) && c.check(publicKey, message, sig) == Good
      ensures exists e :: e in run && SignedMessage(c, e, publicKey, message)
    {
      var e :| e in run && sig == SignatureOf(c, e);
      PairInjective(publicKey, message, e.seed, CanonicalBytes(e.manifest));
      assert SignedMessage(c, e, publicKey, message);
    }
  }
}
