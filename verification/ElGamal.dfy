/** Exponential ElGamal under a joint key. */
module ElGamal {
  import opened ModArith
  import opened Group

  datatype Ciphertext = Ciphertext(pad: Point, data: Point)

  const Zero := Ciphertext(Identity, Identity)

  function Encrypt(key: Point, message: nat, randomness: int, q: nat): Ciphertext
    requires q > 0
  {
    Ciphertext(Mul(randomness, Base(q), q), Group.Add(Mul(message, Base(q), q), Mul(randomness, key, q), q))
  }

  function Sum(a: Ciphertext, b: Ciphertext, q: nat): Ciphertext
    requires q > 0
  {
    Ciphertext(Group.Add(a.pad, b.pad, q), Group.Add(a.data, b.data, q))
  }

  /** ct decrypts to m under the secret key: data = m*G + secret*pad. */
  predicate Encrypts(ct: Ciphertext, m: int, secret: int, q: nat)
    requires q > 0
  {
    Element(ct.pad, q) && Element(ct.data, q) && Cong(ct.data.log, m + secret * ct.pad.log, q)
  }

  lemma ZeroEncryptsZero(secret: int, q: nat)
    requires q > 0
    ensures Encrypts(Zero, 0, secret, q)
  {
    assert secret * 0 == 0;
    CongIntro(0, 0, 0, q);
  }

  lemma EncryptEncrypts(key: Point, secret: int, m: nat, r: int, q: nat)
    requires q > 0 && Represents(key, secret, q)
    ensures Encrypts(Encrypt(key, m, r, q), m, secret, q)
  {
    CongIntro(m, m, 0, q);
    CongIntro(r, r, 0, q);
    RepresentsBase(q);
    hide Cong;
    var pad, mask, msg := Mul(r, Base(q), q), Mul(r, key, q), Mul(m, Base(q), q);
    RepresentsMul(r, r, Base(q), 1, q);
    RepresentsMul(m, m, Base(q), 1, q);
    RepresentsMul(r, r, key, secret, q);
    RepresentsAdd(msg, m * 1, mask, r * secret, q);
    CongScale(secret, pad.log, r * 1, q);
    CongSym(secret * pad.log, secret * (r * 1), q);
    assert secret * (r * 1) == r * secret;
    CongTrans(Group.Add(msg, mask, q).log, m * 1 + r * secret, m + secret * pad.log, q);
  }

  /** The sum of two ciphertexts encrypts the sum of their plaintexts. */
  lemma SumEncrypts(a: Ciphertext, m: int, b: Ciphertext, n: int, secret: int, q: nat)
    requires q > 0 && Encrypts(a, m, secret, q) && Encrypts(b, n, secret, q)
    ensures Encrypts(Sum(a, b, q), m + n, secret, q)
  {
    hide Cong, Group.Add;
    CongIntro(a.pad.log, a.pad.log, 0, q);
    CongIntro(b.pad.log, b.pad.log, 0, q);
    RepresentsAdd(a.data, m + secret * a.pad.log, b.data, n + secret * b.pad.log, q);
    RepresentsAdd(a.pad, a.pad.log, b.pad, b.pad.log, q);
    SumLogs(m, n, secret, a.pad.log, b.pad.log, Group.Add(a.pad, b.pad, q).log, Group.Add(a.data, b.data, q).log, q);
  }

  lemma SumLogs(m: int, n: int, secret: int, x: int, y: int, pad: int, data: int, q: nat)
    requires q > 0 && Cong(pad, x + y, q) && Cong(data, m + secret * x + (n + secret * y), q)
    ensures Cong(data, m + n + secret * pad, q)
  {
    hide Cong;
    CongScale(secret, pad, x + y, q);
    CongSym(secret * pad, secret * (x + y), q);
    assert secret * (x + y) == secret * x + secret * y;
    CongTrans(data, m + n + secret * (x + y), m + n + secret * pad, q);
  }
}
