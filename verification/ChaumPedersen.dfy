/** Why a Chaum-Pedersen proof stands for its relation: the two equations the
    verifier checks, without the hash that picks the challenge. */
module ChaumPedersen {
  import opened ModArith
  import opened Group
  import Decryption

  /** k*G and k*H, the first message. */
  datatype Commitment = Commitment(onG: Point, onH: Point)

  /** response*G == onG + challenge*a and response*h == onH + challenge*b. */
  predicate Verifies(t: Commitment, challenge: int, response: int, h: Point, a: Point, b: Point, q: nat)
    requires q > 0
  {
    && Mul(response, Base(q), q) == Add(t.onG, Mul(challenge, a, q), q)
    && Mul(response, h, q) == Add(t.onH, Mul(challenge, b, q), q)
  }

  /** Equal points have congruent logarithms. */
  lemma Equation(s: int, g: Point, t: Point, c: int, a: Point, q: nat)
    requires q > 0
    ensures Mul(s, g, q) == Add(t, Mul(c, a, q), q) <==> Cong(s * g.log, t.log + c * a.log, q)
  {
    ModCong(c * a.log, q);
    CongIntro(t.log, t.log, 0, q);
    CongIntro(s * g.log, s * g.log, 0, q);
    hide Cong;
    CongAdd(t.log, t.log, (c * a.log) % q, c * a.log, q);
    CongModEq(t.log + (c * a.log) % q, t.log + c * a.log, q);
    CongModEq(s * g.log, t.log + c * a.log, q);
  }

  /** The honest prover is accepted for every challenge. */
  lemma Completeness(secret: int, k: int, challenge: int, h: Point, q: nat)
    requires q > 0
    ensures Verifies(Commitment(Mul(k, Base(q), q), Mul(k, h, q)), challenge, (k + challenge * secret) % q,
                     h, Mul(secret, Base(q), q), Mul(secret, h, q), q)
  {
    HonestEquation(secret, k, challenge, Base(q), q);
    HonestEquation(secret, k, challenge, h, q);
  }

  lemma HonestEquation(secret: int, k: int, challenge: int, g: Point, q: nat)
    requires q > 0
    ensures Mul((k + challenge * secret) % q, g, q) == Add(Mul(k, g, q), Mul(challenge, Mul(secret, g, q), q), q)
  {
    var s := k + challenge * secret;
    var t, a := Mul(k, g, q), Mul(secret, g, q);
    ModCong(s, q);
    ModCong(k * g.log, q);
    ModCong(secret * g.log, q);
    Equation(s % q, g, t, challenge, a, q);
    hide *;
    CongScale(g.log, s % q, s, q);
    assert g.log * (s % q) == (s % q) * g.log && g.log * s == k * g.log + challenge * (secret * g.log) by {
      Expand(g.log, k, challenge, secret);
    }
    CongScale(challenge, a.log, secret * g.log, q);
    CongAdd(t.log, k * g.log, challenge * a.log, challenge * (secret * g.log), q);
    CongSym(t.log + challenge * a.log, k * g.log + challenge * (secret * g.log), q);
    CongTrans((s % q) * g.log, g.log * s, t.log + challenge * a.log, q);
  }

  lemma Expand(g: int, k: int, c: int, w: int)
    ensures g * (k + c * w) == k * g + c * (w * g)
  {
    assert g * (c * w) == c * (w * g);
  }

  /** Two accepted answers to different challenges force the relation: b is h
      taken to the exponent behind a. */
  lemma SpecialSoundness(t: Commitment, c: int, s: int, c': int, s': int, h: Point, a: Point, b: Point, q: nat)
    requires Prime(q) && !Cong(c - c', 0, q)
    requires Verifies(t, c, s, h, a, b, q) && Verifies(t, c', s', h, a, b, q)
    ensures Decryption.SharesKey(b, h, a, q)
  {
    Equation(s, Base(q), t.onG, c, a, q);
    Equation(s', Base(q), t.onG, c', a, q);
    Equation(s, h, t.onH, c, b, q);
    Equation(s', h, t.onH, c', b, q);
    RepresentsBase(q);
    hide Cong, Mul, Add, Base;
    TimesOne(s, Base(q).log, t.onG.log + c * a.log, q);
    TimesOne(s', Base(q).log, t.onG.log + c' * a.log, q);
    Extract(t.onG.log, t.onH.log, c, s, c', s', h.log, a.log, b.log, q);
  }

  lemma TimesOne(s: int, one: int, v: int, q: nat)
    requires q > 0 && Cong(one, 1, q) && Cong(s * one, v, q)
    ensures Cong(s, v, q)
  {
    hide Cong;
    CongScale(s, one, 1, q);
    CongSym(s * one, s * 1, q);
    CongTrans(s * 1, s * one, v, q);
  }

  lemma Extract(tg: int, th: int, c: int, s: int, c': int, s': int, h: int, a: int, b: int, q: nat)
    requires Prime(q) && !Cong(c - c', 0, q)
    requires Cong(s, tg + c * a, q) && Cong(s', tg + c' * a, q)
    requires Cong(s * h, th + c * b, q) && Cong(s' * h, th + c' * b, q)
    ensures Cong(b, a * h, q)
  {
    assert q > 0;
    hide *;
    CongCombine(1, s, tg + c * a, -1, s', tg + c' * a, q);
    CongCombine(1, s * h, th + c * b, -1, s' * h, th + c' * b, q);
    Differences(tg, c, c', a);
    Differences(th, c, c', b);
    CongScale(h, s - s', (c - c') * a, q);
    assert h * (s - s') == s * h - s' * h && h * ((c - c') * a) == (c - c') * (a * h);
    CongSym(s * h - s' * h, (c - c') * b, q);
    CongTrans((c - c') * b, s * h - s' * h, (c - c') * (a * h), q);
    Cancel(c - c', b, a * h, q);
  }

  lemma Differences(t: int, c: int, c': int, a: int)
    ensures t + c * a - (t + c' * a) == (c - c') * a
  {
  }
}
