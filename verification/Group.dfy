/** The prime-order group of ristretto255 (RFC 9496, section 4), each element
    written by its discrete logarithm to the base G modulo the group order q. */
module Group {
  import opened ModArith

  datatype Point = Point(log: int)

  const Identity := Point(0)

  predicate Element(p: Point, q: nat) {
    0 <= p.log < q
  }

  /** p is the point v*G. */
  predicate Represents(p: Point, v: int, q: nat)
    requires q > 0
  {
    Element(p, q) && Cong(p.log, v, q)
  }

  function Add(a: Point, b: Point, q: nat): Point
    requires q > 0
  {
    Point((a.log + b.log) % q)
  }

  function Sub(a: Point, b: Point, q: nat): Point
    requires q > 0
  {
    Point((a.log - b.log) % q)
  }

  function Mul(s: int, p: Point, q: nat): Point
    requires q > 0
  {
    Point((s * p.log) % q)
  }

  function Base(q: nat): Point
    requires q > 0
  {
    Point(1 % q)
  }

  lemma Reduced(v: int, w: int, q: nat)
    requires q > 0 && Cong(v, w, q)
    ensures 0 <= v % q < q && Cong(v % q, w, q)
  {
    ModCong(v, q);
    CongTrans(v % q, v, w, q);
  }

  lemma RepresentsIdentity(q: nat)
    requires q > 0
    ensures Represents(Identity, 0, q)
  {
    CongIntro(0, 0, 0, q);
  }

  lemma RepresentsAdd(a: Point, x: int, b: Point, y: int, q: nat)
    requires q > 0 && Cong(a.log, x, q) && Cong(b.log, y, q)
    ensures Represents(Add(a, b, q), x + y, q)
  {
    hide Cong;
    CongAdd(a.log, x, b.log, y, q);
    Reduced(a.log + b.log, x + y, q);
  }

  lemma RepresentsSub(a: Point, x: int, b: Point, y: int, q: nat)
    requires q > 0 && Cong(a.log, x, q) && Cong(b.log, y, q)
    ensures Represents(Sub(a, b, q), x - y, q)
  {
    hide Cong;
    CongCombine(1, a.log, x, -1, b.log, y, q);
    Reduced(a.log - b.log, x - y, q);
  }

  lemma RepresentsMul(s: int, x: int, p: Point, y: int, q: nat)
    requires q > 0 && Cong(s, x, q) && Cong(p.log, y, q)
    ensures Represents(Mul(s, p, q), x * y, q)
  {
    hide Cong;
    CongMul(s, x, p.log, y, q);
    Reduced(s * p.log, x * y, q);
  }

  lemma RepresentsBase(q: nat)
    requires q > 0
    ensures Represents(Base(q), 1, q)
  {
    ModCong(1, q);
  }

  /** Two points with congruent logarithms are the same point. */
  lemma RepresentsUnique(a: Point, x: int, b: Point, y: int, q: nat)
    requires q > 0 && Represents(a, x, q) && Represents(b, y, q) && Cong(x, y, q)
    ensures a == b
  {
    hide Cong;
    CongTrans(a.log, x, y, q);
    CongSym(b.log, y, q);
    CongTrans(a.log, y, b.log, q);
    CongUnique(a.log, b.log, q);
  }
}
