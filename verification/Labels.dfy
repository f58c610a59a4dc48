/** Trustee, position and contest identifiers, and the prefix rule that maps a
    position to its contests. */
module Labels {
  import opened ModArith

  function Digit(d: nat): char
    requires d < 10
  {
    ['0', '1', '2', '3', '4', '5', '6', '7', '8', '9'][d]
  }

  function Decimal(n: nat): (s: string)
    ensures |s| >= 1 && '/' !in s
  {
    if n < 10 then [Digit(n)] else Decimal(n / 10) + [Digit(n % 10)]
  }

  lemma {:induction false} DecimalInjective(m: nat, n: nat)
    requires Decimal(m) == Decimal(n)
    ensures m == n
  {
    var a, b := Decimal(m), Decimal(n);
    assert a[|a| - 1] == Digit(m % 10) && b[|b| - 1] == Digit(n % 10);
    assert m % 10 == n % 10;
    if m >= 10 && n >= 10 {
      assert Decimal(m / 10) == a[..|a| - 1] && Decimal(n / 10) == b[..|b| - 1];
      DecimalInjective(m / 10, n / 10);
    }
  }

  function PositionId(p: nat): (s: string)
    ensures '/' !in s && s != ""
  {
    match p
    case 0 => "president"
    case 1 => "vice-president"
    case 2 => "senator"
    case _ => "position-" + Decimal(p)
  }

  lemma PositionIdInjective(p: nat, r: nat)
    requires PositionId(p) == PositionId(r)
    ensures p == r
  {
    Stem(p);
    Stem(r);
    if p >= 3 {
      assert PositionId(p)[9..] == Decimal(p) && PositionId(r)[9..] == Decimal(r);
      DecimalInjective(p, r);
    }
  }

  lemma Stem(p: nat)
    ensures |PositionId(p)| >= 2
    ensures PositionId(p)[..2] == if p == 0 then "pr" else if p == 1 then "vi" else if p == 2 then "se" else "po"
  {
  }

  function ContestId(p: nat, k: nat): string {
    PositionId(p) + "/" + ("cand" + Decimal(k))
  }

  /** The first slash splits a string uniquely. */
  lemma SplitUnique(a: string, x: string, b: string, y: string)
    requires '/' !in a && '/' !in b && a + "/" + x == b + "/" + y
    ensures a == b && x == y
  {
    var s := a + "/" + x;
    assert s[|a|] == '/' && s[|b|] == '/';
    assert |a| == |b|;
    assert s[..|a|] == a && s[..|b|] == b;
    assert s[|a| + 1..] == x && s[|b| + 1..] == y;
  }

  lemma ContestIdInjective(p: nat, k: nat, r: nat, l: nat)
    requires ContestId(p, k) == ContestId(r, l)
    ensures p == r && k == l
  {
    SplitUnique(PositionId(p), "cand" + Decimal(k), PositionId(r), "cand" + Decimal(l));
    PositionIdInjective(p, r);
    assert ("cand" + Decimal(k))[4..] == Decimal(k) && ("cand" + Decimal(l))[4..] == Decimal(l);
    DecimalInjective(k, l);
  }

  predicate NoDuplicates<T(==)>(s: seq<T>) {
    forall i, j :: 0 <= i < j < |s| ==> s[i] != s[j]
  }

  /** The generator's contest list, position-major. */
  method BuildContestIds(positions: nat, candidates: nat) returns (ids: seq<string>)
    ensures |ids| == positions * candidates
    ensures forall p: nat, k: nat :: p < positions && k < candidates ==>
              Slot(p, k, candidates) < |ids| && ids[Slot(p, k, candidates)] == ContestId(p, k)
    ensures NoDuplicates(ids)
  {
    ids := [];
    hide ContestId;
    ghost var base := 0;  // p * candidates
    var p := 0;
    while p < positions
      invariant 0 <= p <= positions && |ids| == base == p * candidates
      invariant Numbered(ids, candidates)
    {
      var k := 0;
      while k < candidates
        invariant 0 <= k <= candidates && |ids| == base + k
        invariant Numbered(ids, candidates)
      {
        NumberedSnoc(ids, p, k, candidates);
        ids := ids + [ContestId(p, k)];
        k := k + 1;
      }
      p := p + 1;
      base := base + candidates;
    }
    NumberedMeaning(ids, positions, candidates);
  }

  ghost predicate Numbered(ids: seq<string>, candidates: nat) {
    |ids| > 0 ==> candidates > 0 && forall c: nat :: c < |ids| ==> ids[c] == ContestId(c / candidates, c % candidates)
  }

  lemma NumberedSnoc(ids: seq<string>, p: nat, k: nat, candidates: nat)
    requires Numbered(ids, candidates) && k < candidates && |ids| == p * candidates + k
    ensures Numbered(ids + [ContestId(p, k)], candidates)
  {
    hide ContestId;
    DivModUnique(p * candidates + k, candidates, p, k);
  }

  lemma NumberedMeaning(ids: seq<string>, positions: nat, candidates: nat)
    requires |ids| == positions * candidates && Numbered(ids, candidates)
    ensures forall p: nat, k: nat :: p < positions && k < candidates ==>
              Slot(p, k, candidates) < |ids| && ids[Slot(p, k, candidates)] == ContestId(p, k)
    ensures NoDuplicates(ids)
  {
    hide ContestId, Numbered, Slot;
    forall p: nat, k: nat | p < positions && k < candidates
      ensures Slot(p, k, candidates) < |ids| && ids[Slot(p, k, candidates)] == ContestId(p, k)
    {
      NumberedAt(ids, p, k, positions, candidates);
    }
    forall i: nat, j: nat | i < j < |ids| ensures ids[i] != ids[j] {
      NumberedDistinct(ids, i, j, candidates);
    }
  }

  lemma NumberedAt(ids: seq<string>, p: nat, k: nat, positions: nat, candidates: nat)
    requires |ids| == positions * candidates && Numbered(ids, candidates) && p < positions && k < candidates
    ensures Slot(p, k, candidates) < |ids| && ids[Slot(p, k, candidates)] == ContestId(p, k)
  {
    hide ContestId;
    SlotBound(p, k, positions, candidates);
    DivModUnique(p * candidates + k, candidates, p, k);
  }

  lemma NumberedDistinct(ids: seq<string>, i: nat, j: nat, candidates: nat)
    requires Numbered(ids, candidates) && i < j < |ids|
    ensures ids[i] != ids[j]
  {
    hide ContestId;
    if ids[i] == ids[j] {
      ContestIdInjective(i / candidates, i % candidates, j / candidates, j % candidates);
      QuotRem(i, candidates);
      QuotRem(j, candidates);
    }
  }

  /** Contest number of candidate k in position p. */
  function Slot(p: nat, k: nat, candidates: nat): nat {
    p * candidates + k
  }

  lemma SlotBound(p: nat, k: nat, positions: nat, candidates: nat)
    requires p < positions && k < candidates
    ensures Slot(p, k, candidates) < positions * candidates
  {
    assert positions * candidates == p * candidates + (positions - p) * candidates;
    MultipleBound(positions - p, candidates);
  }

  method BuildTrusteeIds(n: nat) returns (ids: seq<string>)
    ensures |ids| == n && forall i :: 0 <= i < n ==> ids[i] == Decimal(i + 1)
    ensures NoDuplicates(ids)
  {
    ids := [];
    var i := 0;
    while i < n
      invariant 0 <= i <= n && |ids| == i
      invariant forall k :: 0 <= k < i ==> ids[k] == Decimal(k + 1)
    {
      ids := ids + [Decimal(i + 1)];
      i := i + 1;
    }
    forall i, j | 0 <= i < j < |ids| ensures ids[i] != ids[j] {
      if ids[i] == ids[j] {
        DecimalInjective(i + 1, j + 1);
      }
    }
  }

  // ----- the prefix rule ---------------------------------------------------

  /** The part of a contest id before its first slash; all of it without one. */
  function PositionOf(contest: string): (s: string)
    ensures '/' !in s
    ensures '/' in contest ==> |s| < |contest| && contest[..|s|] == s && contest[|s|] == '/'
  {
    if contest == "" || contest[0] == '/' then "" else [contest[0]] + PositionOf(contest[1..])
  }

  predicate InPosition(contest: string, position: string) {
    position == "" || position + "/" <= contest
  }

  /** For a slash-free position, starting with "position/" is having it as position. */
  lemma PrefixIsPosition(contest: string, position: string)
    requires '/' in contest && '/' !in position && position != ""
    ensures InPosition(contest, position) <==> PositionOf(contest) == position
  {
    hide PositionOf;
    var s := PositionOf(contest);
    assert contest == s + "/" + contest[|s| + 1..];
    if position + "/" <= contest {
      var rest := contest[|position| + 1..];
      assert contest == position + "/" + rest;
      SplitUnique(s, contest[|s| + 1..], position, rest);
    }
    if s == position {
      assert position + "/" <= contest;
    }
  }

  /** A contest below a prefix has the prefix's leading component as its position. */
  lemma {:induction false} PrefixKeepsPosition(contest: string, prefix: string)
    requires prefix + "/" <= contest
    ensures PositionOf(contest) == PositionOf(prefix)
  {
    var stem := prefix + "/";
    assert stem[0] == contest[0];
    if prefix != "" && prefix[0] != '/' {
      assert stem[1..] == prefix[1..] + "/" && stem[1..] <= contest[1..];
      assert stem[0] == prefix[0];
      PrefixKeepsPosition(contest[1..], prefix[1..]);
    } else if prefix == "" {
      assert stem == "/";
    } else {
      assert stem[0] == prefix[0];
    }
  }

  lemma {:induction false} PositionOfPlain(id: string)
    ensures PositionOf(id) == id <==> '/' !in id
  {
    if id != "" && id[0] != '/' {
      PositionOfPlain(id[1..]);
      assert id == [id[0]] + id[1..];
    }
  }

  /** Indices of the contests a ballot in `position` covers, in order. */
  function PositionIndices(contests: seq<string>, position: string): (idxs: seq<nat>)
    ensures forall i: nat :: i in idxs <==> i < |contests| && InPosition(contests[i], position)
    ensures forall j, k :: 0 <= j < k < |idxs| ==> idxs[j] < idxs[k]
  {
    if contests == [] then []
    else
      var n := |contests| - 1;
      var front := PositionIndices(contests[..n], position);
      assert forall j :: 0 <= j < |front| ==> front[j] in front;
      front + if InPosition(contests[n], position) then [n] else []
  }

  method ContestIndicesForPosition(contests: seq<string>, position: string) returns (idxs: seq<nat>)
    ensures idxs == PositionIndices(contests, position)
  {
    idxs := [];
    var i := 0;
    while i < |contests|
      invariant 0 <= i <= |contests| && idxs == PositionIndices(contests[..i], position)
    {
      assert contests[..i + 1][..i] == contests[..i];
      if InPosition(contests[i], position) {
        idxs := idxs + [i];
      }
      i := i + 1;
    }
    assert contests[..i] == contests;
  }
}
