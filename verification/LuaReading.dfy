/** What single-character items of a pattern are and cover, told by their bytes. */
module LuaReading {
  import opened LuaPattern

  /** The class of letter cl holds for c: one of acdglpsuwxz, or its complement as a capital; any other byte is
      itself. */
  predicate ClassHas(c: byte, cl: byte) {
    match cl
    case 97 => 65 <= c <= 90 || 97 <= c <= 122
    case 99 => c <= 31 || c == 127
    case 100 => 48 <= c <= 57
    case 103 => 33 <= c <= 126
    case 108 => 97 <= c <= 122
    case 112 => 33 <= c <= 47 || 58 <= c <= 64 || 91 <= c <= 96 || 123 <= c <= 126
    case 115 => 9 <= c <= 13 || c == 32
    case 117 => 65 <= c <= 90
    case 119 => 48 <= c <= 57 || 65 <= c <= 90 || 97 <= c <= 122
    case 120 => 48 <= c <= 57 || 65 <= c <= 70 || 97 <= c <= 102
    case 122 => c == 0
    case _ => c == cl
  }

  predicate Negated(cl: byte) { cl in {65, 67, 68, 71, 76, 80, 83, 85, 87, 88, 90} }

  lemma ClassMeaning(c: byte, cl: byte)
    ensures MatchClass(c, cl) <==> if Negated(cl) then !ClassHas(c, cl + 32) else ClassHas(c, cl)
  {
  }

  // Walks through a set.

  /** From i the steps lead to q. */
  ghost predicate Reached(step: nat -> nat, i: nat, q: nat)
    decreases q
  {
    q == i || exists k: nat {:trigger Reached(step, i, k)} :: i <= k < q && Reached(step, i, k) && step(k) == q
  }

  lemma {:induction false} ReachedLater(step: nat -> nat, i: nat, q: nat)
    requires (forall k: nat :: step(k) > k) && q > i
    ensures Reached(step, i, q) <==> q >= step(i) && Reached(step, step(i), q)
    decreases q
  {
    var n := step(i);
    if Reached(step, i, q) {
      var k: nat :| i <= k < q && Reached(step, i, k) && step(k) == q;
      if k > i { ReachedLater(step, i, k); }
    }
    if q >= n && Reached(step, n, q) {
      if q > n {
        var k: nat :| n <= k < q && Reached(step, n, k) && step(k) == q;
        ReachedLater(step, i, k);
      } else {
        assert Reached(step, i, i);
      }
    }
  }

  /** Within brackets a percent sign takes the next byte with it. */
  function PastEscape(pat: seq<byte>): nat -> nat {
    (k: nat) => if At(pat, k) == 37 && At(pat, k + 1) != 0 then k + 2 else k + 1
  }

  /** j is the first bracket after i that is not escaped, and the pattern does not end before it. */
  ghost predicate Closes(pat: seq<byte>, i: nat, j: nat) {
    && i < j < |pat| && pat[j] == 93 && Reached(PastEscape(pat), i, j)
    && (forall k: nat {:trigger Reached(PastEscape(pat), i, k)} :: i <= k < j && Reached(PastEscape(pat), i, k) ==>
        At(pat, k) != 0 && (k > i ==> At(pat, k) != 93))
  }

  /** From i on, and from the step after it. */
  lemma ReachedNext(step: nat -> nat, i: nat)
    requires forall k: nat :: step(k) > k
    ensures Reached(step, i, i) && Reached(step, i, step(i))
    ensures forall k: nat {:trigger Reached(step, i, k)} {:trigger Reached(step, step(i), k)} :: k > i ==>
      (Reached(step, i, k) <==> k >= step(i) && Reached(step, step(i), k))
  {
    forall k: nat {:trigger Reached(step, i, k)} {:trigger Reached(step, step(i), k)} | k > i
      ensures Reached(step, i, k) <==> k >= step(i) && Reached(step, step(i), k)
    {
      ReachedLater(step, i, k);
    }
    assert Reached(step, step(i), step(i));
  }

  lemma ClosesNext(pat: seq<byte>, i: nat, j: nat)
    requires At(pat, i) != 0
    ensures var n := PastEscape(pat)(i); Closes(pat, i, j) <==> if At(pat, n) == 93 then j == n else Closes(pat, n, j)
  {
    var step := PastEscape(pat);
    var n := step(i);
    ReachedNext(step, i);
    if At(pat, n) == 93 {
      if Closes(pat, i, j) { assert j >= n && Reached(step, i, n); }
    } else if Closes(pat, n, j) {
      forall k: nat {:trigger Reached(step, i, k)} | i <= k < j && Reached(step, i, k)
        ensures At(pat, k) != 0 && (k > i ==> At(pat, k) != 93)
      {
        assert k > i ==> Reached(step, n, k);
      }
      assert Reached(step, i, j);
    } else if Closes(pat, i, j) {
      assert j > n && Reached(step, n, j);
      forall k: nat {:trigger Reached(step, n, k)} | n <= k < j && Reached(step, n, k)
        ensures At(pat, k) != 0 && (k > n ==> At(pat, k) != 93)
      {
        assert Reached(step, i, k);
      }
    }
  }

  lemma {:induction false} SetEndMeaning(pat: seq<byte>, i: nat, j: nat)
    ensures SetEnd(pat, i) == Some(j) <==> Closes(pat, i, j)
    decreases |pat| - i
  {
    var n := PastEscape(pat)(i);
    if At(pat, i) == 0 {
      assert Reached(PastEscape(pat), i, i);
    } else {
      ClosesNext(pat, i, j);
      if At(pat, n) != 93 { SetEndMeaning(pat, n, j); }
    }
  }

  /** The single-character item at p ends before ep. */
  ghost predicate ItemEnds(pat: seq<byte>, p: nat, ep: nat) {
    p < |pat| &&
    if pat[p] == 37 then At(pat, p + 1) != 0 && ep == p + 2
    else if pat[p] == 91 then ep > 0 && Closes(pat, if At(pat, p + 1) == 94 then p + 2 else p + 1, ep - 1)
    else ep == p + 1
  }

  lemma ClassEndMeaning(pat: seq<byte>, p: nat, ep: nat)
    requires p < |pat|
    ensures ClassEnd(pat, p) == Upto(ep) <==> ItemEnds(pat, p, ep)
    ensures pat[p] == 37 ==> (ClassEnd(pat, p).Bad? <==> At(pat, p + 1) == 0)
    ensures ClassEnd(pat, p).Bad? ==> ClassEnd(pat, p).error == if pat[p] == 37 then EndsInEscape else MissingBracket
  {
    if pat[p] == 91 && ep > 0 { SetEndMeaning(pat, if At(pat, p + 1) == 94 then p + 2 else p + 1, ep - 1); }
  }

  // What a set covers.

  predicate RangeAt(pat: seq<byte>, k: nat, ec: nat) {
    At(pat, k) != 37 && At(pat, k + 1) == 45 && k + 2 < ec
  }

  function PastMember(pat: seq<byte>, ec: nat): nat -> nat {
    (k: nat) => if At(pat, k) == 37 then k + 2 else if RangeAt(pat, k, ec) then k + 3 else k + 1
  }

  /** The member of a set at k: a class, a range or a byte. */
  predicate MemberHas(pat: seq<byte>, c: byte, k: nat, ec: nat) {
    if At(pat, k) == 37 then
      var cl := At(pat, k + 1);
      if Negated(cl) then !ClassHas(c, cl + 32) else ClassHas(c, cl)
    else if RangeAt(pat, k, ec) then At(pat, k) <= c <= At(pat, k + 2)
    else At(pat, k) == c
  }

  ghost predicate SetHas(pat: seq<byte>, c: byte, i: nat, ec: nat) {
    exists k: nat {:trigger Reached(PastMember(pat, ec), i, k)} ::
      i <= k < ec && Reached(PastMember(pat, ec), i, k) && MemberHas(pat, c, k, ec)
  }

  lemma HasNext(pat: seq<byte>, c: byte, i: nat, ec: nat)
    requires i < ec
    ensures SetHas(pat, c, i, ec) <==> MemberHas(pat, c, i, ec) || SetHas(pat, c, PastMember(pat, ec)(i), ec)
  {
    var step := PastMember(pat, ec);
    var n := step(i);
    ReachedNext(step, i);
    if SetHas(pat, c, n, ec) {
      var k: nat :| n <= k < ec && Reached(step, n, k) && MemberHas(pat, c, k, ec);
      assert Reached(step, i, k);
    }
    if SetHas(pat, c, i, ec) && !MemberHas(pat, c, i, ec) {
      var k: nat :| i <= k < ec && Reached(step, i, k) && MemberHas(pat, c, k, ec);
      assert Reached(step, n, k);
    }
  }

  lemma {:induction false} InSetMeaning(pat: seq<byte>, c: byte, i: nat, ec: nat)
    ensures InSet(pat, c, i, ec) <==> SetHas(pat, c, i, ec)
    decreases ec - i
  {
    if i < ec {
      if At(pat, i) == 37 { ClassMeaning(c, At(pat, i + 1)); }
      HasNext(pat, c, i, ec);
      InSetMeaning(pat, c, PastMember(pat, ec)(i), ec);
    }
  }

  /** The single-character item at p covers c. */
  ghost predicate Covers(pat: seq<byte>, p: nat, ep: nat, c: byte)
    requires p < |pat| && ep > 0
  {
    if pat[p] == 46 then true
    else if pat[p] == 37 then
      var cl := At(pat, p + 1);
      if Negated(cl) then !ClassHas(c, cl + 32) else ClassHas(c, cl)
    else if pat[p] == 91 then
      if At(pat, p + 1) == 94 then !SetHas(pat, c, p + 2, ep - 1) else SetHas(pat, c, p + 1, ep - 1)
    else c == pat[p]
  }

  lemma SetMeaning(pat: seq<byte>, c: byte, p: nat, ec: nat)
    ensures MatchSet(pat, c, p, ec) <==>
      if At(pat, p + 1) == 94 then !SetHas(pat, c, p + 2, ec) else SetHas(pat, c, p + 1, ec)
  {
    InSetMeaning(pat, c, p + 1, ec);
    InSetMeaning(pat, c, p + 2, ec);
  }

  lemma SingleMeaning(pat: seq<byte>, c: byte, p: nat, ep: nat)
    requires p < |pat| && ep > 0
    ensures Single(pat, c, p, ep) <==> Covers(pat, p, ep, c)
  {
    if pat[p] == 37 { ClassMeaning(c, At(pat, p + 1)); }
    if pat[p] == 91 { SetMeaning(pat, c, p, ep - 1); }
  }
}
