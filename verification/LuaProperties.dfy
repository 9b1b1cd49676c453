/** The nesting limit does not change answers, and what the order of preference means. */
module LuaProperties {
  import opened LuaPattern
  import opened LuaSemantics
  import opened LuaMatcher

  /** The limited search gives up, or has the same preferred outcome as the unlimited one. */
  ghost predicate Agree(limited: seq<Outcome>, free: seq<Outcome>) {
    Head(limited) == Raise(PatternTooComplex) || (Head(limited) == Head(free) && (limited == [] <==> free == []))
  }

  lemma AgreeSum(a: seq<Outcome>, b: seq<Outcome>, a': seq<Outcome>, b': seq<Outcome>)
    requires Agree(a, a') && Agree(b, b')
    ensures Agree(a + b, a' + b')
  {
    HeadOfSum(a, b);
    HeadOfSum(a', b');
  }

  lemma {:induction false} LimitAgrees(src: seq<byte>, pat: seq<byte>, limit: nat, s: nat, p: nat, caps: seq<Cap>,
                                       d: nat)
    requires s <= |src| && p <= |pat| && CapsOk(caps, s)
    ensures Agree(Outcomes(src, pat, limit, s, p, caps, d), Outcomes(src, pat, -1, s, p, caps, d))
    decreases |pat| - p, 3, 0
  {
    if d + 1 <= limit { FromAgrees(src, pat, limit, s, p, caps, d + 1); }
  }

  lemma {:induction false} FromAgrees(src: seq<byte>, pat: seq<byte>, limit: nat, s: nat, p: nat, caps: seq<Cap>,
                                      d: nat)
    requires s <= |src| && p <= |pat| && CapsOk(caps, s)
    ensures Agree(From(src, pat, limit, s, p, caps, d), From(src, pat, -1, s, p, caps, d))
    decreases |pat| - p, 2, 0
  {
    match ItemAt(pat, p)
    case End =>
    case Dollar =>
    case Malformed(e) =>
    case Open(next, what) =>
      if |caps| < MAXCAPTURES { LimitAgrees(src, pat, limit, s, next, caps + [Cap(s, what)], d); }
    case Close(next) =>
      var l := ToClose(caps);
      if l >= 0 { LimitAgrees(src, pat, limit, s, next, caps[l := Cap(caps[l].start, s - caps[l].start)], d); }
    case Balance(x, y, next) =>
      var e := BalanceEnd(src, s, x, y);
      if e.Some? { FromAgrees(src, pat, limit, e.value, next, caps, d); }
    case Frontier(q, next) =>
      FromAgrees(src, pat, limit, s, next, caps, d);
    case BackRef(c, next) =>
      var l := c - 49;
      if 0 <= l < |caps| {
        var e := SeenAgain(src, s, caps[l]);
        if e >= 0 { FromAgrees(src, pat, limit, e, next, caps, d); }
      }
    case Char(_, ep, rep) =>
      CharAgrees(src, pat, limit, s, p, ep, rep, caps, d);
  }

  lemma {:induction false} CharAgrees(src: seq<byte>, pat: seq<byte>, limit: nat, s: nat, p: nat, ep: nat,
                                      rep: Repeat, caps: seq<Cap>, d: nat)
    requires s <= |src| && p <= |pat| && CapsOk(caps, s) && ItemAt(pat, p) == Char(p, ep, rep)
    ensures Agree(From(src, pat, limit, s, p, caps, d), From(src, pat, -1, s, p, caps, d))
    decreases |pat| - p, 1, 0
  {
    var m := One(src, pat, s, p, ep);
    match rep
    case Once => if m { FromAgrees(src, pat, limit, s + 1, ep, caps, d); }
    case Opt =>
      FromAgrees(src, pat, limit, s, ep + 1, caps, d);
      if m {
        LimitAgrees(src, pat, limit, s + 1, ep + 1, caps, d);
        AgreeSum(Outcomes(src, pat, limit, s + 1, ep + 1, caps, d), From(src, pat, limit, s, ep + 1, caps, d),
                 Outcomes(src, pat, -1, s + 1, ep + 1, caps, d), From(src, pat, -1, s, ep + 1, caps, d));
      } else {
        assert [] + From(src, pat, limit, s, ep + 1, caps, d) == From(src, pat, limit, s, ep + 1, caps, d);
        assert [] + From(src, pat, -1, s, ep + 1, caps, d) == From(src, pat, -1, s, ep + 1, caps, d);
      }
    case Star => GreedyAgrees(src, pat, limit, s, p, ep, caps, d, RunLength(src, pat, s, p, ep));
    case Plus => if m { GreedyAgrees(src, pat, limit, s + 1, p, ep, caps, d, RunLength(src, pat, s + 1, p, ep)); }
    case Minus => LazyAgrees(src, pat, limit, s, p, ep, caps, d);
  }

  lemma {:induction false} GreedyAgrees(src: seq<byte>, pat: seq<byte>, limit: nat, s: nat, p: nat, ep: nat,
                                        caps: seq<Cap>, d: nat, i: nat)
    requires p < ep < |pat| && s + i <= |src| && CapsOk(caps, s)
    ensures Agree(Greedy(src, pat, limit, s, p, ep, caps, d, i), Greedy(src, pat, -1, s, p, ep, caps, d, i))
    decreases |pat| - p, 0, i
  {
    LimitAgrees(src, pat, limit, s + i, ep + 1, caps, d);
    if i > 0 { GreedyAgrees(src, pat, limit, s, p, ep, caps, d, i - 1); }
    AgreeSum(Outcomes(src, pat, limit, s + i, ep + 1, caps, d), if i == 0 then []
             else Greedy(src, pat, limit, s, p, ep, caps, d, i - 1),
             Outcomes(src, pat, -1, s + i, ep + 1, caps, d), if i == 0 then []
                 else Greedy(src, pat, -1, s, p, ep, caps, d, i - 1));
  }

  lemma {:induction false} LazyAgrees(src: seq<byte>, pat: seq<byte>, limit: nat, s: nat, p: nat, ep: nat,
                                      caps: seq<Cap>, d: nat)
    requires p < ep < |pat| && s <= |src| && CapsOk(caps, s)
    ensures Agree(Lazy(src, pat, limit, s, p, ep, caps, d), Lazy(src, pat, -1, s, p, ep, caps, d))
    decreases |pat| - p, 0, |src| - s
  {
    var m := One(src, pat, s, p, ep);
    LimitAgrees(src, pat, limit, s, ep + 1, caps, d);
    if m { LazyAgrees(src, pat, limit, s + 1, p, ep, caps, d); }
    AgreeSum(Outcomes(src, pat, limit, s, ep + 1, caps, d), if m then Lazy(src, pat, limit, s + 1, p, ep, caps, d)
             else [],
             Outcomes(src, pat, -1, s, ep + 1, caps, d), if m then Lazy(src, pat, -1, s + 1, p, ep, caps, d) else []);
  }

  // Short patterns are never too complex.

  ghost predicate Simple(os: seq<Outcome>) {
    forall k {:trigger os[k]} :: 0 <= k < |os| ==> os[k] != Raise(PatternTooComplex)
  }

  /** Calls nest at most once for every byte of the pattern. */
  lemma {:induction false} ShortIsSimple(src: seq<byte>, pat: seq<byte>, limit: nat, s: nat, p: nat, caps: seq<Cap>,
                                         d: nat)
    requires s <= |src| && p <= |pat| && CapsOk(caps, s) && d + (|pat| - p) < limit
    ensures Simple(Outcomes(src, pat, limit, s, p, caps, d))
    decreases |pat| - p, 3, 0
  {
    FromSimple(src, pat, limit, s, p, caps, d + 1);
  }

  lemma {:induction false} FromSimple(src: seq<byte>, pat: seq<byte>, limit: nat, s: nat, p: nat, caps: seq<Cap>,
                                      d: nat)
    requires s <= |src| && p <= |pat| && CapsOk(caps, s) && d + (|pat| - p) <= limit
    ensures Simple(From(src, pat, limit, s, p, caps, d))
    decreases |pat| - p, 2, 0
  {
    match ItemAt(pat, p)
    case End =>
    case Dollar =>
    case Malformed(e) => ItemErrors(pat, p);
    case Open(next, what) =>
      if |caps| < MAXCAPTURES { ShortIsSimple(src, pat, limit, s, next, caps + [Cap(s, what)], d); }
    case Close(next) =>
      var l := ToClose(caps);
      if l >= 0 { ShortIsSimple(src, pat, limit, s, next, caps[l := Cap(caps[l].start, s - caps[l].start)], d); }
    case Balance(x, y, next) =>
      var e := BalanceEnd(src, s, x, y);
      if e.Some? { FromSimple(src, pat, limit, e.value, next, caps, d); }
    case Frontier(q, next) =>
      FromSimple(src, pat, limit, s, next, caps, d);
    case BackRef(c, next) =>
      var l := c - 49;
      if 0 <= l < |caps| {
        var e := SeenAgain(src, s, caps[l]);
        if e >= 0 { FromSimple(src, pat, limit, e, next, caps, d); }
      }
    case Char(_, ep, rep) =>
      CharSimple(src, pat, limit, s, p, ep, rep, caps, d);
  }

  lemma ItemErrors(pat: seq<byte>, p: nat)
    ensures ItemAt(pat, p) != Malformed(PatternTooComplex)
  {
  }

  lemma {:induction false} CharSimple(src: seq<byte>, pat: seq<byte>, limit: nat, s: nat, p: nat, ep: nat,
                                      rep: Repeat, caps: seq<Cap>, d: nat)
    requires s <= |src| && p <= |pat| && CapsOk(caps, s) && ItemAt(pat, p) == Char(p, ep, rep)
             && d + (|pat| - p) <= limit
    ensures Simple(From(src, pat, limit, s, p, caps, d))
    decreases |pat| - p, 1, 0
  {
    hide RunLength;
    var m := One(src, pat, s, p, ep);
    match rep
    case Once => if m { FromSimple(src, pat, limit, s + 1, ep, caps, d); }
    case Opt =>
      if m { ShortIsSimple(src, pat, limit, s + 1, ep + 1, caps, d); }
      FromSimple(src, pat, limit, s, ep + 1, caps, d);
    case Star => GreedySimple(src, pat, limit, s, p, ep, caps, d, RunLength(src, pat, s, p, ep));
    case Plus => if m { GreedySimple(src, pat, limit, s + 1, p, ep, caps, d, RunLength(src, pat, s + 1, p, ep)); }
    case Minus => LazySimple(src, pat, limit, s, p, ep, caps, d);
  }

  lemma {:induction false} GreedySimple(src: seq<byte>, pat: seq<byte>, limit: nat, s: nat, p: nat, ep: nat,
                                        caps: seq<Cap>, d: nat, i: nat)
    requires p < ep < |pat| && s + i <= |src| && CapsOk(caps, s) && d + (|pat| - p) <= limit
    ensures Simple(Greedy(src, pat, limit, s, p, ep, caps, d, i))
    decreases |pat| - p, 0, i
  {
    ShortIsSimple(src, pat, limit, s + i, ep + 1, caps, d);
    if i > 0 { GreedySimple(src, pat, limit, s, p, ep, caps, d, i - 1); }
  }

  lemma {:induction false} LazySimple(src: seq<byte>, pat: seq<byte>, limit: nat, s: nat, p: nat, ep: nat,
                                      caps: seq<Cap>, d: nat)
    requires p < ep < |pat| && s <= |src| && CapsOk(caps, s) && d + (|pat| - p) <= limit
    ensures Simple(Lazy(src, pat, limit, s, p, ep, caps, d))
    decreases |pat| - p, 0, |src| - s
  {
    ShortIsSimple(src, pat, limit, s, ep + 1, caps, d);
    if One(src, pat, s, p, ep) { LazySimple(src, pat, limit, s + 1, p, ep, caps, d); }
  }

  /** A pattern of fewer than 200 bytes means what it means without the limit, at every subject. */
  lemma ShortPattern(src: seq<byte>, pat: seq<byte>, s: nat)
    requires s <= |src| && |pat| < 200
    ensures Head(Outcomes(src, pat, MAX_XLEVEL, s, 0, [], 0)) == Head(Outcomes(src, pat, -1, s, 0, [], 0))
  {
    ShortIsSimple(src, pat, MAX_XLEVEL, s, 0, [], 0);
    LimitAgrees(src, pat, MAX_XLEVEL, s, 0, [], 0);
  }

  // What the order of preference means for repetitions.

  /** The rest of the pattern, from q on, has no outcome at e. */
  ghost predicate Dead(src: seq<byte>, pat: seq<byte>, limit: int, e: nat, q: nat, caps: seq<Cap>, d: nat)
    requires q <= |pat|
  {
    e <= |src| && CapsOk(caps, e) && Outcomes(src, pat, limit, e, q, caps, d) == []
  }

  /** The longest run after which the rest has an outcome decides. */
  lemma {:induction false} GreedyTakesMost(src: seq<byte>, pat: seq<byte>, limit: int, s: nat, p: nat, ep: nat,
                                           caps: seq<Cap>, d: nat, i: nat) returns (j: int)
    requires p < ep < |pat| && s + i <= |src| && CapsOk(caps, s)
    ensures -1 <= j <= i
    ensures j >= 0 ==>
      Head(Greedy(src, pat, limit, s, p, ep, caps, d, i)) == Head(Outcomes(src, pat, limit, s + j, ep + 1, caps,
        d)) != Fail
    ensures j < 0 ==> Head(Greedy(src, pat, limit, s, p, ep, caps, d, i)) == Fail
    ensures forall e {:trigger Dead(src, pat, limit, e, ep + 1, caps, d)} :: s <= e && s + j < e <= s + i ==>
      Dead(src, pat, limit, e, ep + 1, caps, d)
  {
    var first := Outcomes(src, pat, limit, s + i, ep + 1, caps, d);
    OutcomesGood(src, pat, limit, s + i, ep + 1, caps, d);
    if first != [] {
      j := i;
    } else if i == 0 {
      j := -1;
      assert Dead(src, pat, limit, s, ep + 1, caps, d);
    } else {
      j := GreedyTakesMost(src, pat, limit, s, p, ep, caps, d, i - 1);
      assert Dead(src, pat, limit, s + i, ep + 1, caps, d);
    }
  }

  lemma LazyStep(src: seq<byte>, pat: seq<byte>, limit: int, s: nat, p: nat, ep: nat, caps: seq<Cap>, d: nat)
    requires p < ep < |pat| && s <= |src| && CapsOk(caps, s)
    ensures var first := Outcomes(src, pat, limit, s, ep + 1, caps, d);
            if first == [] then Lazy(src, pat, limit, s, p, ep, caps, d) == if One(src, pat, s, p, ep) then
                Lazy(src, pat, limit, s + 1, p, ep, caps, d) else []
            else Head(Lazy(src, pat, limit, s, p, ep, caps, d)) == Head(first) != Fail
    ensures RunLength(src, pat, s, p, ep) == if One(src, pat, s, p, ep) then 1 + RunLength(src, pat, s + 1, p, ep)
            else 0
  {
    OutcomesGood(src, pat, limit, s, ep + 1, caps, d);
    hide Outcomes, Single;
  }

  /** The shortest run after which the rest has an outcome decides. */
  lemma {:induction false} LazyTakesLeast(src: seq<byte>, pat: seq<byte>, limit: int, s: nat, p: nat, ep: nat,
                                          caps: seq<Cap>, d: nat) returns (j: int)
    requires p < ep < |pat| && s <= |src| && CapsOk(caps, s)
    ensures -1 <= j <= RunLength(src, pat, s, p, ep)
    ensures j >= 0 ==>
      Head(Lazy(src, pat, limit, s, p, ep, caps, d)) == Head(Outcomes(src, pat, limit, s + j, ep + 1, caps, d)) != Fail
    ensures j < 0 ==> Head(Lazy(src, pat, limit, s, p, ep, caps, d)) == Fail
    ensures forall e {:trigger Dead(src, pat, limit, e, ep + 1, caps, d)} ::
              s <= e < s + (if j < 0 then RunLength(src, pat, s, p, ep) + 1 else j) ==>
                Dead(src, pat, limit, e, ep + 1, caps, d)
    decreases |src| - s
  {
    LazyStep(src, pat, limit, s, p, ep, caps, d);
    hide Lazy, Outcomes, RunLength, Single;
    if Outcomes(src, pat, limit, s, ep + 1, caps, d) != [] {
      j := 0;
    } else {
      assert Dead(src, pat, limit, s, ep + 1, caps, d);
      if One(src, pat, s, p, ep) {
        assert CapsOk(caps, s + 1);
        hide Dead, CapsOk, One;
        var j1 := LazyTakesLeast(src, pat, limit, s + 1, p, ep, caps, d);
        j := if j1 < 0 then -1 else j1 + 1;
      } else {
        j := -1;
      }
    }
  }
}
