/** All ways a pattern can match at a position, in order of preference. */
module LuaSemantics {
  import opened LuaPattern

  /** Captures lie in the subject, before the current position. */
  ghost predicate CapsOk(caps: seq<Cap>, s: nat) {
    forall k {:trigger caps[k]} :: 0 <= k < |caps| ==>
      caps[k].start <= s && CAP_POSITION <= caps[k].len && caps[k].start + caps[k].len <= s
  }

  /** The latest capture that is still open, or -1. */
  function ToClose(caps: seq<Cap>): (l: int)
    ensures -1 <= l < |caps| && (l >= 0 ==> caps[l].len == CAP_UNFINISHED)
    ensures forall k {:trigger caps[k]} :: l < k < |caps| ==> caps[k].len != CAP_UNFINISHED
  {
    if caps == [] then -1
    else if caps[|caps| - 1].len == CAP_UNFINISHED then |caps| - 1
    else ToClose(caps[..|caps| - 1])
  }

  /** Where the text of capture c, seen again at s, ends; -1 if it is not there. */
  function SeenAgain(src: seq<byte>, s: nat, c: Cap): (e: int)
    requires s <= |src| && (c.len >= 0 ==> c.start + c.len <= |src|)
    ensures e >= 0 ==> s <= e <= |src| && c.len >= 0 && src[s..e] == src[c.start..c.start + c.len]
  {
    if c.len >= 0 && s + c.len <= |src| && src[c.start..c.start + c.len] == src[s..s + c.len] then s + c.len else -1
  }

  /** %f: the set holds at s but not just before it; both ends of the subject count as a zero byte. */
  predicate AtFrontier(src: seq<byte>, pat: seq<byte>, s: nat, p: nat, ec: nat)
    requires s <= |src|
  {
    !MatchSet(pat, if s == 0 then 0 else src[s - 1], p, ec) && MatchSet(pat, At(src, s), p, ec)
  }

  predicate One(src: seq<byte>, pat: seq<byte>, s: nat, p: nat, ep: nat)
    requires p < |pat| && ep > 0
  {
    s < |src| && Single(pat, src[s], p, ep)
  }

  /** The length of the longest run of the single-character item from s on. */
  function RunLength(src: seq<byte>, pat: seq<byte>, s: nat, p: nat, ep: nat): (n: nat)
    requires p < |pat| && ep > 0
    ensures s <= |src| ==> s + n <= |src|
    ensures forall k {:trigger One(src, pat, k, p, ep)} :: s <= k < s + n ==> One(src, pat, k, p, ep)
    ensures !One(src, pat, s + n, p, ep)
    decreases |src| - s
  {
    if One(src, pat, s, p, ep) then 1 + RunLength(src, pat, s + 1, p, ep) else 0
  }

  /** Nested calls are limited: d counts those around the one at (s, p). A limit below zero means none. */
  ghost function Outcomes(src: seq<byte>, pat: seq<byte>, limit: int, s: nat, p: nat, caps: seq<Cap>,
                          d: nat): seq<Outcome>
    requires s <= |src| && p <= |pat| && CapsOk(caps, s)
    decreases |pat| - p, 3, 0
  {
    if limit >= 0 && d + 1 > limit then [Raise(PatternTooComplex)] else From(src, pat, limit, s, p, caps, d + 1)
  }

  ghost function From(src: seq<byte>, pat: seq<byte>, limit: int, s: nat, p: nat, caps: seq<Cap>, d: nat): seq<Outcome>
    requires s <= |src| && p <= |pat| && CapsOk(caps, s)
    decreases |pat| - p, 2, 0
  {
    match ItemAt(pat, p)
    case End => [Match(s, caps)]
    case Dollar => if s == |src| then [Match(s, caps)] else []
    case Malformed(e) => [Raise(e)]
    case Open(next, what) =>
      if |caps| >= MAXCAPTURES then [Raise(TooManyCaptures)]
      else Opened(src, pat, limit, s, next, caps, what, d)
    case Close(next) =>
      var l := ToClose(caps);
      if l < 0 then [Raise(BadPatternCapture)]
      else Outcomes(src, pat, limit, s, next, caps[l := Cap(caps[l].start, s - caps[l].start)], d)
    case Balance(x, y, next) =>
      (match BalanceEnd(src, s, x, y)
       case None => []
       case Some(e) => From(src, pat, limit, e, next, caps, d))
    case Frontier(q, next) =>
      if AtFrontier(src, pat, s, q, next - 1) then From(src, pat, limit, s, next, caps, d) else []
    case BackRef(c, next) =>
      var l := c - 49;
      if l < 0 || l >= |caps| || caps[l].len == CAP_UNFINISHED then [Raise(BadCaptureIndex)]
      else
        var e := SeenAgain(src, s, caps[l]);
        if e < 0 then [] else From(src, pat, limit, e, next, caps, d)
    case Char(_, ep, rep) =>
      var m := One(src, pat, s, p, ep);
      match rep
      case Once => if m then From(src, pat, limit, s + 1, ep, caps, d) else []
      case Opt => (if m then Outcomes(src, pat, limit, s + 1, ep + 1, caps, d)
                   else []) + From(src, pat, limit, s, ep + 1, caps, d)
      case Star => Greedy(src, pat, limit, s, p, ep, caps, d, RunLength(src, pat, s, p, ep))
      case Plus => if m then Greedy(src, pat, limit, s + 1, p, ep, caps, d, RunLength(src, pat, s + 1, p, ep)) else []
      case Minus => Lazy(src, pat, limit, s, p, ep, caps, d)
  }

  ghost function Opened(src: seq<byte>, pat: seq<byte>, limit: int, s: nat, next: nat, caps: seq<Cap>, what: int,
                        d: nat): seq<Outcome>
    requires s <= |src| && next <= |pat| && CapsOk(caps, s) && CAP_POSITION <= what < 0
    decreases |pat| - next, 4, 0
  {
    Outcomes(src, pat, limit, s, next, caps + [Cap(s, what)], d)
  }

  /** The rest of the pattern after i repetitions, after i - 1, and so on. */
  ghost function Greedy(src: seq<byte>, pat: seq<byte>, limit: int, s: nat, p: nat, ep: nat, caps: seq<Cap>, d: nat,
                        i: nat): seq<Outcome>
    requires p < ep < |pat| && s + i <= |src| && CapsOk(caps, s)
    decreases |pat| - p, 0, i
  {
    Outcomes(src, pat, limit, s + i, ep + 1, caps, d)
    + if i == 0 then [] else Greedy(src, pat, limit, s, p, ep, caps, d, i - 1)
  }

  /** The rest of the pattern after no repetition, after one, and so on. */
  ghost function Lazy(src: seq<byte>, pat: seq<byte>, limit: int, s: nat, p: nat, ep: nat, caps: seq<Cap>,
                      d: nat): seq<Outcome>
    requires p < ep < |pat| && s <= |src| && CapsOk(caps, s)
    decreases |pat| - p, 0, |src| - s
  {
    Outcomes(src, pat, limit, s, ep + 1, caps, d)
    + if One(src, pat, s, p, ep) then Lazy(src, pat, limit, s + 1, p, ep, caps, d) else []
  }

  /** The preferred outcome. */
  function Head(o: seq<Outcome>): Outcome {
    if o == [] then Fail else o[0]
  }

  // Every outcome that is a match ends in the subject, at or after the start, with captures in order.

  ghost predicate Good(o: Outcome, s: nat, n: nat) {
    o.Fail? || o.Raise? || (s <= o.end <= n && CapsOk(o.caps, o.end))
  }

  ghost predicate AllGood(os: seq<Outcome>, s: nat, n: nat) {
    forall k {:trigger os[k]} :: 0 <= k < |os| ==> !os[k].Fail? && Good(os[k], s, n)
  }

  lemma {:induction false} OutcomesGood(src: seq<byte>, pat: seq<byte>, limit: int, s: nat, p: nat, caps: seq<Cap>,
                                        d: nat)
    requires s <= |src| && p <= |pat| && CapsOk(caps, s)
    ensures AllGood(Outcomes(src, pat, limit, s, p, caps, d), s, |src|)
    decreases |pat| - p, 3, 0
  {
    if !(limit >= 0 && d + 1 > limit) { FromGood(src, pat, limit, s, p, caps, d + 1); }
  }

  lemma {:induction false} FromGood(src: seq<byte>, pat: seq<byte>, limit: int, s: nat, p: nat, caps: seq<Cap>, d: nat)
    requires s <= |src| && p <= |pat| && CapsOk(caps, s)
    ensures AllGood(From(src, pat, limit, s, p, caps, d), s, |src|)
    decreases |pat| - p, 2, 0
  {
    match ItemAt(pat, p)
    case End =>
    case Dollar =>
    case Malformed(e) =>
    case Open(next, what) =>
      if |caps| < MAXCAPTURES { OutcomesGood(src, pat, limit, s, next, caps + [Cap(s, what)], d); }
    case Close(next) =>
      var l := ToClose(caps);
      if l >= 0 { OutcomesGood(src, pat, limit, s, next, caps[l := Cap(caps[l].start, s - caps[l].start)], d); }
    case Balance(x, y, next) =>
      var e := BalanceEnd(src, s, x, y);
      if e.Some? { FromGood(src, pat, limit, e.value, next, caps, d); }
    case Frontier(q, next) =>
      FromGood(src, pat, limit, s, next, caps, d);
    case BackRef(c, next) =>
      var l := c - 49;
      if 0 <= l < |caps| {
        var e := SeenAgain(src, s, caps[l]);
        if e >= 0 { FromGood(src, pat, limit, e, next, caps, d); }
      }
    case Char(_, ep, rep) =>
      CharGood(src, pat, limit, s, p, ep, rep, caps, d);
  }

  lemma {:induction false} CharGood(src: seq<byte>, pat: seq<byte>, limit: int, s: nat, p: nat, ep: nat, rep: Repeat,
                                    caps: seq<Cap>, d: nat)
    requires s <= |src| && p <= |pat| && CapsOk(caps, s) && ItemAt(pat, p) == Char(p, ep, rep)
    ensures AllGood(From(src, pat, limit, s, p, caps, d), s, |src|)
    decreases |pat| - p, 1, 0
  {
    var m := One(src, pat, s, p, ep);
    match rep
    case Once => if m { FromGood(src, pat, limit, s + 1, ep, caps, d); }
    case Opt =>
      if m { OutcomesGood(src, pat, limit, s + 1, ep + 1, caps, d); }
      FromGood(src, pat, limit, s, ep + 1, caps, d);
    case Star => GreedyGood(src, pat, limit, s, p, ep, caps, d, RunLength(src, pat, s, p, ep));
    case Plus => if m { GreedyGood(src, pat, limit, s + 1, p, ep, caps, d, RunLength(src, pat, s + 1, p, ep)); }
    case Minus => LazyGood(src, pat, limit, s, p, ep, caps, d);
  }

  lemma {:induction false} GreedyGood(src: seq<byte>, pat: seq<byte>, limit: int, s: nat, p: nat, ep: nat,
                                      caps: seq<Cap>, d: nat, i: nat)
    requires p < ep < |pat| && s + i <= |src| && CapsOk(caps, s)
    ensures AllGood(Greedy(src, pat, limit, s, p, ep, caps, d, i), s, |src|)
    decreases |pat| - p, 0, i
  {
    OutcomesGood(src, pat, limit, s + i, ep + 1, caps, d);
    if i > 0 { GreedyGood(src, pat, limit, s, p, ep, caps, d, i - 1); }
  }

  lemma {:induction false} LazyGood(src: seq<byte>, pat: seq<byte>, limit: int, s: nat, p: nat, ep: nat,
                                    caps: seq<Cap>, d: nat)
    requires p < ep < |pat| && s <= |src| && CapsOk(caps, s)
    ensures AllGood(Lazy(src, pat, limit, s, p, ep, caps, d), s, |src|)
    decreases |pat| - p, 0, |src| - s
  {
    OutcomesGood(src, pat, limit, s, ep + 1, caps, d);
    if One(src, pat, s, p, ep) { LazyGood(src, pat, limit, s + 1, p, ep, caps, d); }
  }
}
