/** Patterns as paths: which steps their bytes allow. The outcomes of a match are exactly what paths lead to. */
module LuaPaths {
  import opened LuaPattern
  import opened LuaSemantics
  import opened LuaReading
  import LuaProperties

  /** The item at p covers all bytes of src[s..t]. */
  ghost predicate Run(src: seq<byte>, pat: seq<byte>, p: nat, ep: nat, s: nat, t: nat)
    requires p < |pat| && ep > 0
  {
    s <= t <= |src| && forall k {:trigger Covers(pat, p, ep, src[k])} :: s <= k < t ==> Covers(pat, p, ep, src[k])
  }

  /** src[s..t] starts with x, and t is the first point at which as many y as x have been met. */
  ghost predicate Balanced(src: seq<byte>, x: byte, y: byte, s: nat, t: nat) {
    && s < t <= |src| && src[s] == x && 1 + Excess(src, s + 1, t, x, y) == 0
    && forall k {:trigger Excess(src, s + 1, k, x, y)} :: s < k < t ==> 1 + Excess(src, s + 1, k, x, y) > 0
  }

  /** src[s..t] is the text of the capture. */
  ghost predicate Again(src: seq<byte>, c: Cap, s: nat, t: nat) {
    && s <= t <= |src| && c.len == t - s && c.start + c.len <= |src|
    && forall j {:trigger src[j]} :: s <= j < t ==> src[j] == src[c.start + (j - s)]
  }

  /** l is the latest capture that is open. */
  ghost predicate Latest(caps: seq<Cap>, l: int) {
    0 <= l < |caps| && caps[l].len == -1 && forall k {:trigger caps[k]} :: l < k < |caps| ==> caps[k].len != -1
  }

  ghost predicate NoneOpen(caps: seq<Cap>) {
    forall k {:trigger caps[k]} :: 0 <= k < |caps| ==> caps[k].len != -1
  }

  /** A single-character item and what follows it: ? * + - or nothing. */
  ghost predicate CharStep(src: seq<byte>, pat: seq<byte>, s: nat, p: nat, ep: nat, s1: nat, p1: nat)
    requires p < |pat| && ep > 0
  {
    var r := At(pat, ep);
    if r == 63 then p1 == ep + 1 && (s1 == s || s1 == s + 1) && Run(src, pat, p, ep, s, s1)
    else if r == 42 || r == 45 then p1 == ep + 1 && Run(src, pat, p, ep, s, s1)
    else if r == 43 then p1 == ep + 1 && s < s1 && Run(src, pat, p, ep, s, s1)
    else p1 == ep && s1 == s + 1 && Run(src, pat, p, ep, s, s1)
  }

  /** Where a capture starts or ends. */
  ghost predicate Captures(pat: seq<byte>, s: nat, p: nat, caps: seq<Cap>, p1: nat, caps1: seq<Cap>) {
    if At(pat, p) == 40 then
      && |caps| < 32
      && if At(pat, p + 1) == 41 then p1 == p + 2 && caps1 == caps + [Cap(s, -2)]
         else p1 == p + 1 && caps1 == caps + [Cap(s, -1)]
    else
      p1 == p + 1 && exists l: int {:trigger Latest(caps, l)} ::
        Latest(caps, l) && caps1 == caps[l := Cap(caps[l].start, s - caps[l].start)]
  }

  /** An item that leaves the captures alone: %b, %f, a back reference or a single character. */
  ghost predicate Passes(src: seq<byte>, pat: seq<byte>, s: nat, p: nat, caps: seq<Cap>, s1: nat, p1: nat)
    requires s <= |src|
  {
    var c, d := At(pat, p), At(pat, p + 1);
    if c == 37 && d == 98 then
      && p1 == p + 4 && At(pat, p + 2) != 0 && At(pat, p + 3) != 0
      && Balanced(src, At(pat, p + 2), At(pat, p + 3), s, s1)
    else if c == 37 && d == 102 then
      && s1 == s && At(pat, p + 2) == 91 && ItemEnds(pat, p + 2, p1)
      && !Covers(pat, p + 2, p1, if s == 0 then 0 else src[s - 1]) && Covers(pat, p + 2, p1, At(src, s))
    else if c == 37 && 48 <= d <= 57 then
      p1 == p + 2 && 49 <= d && d - 49 < |caps| && Again(src, caps[d - 49], s, s1)
    else
      exists ep: nat {:trigger ItemEnds(pat, p, ep)} ::
        ItemEnds(pat, p, ep) && CharStep(src, pat, s, p, ep, s1, p1)
  }

  /** The item of the pattern at p leads from s to s1, and from one list of captures to another. */
  ghost predicate Takes(src: seq<byte>, pat: seq<byte>, s: nat, p: nat, caps: seq<Cap>, s1: nat, p1: nat,
                        caps1: seq<Cap>) {
    var c, d := At(pat, p), At(pat, p + 1);
    && p < p1 <= |pat| && s <= s1 <= |src|
    && if c == 40 || c == 41 then s1 == s && Captures(pat, s, p, caps, p1, caps1)
       else caps1 == caps && Passes(src, pat, s, p, caps, s1, p1)
  }

  /** The item at p is in error. */
  ghost predicate Wrong(pat: seq<byte>, p: nat, caps: seq<Cap>, x: Error) {
    var c, d := At(pat, p), At(pat, p + 1);
    if c == 40 then |caps| >= 32 && x == TooManyCaptures
    else if c == 41 then NoneOpen(caps) && x == BadPatternCapture
    else if c == 37 && d == 98 then (At(pat, p + 2) == 0 || At(pat, p + 3) == 0) && x == UnbalancedArgs
    else if c == 37 && d == 102 then
      if At(pat, p + 2) != 91 then x == MissingFrontierSet
      else (forall ep: nat {:trigger ItemEnds(pat, p + 2, ep)} :: !ItemEnds(pat, p + 2, ep)) && x == MissingBracket
    else if c == 37 && 48 <= d <= 57 then
      (d == 48 || d - 49 >= |caps| || caps[d - 49].len == -1) && x == BadCaptureIndex
    else
      && p < |pat| && (forall ep: nat {:trigger ItemEnds(pat, p, ep)} :: !ItemEnds(pat, p, ep))
      && x == if c == 37 then EndsInEscape else MissingBracket
  }

  /** The pattern ends at p, or there is an error. */
  ghost predicate Stops(src: seq<byte>, pat: seq<byte>, s: nat, p: nat, caps: seq<Cap>, o: Outcome) {
    var c, d := At(pat, p), At(pat, p + 1);
    if c == 0 then o == Match(s, caps)
    else if c == 36 && d == 0 then s == |src| && o == Match(s, caps)
    else o.Raise? && Wrong(pat, p, caps, o.error)
  }

  /** A path through the pattern, from p and s on, leads to this outcome. */
  ghost predicate Leads(src: seq<byte>, pat: seq<byte>, s: nat, p: nat, caps: seq<Cap>, o: Outcome)
    decreases |pat| - p
  {
    || Stops(src, pat, s, p, caps, o)
    || (At(pat, p) != 0 && !(At(pat, p) == 36 && At(pat, p + 1) == 0)
        && exists s1: nat, p1: nat, caps1: seq<Cap> {:trigger Leads(src, pat, s1, p1, caps1, o)} ::
             Takes(src, pat, s, p, caps, s1, p1, caps1) && Leads(src, pat, s1, p1, caps1, o))
  }

  /** The item at p allows no step. */
  lemma NoStep(src: seq<byte>, pat: seq<byte>, s: nat, p: nat, caps: seq<Cap>, o: Outcome)
    requires forall s1: nat, p1: nat, caps1: seq<Cap> {:trigger Takes(src, pat, s, p, caps, s1, p1, caps1)} ::
      !Takes(src, pat, s, p, caps, s1, p1, caps1)
    ensures Leads(src, pat, s, p, caps, o) <==> Stops(src, pat, s, p, caps, o)
  {
    hide Takes, Stops;
  }

  /** The item at p allows one step and is not in error. */
  lemma OneStep(src: seq<byte>, pat: seq<byte>, s: nat, p: nat, caps: seq<Cap>, o: Outcome, s2: nat, p2: nat,
                caps2: seq<Cap>)
    requires At(pat, p) != 0 && !(At(pat, p) == 36 && At(pat, p + 1) == 0) && !Stops(src, pat, s, p, caps, o)
    requires Takes(src, pat, s, p, caps, s2, p2, caps2)
    requires forall s1: nat, p1: nat, caps1: seq<Cap> {:trigger Takes(src, pat, s, p, caps, s1, p1, caps1)} ::
      Takes(src, pat, s, p, caps, s1, p1, caps1) ==> s1 == s2 && p1 == p2 && caps1 == caps2
    ensures Leads(src, pat, s, p, caps, o) <==> Leads(src, pat, s2, p2, caps2, o)
  {
    hide Takes, Stops;
  }

  // The parts of an item.

  lemma BalanceIs(src: seq<byte>, x: byte, y: byte, s: nat, t: nat)
    requires x != 0 && s <= |src|
    ensures BalanceEnd(src, s, x, y) == Some(t) <==> Balanced(src, x, y, s, t)
  {
    if s < |src| { BalanceMeaning(src, s + 1, x, y, 1); }
  }

  lemma AgainIs(src: seq<byte>, c: Cap, s: nat, t: nat)
    requires s <= |src| && (c.len >= 0 ==> c.start + c.len <= |src|)
    ensures SeenAgain(src, s, c) == t <==> Again(src, c, s, t)
  {
    if Again(src, c, s, t) {
      var a, b := src[c.start..c.start + c.len], src[s..t];
      forall j | 0 <= j < |b| ensures a[j] == b[j] { assert b[j] == src[s + j]; }
      assert a == b;
    }
    if SeenAgain(src, s, c) == t {
      forall j {:trigger src[j]} | s <= j < t ensures src[j] == src[c.start + (j - s)] {
        assert src[c.start..c.start + c.len][j - s] == src[s..s + c.len][j - s];
      }
    }
  }

  lemma RunIs(src: seq<byte>, pat: seq<byte>, s: nat, p: nat, ep: nat, t: nat)
    requires p < |pat| && ep > 0 && s <= |src|
    ensures Run(src, pat, p, ep, s, t) <==> s <= t <= s + RunLength(src, pat, s, p, ep)
  {
    var n := RunLength(src, pat, s, p, ep);
    if s <= t <= s + n {
      forall k {:trigger Covers(pat, p, ep, src[k])} | s <= k < t ensures Covers(pat, p, ep, src[k]) {
        assert One(src, pat, k, p, ep);
        SingleMeaning(pat, src[k], p, ep);
      }
    }
    if Run(src, pat, p, ep, s, t) && t > s + n {
      assert Covers(pat, p, ep, src[s + n]);
      SingleMeaning(pat, src[s + n], p, ep);
    }
  }

  lemma ToCloseIs(caps: seq<Cap>, l: int)
    ensures Latest(caps, l) <==> l >= 0 && ToClose(caps) == l
    ensures NoneOpen(caps) <==> ToClose(caps) < 0
  {
    var m := ToClose(caps);
  }

  // The outcomes.

  /** The outcomes of an unlimited match are those that paths lead to. */
  lemma {:induction false} OutcomesLed(src: seq<byte>, pat: seq<byte>, s: nat, p: nat, caps: seq<Cap>, d: nat,
                                       o: Outcome)
    requires s <= |src| && p <= |pat| && CapsOk(caps, s)
    ensures o in Outcomes(src, pat, -1, s, p, caps, d) <==> Leads(src, pat, s, p, caps, o)
    decreases |pat| - p, 3, 0
  {
    FromLed(src, pat, s, p, caps, d + 1, o);
  }

  lemma {:induction false} FromLed(src: seq<byte>, pat: seq<byte>, s: nat, p: nat, caps: seq<Cap>, d: nat, o: Outcome)
    requires s <= |src| && p <= |pat| && CapsOk(caps, s)
    ensures o in From(src, pat, -1, s, p, caps, d) <==> Leads(src, pat, s, p, caps, o)
    decreases |pat| - p, 2, 0
  {
    var c, e := At(pat, p), At(pat, p + 1);
    if c == 0 || (c == 36 && e == 0) {
      hide Takes;
    } else if c == 40 {
      OpenLed(src, pat, s, p, caps, d, o);
    } else if c == 41 {
      CloseLed(src, pat, s, p, caps, d, o);
    } else if c == 37 && e == 98 {
      BalanceLed(src, pat, s, p, caps, d, o);
    } else if c == 37 && e == 102 {
      FrontierLed(src, pat, s, p, caps, d, o);
    } else if c == 37 && 48 <= e <= 57 {
      BackLed(src, pat, s, p, caps, d, o);
    } else {
      CharLed(src, pat, s, p, caps, d, o);
    }
  }

  lemma {:induction false} OpenLed(src: seq<byte>, pat: seq<byte>, s: nat, p: nat, caps: seq<Cap>, d: nat, o: Outcome)
    requires s <= |src| && p <= |pat| && CapsOk(caps, s) && At(pat, p) == 40
    ensures o in From(src, pat, -1, s, p, caps, d) <==> Leads(src, pat, s, p, caps, o)
    decreases |pat| - p, 1, 0
  {
    hide Leads;
    if |caps| >= 32 {
      NoStep(src, pat, s, p, caps, o);
    } else {
      var next, what := if At(pat, p + 1) == 41 then p + 2 else p + 1, if At(pat, p + 1) == 41 then -2 else -1;
      var caps1 := caps + [Cap(s, what)];
      assert ItemAt(pat, p) == Open(next, what);
      OneStep(src, pat, s, p, caps, o, s, next, caps1);
      OutcomesLed(src, pat, s, next, caps1, d, o);
    }
  }

  lemma {:induction false} CloseLed(src: seq<byte>, pat: seq<byte>, s: nat, p: nat, caps: seq<Cap>, d: nat, o: Outcome)
    requires s <= |src| && p <= |pat| && CapsOk(caps, s) && At(pat, p) == 41
    ensures o in From(src, pat, -1, s, p, caps, d) <==> Leads(src, pat, s, p, caps, o)
    decreases |pat| - p, 1, 0
  {
    hide Leads, Latest, NoneOpen;
    var l := ToClose(caps);
    forall k ensures Latest(caps, k) <==> k >= 0 && l == k { ToCloseIs(caps, k); }
    ToCloseIs(caps, l);
    if l < 0 {
      NoStep(src, pat, s, p, caps, o);
    } else {
      var caps1 := caps[l := Cap(caps[l].start, s - caps[l].start)];
      OneStep(src, pat, s, p, caps, o, s, p + 1, caps1);
      OutcomesLed(src, pat, s, p + 1, caps1, d, o);
    }
  }

  lemma {:induction false} BalanceLed(src: seq<byte>, pat: seq<byte>, s: nat, p: nat, caps: seq<Cap>, d: nat,
                                      o: Outcome)
    requires s <= |src| && p <= |pat| && CapsOk(caps, s) && At(pat, p) == 37 && At(pat, p + 1) == 98
    ensures o in From(src, pat, -1, s, p, caps, d) <==> Leads(src, pat, s, p, caps, o)
    decreases |pat| - p, 1, 0
  {
    hide Leads, Balanced, BalanceEnd;
    var x, y := At(pat, p + 2), At(pat, p + 3);
    if x == 0 || y == 0 {
      NoStep(src, pat, s, p, caps, o);
    } else {
      forall t: nat
        ensures BalanceEnd(src, s, x, y) == Some(t) <==> Balanced(src, x, y, s, t)
      {
        BalanceIs(src, x, y, s, t);
      }
      match BalanceEnd(src, s, x, y)
      case None => NoStep(src, pat, s, p, caps, o);
      case Some(t) =>
        OneStep(src, pat, s, p, caps, o, t, p + 4, caps);
        FromLed(src, pat, t, p + 4, caps, d, o);
    }
  }

  lemma {:induction false} FrontierLed(src: seq<byte>, pat: seq<byte>, s: nat, p: nat, caps: seq<Cap>, d: nat,
                                       o: Outcome)
    requires s <= |src| && p <= |pat| && CapsOk(caps, s) && At(pat, p) == 37 && At(pat, p + 1) == 102
    ensures o in From(src, pat, -1, s, p, caps, d) <==> Leads(src, pat, s, p, caps, o)
    decreases |pat| - p, 1, 0
  {
    hide Leads, ClassEnd, ItemEnds, MatchSet, SetHas;
    if At(pat, p + 2) != 91 {
      NoStep(src, pat, s, p, caps, o);
    } else {
      var q := p + 2;
      forall ep: nat {:trigger ItemEnds(pat, q, ep)} ensures ClassEnd(pat, q) == Upto(ep) <==> ItemEnds(pat, q, ep) {
        ClassEndMeaning(pat, q, ep);
      }
      match ClassEnd(pat, q)
      case Bad(e) =>
        ClassEndMeaning(pat, p + 2, 0);
        NoStep(src, pat, s, p, caps, o);
      case Upto(ep) =>
        SetMeaning(pat, if s == 0 then 0 else src[s - 1], p + 2, ep - 1);
        SetMeaning(pat, At(src, s), p + 2, ep - 1);
        if AtFrontier(src, pat, s, p + 2, ep - 1) {
          assert ItemEnds(pat, p + 2, ep);
          OneStep(src, pat, s, p, caps, o, s, ep, caps);
          FromLed(src, pat, s, ep, caps, d, o);
        } else {
          assert ItemEnds(pat, p + 2, ep);
          NoStep(src, pat, s, p, caps, o);
        }
    }
  }

  lemma {:induction false} BackLed(src: seq<byte>, pat: seq<byte>, s: nat, p: nat, caps: seq<Cap>, d: nat, o: Outcome)
    requires s <= |src| && p <= |pat| && CapsOk(caps, s) && At(pat, p) == 37 && 48 <= At(pat, p + 1) <= 57
    ensures o in From(src, pat, -1, s, p, caps, d) <==> Leads(src, pat, s, p, caps, o)
    decreases |pat| - p, 1, 0
  {
    hide Leads, Again, SeenAgain;
    var l := At(pat, p + 1) - 49;
    if l < 0 || l >= |caps| || caps[l].len == -1 {
      if 0 <= l < |caps| {
        forall t: nat ensures !Again(src, caps[l], s, t) { AgainIs(src, caps[l], s, t); }
      }
      NoStep(src, pat, s, p, caps, o);
    } else {
      forall t: nat
        ensures SeenAgain(src, s, caps[l]) == t <==> Again(src, caps[l], s, t)
      {
        AgainIs(src, caps[l], s, t);
      }
      var e := SeenAgain(src, s, caps[l]);
      if e < 0 {
        NoStep(src, pat, s, p, caps, o);
      } else {
        OneStep(src, pat, s, p, caps, o, e, p + 2, caps);
        FromLed(src, pat, e, p + 2, caps, d, o);
      }
    }
  }

  /** No special item stands at p. */
  ghost predicate Ordinary(pat: seq<byte>, p: nat) {
    var c, d := At(pat, p), At(pat, p + 1);
    && c != 0 && c != 40 && c != 41 && !(c == 36 && d == 0)
    && !(c == 37 && (d == 98 || d == 102 || 48 <= d <= 57))
  }

  /** A single-character item leads to where its steps lead. */
  ghost predicate CharLeads(src: seq<byte>, pat: seq<byte>, s: nat, p: nat, ep: nat, caps: seq<Cap>, o: Outcome)
    requires p < |pat| && ep > 0
  {
    exists s1: nat, p1: nat {:trigger Leads(src, pat, s1, p1, caps, o)} ::
      CharStep(src, pat, s, p, ep, s1, p1) && s <= s1 <= |src| && p < p1 <= |pat| && Leads(src, pat, s1, p1, caps, o)
  }

  lemma CharMeaning(src: seq<byte>, pat: seq<byte>, s: nat, p: nat, caps: seq<Cap>, ep: nat, o: Outcome)
    requires s <= |src| && Ordinary(pat, p) && ItemEnds(pat, p, ep)
    requires forall e: nat {:trigger ItemEnds(pat, p, e)} :: ItemEnds(pat, p, e) ==> e == ep
    ensures ep > 0 && (Leads(src, pat, s, p, caps, o) <==> CharLeads(src, pat, s, p, ep, caps, o))
  {
    hide ItemEnds, CharStep;
    assert ep > 0 by { ClassEndMeaning(pat, p, ep); }
    if Leads(src, pat, s, p, caps, o) {
      var s1: nat, p1: nat, caps1 :| Takes(src, pat, s, p, caps, s1, p1, caps1) && Leads(src, pat, s1, p1, caps1, o);
      assert CharStep(src, pat, s, p, ep, s1, p1);
    }
    if CharLeads(src, pat, s, p, ep, caps, o) {
      var s1: nat, p1: nat :| CharStep(src, pat, s, p, ep, s1, p1) && s <= s1 <= |src| && p < p1 <= |pat|
                              && Leads(src, pat, s1, p1, caps, o);
      assert Takes(src, pat, s, p, caps, s1, p1, caps);
    }
  }

  lemma {:induction false} CharLed(src: seq<byte>, pat: seq<byte>, s: nat, p: nat, caps: seq<Cap>, d: nat, o: Outcome)
    requires s <= |src| && p <= |pat| && CapsOk(caps, s) && Ordinary(pat, p)
    ensures o in From(src, pat, -1, s, p, caps, d) <==> Leads(src, pat, s, p, caps, o)
    decreases |pat| - p, 1, 1
  {
    hide Leads, ClassEnd, ItemEnds, CharStep, RepeatAt, One, Greedy, Lazy, RunLength;
    assert ItemAt(pat, p) == CharItem(pat, p);
    forall ep: nat ensures ClassEnd(pat, p) == Upto(ep) <==> ItemEnds(pat, p, ep) { ClassEndMeaning(pat, p, ep); }
    match ClassEnd(pat, p)
    case Bad(e) =>
      ClassEndMeaning(pat, p, 0);
      NoStep(src, pat, s, p, caps, o);
    case Upto(ep) =>
      CharMeaning(src, pat, s, p, caps, ep, o);
      RepeatLed(src, pat, s, p, ep, caps, d, o);
  }

  /** Between lo and hi repetitions, with the rest of the pattern behind them. */
  ghost predicate Repeats(src: seq<byte>, pat: seq<byte>, lo: nat, hi: int, q: nat, caps: seq<Cap>, o: Outcome) {
    exists t: nat {:trigger Leads(src, pat, t, q, caps, o)} :: lo <= t <= hi && Leads(src, pat, t, q, caps, o)
  }

  lemma CharRepeats(src: seq<byte>, pat: seq<byte>, s: nat, p: nat, ep: nat, caps: seq<Cap>, o: Outcome)
    requires s <= |src| && p < ep <= |pat| && (RepeatAt(pat, ep) != Once ==> ep < |pat|)
    ensures var n := RunLength(src, pat, s, p, ep);
            CharLeads(src, pat, s, p, ep, caps, o) <==>
            match RepeatAt(pat, ep)
            case Once => n > 0 && Leads(src, pat, s + 1, ep, caps, o)
            case Opt => Leads(src, pat, s, ep + 1, caps, o) || (n > 0 && Leads(src, pat, s + 1, ep + 1, caps, o))
            case Star | Minus => Repeats(src, pat, s, s + n, ep + 1, caps, o)
            case Plus => Repeats(src, pat, s + 1, s + n, ep + 1, caps, o)
  {
    hide Leads, RunLength, Run;
    var n, rep := RunLength(src, pat, s, p, ep), RepeatAt(pat, ep);
    forall t: nat ensures Run(src, pat, p, ep, s, t) <==> s <= t <= s + n { RunIs(src, pat, s, p, ep, t); }
    var p1 := if rep == Once then ep else ep + 1;
    if CharLeads(src, pat, s, p, ep, caps, o) {
      var s1: nat, q: nat :| CharStep(src, pat, s, p, ep, s1, q) && s <= s1 <= |src| && Leads(src, pat, s1, q, caps, o);
      assert q == p1;
    }
    forall t: nat | s <= t <= |src| && CharStep(src, pat, s, p, ep, t, p1) && Leads(src, pat, t, p1, caps, o)
      ensures CharLeads(src, pat, s, p, ep, caps, o)
    {
    }
  }

  /** What a single-character item at p stands for. */
  lemma CharFrom(src: seq<byte>, pat: seq<byte>, s: nat, p: nat, ep: nat, caps: seq<Cap>, d: nat)
    requires s <= |src| && p <= |pat| && CapsOk(caps, s) && ItemAt(pat, p) == Char(p, ep, RepeatAt(pat, ep))
    ensures p < ep <= |pat| && (RepeatAt(pat, ep) != Once ==> ep < |pat|)
    ensures var m := One(src, pat, s, p, ep);
            From(src, pat, -1, s, p, caps, d) ==
            match RepeatAt(pat, ep)
            case Once => if m then From(src, pat, -1, s + 1, ep, caps, d) else []
            case Opt => (if m then Outcomes(src, pat, -1, s + 1, ep + 1, caps, d) else [])
              + From(src, pat, -1, s, ep + 1, caps, d)
            case Star => Greedy(src, pat, -1, s, p, ep, caps, d, RunLength(src, pat, s, p, ep))
            case Plus =>
              if m then Greedy(src, pat, -1, s + 1, p, ep, caps, d, RunLength(src, pat, s + 1, p, ep)) else []
            case Minus => Lazy(src, pat, -1, s, p, ep, caps, d)
  {
    hide Outcomes, Greedy, Lazy, RunLength, Single;
  }

  lemma {:induction false} RepeatLed(src: seq<byte>, pat: seq<byte>, s: nat, p: nat, ep: nat, caps: seq<Cap>, d: nat,
                                     o: Outcome)
    requires s <= |src| && p <= |pat| && CapsOk(caps, s) && ItemAt(pat, p) == Char(p, ep, RepeatAt(pat, ep))
    ensures o in From(src, pat, -1, s, p, caps, d) <==> CharLeads(src, pat, s, p, ep, caps, o)
    decreases |pat| - p, 1, 0
  {
    hide Leads, ItemAt, CharLeads, RunLength, RepeatAt, One, From, Greedy, Lazy, Outcomes, Repeats, Single;
    CharRepeats(src, pat, s, p, ep, caps, o);
    RunNow(src, pat, s, p, ep);
    CharFrom(src, pat, s, p, ep, caps, d);
    match RepeatAt(pat, ep)
    case Once => if One(src, pat, s, p, ep) { FromLed(src, pat, s + 1, ep, caps, d, o); }
    case Opt =>
      if One(src, pat, s, p, ep) { OptLed(src, pat, s, p, ep, caps, d, o); }
      else {
        FromLed(src, pat, s, ep + 1, caps, d, o);
        NoneBefore(From(src, pat, -1, s, ep + 1, caps, d), o);
      }
    case _ => RunsLed(src, pat, s, p, ep, caps, d, o);
  }

  lemma {:induction false} RunsLed(src: seq<byte>, pat: seq<byte>, s: nat, p: nat, ep: nat, caps: seq<Cap>, d: nat,
                                   o: Outcome)
    requires s <= |src| && p < ep < |pat| && CapsOk(caps, s) && ItemAt(pat, p) == Char(p, ep, RepeatAt(pat, ep))
    requires RepeatAt(pat, ep) in {Star, Plus, Minus}
    ensures o in From(src, pat, -1, s, p, caps, d) <==> CharLeads(src, pat, s, p, ep, caps, o)
    decreases |pat| - p, 0, |src| + 2
  {
    hide Leads, ItemAt, CharLeads, RunLength, RepeatAt, One, From, Greedy, Lazy, Outcomes, Repeats;
    CharRepeats(src, pat, s, p, ep, caps, o);
    RunNow(src, pat, s, p, ep);
    CharFrom(src, pat, s, p, ep, caps, d);
    match RepeatAt(pat, ep)
    case Star => GreedyLed(src, pat, s, p, ep, caps, d, RunLength(src, pat, s, p, ep), o);
    case Plus =>
      if One(src, pat, s, p, ep) { PlusLed(src, pat, s, p, ep, caps, d, o); }
      else { NoRepeats(src, pat, s + 1, s, ep + 1, caps, o); }
    case Minus => LazyLed(src, pat, s, p, ep, caps, d, o);
  }

  lemma {:induction false} PlusLed(src: seq<byte>, pat: seq<byte>, s: nat, p: nat, ep: nat, caps: seq<Cap>, d: nat,
                                   o: Outcome)
    requires s <= |src| && p < ep < |pat| && CapsOk(caps, s) && One(src, pat, s, p, ep)
    ensures s < |src| && (o in Greedy(src, pat, -1, s + 1, p, ep, caps, d, RunLength(src, pat, s + 1, p, ep)) <==>
      Repeats(src, pat, s + 1, s + RunLength(src, pat, s, p, ep), ep + 1, caps, o))
    decreases |pat| - p, 0, |src| + 1
  {
    RunNow(src, pat, s, p, ep);
    hide Leads, RunLength, Greedy, Single, One, Repeats;
    var n := RunLength(src, pat, s + 1, p, ep);
    GreedyLed(src, pat, s + 1, p, ep, caps, d, n, o);
  }

  lemma {:induction false} OptLed(src: seq<byte>, pat: seq<byte>, s: nat, p: nat, ep: nat, caps: seq<Cap>, d: nat,
                                  o: Outcome)
    requires s < |src| && p < ep < |pat| && CapsOk(caps, s)
    ensures o in Outcomes(src, pat, -1, s + 1, ep + 1, caps, d) + From(src, pat, -1, s, ep + 1, caps, d) <==>
      Leads(src, pat, s, ep + 1, caps, o) || Leads(src, pat, s + 1, ep + 1, caps, o)
    decreases |pat| - p, 0, |src| + 1
  {
    hide Leads, Outcomes, From;
    FromLed(src, pat, s, ep + 1, caps, d, o);
    OutcomesLed(src, pat, s + 1, ep + 1, caps, d, o);
  }

  lemma NoneBefore(os: seq<Outcome>, o: Outcome)
    ensures o in [] + os <==> o in os
  {
  }

  lemma NoRepeats(src: seq<byte>, pat: seq<byte>, lo: nat, hi: int, q: nat, caps: seq<Cap>, o: Outcome)
    requires hi < lo
    ensures !Repeats(src, pat, lo, hi, q, caps, o)
  {
  }

  lemma RunNow(src: seq<byte>, pat: seq<byte>, s: nat, p: nat, ep: nat)
    requires s <= |src| && p < |pat| && ep > 0
    ensures One(src, pat, s, p, ep) <==> RunLength(src, pat, s, p, ep) > 0
    ensures One(src, pat, s, p, ep) ==>
      s < |src| && RunLength(src, pat, s, p, ep) == 1 + RunLength(src, pat, s + 1, p, ep)
  {
  }

  lemma {:induction false} GreedyLed(src: seq<byte>, pat: seq<byte>, s: nat, p: nat, ep: nat, caps: seq<Cap>, d: nat,
                                     i: nat, o: Outcome)
    requires p < ep < |pat| && s + i <= |src| && CapsOk(caps, s)
    ensures o in Greedy(src, pat, -1, s, p, ep, caps, d, i) <==> Repeats(src, pat, s, s + i, ep + 1, caps, o)
    decreases |pat| - p, 0, i
  {
    hide Leads, Outcomes;
    OutcomesLed(src, pat, s + i, ep + 1, caps, d, o);
    if i > 0 { GreedyLed(src, pat, s, p, ep, caps, d, i - 1, o); }
  }

  lemma {:induction false} LazyLed(src: seq<byte>, pat: seq<byte>, s: nat, p: nat, ep: nat, caps: seq<Cap>, d: nat,
                                   o: Outcome)
    requires p < ep < |pat| && s <= |src| && CapsOk(caps, s)
    ensures o in Lazy(src, pat, -1, s, p, ep, caps, d) <==>
      Repeats(src, pat, s, s + RunLength(src, pat, s, p, ep), ep + 1, caps, o)
    decreases |pat| - p, 0, |src| - s
  {
    hide Leads, Outcomes, Single;
    OutcomesLed(src, pat, s, ep + 1, caps, d, o);
    if One(src, pat, s, p, ep) { LazyLed(src, pat, s + 1, p, ep, caps, d, o); }
  }

  // The order of preference.

  /** The rest of the pattern from q on has no outcome at t. */
  ghost predicate Dead(src: seq<byte>, pat: seq<byte>, limit: int, t: nat, q: nat, caps: seq<Cap>, d: nat)
    requires q <= |pat|
  {
    LuaProperties.Dead(src, pat, limit, t, q, caps, d)
  }

  /** A ? prefers to take the byte. */
  lemma OptionalPrefers(src: seq<byte>, pat: seq<byte>, limit: int, s: nat, p: nat, ep: nat, caps: seq<Cap>, d: nat)
    requires s <= |src| && CapsOk(caps, s) && Ordinary(pat, p) && ItemEnds(pat, p, ep) && At(pat, ep) == 63
    ensures ep > 0 && Head(From(src, pat, limit, s, p, caps, d))
      == if s < |src| && Covers(pat, p, ep, src[s]) && Outcomes(src, pat, limit, s + 1, ep + 1, caps, d) != []
         then Head(Outcomes(src, pat, limit, s + 1, ep + 1, caps, d))
             else Head(From(src, pat, limit, s, ep + 1, caps, d))
  {
    hide ItemEnds, ClassEnd, Single, Covers;
    ClassEndMeaning(pat, p, ep);
    assert ItemAt(pat, p) == Char(p, ep, Opt);
    if s < |src| { SingleMeaning(pat, src[s], p, ep); }
    OutcomesGoodEmpty(src, pat, limit, s, p, ep, caps, d);
  }

  lemma OutcomesGoodEmpty(src: seq<byte>, pat: seq<byte>, limit: int, s: nat, p: nat, ep: nat, caps: seq<Cap>, d: nat)
    requires s <= |src| && p < ep < |pat| && CapsOk(caps, s) && ItemAt(pat, p) == Char(p, ep, Opt)
    ensures Head(From(src, pat, limit, s, p, caps, d))
      == if One(src, pat, s, p, ep) && Outcomes(src, pat, limit, s + 1, ep + 1, caps, d) != []
         then Head(Outcomes(src, pat, limit, s + 1, ep + 1, caps, d))
             else Head(From(src, pat, limit, s, ep + 1, caps, d))
  {
    hide ItemAt, One, Outcomes;
    assert [] + From(src, pat, limit, s, ep + 1, caps, d) == From(src, pat, limit, s, ep + 1, caps, d);
  }

  /** The first choice of a repetition: after the run to t the rest has an outcome, and none of those before t has. */
  ghost predicate Decides(src: seq<byte>, pat: seq<byte>, limit: int, o: Outcome, ep: nat, caps: seq<Cap>, d: nat,
                          t: int)
    requires ep < |pat|
  {
    if t < 0 then o == Fail
    else t <= |src| && CapsOk(caps, t) && o == Head(Outcomes(src, pat, limit, t, ep + 1, caps, d)) && o != Fail
  }

  /** A * or + prefers the longest run after which the rest has an outcome. */
  lemma GreedyPrefers(src: seq<byte>, pat: seq<byte>, limit: int, s: nat, p: nat, ep: nat, caps: seq<Cap>, d: nat)
      returns (t: int)
    requires s <= |src| && CapsOk(caps, s) && Ordinary(pat, p) && ItemEnds(pat, p, ep)
    requires At(pat, ep) == 42 || At(pat, ep) == 43
    ensures 0 < ep < |pat| && Decides(src, pat, limit, Head(From(src, pat, limit, s, p, caps, d)), ep, caps, d, t)
    ensures t >= 0 ==> Run(src, pat, p, ep, s, t) && (At(pat, ep) == 43 ==> t > s)
    ensures forall e: nat {:trigger Dead(src, pat, limit, e, ep + 1, caps, d)} ::
      Run(src, pat, p, ep, s, e) && e > t && (At(pat, ep) == 43 ==> e > s) ==> Dead(src, pat, limit, e, ep + 1, caps, d)
  {
    hide ItemEnds, ClassEnd, Single, Outcomes, Run, Covers, RunLength, Greedy;
    ClassEndMeaning(pat, p, ep);
    forall e: nat {:trigger Run(src, pat, p, ep, s, e)}
      ensures Run(src, pat, p, ep, s, e) <==> s <= e <= s + RunLength(src, pat, s, p, ep)
    {
      RunIs(src, pat, s, p, ep, e);
    }
    RunNow(src, pat, s, p, ep);
    var plus := At(pat, ep) == 43;
    assert ItemAt(pat, p) == Char(p, ep, if plus then Plus else Star);
    if plus && !One(src, pat, s, p, ep) {
      t := -1;
    } else {
      var b := if plus then s + 1 else s;
      var j := LuaProperties.GreedyTakesMost(src, pat, limit, b, p, ep, caps, d, RunLength(src, pat, b, p, ep));
      t := if j < 0 then -1 else b + j;
    }
  }

  /** A - prefers the shortest run after which the rest has an outcome. */
  lemma LazyPrefers(src: seq<byte>, pat: seq<byte>, limit: int, s: nat, p: nat, ep: nat, caps: seq<Cap>, d: nat)
      returns (t: int)
    requires s <= |src| && CapsOk(caps, s) && Ordinary(pat, p) && ItemEnds(pat, p, ep) && At(pat, ep) == 45
    ensures 0 < ep < |pat| && Decides(src, pat, limit, Head(From(src, pat, limit, s, p, caps, d)), ep, caps, d, t)
    ensures t >= 0 ==> Run(src, pat, p, ep, s, t)
    ensures forall e: nat {:trigger Dead(src, pat, limit, e, ep + 1, caps, d)} ::
      Run(src, pat, p, ep, s, e) && (t < 0 || e < t) ==> Dead(src, pat, limit, e, ep + 1, caps, d)
  {
    hide ItemEnds, ClassEnd, Single, Outcomes, Run, Covers, RunLength, Lazy;
    ClassEndMeaning(pat, p, ep);
    forall e: nat {:trigger Run(src, pat, p, ep, s, e)}
      ensures Run(src, pat, p, ep, s, e) <==> s <= e <= s + RunLength(src, pat, s, p, ep)
    {
      RunIs(src, pat, s, p, ep, e);
    }
    assert ItemAt(pat, p) == Char(p, ep, Minus);
    var j := LuaProperties.LazyTakesLeast(src, pat, limit, s, p, ep, caps, d);
    t := if j < 0 then -1 else s + j;
  }

  // Fixed strings.

  /** find takes such a pattern for a fixed string: it has none of ^$*+?.([%- in it. */
  predicate Fixed(pat: seq<byte>) {
    forall k {:trigger pat[k]} :: 0 <= k < |pat| ==> pat[k] !in {94, 36, 42, 43, 63, 46, 40, 91, 37, 45}
  }

  /** Searching for it is the same, if it has no closing bracket and no zero byte either. */
  lemma {:induction false} FixedLeads(src: seq<byte>, pat: seq<byte>, s: nat, p: nat, caps: seq<Cap>, o: Outcome)
    requires Fixed(pat) && (forall k {:trigger pat[k]} :: 0 <= k < |pat| ==> pat[k] != 41 && pat[k] != 0)
    requires s <= |src| && p <= |pat|
    ensures Leads(src, pat, s, p, caps, o) <==>
      var n := |pat| - p; s + n <= |src| && src[s..s + n] == pat[p..] && o == Match(s + n, caps)
    decreases |pat| - p
  {
    if p < |pat| {
      assert ItemEnds(pat, p, p + 1) && Ordinary(pat, p);
      CharMeaning(src, pat, s, p, caps, p + 1, o);
      assert At(pat, p + 1) !in {63, 42, 45, 43};
      forall s1: nat, p1: nat {:trigger CharStep(src, pat, s, p, p + 1, s1, p1)} | CharStep(src, pat, s, p, p + 1, s1,
            p1)
        ensures s1 == s + 1 && p1 == p + 1 && s < |src| && src[s] == pat[p]
      {
        assert Covers(pat, p, p + 1, src[s]);
      }
      hide Leads;
      if s < |src| && src[s] == pat[p] {
        FixedLeads(src, pat, s + 1, p + 1, caps, o);
        assert CharStep(src, pat, s, p, p + 1, s + 1, p + 1);
        SliceFirst(src, pat, s, p);
      } else if s + (|pat| - p) <= |src| {
        assert src[s..s + (|pat| - p)][0] == src[s] && pat[p..][0] == pat[p];
      }
    }
  }

  lemma SliceFirst(src: seq<byte>, pat: seq<byte>, s: nat, p: nat)
    requires s < |src| && p < |pat| && src[s] == pat[p]
    ensures var n := |pat| - p; s + n <= |src| ==>
      (src[s..s + n] == pat[p..] <==> src[s + 1..s + n] == pat[p + 1..])
  {
    var n := |pat| - p;
    if s + n <= |src| {
      assert src[s..s + n] == [src[s]] + src[s + 1..s + n];
      assert pat[p..] == [pat[p]] + pat[p + 1..];
      assert src[s..s + n][1..] == src[s + 1..s + n];
      assert pat[p..][1..] == pat[p + 1..];
    }
  }

  /** With a closing bracket it is not: the pattern would be in error where the search finds it. */
  lemma FixedBracket(src: seq<byte>, o: Outcome)
    ensures Fixed([41]) && (Leads(src, [41], 0, 0, [], o) <==> o == Raise(BadPatternCapture))
  {
    NoStep(src, [41], 0, 0, [], o);
  }
}
