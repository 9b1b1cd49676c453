/** The backtracking matcher over one mutable capture state. */
module LuaMatcher {
  import opened LuaPattern
  import opened LuaSemantics

  datatype Result = NoMatch | Ends(end: nat) | Raised(error: Error)

  lemma HeadOfSum(a: seq<Outcome>, b: seq<Outcome>)
    ensures Head(a + b) == if a != [] then Head(a) else Head(b)
  {
  }

  lemma FailIsEmpty(src: seq<byte>, pat: seq<byte>, limit: int, s: nat, p: nat, caps: seq<Cap>, d: nat)
    requires s <= |src| && p <= |pat| && CapsOk(caps, s)
    ensures Head(Outcomes(src, pat, limit, s, p, caps, d)) == Fail <==> Outcomes(src, pat, limit, s, p, caps, d) == []
  {
    OutcomesGood(src, pat, limit, s, p, caps, d);
  }

  class MatchState {
    const src: seq<byte>
    const pat: seq<byte>
    var level: nat
    var depth: nat
    const capture: array<Cap>

    constructor (src: seq<byte>, pat: seq<byte>)
      ensures this.src == src && this.pat == pat && Valid() && level == 0 && depth == 0 && fresh(capture)
    {
      this.src, this.pat := src, pat;
      level, depth := 0, 0;
      capture := new Cap[MAXCAPTURES](_ => Cap(0, 0));
    }

    ghost predicate Valid()
      reads this
    {
      capture.Length == MAXCAPTURES && level <= MAXCAPTURES
    }

    ghost function Caps(): seq<Cap>
      requires Valid()
      reads this, capture
    {
      capture[..level]
    }

    /** The result and the state say what the outcome says; after a failure they are as they were. */
    ghost predicate Shows(r: Result, o: Outcome, caps0: seq<Cap>, depth0: nat)
      requires Valid()
      reads this, capture
    {
      match o
      case Fail => r == NoMatch && Caps() == caps0 && depth == depth0
      case Match(end, caps) => r == Ends(end) && Caps() == caps && depth == depth0
      case Raise(e) => r == Raised(e)
    }

    // Reading the pattern.

    method FindClassEnd(p0: nat) returns (r: Extent)
      requires p0 < |pat|
      ensures r == ClassEnd(pat, p0)
    {
      var c, p := pat[p0], p0 + 1;
      if c == ESC {
        if At(pat, p) == 0 { return LuaPattern.Bad(EndsInEscape); }
        return LuaPattern.Upto(p + 1);
      } else if c == Ch('[') {
        if At(pat, p) == Ch('^') { p := p + 1; }
        ghost var start := p;
        while true
          invariant p >= start && SetEnd(pat, p) == SetEnd(pat, start)
          decreases |pat| - p
        {
          if At(pat, p) == 0 { return LuaPattern.Bad(MissingBracket); }
          p := p + 1;
          if At(pat, p - 1) == ESC && At(pat, p) != 0 { p := p + 1; }
          if At(pat, p) == Ch(']') { break; }
        }
        return LuaPattern.Upto(p + 1);
      } else {
        return LuaPattern.Upto(p);
      }
    }

    method MatchBracketClass(c: byte, p0: nat, ec: nat) returns (r: bool)
      ensures r == MatchSet(pat, c, p0, ec)
    {
      var p, sig := p0, true;
      if At(pat, p + 1) == Ch('^') {
        sig := false;
        p := p + 1;
      }
      ghost var start := p + 1;
      p := p + 1;
      while p < ec
        invariant InSet(pat, c, p, ec) == InSet(pat, c, start, ec)
        decreases ec - p
      {
        if At(pat, p) == ESC {
          p := p + 1;
          if MatchClass(c, At(pat, p)) { return sig; }
        } else if At(pat, p + 1) == Ch('-') && p + 2 < ec {
          p := p + 2;
          if At(pat, p - 2) <= c && c <= At(pat, p) { return sig; }
        } else if At(pat, p) == c {
          return sig;
        }
        p := p + 1;
      }
      return !sig;
    }

    method SingleMatch(c: byte, p: nat, ep: nat) returns (r: bool)
      requires p < |pat| && ep > 0
      ensures r == Single(pat, c, p, ep)
    {
      if pat[p] == Ch('.') {
        r := true;
      } else if pat[p] == ESC {
        r := MatchClass(c, At(pat, p + 1));
      } else if pat[p] == Ch('[') {
        r := MatchBracketClass(c, p, ep - 1);
      } else {
        r := pat[p] == c;
      }
    }

    method MatchBalance(s0: nat, p: nat) returns (r: Result)
      requires s0 <= |src|
      ensures if At(pat, p) == 0 || At(pat, p + 1) == 0 then r == Raised(UnbalancedArgs)
              else match BalanceEnd(src, s0, At(pat, p),
                                    At(pat, p + 1)) case None => r == NoMatch case Some(e) => r == Ends(e)
    {
      if At(pat, p) == 0 || At(pat, p + 1) == 0 { return Raised(UnbalancedArgs); }
      if At(src, s0) != At(pat, p) { return NoMatch; }
      var b, e, cont := At(pat, p), At(pat, p + 1), 1;
      var s := s0 + 1;
      while s < |src|
        invariant cont > 0 && s0 < s && BalanceFrom(src, s, b, e, cont) == BalanceFrom(src, s0 + 1, b, e, 1)
        decreases |src| - s
      {
        if src[s] == e {
          cont := cont - 1;
          if cont == 0 { return Ends(s + 1); }
        } else if src[s] == b {
          cont := cont + 1;
        }
        s := s + 1;
      }
      return NoMatch;
    }

    // Captures.

    method CaptureToClose() returns (l: int)
      requires Valid()
      ensures l == ToClose(Caps())
    {
      l := level - 1;
      while l >= 0
        invariant -1 <= l < level
        invariant ToClose(capture[..level]) == ToClose(capture[..l + 1])
      {
        assert capture[..l + 1][..l] == capture[..l];
        if capture[l].len == CAP_UNFINISHED { return; }
        l := l - 1;
      }
    }

    method MatchCapture(s: nat, c: byte) returns (r: Result)
      requires Valid() && s <= |src| && CapsOk(Caps(), s)
      ensures var l := c - 49;
              if l < 0 || l >= level || capture[l].len == CAP_UNFINISHED then r == Raised(BadCaptureIndex)
              else var e := SeenAgain(src, s, Caps()[l]); r == if e < 0 then NoMatch else Ends(e)
    {
      var l := c - 49;
      if l < 0 || l >= level || capture[l].len == CAP_UNFINISHED { return Raised(BadCaptureIndex); }
      assert capture[l] == Caps()[l];
      var e := SeenAgain(src, s, capture[l]);
      r := if e < 0 then NoMatch else Ends(e);
    }

    // Matching. Each method shows the head of the list of outcomes that it stands for.

    method Match(s0: nat, p0: nat) returns (r: Result)
      requires Valid() && s0 <= |src| && p0 <= |pat| && CapsOk(Caps(), s0)
      modifies this, capture
      ensures Valid() && Shows(r, Head(Outcomes(src, pat, MAX_XLEVEL, s0, p0, old(Caps()), old(depth))), old(Caps()),
                               old(depth))
      decreases |pat| - p0, 3, 0
    {
      ghost var caps0, depth0: nat := Caps(), depth;
      depth := depth + 1;
      if depth > MAX_XLEVEL { return Raised(PatternTooComplex); }
      var s: nat, p: nat := s0, p0;
      while true
        invariant Valid() && s <= |src| && p0 <= p <= |pat| && CapsOk(caps0, s) && Caps() == caps0
                  && depth == depth0 + 1
        invariant Head(Outcomes(src, pat, MAX_XLEVEL, s0, p0, caps0, depth0)) == Head(From(src, pat, MAX_XLEVEL, s, p,
                    caps0, depth0 + 1))
        decreases |pat| - p
      {
        var again: bool;
        r, s, p, again := Step(s, p);
        if !again { break; }
      }
      if !r.Raised? { depth := depth - 1; }
    }

    /** What one turn of the matching loop leaves to do: nothing, or the same at (s, p). */
    ghost predicate Turned(r: Result, again: bool, s0: nat, p0: nat, s: nat, p: nat, caps0: seq<Cap>, depth0: nat)
      requires s0 <= |src| && p0 <= |pat| && CapsOk(caps0, s0) && Valid()
      reads this, capture
    {
      if again then
        && s0 <= s <= |src| && p0 < p <= |pat| && CapsOk(caps0, s) && Caps() == caps0 && depth == depth0
        && Head(From(src, pat, MAX_XLEVEL, s0, p0, caps0, depth0)) == Head(From(src, pat, MAX_XLEVEL, s, p, caps0,
              depth0))
      else Shows(r, Head(From(src, pat, MAX_XLEVEL, s0, p0, caps0, depth0)), caps0, depth0)
    }

    method Step(s0: nat, p0: nat) returns (r: Result, s: nat, p: nat, again: bool)
      requires Valid() && s0 <= |src| && p0 <= |pat| && CapsOk(Caps(), s0)
      modifies this, capture
      ensures Valid() && Turned(r, again, s0, p0, s, p, old(Caps()), old(depth))
      decreases |pat| - p0, 2, 1
    {
      r, s, p, again := NoMatch, s0, p0, false;
      var c, d := At(pat, p), At(pat, p + 1);
      if c == Ch('(') {
        if d == Ch(')') { r := StartCapture(s, p + 2, CAP_POSITION);
                         } else { r := StartCapture(s, p + 1, CAP_UNFINISHED); }
      } else if c == Ch(')') {
        r := EndCapture(s, p + 1);
      } else if c == ESC && (d == Ch('b') || d == Ch('f') || Digit(d)) {
        r, s, p, again := StepEscape(s, p);
      } else if c == 0 {
        r := Ends(s);
      } else if c == Ch('$') && d == 0 {
        r := if s != |src| then NoMatch else Ends(s);
      } else {
        r, s, p, again := StepChar(s, p);
      }
    }

    /** %b, %f and %0 to %9. */
    method StepEscape(s0: nat, p0: nat) returns (r: Result, s: nat, p: nat, again: bool)
      requires Valid() && s0 <= |src| && p0 < |pat| && CapsOk(Caps(), s0)
      requires pat[p0] == ESC && var d := At(pat, p0 + 1); d == Ch('b') || d == Ch('f') || Digit(d)
      ensures Valid() && Turned(r, again, s0, p0, s, p, Caps(), depth)
    {
      r, s, p, again := NoMatch, s0, p0, false;
      var d := At(pat, p + 1);
      if d == Ch('b') {
        r := MatchBalance(s, p + 2);
        if r.Ends? { s, p, again := r.end, p + 4, true; }
      } else if d == Ch('f') {
        p := p + 2;
        if At(pat, p) != Ch('[') { return Raised(MissingFrontierSet), s, p, false; }
        var ep := FindClassEnd(p);
        if ep.Bad? { return Raised(ep.error), s, p, false; }
        var previous: byte := if s == 0 then 0 else src[s - 1];
        var before := MatchBracketClass(previous, p, ep.end - 1);
        var here := MatchBracketClass(At(src, s), p, ep.end - 1);
        if !before && here { p, again := ep.end, true; }
      } else {
        r := MatchCapture(s, d);
        if r.Ends? { s, p, again := r.end, p + 2, true; }
      }
    }

    /** A single-character item and its repetition. */
    method StepChar(s0: nat, p0: nat) returns (r: Result, s: nat, p: nat, again: bool)
      requires Valid() && s0 <= |src| && p0 < |pat| && CapsOk(Caps(), s0) && ItemAt(pat, p0) == CharItem(pat, p0)
      modifies this, capture
      ensures Valid() && Turned(r, again, s0, p0, s, p, old(Caps()), old(depth))
      decreases |pat| - p0, 2, 0
    {
      CharMeans(s0, p0, Caps(), depth);
      hide From, Greedy, Lazy, Outcomes, ItemAt, CharItem, ClassEnd, RepeatAt, RunLength, Single;
      r, s, p, again := NoMatch, s0, p0, false;
      var ep := FindClassEnd(p);
      if ep.Bad? { return Raised(ep.error), s, p, false; }
      var m := false;
      if s < |src| { m := SingleMatch(src[s], p, ep.end); }
      var e := At(pat, ep.end);
      if e == Ch('?') {
        r, p, again := Optional(s, p, ep.end, m);
      } else if e == Ch('*') {
        r := MaxExpand(s, p, ep.end);
      } else if e == Ch('+') {
        if m { r := MaxExpand(s + 1, p, ep.end); }
      } else if e == Ch('-') {
        r := MinExpand(s, p, ep.end);
      } else if m {
        s, p, again := s + 1, ep.end, true;
      }
    }

    /** An optional item: with it first, then without it. */
    method Optional(s: nat, p0: nat, ep: nat, m: bool) returns (r: Result, p: nat, again: bool)
      requires Valid() && s <= |src| && p0 < ep < |pat| && CapsOk(Caps(), s) && m == One(src, pat, s, p0, ep)
      requires ItemAt(pat, p0) == Char(p0, ep, Opt) && CharRest(s, p0, ep, Ch('?'), m, Caps(), depth)
      modifies this, capture
      ensures Valid() && Turned(r, again, s, p0, s, p, old(Caps()), old(depth))
      decreases |pat| - p0, 1, 0
    {
      r, p, again := NoMatch, p0, false;
      if m {
        OptionalHead(s, p, ep, Caps(), depth);
        hide From, Outcomes, ItemAt;
        r := Match(s + 1, ep + 1);
      }
      if r.NoMatch? { p, again := ep + 1, true; }
    }

    /** What an item and its repetition stand for. */
    lemma CharMeans(s: nat, p: nat, caps: seq<Cap>, d: nat)
      requires s <= |src| && p < |pat| && CapsOk(caps, s) && ItemAt(pat, p) == CharItem(pat, p)
      ensures ClassEnd(pat, p).Bad? ==> From(src, pat, MAX_XLEVEL, s, p, caps, d) == [Raise(ClassEnd(pat, p).error)]
      ensures ClassEnd(pat, p).Upto? ==>
                var ep := ClassEnd(pat, p).end;
                var e, m := At(pat, ep), One(src, pat, s, p, ep);
                p < ep <= |pat| && (e == Ch('?') || e == Ch('*') || e == Ch('+') || e == Ch('-') ==> ep < |pat|) &&
                CharRest(s, p, ep, e, m, caps, d)
    {
      hide Greedy, Lazy, Outcomes, ClassEnd;
      var c := ClassEnd(pat, p);
      if c.Upto? {
        assert ItemAt(pat, p) == Char(p, c.end, RepeatAt(pat, c.end));
      }
    }

    ghost predicate CharRest(s: nat, p: nat, ep: nat, e: byte, m: bool, caps: seq<Cap>, d: nat)
      requires s <= |src| && p < ep <= |pat| && CapsOk(caps, s) && m == One(src, pat, s, p, ep)
      requires e == Ch('?') || e == Ch('*') || e == Ch('+') || e == Ch('-') ==> ep < |pat|
    {
      if e == Ch('?') then ItemAt(pat, p) == Char(p, ep, Opt)
          && (!m ==> From(src, pat, MAX_XLEVEL, s, p, caps, d) == From(src, pat, MAX_XLEVEL, s, ep + 1, caps, d))
      else From(src, pat, MAX_XLEVEL, s, p, caps, d) ==
           if e == Ch('*') then Greedy(src, pat, MAX_XLEVEL, s, p, ep, caps, d, RunLength(src, pat, s, p, ep))
           else if e == Ch('+') then if m then
               Greedy(src, pat, MAX_XLEVEL, s + 1, p, ep, caps, d, RunLength(src, pat, s + 1, p, ep)) else []
           else if e == Ch('-') then Lazy(src, pat, MAX_XLEVEL, s, p, ep, caps, d)
           else if m then From(src, pat, MAX_XLEVEL, s + 1, ep, caps, d) else []
    }

    /** The heads of the two alternatives of an optional item. */
    lemma OptionalHead(s: nat, p: nat, ep: nat, caps: seq<Cap>, d: nat)
      requires s < |src| && p < ep < |pat| && CapsOk(caps, s) && ItemAt(pat, p) == Char(p, ep, Opt)
               && One(src, pat, s, p, ep)
      ensures var first := Outcomes(src, pat, MAX_XLEVEL, s + 1, ep + 1, caps, d);
              Head(From(src, pat, MAX_XLEVEL, s, p, caps, d))
              == if Head(first) == Fail then Head(From(src, pat, MAX_XLEVEL, s, ep + 1, caps, d)) else Head(first)
    {
      var first := Outcomes(src, pat, MAX_XLEVEL, s + 1, ep + 1, caps, d);
      FailIsEmpty(src, pat, MAX_XLEVEL, s + 1, ep + 1, caps, d);
      HeadOfSum(first, From(src, pat, MAX_XLEVEL, s, ep + 1, caps, d));
    }

    method StartCapture(s: nat, p: nat, what: int) returns (r: Result)
      requires Valid() && s <= |src| && p <= |pat| && CapsOk(Caps(), s) && CAP_POSITION <= what < 0
      modifies this, capture
      ensures Valid()
      ensures if |old(Caps())| >= MAXCAPTURES then r == Raised(TooManyCaptures)
              else Shows(r, Head(Opened(src, pat, MAX_XLEVEL, s, p, old(Caps()), what, old(depth))), old(Caps()),
                         old(depth))
      decreases |pat| - p, 4, 0
    {
      ghost var caps := Caps();
      if level >= MAXCAPTURES { return Raised(TooManyCaptures); }
      capture[level] := Cap(s, what);
      level := level + 1;
      assert Caps() == caps + [Cap(s, what)];
      r := Match(s, p);
      if r.NoMatch? {
        level := level - 1;
        assert Caps() == caps;
      }
    }

    method EndCapture(s: nat, p: nat) returns (r: Result)
      requires Valid() && s <= |src| && p <= |pat| && CapsOk(Caps(), s)
      modifies this, capture
      ensures Valid()
      ensures var l := ToClose(old(Caps()));
              if l < 0 then r == Raised(BadPatternCapture)
              else
                var caps := old(Caps())[l := Cap(old(Caps())[l].start, s - old(Caps())[l].start)];
                Shows(r, Head(Outcomes(src, pat, MAX_XLEVEL, s, p, caps, old(depth))), old(Caps()), old(depth))
      decreases |pat| - p, 4, 0
    {
      ghost var caps := Caps();
      var l := CaptureToClose();
      if l < 0 { return Raised(BadPatternCapture); }
      var start := capture[l].start;
      capture[l] := Cap(start, s - start);
      assert Caps() == caps[l := Cap(caps[l].start, s - caps[l].start)];
      r := Match(s, p);
      if r.NoMatch? {
        assert capture[l] == Caps()[l];
        capture[l] := capture[l].(len := CAP_UNFINISHED);
        assert Caps() == caps;
      }
    }

    /** How often the item matches in a row. */
    method CountRun(s: nat, p: nat, ep: nat) returns (i: nat)
      requires s <= |src| && p < ep < |pat|
      ensures i == RunLength(src, pat, s, p, ep)
    {
      i := 0;
      var more := false;
      if s + i < |src| { more := SingleMatch(src[s + i], p, ep); }
      while more
        invariant 0 <= i && s + i <= |src| && more == One(src, pat, s + i, p, ep)
        invariant RunLength(src, pat, s, p, ep) == i + RunLength(src, pat, s + i, p, ep)
        decreases |src| - s - i
      {
        i := i + 1;
        more := false;
        if s + i < |src| { more := SingleMatch(src[s + i], p, ep); }
      }
    }

    method MaxExpand(s: nat, p: nat, ep: nat) returns (r: Result)
      requires Valid() && s <= |src| && p < ep < |pat| && CapsOk(Caps(), s)
      modifies this, capture
      ensures Valid()
      ensures Shows(r, Head(Greedy(src, pat, MAX_XLEVEL, s, p, ep, old(Caps()), old(depth),
                                   RunLength(src, pat, s, p, ep))), old(Caps()), old(depth))
      decreases |pat| - p, 0, 0
    {
      hide RunLength, Outcomes;
      ghost var caps := Caps();
      var n := CountRun(s, p, ep);
      var i: int := n;
      while i >= 0
        invariant -1 <= i <= n && Valid() && Caps() == caps && depth == old(depth)
        invariant Head(Greedy(src, pat, MAX_XLEVEL, s, p, ep, caps, depth, n))
                  == if i < 0 then Fail else Head(Greedy(src, pat, MAX_XLEVEL, s, p, ep, caps, depth, i))
        decreases i
      {
        GreedyHead(s, p, ep, caps, depth, i);
        r := Match(s + i, ep + 1);
        if !r.NoMatch? { return; }
        i := i - 1;
      }
      r := NoMatch;
    }

    lemma GreedyHead(s: nat, p: nat, ep: nat, caps: seq<Cap>, d: nat, i: nat)
      requires p < ep < |pat| && s + i <= |src| && CapsOk(caps, s)
      ensures var first := Head(Outcomes(src, pat, MAX_XLEVEL, s + i, ep + 1, caps, d));
              Head(Greedy(src, pat, MAX_XLEVEL, s, p, ep, caps, d, i))
              == if first != Fail then first
                 else if i == 0 then Fail else Head(Greedy(src, pat, MAX_XLEVEL, s, p, ep, caps, d, i - 1))
    {
      FailIsEmpty(src, pat, MAX_XLEVEL, s + i, ep + 1, caps, d);
    }

    method MinExpand(s0: nat, p: nat, ep: nat) returns (r: Result)
      requires Valid() && s0 <= |src| && p < ep < |pat| && CapsOk(Caps(), s0)
      modifies this, capture
      ensures Valid()
      ensures Shows(r, Head(Lazy(src, pat, MAX_XLEVEL, s0, p, ep, old(Caps()), old(depth))), old(Caps()), old(depth))
      decreases |pat| - p, 0, 0
    {
      ghost var caps := Caps();
      var s := s0;
      while true
        invariant s0 <= s <= |src| && Valid() && Caps() == caps && depth == old(depth) && CapsOk(caps, s)
        invariant Head(Lazy(src, pat, MAX_XLEVEL, s0, p, ep, caps, depth)) == Head(Lazy(src, pat, MAX_XLEVEL, s, p,
                    ep, caps, depth))
        decreases |src| - s
      {
        FailIsEmpty(src, pat, MAX_XLEVEL, s, ep + 1, caps, depth);
        r := Match(s, ep + 1);
        if !r.NoMatch? { return; }
        var more := false;
        if s < |src| { more := SingleMatch(src[s], p, ep); }
        if !more { return; }
        s := s + 1;
      }
    }
  }
}
