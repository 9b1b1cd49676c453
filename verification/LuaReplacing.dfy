/** Laws of replacing: what %1 to %9 put into the result, told by the captures and the subject. */
module LuaReplacing {
  import opened LuaPattern
  import opened LuaSemantics
  import opened LuaStrings
  import LuaPaths
  import LuaProperties

  // What a match means.

  /** A match found with the nesting limit is one that a path through the pattern leads to. */
  lemma MatchLed(src: seq<byte>, pat: seq<byte>, s: nat)
    requires s <= |src|
    ensures var o := MatchAt(src, pat, s);
      || o == Raise(PatternTooComplex)
      || (o != Fail && LuaPaths.Leads(src, pat, s, 0, [], o))
      || (o == Fail && forall o' {:trigger LuaPaths.Leads(src, pat, s, 0, [], o')} ::
          !LuaPaths.Leads(src, pat, s, 0, [], o'))
    ensures |pat| < 200 ==> MatchAt(src, pat, s) != Raise(PatternTooComplex)
  {
    hide LuaPaths.Leads, Outcomes;
    var free := Outcomes(src, pat, -1, s, 0, [], 0);
    LuaProperties.LimitAgrees(src, pat, MAX_XLEVEL, s, 0, [], 0);
    OutcomesGood(src, pat, -1, s, 0, [], 0);
    forall o ensures o in free <==> LuaPaths.Leads(src, pat, s, 0, [], o) {
      LuaPaths.OutcomesLed(src, pat, s, 0, [], 0, o);
    }
    if |pat| < 200 {
      LuaProperties.ShortIsSimple(src, pat, MAX_XLEVEL, s, 0, [], 0);
      OutcomesGood(src, pat, MAX_XLEVEL, s, 0, [], 0);
    }
  }

  /** Calls may nest 200 deep. */
  lemma Nesting(src: seq<byte>, pat: seq<byte>, s: nat, p: nat, caps: seq<Cap>, d: nat)
    requires s <= |src| && p <= |pat| && CapsOk(caps, s)
    ensures Outcomes(src, pat, MAX_XLEVEL, s, p, caps, d) ==
      if d >= 200 then [Raise(PatternTooComplex)] else LuaSemantics.From(src, pat, MAX_XLEVEL, s, p, caps, d + 1)
  {
  }

  /** Without an opening bracket in the pattern there are no captures. */
  lemma {:induction false} NoneCaptured(src: seq<byte>, pat: seq<byte>, s: nat, p: nat, e: nat, caps: seq<Cap>)
    requires 40 !in pat && LuaPaths.Leads(src, pat, s, p, [], Match(e, caps))
    ensures caps == []
    decreases |pat| - p
  {
    if !LuaPaths.Stops(src, pat, s, p, [], Match(e, caps)) {
      var s1: nat, p1: nat, caps1 :| LuaPaths.Takes(src, pat, s, p, [], s1, p1, caps1)
                                     && LuaPaths.Leads(src, pat, s1, p1, caps1, Match(e, caps));
      assert p < |pat| && pat[p] in pat;
      NoneCaptured(src, pat, s1, p1, e, caps);
    }
  }

  lemma MatchWithoutCaptures(src: seq<byte>, pat: seq<byte>, s: nat)
    requires s <= |src| && 40 !in pat && MatchAt(src, pat, s).Match?
    ensures MatchAt(src, pat, s).caps == []
  {
    hide MatchAt;
    var o := MatchAt(src, pat, s);
    MatchLed(src, pat, s);
    NoneCaptured(src, pat, s, 0, o.end, o.caps);
  }

  // Replacement strings.

  /** The number that a string of decimal digits stands for. */
  function Number(b: seq<byte>): int {
    if b == [] then 0 else 10 * Number(b[..|b| - 1]) - 48 + b[|b| - 1]
  }

  lemma {:induction false} DecimalMeaning(n: nat)
    ensures Number(Decimal(n)) == n && Decimal(n) != [] && (Decimal(n)[0] == 48 ==> n == 0)
    ensures forall k :: 0 <= k < |Decimal(n)| ==> 48 <= Decimal(n)[k] <= 57
  {
    if n >= 10 {
      DecimalMeaning(n / 10);
      assert Decimal(n)[..|Decimal(n)| - 1] == Decimal(n / 10);
    } else {
      assert Number([48 + n]) == 10 * Number([]) + n;
    }
  }

  lemma ThenSame(a: Text, b: Text, c: Text)
    ensures Then(a, Then(b, c)) == Then(Then(a, b), c)
  {
  }

  /** A string in which each percent sign is followed by another byte. */
  predicate Whole(news: seq<byte>) {
    news == [] || (if news[0] == 37 then |news| >= 2 && Whole(news[2..]) else Whole(news[1..]))
  }

  /** What comes before a position does not matter. */
  lemma {:induction false} ExpandSuffix(src: seq<byte>, news: seq<byte>, i: nat, k: nat, caps: seq<Cap>, s: nat, e: nat)
    requires s <= e <= |src| && CapsOk(caps, |src|) && k <= i <= |news|
    ensures Expand(src, news, i, caps, s, e) == Expand(src, news[k..], i - k, caps, s, e)
    decreases |news| - i
  {
    if i < |news| {
      var (piece, next) := ExpandAt(src, news, i, caps, s, e);
      assert ExpandAt(src, news[k..], i - k, caps, s, e) == (piece, next - k);
      if next <= |news| { ExpandSuffix(src, news, next, k, caps, s, e); }
    }
  }

  /** The first token of a replacement string, and the rest of it. */
  lemma ExpandFirst(src: seq<byte>, news: seq<byte>, caps: seq<Cap>, s: nat, e: nat)
    requires s <= e <= |src| && CapsOk(caps, |src|) && news != [] && (news[0] == 37 ==> |news| >= 2)
    ensures var n := if news[0] == 37 then 2 else 1;
            && Expand(src, news, 0, caps, s, e)
               == Then(Expand(src, news[..n], 0, caps, s, e), Expand(src, news[n..], 0, caps, s, e))
            && Expand(src, news[..n], 0, caps, s, e) == ExpandAt(src, news, 0, caps, s, e).0
  {
    var n := if news[0] == 37 then 2 else 1;
    var piece := ExpandAt(src, news, 0, caps, s, e).0;
    assert ExpandAt(src, news, 0, caps, s, e).1 == n;
    ExpandSuffix(src, news, n, n, caps, s, e);
    assert ExpandAt(src, news[..n], 0, caps, s, e) == (piece, n);
    assert Expand(src, news[..n], n, caps, s, e) == Text([]);
    assert piece.Text? ==> piece.bytes + [] == piece.bytes;
  }

  /** Replacement strings are filled in one after the other. */
  lemma {:induction false} Concatenates(src: seq<byte>, a: seq<byte>, b: seq<byte>, caps: seq<Cap>, s: nat, e: nat)
    requires s <= e <= |src| && CapsOk(caps, |src|) && Whole(a)
    ensures Expand(src, a + b, 0, caps, s, e) == Then(Expand(src, a, 0, caps, s, e), Expand(src, b, 0, caps, s, e))
    decreases |a|
  {
    if a == [] {
      assert a + b == b;
      var t := Expand(src, b, 0, caps, s, e);
      assert t.Text? ==> [] + t.bytes == t.bytes;
    } else {
      var n := if a[0] == 37 then 2 else 1;
      ExpandFirst(src, a, caps, s, e);
      ExpandFirst(src, a + b, caps, s, e);
      assert (a + b)[..n] == a[..n] && (a + b)[n..] == a[n..] + b;
      Concatenates(src, a[n..], b, caps, s, e);
      ThenSame(Expand(src, a[..n], 0, caps, s, e), Expand(src, a[n..], 0, caps, s, e), Expand(src, b, 0, caps, s, e));
    }
  }

  /** A string without percent signs is put as it is. */
  lemma {:induction false} Verbatim(src: seq<byte>, news: seq<byte>, caps: seq<Cap>, s: nat, e: nat)
    requires s <= e <= |src| && CapsOk(caps, |src|) && 37 !in news
    ensures Expand(src, news, 0, caps, s, e) == Text(news)
    decreases |news|
  {
    if news != [] {
      ExpandFirst(src, news, caps, s, e);
      assert news[0] in news && (forall x :: x in news[1..] ==> x in news);
      Verbatim(src, news[1..], caps, s, e);
      assert [news[0]] + news[1..] == news;
    }
  }

  /** A percent sign takes away the meaning of any byte that is no digit. */
  lemma Escaped(src: seq<byte>, c: byte, caps: seq<Cap>, s: nat, e: nat)
    requires s <= e <= |src| && CapsOk(caps, |src|) && !(48 <= c <= 57)
    ensures Expand(src, [37, c], 0, caps, s, e) == Text([c])
  {
    ExpandFirst(src, [37, c], caps, s, e);
  }

  /** The text of a finished capture is a part of the subject; that of a position is its number. */
  ghost predicate TextOf(src: seq<byte>, c: Cap, t: seq<byte>) {
    if c.len == -2 then t != [] && Number(t) == c.start + 1
    else 0 <= c.len && c.start + c.len <= |src| && t == src[c.start..c.start + c.len]
  }

  /** %1 to %9 stand for the first to ninth capture; without captures %1 is the whole match. */
  lemma NthCapture(src: seq<byte>, k: nat, caps: seq<Cap>, s: nat, e: nat)
    requires s <= e <= |src| && CapsOk(caps, |src|) && 1 <= k <= 9
    ensures var t := Expand(src, [37, 48 + k], 0, caps, s, e);
      if k <= |caps| then
        if caps[k - 1].len == -1 then t == Failed(UnfinishedCapture) else t.Text? && TextOf(src, caps[k - 1], t.bytes)
      else if k == 1 then t == Text(src[s..e])
      else t == Failed(BadCaptureIndex)
  {
    var news: seq<byte> := [37, 48 + k];
    ExpandFirst(src, news, caps, s, e);
    assert news[..2] == news && At(news, 1) == 48 + k;
    hide Expand, Decimal;
    if k <= |caps| && caps[k - 1].len == -2 { DecimalMeaning(caps[k - 1].start + 1); }
  }

  // Whole substitutions: ps are the pieces of the result.

  /** Each match that is replaced by %k leaves the text of its k-th capture. */
  lemma CaptureStays(src: seq<byte>, pat: seq<byte>, k: nat, ps: seq<Piece>, j: nat) returns (caps: seq<Cap>)
    requires 1 <= k <= 9 && PiecesOk(src, pat, News([37, 48 + k]), ps) && j < |ps| && ps[j].Sub?
    ensures MatchAt(src, pat, ps[j].start) == Match(ps[j].end, caps) && ps[j].start <= ps[j].end <= |src|
    ensures if k <= |caps| then TextOf(src, caps[k - 1], ps[j].text)
            else k == 1 && ps[j].text == src[ps[j].start..ps[j].end]
  {
    hide MatchAt, Expand;
    var p, repl := ps[j], News([37, 48 + k]);
    assert SubOk(src, pat, repl, p);
    caps :| CapsOk(caps, |src|) && MatchAt(src, pat, p.start) == Match(p.end, caps)
            && Replacement(src, repl, caps, p.start, p.end) == Text(p.text);
    NthCapture(src, k, caps, p.start, p.end);
  }

  /** With a pattern that captures nothing, replacing by %1 gives the subject. */
  lemma FirstStays(src: seq<byte>, pat: seq<byte>, ps: seq<Piece>, s: nat)
    requires Tiles(ps, s) && s <= |src| && PiecesOk(src, pat, News([37, 49]), ps) && 40 !in pat
    ensures Render(src, ps) + src[s..] == src
  {
    hide MatchAt;
    forall j | 0 <= j < |ps| && ps[j].Sub?
      ensures ps[j].start <= ps[j].end <= |src| && ps[j].text == src[ps[j].start..ps[j].end]
    {
      var caps := CaptureStays(src, pat, 1, ps, j);
      MatchWithoutCaptures(src, pat, ps[j].start);
    }
    RenderSame(src, ps, s);
  }

  /** A string without percent signs replaces every match. */
  lemma VerbatimStays(src: seq<byte>, pat: seq<byte>, news: seq<byte>, ps: seq<Piece>, j: nat)
    requires PiecesOk(src, pat, News(news), ps) && j < |ps| && ps[j].Sub? && 37 !in news
    ensures ps[j].text == news
  {
    hide MatchAt;
    var p, repl := ps[j], News(news);
    assert SubOk(src, pat, repl, p);
    var caps :| CapsOk(caps, |src|) && MatchAt(src, pat, p.start) == Match(p.end, caps)
                && Replacement(src, repl, caps, p.start, p.end) == Text(p.text);
    Verbatim(src, news, caps, p.start, p.end);
  }

  lemma Unanswered(src: seq<byte>, f: seq<seq<byte>> -> Option<seq<byte>>, caps: seq<Cap>, s: nat, e: nat)
    requires s <= e <= |src| && CapsOk(caps, |src|) && forall args :: f(args) == None
    ensures Replacement(src, Callback(f), caps, s, e).Text? ==>
      Replacement(src, Callback(f), caps, s, e) == Text(src[s..e])
  {
    hide Pushed;
    var (args, x) := Pushed(src, caps, true, s, e);
    assert f(args) == None;
  }

  /** A function or table that has no answer changes nothing. */
  lemma UnansweredStays(src: seq<byte>, pat: seq<byte>, f: seq<seq<byte>> -> Option<seq<byte>>, ps: seq<Piece>, s: nat)
    requires Tiles(ps, s) && s <= |src| && PiecesOk(src, pat, Callback(f), ps) && forall args :: f(args) == None
    ensures Render(src, ps) + src[s..] == src
  {
    hide MatchAt, Pushed;
    forall j | 0 <= j < |ps| && ps[j].Sub?
      ensures ps[j].start <= ps[j].end <= |src| && ps[j].text == src[ps[j].start..ps[j].end]
    {
      var p := ps[j];
      assert SubOk(src, pat, Callback(f), p);
      var caps :| CapsOk(caps, |src|) && MatchAt(src, pat, p.start) == Match(p.end, caps)
                  && Replacement(src, Callback(f), caps, p.start, p.end) == Text(p.text);
      Unanswered(src, f, caps, p.start, p.end);
    }
    RenderSame(src, ps, s);
  }

  // The values that a match returns.

  lemma {:induction false} CapturesAll(src: seq<byte>, caps: seq<Cap>, i: nat, s: nat, e: nat)
    requires s <= e <= |src| && CapsOk(caps, |src|) && i <= |caps|
    ensures var (texts, x) := AllCaptures(src, caps, i, s, e);
      if exists k {:trigger caps[k]} :: i <= k < |caps| && caps[k].len == -1 then x == Some(UnfinishedCapture)
      else x == None && |texts| == |caps| - i && forall k: nat {:trigger caps[i + k]} {:trigger texts[k]} ::
        k < |texts| ==> TextOf(src, caps[i + k], texts[k])
    decreases |caps| - i
  {
    if i < |caps| {
      CapturesAll(src, caps, i + 1, s, e);
      if caps[i].len == -2 { DecimalMeaning(caps[i].start + 1); }
    }
  }

  /** All captures in order; if there are none, the whole match where it is asked for. */
  lemma PushedMeaning(src: seq<byte>, caps: seq<Cap>, whole: bool, s: nat, e: nat)
    requires s <= e <= |src| && CapsOk(caps, |src|)
    ensures var (texts, x) := Pushed(src, caps, whole, s, e);
      if caps == [] then x == None && texts == (if whole then [src[s..e]] else [])
      else if exists k {:trigger caps[k]} :: 0 <= k < |caps| && caps[k].len == -1 then x == Some(UnfinishedCapture)
      else x == None && |texts| == |caps| && forall k: nat {:trigger texts[k]} :: k < |texts| ==>
        TextOf(src, caps[k], texts[k])
  {
    CapturesAll(src, caps, 0, s, e);
    assert forall k: nat :: k < |caps| ==> caps[0 + k] == caps[k];
  }
}
