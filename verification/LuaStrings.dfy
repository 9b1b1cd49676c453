/** string.find, string.gmatch and string.gsub on top of the matcher. */
module LuaStrings {
  import opened LuaPattern
  import opened LuaSemantics
  import opened LuaMatcher

  /** The preferred outcome of a fresh match at s. */
  ghost function MatchAt(src: seq<byte>, pat: seq<byte>, s: nat): Outcome
    requires s <= |src|
  {
    Head(Outcomes(src, pat, MAX_XLEVEL, s, 0, [], 0))
  }

  lemma MatchWithin(src: seq<byte>, pat: seq<byte>, s: nat)
    requires s <= |src| && MatchAt(src, pat, s).Match?
    ensures var o := MatchAt(src, pat, s); s <= o.end <= |src| && CapsOk(o.caps, o.end)
  {
    OutcomesGood(src, pat, MAX_XLEVEL, s, 0, [], 0);
  }

  /** A match with the capture state cleared first. */
  method MatchFrom(ms: MatchState, s: nat) returns (r: Result)
    requires ms.Valid() && s <= |ms.src|
    modifies ms, ms.capture
    ensures ms.Valid() && (r.Ends? ==> s <= r.end <= |ms.src|)
    ensures match MatchAt(ms.src, ms.pat, s)
            case Fail => r == NoMatch
            case Match(end, caps) => r == Ends(end) && ms.Caps() == caps
            case Raise(e) => r == Raised(e)
  {
    ms.level, ms.depth := 0, 0;
    r := ms.Match(s, 0);
    if r.Ends? { MatchWithin(ms.src, ms.pat, s); }
  }

  // find

  /** The start position that an optional argument stands for. */
  function StartAt(start: int, len: nat): (st: nat)
    ensures st <= len
    ensures 1 <= start <= len + 1 ==> st == start - 1
    ensures 0 <= len + start && start < 0 ==> st == len + start
    ensures start > len + 1 ==> st == len
    ensures start == 0 || len + start < 0 ==> st == 0
  {
    var a := if start < 0 then start + len else start - 1;
    var b := if a < 0 then 0 else a;
    if b > len then len else b
  }

  /** What is returned for the match at s: its captures, as decimal digits where they are positions, or an error. */
  ghost predicate Returned(ms: MatchState, whole: bool, s: nat, r: Result, values: seq<seq<byte>>)
    requires ms.Valid()
    reads ms, ms.capture
  {
    && s <= |ms.src|
    && match MatchAt(ms.src, ms.pat, s)
       case Fail => r == NoMatch
       case Raise(x) => r == Raised(x)
       case Match(e, caps) =>
         && s <= e <= |ms.src| && CapsOk(caps, |ms.src|)
         && var (texts, x) := Pushed(ms.src, caps, whole, s, e);
            if x.Some? then r == Raised(x.value) else r == Ends(e) && values == texts
  }

  /** A match at s with the captures that it returns. */
  method MatchWith(ms: MatchState, whole: bool, s: nat) returns (r: Result, values: seq<seq<byte>>)
    requires ms.Valid() && s <= |ms.src|
    modifies ms, ms.capture
    ensures ms.Valid() && Returned(ms, whole, s, r, values) && (r.NoMatch? <==> MatchAt(ms.src, ms.pat, s) == Fail)
  {
    hide MatchAt, Pushed;
    values := [];
    r := MatchFrom(ms, s);
    if r.Ends? {
      MatchWithin(ms.src, ms.pat, s);
      var err;
      values, err := PushCaptures(ms, whole, s, r.end);
      if err.Some? { r := Raised(err.value); }
    }
  }

  /** find and match: the first position from the start on that matches, only the start if anchored. */
  method FindPattern(ms: MatchState, find: bool, start: int, anchor: bool) returns (r: Result, s: nat,
      values: seq<seq<byte>>)
    requires ms.Valid()
    modifies ms, ms.capture
    ensures ms.Valid() && var st := StartAt(start, |ms.src|);
            && st <= s <= |ms.src|
            && (forall k {:trigger MatchAt(ms.src, ms.pat, k)} :: st <= k < s ==> MatchAt(ms.src, ms.pat, k) == Fail)
            && Returned(ms, !find, s, r, values)
            && (if r.NoMatch? then s == if anchor then st else |ms.src| else anchor ==> s == st)
  {
    hide MatchAt, Returned;
    s := StartAt(start, |ms.src|);
    while true
      invariant ms.Valid() && StartAt(start, |ms.src|) <= s <= |ms.src| && (anchor ==> s == StartAt(start, |ms.src|))
      invariant forall k {:trigger MatchAt(ms.src, ms.pat, k)} ::
                  StartAt(start, |ms.src|) <= k < s ==> MatchAt(ms.src, ms.pat, k) == Fail
      decreases |ms.src| - s
    {
      r, values := MatchWith(ms, !find, s);
      if !r.NoMatch? || s == |ms.src| || anchor { return; }
      s := s + 1;
    }
  }

  // gmatch

  /** One step of the iterator: the first match from pos on, and where to go on; the position always grows. */
  method GmatchStep(ms: MatchState, pos: nat) returns (r: Result, s: nat, next: nat, values: seq<seq<byte>>)
    requires ms.Valid()
    modifies ms, ms.capture
    ensures ms.Valid()
    ensures forall k {:trigger MatchAt(ms.src, ms.pat, k)} :: pos <= k < s && k <= |ms.src| ==>
      MatchAt(ms.src, ms.pat, k) == Fail
    ensures if r.NoMatch? then s > |ms.src| else pos <= s <= |ms.src| && Returned(ms, true, s, r, values)
    ensures r.Ends? ==> next == if r.end == s then r.end + 1 else r.end
  {
    hide MatchAt, Returned;
    s, next, values := pos, pos, [];
    while s <= |ms.src|
      invariant ms.Valid() && pos <= s
      invariant forall k {:trigger MatchAt(ms.src, ms.pat, k)} :: pos <= k < s && k <= |ms.src| ==>
        MatchAt(ms.src, ms.pat, k) == Fail
      decreases |ms.src| + 1 - s
    {
      r, values := MatchWith(ms, true, s);
      if r.Ends? { next := if r.end == s then r.end + 1 else r.end; }
      if !r.NoMatch? { return; }
      s := s + 1;
    }
    r := NoMatch;
  }

  // gsub

  datatype Text = Text(bytes: seq<byte>) | Failed(error: Error)

  /** Decimal digits. */
  function Decimal(n: nat): seq<byte> {
    if n < 10 then [48 + n] else Decimal(n / 10) + [48 + n % 10]
  }

  /** The text of capture i; capture 0 of a pattern without captures is the whole match. */
  function CaptureText(src: seq<byte>, caps: seq<Cap>, i: nat, s: nat, e: nat): Text
    requires s <= e <= |src| && CapsOk(caps, |src|)
  {
    if i >= |caps| then if i == 0 then Text(src[s..e]) else Failed(BadCaptureIndex)
    else if caps[i].len == CAP_UNFINISHED then Failed(UnfinishedCapture)
    else if caps[i].len == CAP_POSITION then Text(Decimal(caps[i].start + 1))
    else Text(src[caps[i].start..caps[i].start + caps[i].len])
  }

  /** What position i of a replacement string stands for, and the position after it. */
  function ExpandAt(src: seq<byte>, news: seq<byte>, i: nat, caps: seq<Cap>, s: nat, e: nat): (r: (Text, nat))
    requires s <= e <= |src| && CapsOk(caps, |src|) && i < |news|
    ensures r.1 > i
  {
    var d := At(news, i + 1);
    if news[i] != ESC then (Text([news[i]]), i + 1)
    else if !Digit(d) then (Text([d]), i + 2)
    else if d == Ch('0') then (Text(src[s..e]), i + 2)
    else (CaptureText(src, caps, d - 49, s, e), i + 2)
  }

  function Then(piece: Text, rest: Text): Text {
    if piece.Failed? then piece else if rest.Failed? then rest else Text(piece.bytes + rest.bytes)
  }

  /** The replacement string from i on, with %0 to %9 filled in. */
  function Expand(src: seq<byte>, news: seq<byte>, i: nat, caps: seq<Cap>, s: nat, e: nat): Text
    requires s <= e <= |src| && CapsOk(caps, |src|)
    decreases |news| - i
  {
    if i >= |news| then Text([])
    else
      var (piece, next) := ExpandAt(src, news, i, caps, s, e);
      Then(piece, Expand(src, news, next, caps, s, e))
  }

  /** A replacement string, or a table or function, which may keep the text as it is. */
  datatype Repl = News(bytes: seq<byte>) | Callback(f: seq<seq<byte>> -> Option<seq<byte>>)

  function AllCaptures(src: seq<byte>, caps: seq<Cap>, i: nat, s: nat, e: nat): (r: (seq<seq<byte>>, Option<Error>))
    requires s <= e <= |src| && CapsOk(caps, |src|) && i <= |caps|
    decreases |caps| - i
  {
    if i == |caps| then ([], None)
    else
      match CaptureText(src, caps, i, s, e)
      case Failed(x) => ([], Some(x))
      case Text(t) => var (rest, x) := AllCaptures(src, caps, i + 1, s, e); ([t] + rest, x)
  }

  function Pushed(src: seq<byte>, caps: seq<Cap>, whole: bool, s: nat, e: nat): (seq<seq<byte>>, Option<Error>)
    requires s <= e <= |src| && CapsOk(caps, |src|)
  {
    if caps == [] && whole then ([src[s..e]], None) else AllCaptures(src, caps, 0, s, e)
  }

  function Replacement(src: seq<byte>, repl: Repl, caps: seq<Cap>, s: nat, e: nat): Text
    requires s <= e <= |src| && CapsOk(caps, |src|)
  {
    match repl
    case News(news) => Expand(src, news, 0, caps, s, e)
    case Callback(f) =>
      var (args, x) := Pushed(src, caps, true, s, e);
      if x.Some? then Failed(x.value)
      else match f(args) case None => Text(src[s..e]) case Some(t) => Text(t)
  }

  /** What the result is made of: a replaced match, or a byte of the subject. */
  datatype Piece = Sub(start: nat, end: nat, text: seq<byte>) | Copy(at: nat)

  function From(p: Piece): nat {
    if p.Sub? then p.start else p.at
  }

  function Upto(p: Piece): nat {
    if p.Sub? then p.end else p.at + 1
  }

  ghost function Render(src: seq<byte>, ps: seq<Piece>): seq<byte> {
    if ps == [] then []
    else
      var p := ps[|ps| - 1];
      Render(src, ps[..|ps| - 1]) + if p.Sub? then p.text else if p.at < |src| then [src[p.at]] else []
  }

  /** The pieces cover [0, s) from left to right without gaps or overlaps. */
  ghost predicate Tiles(ps: seq<Piece>, s: nat) {
    if ps == [] then s == 0
    else
      var p := ps[|ps| - 1];
      From(p) <= Upto(p) == s && Tiles(ps[..|ps| - 1], From(p))
  }

  ghost function Count(ps: seq<Piece>): nat {
    if ps == [] then 0 else Count(ps[..|ps| - 1]) + if ps[|ps| - 1].Sub? then 1 else 0
  }

  /** Replaced pieces are the preferred matches where they start, with their replacements. */
  ghost predicate SubOk(src: seq<byte>, pat: seq<byte>, repl: Repl, p: Piece) {
    p.Sub? ==>
      && p.start <= p.end <= |src|
      && exists caps {:trigger CapsOk(caps, |src|)} ::
        CapsOk(caps, |src|) && MatchAt(src, pat, p.start) == Match(p.end, caps)
                       && Replacement(src, repl, caps, p.start, p.end) == Text(p.text)
  }

  /** Bytes are copied only where no nonempty match starts. */
  ghost predicate CopyOk(src: seq<byte>, pat: seq<byte>, p: Piece) {
    p.Copy? ==>
      p.at < |src| && (MatchAt(src, pat, p.at) == Fail
                       || (MatchAt(src, pat, p.at).Match? && MatchAt(src, pat, p.at).end == p.at))
  }

  ghost predicate PiecesOk(src: seq<byte>, pat: seq<byte>, repl: Repl, ps: seq<Piece>) {
    forall k {:trigger ps[k]} :: 0 <= k < |ps| ==> SubOk(src, pat, repl, ps[k]) && CopyOk(src, pat, ps[k])
  }

  ghost predicate EmptySub(p: Piece, s: nat) {
    p.Sub? && p.start == s == p.end
  }

  /** An empty match is replaced once, and then the byte after it is copied; a match is never passed over. */
  ghost predicate Turned(src: seq<byte>, pat: seq<byte>, ps: seq<Piece>, k: nat)
    requires k < |ps|
  {
    && (EmptySub(ps[k], From(ps[k])) && k + 1 < |ps| ==> ps[k + 1] == Copy(From(ps[k])))
    && (ps[k].Copy? && ps[k].at <= |src| && MatchAt(src, pat, ps[k].at).Match? ==>
        k > 0 && EmptySub(ps[k - 1], ps[k].at))
  }

  ghost predicate InTurn(src: seq<byte>, pat: seq<byte>, ps: seq<Piece>) {
    forall k {:trigger Turned(src, pat, ps, k)} :: 0 <= k < |ps| ==> Turned(src, pat, ps, k)
  }

  /** The last piece is no empty match. */
  ghost predicate Moved(ps: seq<Piece>) {
    ps == [] || !EmptySub(ps[|ps| - 1], From(ps[|ps| - 1]))
  }

  /** An empty match at the end of the subject has been replaced. */
  ghost predicate EndSeen(src: seq<byte>, pat: seq<byte>, ps: seq<Piece>) {
    MatchAt(src, pat, |src|).Match? ==> ps != [] && EmptySub(ps[|ps| - 1], |src|)
  }

  ghost predicate AtStart(ps: seq<Piece>) {
    forall k {:trigger ps[k]} :: 0 <= k < |ps| ==> From(ps[k]) == 0
  }

  lemma TurnMore(src: seq<byte>, pat: seq<byte>, ps: seq<Piece>, p: Piece)
    requires InTurn(src, pat, ps)
    requires Moved(ps) || p == Copy(From(ps[|ps| - 1]))
    requires p.Copy? && p.at <= |src| && MatchAt(src, pat, p.at).Match? ==> ps != [] && EmptySub(ps[|ps| - 1], p.at)
    ensures InTurn(src, pat, ps + [p])
  {
    hide MatchAt;
    var qs := ps + [p];
    forall k | 0 <= k < |qs| ensures Turned(src, pat, qs, k) {
      assert k < |ps| ==> Turned(src, pat, ps, k);
    }
  }

  lemma Extended(src: seq<byte>, ps: seq<Piece>, p: Piece, s: nat)
    requires Tiles(ps, s) && From(p) == s <= Upto(p)
    ensures Tiles(ps + [p], Upto(p)) && Count(ps + [p]) == Count(ps) + if p.Sub? then 1 else 0
    ensures Render(src, ps + [p]) == Render(src, ps) + if p.Sub? then p.text else if p.at < |src| then [src[p.at]]
            else []
  {
    assert (ps + [p])[..|ps|] == ps;
  }

  /** If every replacement is the text it replaces, the result is the subject. */
  lemma {:induction false} RenderSame(src: seq<byte>, ps: seq<Piece>, s: nat)
    requires Tiles(ps, s) && s <= |src|
    requires forall k {:trigger ps[k]} :: 0 <= k < |ps| && ps[k].Sub? ==>
      ps[k].start <= ps[k].end <= |src| && ps[k].text == src[ps[k].start..ps[k].end]
    ensures Render(src, ps) == src[..s]
  {
    if ps != [] {
      var p := ps[|ps| - 1];
      RenderSame(src, ps[..|ps| - 1], From(p));
      assert src[..s] == src[..From(p)] + src[From(p)..s];
    }
  }

  method PushCapture(ms: MatchState, i: nat, s: nat, e: nat) returns (t: Text)
    requires ms.Valid() && s <= e <= |ms.src| && CapsOk(ms.Caps(), |ms.src|)
    ensures t == CaptureText(ms.src, ms.Caps(), i, s, e)
  {
    if i >= ms.level {
      t := if i == 0 then Text(ms.src[s..e]) else Failed(BadCaptureIndex);
    } else {
      var c := ms.capture[i];
      assert c == ms.Caps()[i];
      if c.len == CAP_UNFINISHED { t := Failed(UnfinishedCapture); }
      else if c.len == CAP_POSITION { t := Text(Decimal(c.start + 1)); }
      else { t := Text(ms.src[c.start..c.start + c.len]); }
    }
  }

  /** add_s: fills in a replacement string. */
  method AddString(ms: MatchState, news: seq<byte>, s: nat, e: nat) returns (t: Text)
    requires ms.Valid() && s <= e <= |ms.src| && CapsOk(ms.Caps(), |ms.src|)
    ensures t == Expand(ms.src, news, 0, ms.Caps(), s, e)
  {
    var out: seq<byte> := [];
    var i := 0;
    while i < |news|
      invariant 0 <= i
      invariant Expand(ms.src, news, 0, ms.Caps(), s, e) == Then(Text(out), Expand(ms.src, news, i, ms.Caps(), s, e))
      decreases |news| - i
    {
      var piece, next := AddPiece(ms, news, i, s, e);
      ThenThen(Text(out), piece, Expand(ms.src, news, next, ms.Caps(), s, e));
      if piece.Failed? { return piece; }
      out, i := out + piece.bytes, next;
    }
    t := Text(out);
    assert out + [] == out;
  }

  lemma ThenThen(a: Text, b: Text, c: Text)
    ensures Then(a, Then(b, c)) == Then(Then(a, b), c)
    ensures a.Text? && b.Failed? ==> Then(a, b) == b && Then(b, c) == b
  {
  }

  method AddPiece(ms: MatchState, news: seq<byte>, i0: nat, s: nat, e: nat) returns (t: Text, i: nat)
    requires ms.Valid() && s <= e <= |ms.src| && CapsOk(ms.Caps(), |ms.src|) && i0 < |news|
    ensures (t, i) == ExpandAt(ms.src, news, i0, ms.Caps(), s, e)
  {
    i := i0;
    if news[i] != ESC {
      t := Text([news[i]]);
    } else {
      i := i + 1;
      var d := At(news, i);
      if !Digit(d) {
        t := Text([d]);
      } else if d == Ch('0') {
        t := Text(ms.src[s..e]);
      } else {
        t := PushCapture(ms, d - 49, s, e);
      }
    }
    i := i + 1;
  }

  /** push_captures: without any capture the whole match counts as one, unless only captures are asked for. */
  method PushCaptures(ms: MatchState, whole: bool, s: nat, e: nat) returns (args: seq<seq<byte>>, err: Option<Error>)
    requires ms.Valid() && s <= e <= |ms.src| && CapsOk(ms.Caps(), |ms.src|)
    ensures err == Pushed(ms.src, ms.Caps(), whole, s, e).1
            && (err.None? ==> args == Pushed(ms.src, ms.Caps(), whole, s, e).0)
  {
    if ms.level == 0 && whole { return [ms.src[s..e]], None; }
    args, err := [], None;
    var i := 0;
    while i < ms.level
      invariant 0 <= i <= ms.level
      invariant AllCaptures(ms.src, ms.Caps(), 0, s, e).1 == AllCaptures(ms.src, ms.Caps(), i, s, e).1
      invariant AllCaptures(ms.src, ms.Caps(), 0, s, e).0 == args + AllCaptures(ms.src, ms.Caps(), i, s, e).0
    {
      var t := PushCapture(ms, i, s, e);
      if t.Failed? { return args, Some(t.error); }
      args := args + [t.bytes];
      i := i + 1;
    }
  }

  method AddValue(ms: MatchState, repl: Repl, s: nat, e: nat) returns (t: Text)
    requires ms.Valid() && s <= e <= |ms.src| && CapsOk(ms.Caps(), |ms.src|)
    ensures t == Replacement(ms.src, repl, ms.Caps(), s, e)
  {
    match repl {
      case News(news) =>
        t := AddString(ms, news, s, e);
      case Callback(f) =>
        var args, err := PushCaptures(ms, true, s, e);
        if err.Some? { return Failed(err.value); }
        t := match f(args) case None => Text(ms.src[s..e]) case Some(b) => Text(b);
    }
  }

  /** The output so far: what the pieces up to s amount to, n of them replaced matches. */
  ghost predicate Progress(src: seq<byte>, pat: seq<byte>, repl: Repl, ps: seq<Piece>, s: nat, out: seq<byte>, n: nat) {
    s <= |src| && Tiles(ps, s) && PiecesOk(src, pat, repl, ps) && out == Render(src, ps) && n == Count(ps)
  }

  lemma ProgressSub(src: seq<byte>, pat: seq<byte>, repl: Repl, ps: seq<Piece>, s: nat, out: seq<byte>, n: nat,
                    p: Piece)
    requires Progress(src, pat, repl, ps, s, out, n) && p.Sub? && p.start == s && SubOk(src, pat, repl, p)
    ensures Progress(src, pat, repl, ps + [p], p.end, out + p.text, n + 1)
  {
    Extended(src, ps, p, s);
  }

  lemma ProgressCopy(src: seq<byte>, pat: seq<byte>, repl: Repl, ps: seq<Piece>, s: nat, out: seq<byte>, n: nat)
    requires Progress(src, pat, repl, ps, s, out, n) && s < |src| && CopyOk(src, pat, Copy(s))
    ensures Progress(src, pat, repl, ps + [Copy(s)], s + 1, out + [src[s]], n)
  {
    Extended(src, ps, Copy(s), s);
  }

  /**
   * gsub: the result is made of replaced matches and copied bytes that cover the subject from left to right;
   * until the limit is reached (or after the first try, when anchored) no match is passed over, and none is replaced
   * twice. An error comes from the try that follows what is done so far.
   */
  method Gsub(ms: MatchState, repl: Repl, maxS: int, anchor: bool)
      returns (out: seq<byte>, n: nat, err: Option<Error>, ghost tried: seq<Piece>, ghost rest: nat)
    requires ms.Valid()
    modifies ms, ms.capture
    ensures err.None? ==>
              && rest <= |ms.src| && Tiles(tried, rest) && PiecesOk(ms.src, ms.pat, repl, tried)
              && out == Render(ms.src, tried) + ms.src[rest..] && n == Count(tried)
              && (rest < |ms.src| ==> n == maxS || maxS <= 0 || anchor) && (n <= maxS || n == 0)
    ensures InTurn(ms.src, ms.pat, tried) && (anchor ==> AtStart(tried))
    ensures err.None? && rest < |ms.src| ==> Moved(tried)
    ensures err.None? && n < maxS && !anchor ==> EndSeen(ms.src, ms.pat, tried)
    ensures err.None? && anchor && maxS > 0 && MatchAt(ms.src, ms.pat, 0).Match? ==>
      n == 1 && tried != [] && tried[0].Sub?
    ensures err.Some? ==>
      Moved(tried) && Progress(ms.src, ms.pat, repl, tried, rest, out, n)
      && Fails(ms.src, ms.pat, repl, rest, err.value)
    ensures repl == News([ESC, Ch('0')]) && err.None? ==> out == ms.src
  {
    hide InTurn, Turned, MatchAt, Fails, Tiles, PiecesOk, Render, Count, SubOk, CopyOk;
    out, n, err, tried := [], 0, None, [];
    var src := 0;
    NoPieces(ms.src, ms.pat, repl);
    while n < maxS
      invariant ms.Valid() && Progress(ms.src, ms.pat, repl, tried, src, out, n) && (n <= maxS || n == 0)
      invariant InTurn(ms.src, ms.pat, tried) && Moved(tried) && (anchor ==> tried == [] && src == 0)
      decreases |ms.src| - src, maxS - n
    {
      var r, t := TryAt(ms, repl, src);
      if t.Failed? { return out, n, Some(t.error), tried, src; }
      if r.Ends? {
        ghost var p := Sub(src, r.end, t.bytes);
        ProgressSub(ms.src, ms.pat, repl, tried, src, out, n, p);
        TurnMore(ms.src, ms.pat, tried, p);
        out, n, tried := out + t.bytes, n + 1, tried + [p];
      }
      if r.Ends? && r.end > src {
        src := r.end;
      } else if src < |ms.src| {
        ProgressCopy(ms.src, ms.pat, repl, tried, src, out, n);
        TurnMore(ms.src, ms.pat, tried, Copy(src));
        out, tried := out + [ms.src[src]], tried + [Copy(src)];
        src := src + 1;
      } else {
        break;
      }
      if anchor { break; }
    }
    rest := src;
    out := out + ms.src[src..];
    if repl == News([ESC, Ch('0')]) { WholeKept(ms.src, ms.pat, repl, tried, rest); }
  }

  lemma NoPieces(src: seq<byte>, pat: seq<byte>, repl: Repl)
    ensures Progress(src, pat, repl, [], 0, [], 0) && InTurn(src, pat, [])
  {
  }

  /** A try at s fails with this error: in the match, or in its replacement. */
  ghost predicate Fails(src: seq<byte>, pat: seq<byte>, repl: Repl, s: nat, e: Error) {
    s <= |src| &&
    match MatchAt(src, pat, s)
    case Fail => false
    case Raise(x) => x == e
    case Match(end, caps) =>
      s <= end <= |src| && CapsOk(caps, |src|) && Replacement(src, repl, caps, s, end) == Failed(e)
  }

  /** One try of gsub: the match at s, if any, and what replaces it. */
  method TryAt(ms: MatchState, repl: Repl, s: nat) returns (r: Result, t: Text)
    requires ms.Valid() && s <= |ms.src|
    modifies ms, ms.capture
    ensures ms.Valid() && (r.Ends? ==> s <= r.end <= |ms.src|)
    ensures r.Ends? && t.Text? ==> SubOk(ms.src, ms.pat, repl, Sub(s, r.end, t.bytes))
    ensures r.Ends? && r.end == s ==> CopyOk(ms.src, ms.pat, Copy(s)) || s == |ms.src|
    ensures r.NoMatch? ==> t == Text([]) && (CopyOk(ms.src, ms.pat, Copy(s)) || s == |ms.src|)
    ensures r.Raised? ==> t.Failed?
    ensures t.Failed? ==> Fails(ms.src, ms.pat, repl, s, t.error)
    ensures r.Ends? <==> MatchAt(ms.src, ms.pat, s).Match?
  {
    r := MatchFrom(ms, s);
    match r {
      case NoMatch => t := Text([]);
      case Raised(x) => t := Failed(x);
      case Ends(e) =>
        MatchWithin(ms.src, ms.pat, s);
        assert CapsOk(ms.Caps(), |ms.src|);
        t := AddValue(ms, repl, s, e);
    }
  }

  /** Replacing by %0 replaces every match by itself. */
  lemma WholeKept(src: seq<byte>, pat: seq<byte>, repl: Repl, ps: seq<Piece>, s: nat)
    requires Tiles(ps, s) && s <= |src| && PiecesOk(src, pat, repl, ps) && repl == News([ESC, Ch('0')])
    ensures Render(src, ps) + src[s..] == src
  {
    forall k | 0 <= k < |ps| && ps[k].Sub?
      ensures ps[k].start <= ps[k].end <= |src| && ps[k].text == src[ps[k].start..ps[k].end]
    {
      var p := ps[k];
      assert SubOk(src, pat, repl, p);
      var caps :| CapsOk(caps, |src|) && MatchAt(src, pat, p.start) == Match(p.end, caps)
          && Replacement(src, repl, caps, p.start, p.end) == Text(p.text);
      WholeText(src, caps, p.start, p.end);
    }
    RenderSame(src, ps, s);
  }

  lemma WholeText(src: seq<byte>, caps: seq<Cap>, s: nat, e: nat)
    requires s <= e <= |src| && CapsOk(caps, |src|)
    ensures Expand(src, [ESC, Ch('0')], 0, caps, s, e) == Text(src[s..e])
  {
    assert Expand(src, [ESC, Ch('0')], 2, caps, s, e) == Text([]);
    assert src[s..e] + [] == src[s..e];
  }
}
