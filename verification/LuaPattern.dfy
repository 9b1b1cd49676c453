/** Lua patterns: how they are read, and their meaning as a list of outcomes in order of preference. */
module LuaPattern {

  type byte = x: int | 0 <= x < 256

  const ESC: byte := 37
  const MAXCAPTURES := 32
  const MAX_XLEVEL := 200
  const CAP_UNFINISHED := -1
  const CAP_POSITION := -2

  datatype Cap = Cap(start: nat, len: int)

  datatype Error = PatternTooComplex | TooManyCaptures | BadCaptureIndex | BadPatternCapture
                 | EndsInEscape | MissingBracket | UnbalancedArgs | MissingFrontierSet | UnfinishedCapture

  datatype Outcome = Fail | Match(end: nat, caps: seq<Cap>) | Raise(error: Error)

  /** A pattern ends at its first zero byte. */
  function At(pat: seq<byte>, i: nat): byte {
    if i < |pat| then pat[i] else 0
  }

  function Ch(c: char): byte
    requires c as int < 256
  {
    c as int
  }

  // Character classes.

  predicate Between(c: byte, lo: byte, hi: byte) {
    lo <= c <= hi
  }

  predicate Digit(c: byte) { Between(c, 48, 57) }
  predicate Lower(c: byte) { Between(c, 97, 122) }
  predicate Upper(c: byte) { Between(c, 65, 90) }
  predicate Alpha(c: byte) { Lower(c) || Upper(c) }
  predicate Graph(c: byte) { Between(c, 33, 126) }

  /** The class of a letter, without regard to its case; other letters stand for themselves. */
  function ClassOf(letter: byte): (r: int) {
    letter % 32
  }

  predicate HasClass(k: int) {
    k in {1, 3, 4, 7, 12, 16, 19, 21, 23, 24}
  }

  predicate InClass(c: byte, k: int) {
    match k
    case 1 => Alpha(c)
    case 3 => c < 32 || c == 127
    case 4 => Digit(c)
    case 7 => Graph(c)
    case 12 => Lower(c)
    case 16 => Graph(c) && !Alpha(c) && !Digit(c)
    case 19 => Between(c, 9, 13) || c == 32
    case 21 => Upper(c)
    case 23 => Alpha(c) || Digit(c)
    case 24 => Digit(c) || Between(c, 65, 70) || Between(c, 97, 102)
    case _ => false
  }

  /** match_class: an upper-case class letter negates; z and Z test for the zero byte. */
  function MatchClass(c: byte, cl: byte): bool {
    if 64 <= cl < 128 && HasClass(ClassOf(cl)) then InClass(c, ClassOf(cl)) == (cl / 32 % 2 == 1)
    else if cl == 122 then c == 0
    else if cl == 90 then c != 0
    else cl == c
  }

  // Items.

  /** Where the set that starts at i closes, or None. */
  datatype Option<T> = None | Some(value: T)

  function SetEnd(pat: seq<byte>, i: nat): (r: Option<nat>)
    ensures r.Some? ==> i < r.value < |pat| && pat[r.value] == Ch(']')
    decreases |pat| - i
  {
    if At(pat, i) == 0 then None
    else
      var j := if At(pat, i) == ESC && At(pat, i + 1) != 0 then i + 2 else i + 1;
      if At(pat, j) == Ch(']') then Some(j) else SetEnd(pat, j)
  }

  datatype Extent = Bad(error: Error) | Upto(end: nat)

  /** classend: the end of the single-character item at p. */
  function ClassEnd(pat: seq<byte>, p: nat): (r: Extent)
    requires p < |pat|
    ensures r.Upto? ==> p < r.end <= |pat|
  {
    if pat[p] == ESC then
      if At(pat, p + 1) == 0 then Bad(EndsInEscape) else Upto(p + 2)
    else if pat[p] == Ch('[') then
      match SetEnd(pat, if At(pat, p + 1) == Ch('^') then p + 2 else p + 1)
      case None => Bad(MissingBracket)
      case Some(j) => Upto(j + 1)
    else Upto(p + 1)
  }

  /** Some member of the set written between i and ec covers c. */
  predicate InSet(pat: seq<byte>, c: byte, i: nat, ec: nat)
    decreases ec - i
  {
    i < ec &&
    if At(pat, i) == ESC then MatchClass(c, At(pat, i + 1)) || InSet(pat, c, i + 2, ec)
    else if At(pat, i + 1) == Ch('-') && i + 2 < ec then At(pat, i) <= c <= At(pat, i + 2) || InSet(pat, c, i + 3, ec)
    else At(pat, i) == c || InSet(pat, c, i + 1, ec)
  }

  /** The set at p, which closes at ec, possibly complemented. */
  predicate MatchSet(pat: seq<byte>, c: byte, p: nat, ec: nat) {
    if At(pat, p + 1) == Ch('^') then !InSet(pat, c, p + 2, ec) else InSet(pat, c, p + 1, ec)
  }

  predicate Single(pat: seq<byte>, c: byte, p: nat, ep: nat)
    requires p < |pat| && ep > 0
  {
    if pat[p] == Ch('.') then true
    else if pat[p] == ESC then MatchClass(c, At(pat, p + 1))
    else if pat[p] == Ch('[') then MatchSet(pat, c, p, ep - 1)
    else pat[p] == c
  }

  datatype Repeat = Once | Opt | Star | Plus | Minus

  datatype Item = End | Dollar
                | Open(next: nat, what: int) | Close(next: nat)
                | Balance(x: byte, y: byte, next: nat) | Frontier(brackets: nat, next: nat) | BackRef(digit: byte,
                      next: nat)
                | Char(p: nat, ep: nat, rep: Repeat)
                | Malformed(error: Error)

  function RepeatAt(pat: seq<byte>, ep: nat): Repeat {
    var c := At(pat, ep);
    if c == Ch('?') then Opt else if c == Ch('*') then Star else if c == Ch('+') then Plus
    else if c == Ch('-') then Minus else Once
  }

  function CharItem(pat: seq<byte>, p: nat): (r: Item)
    requires p < |pat|
    ensures r.Char? ==> r.p == p && p < r.ep <= |pat| && (r.rep != Once ==> r.ep < |pat|)
    ensures r.Char? || r.Malformed?
  {
    match ClassEnd(pat, p)
    case Bad(e) => Malformed(e)
    case Upto(ep) => Char(p, ep, RepeatAt(pat, ep))
  }

  /** The item at p. */
  function ItemAt(pat: seq<byte>, p: nat): (r: Item)
    ensures r.Open? || r.Close? || r.Balance? || r.Frontier? || r.BackRef? ==> p < r.next <= |pat|
    ensures r.Frontier? ==> r.brackets < |pat|
    ensures r.Char? ==> r.p == p && p < r.ep <= |pat| && (r.rep != Once ==> r.ep < |pat|)
  {
    var c, d := At(pat, p), At(pat, p + 1);
    if c == 0 then End
    else if c == Ch('(') then if d == Ch(')') then Open(p + 2, CAP_POSITION) else Open(p + 1, CAP_UNFINISHED)
    else if c == Ch(')') then Close(p + 1)
    else if c == ESC && d == Ch('b') then
      if At(pat, p + 2) == 0 || At(pat, p + 3) == 0 then Malformed(UnbalancedArgs)
      else Balance(At(pat, p + 2), At(pat, p + 3), p + 4)
    else if c == ESC && d == Ch('f') then
      if At(pat, p + 2) != Ch('[') then Malformed(MissingFrontierSet)
      else (match ClassEnd(pat, p + 2) case Bad(e) => Malformed(e) case Upto(ep) => Frontier(p + 2, ep))
    else if c == ESC && Digit(d) then BackRef(d, p + 2)
    else if c == Ch('$') && d == 0 then Dollar
    else CharItem(pat, p)
  }

  // %b: balanced strings.

  /** Where n closing y's have been met, from i on, counting every x met before as one more to close. */
  function BalanceFrom(src: seq<byte>, i: nat, x: byte, y: byte, n: nat): (r: Option<nat>)
    requires n > 0
    ensures r.Some? ==> i < r.value <= |src|
    decreases |src| - i
  {
    if i >= |src| then None
    else if src[i] == y then if n == 1 then Some(i + 1) else BalanceFrom(src, i + 1, x, y, n - 1)
    else BalanceFrom(src, i + 1, x, y, if src[i] == x then n + 1 else n)
  }

  function BalanceEnd(src: seq<byte>, s: nat, x: byte, y: byte): (r: Option<nat>)
    ensures r.Some? ==> s < r.value <= |src|
  {
    if At(src, s) != x || x == 0 then None else BalanceFrom(src, s + 1, x, y, 1)
  }

  /** Openers minus closers in src[i..k]; a byte that is both closes. */
  function Excess(src: seq<byte>, i: nat, k: nat, x: byte, y: byte): int
    requires i <= k <= |src|
    decreases k - i
  {
    if i == k then 0 else (if src[i] == y then -1 else if src[i] == x then 1 else 0) + Excess(src, i + 1, k, x, y)
  }

  /** The end found is the first point at which everything opened is closed. */
  lemma {:induction false} BalanceMeaning(src: seq<byte>, i: nat, x: byte, y: byte, n: nat)
    requires n > 0 && i <= |src|
    ensures var r := BalanceFrom(src, i, x, y, n);
            && (r.Some? ==> n + Excess(src, i, r.value, x, y) == 0 && forall k :: i <= k < r.value ==>
                n + Excess(src, i, k, x, y) > 0)
            && (r.None? ==> forall k :: i <= k <= |src| ==> n + Excess(src, i, k, x, y) > 0)
    decreases |src| - i
  {
    if i < |src| && !(src[i] == y && n == 1) {
      var n' := if src[i] == y then n - 1 else if src[i] == x then n + 1 else n;
      BalanceMeaning(src, i + 1, x, y, n');
      var r := BalanceFrom(src, i, x, y, n);
      forall k | i <= k <= |src| && (r.Some? ==> k < r.value) ensures n + Excess(src, i, k, x, y) > 0 {
        if k > i { assert n' + Excess(src, i + 1, k, x, y) > 0; }
      }
    }
  }
}
