/** Reading a bytecode dump that arrives in chunks: the input buffer, its numbers and its blocks. */
module ChunkReader {
  import opened ByteQueue
  import Uleb

  // The input.

  /** What chunks bring: an empty one is the end. */
  ghost function Stream(chunks: seq<seq<byte>>): seq<byte> {
    if chunks == [] || chunks[0] == [] then [] else chunks[0] + Stream(chunks[1..])
  }

  lemma StreamStep(s: seq<byte>, chunks: seq<seq<byte>>)
    requires chunks != [] && chunks[0] != []
    ensures s + Stream(chunks) == (s + chunks[0]) + Stream(chunks[1..])
    ensures |s + Stream(chunks)| >= |s| + |chunks[0]|
  {
    assert s + (chunks[0] + Stream(chunks[1..])) == (s + chunks[0]) + Stream(chunks[1..]);
  }

  /** A reader function's state; the buffer it hands out may be the same one each time. */
  class Source {
    var buf: array<byte>
    var chunks: seq<seq<byte>>

    constructor (all: seq<seq<byte>>)
      ensures chunks == all && fresh(buf)
    {
      buf := new byte[0];
      chunks := all;
    }

    /** The next chunk, at pos in the buffer; whatever the buffer held is lost. */
    method Next() returns (pos: nat, sz: nat)
      modifies this, buf
      ensures buf == old(buf) || fresh(buf)
      ensures sz == if old(chunks) == [] then 0 else |old(chunks)[0]|
      ensures chunks == if old(chunks) == [] then [] else old(chunks)[1..]
      ensures sz > 0 ==> pos + sz <= buf.Length && buf[pos..pos + sz] == old(chunks)[0]
    {
      pos, sz := 0, 0;
      if chunks != [] {
        var s := chunks[0];
        chunks, sz := chunks[1..], |s|;
        if sz > buf.Length { buf := new byte[sz]; }
        forall i | 0 <= i < sz { buf[i] := s[i]; }
      }
    }
  }

  datatype Outcome = Filled | Eof | Bad | Memory

  /** Bytes from p to pe are buffered, in the reader's own chunk or, copied, at the start of sb. */
  class LexState {
    const rd: Source
    var sb: array<byte>
    var w: nat
    var inSb: bool
    var p: nat
    var pe: nat
    var c: int

    ghost predicate Valid()
      reads this, rd
    {
      sb != rd.buf && p <= pe && (p < pe ==> pe <= Cur().Length) && w <= sb.Length < 2 * HALF_RANGE &&
      (w != 0 ==> inSb && pe == w) && (inSb && w == 0 ==> p == pe)
    }

    function Cur(): array<byte>
      reads this, rd
    {
      if inSb then sb else rd.buf
    }

    ghost function Buffered(): seq<byte>
      requires Valid()
      reads this, rd, sb, rd.buf
    {
      if p < pe then Cur()[p..pe] else []
    }

    /** All that is still to be read. */
    ghost function Unread(): seq<byte>
      requires Valid()
      reads this, rd, sb, rd.buf
    {
      Buffered() + if c < 0 then [] else Stream(rd.chunks)
    }

    constructor (src: Source)
      ensures Valid() && rd == src && Unread() == Stream(src.chunks) && fresh(sb) && c >= 0
    {
      rd, sb, w, inSb, p, pe, c := src, new byte[0], 0, false, 0, 0, 27;
      new;
      assert Buffered() == [];
    }

    /** Room for sz bytes in sb; what it holds stays. */
    method NeedRoom(sz: nat)
      requires sz <= MAX_BUF && w <= sb.Length < 2 * HALF_RANGE
      modifies this`sb
      ensures w <= sb.Length && sz <= sb.Length < 2 * HALF_RANGE && (sb == old(sb) || fresh(sb))
              && sb[..w] == old(sb[..w])
    {
      if sz <= sb.Length { return; }
      EndsBelow(Least(sb.Length), sz);
      var nsz := GrownSize(sb.Length, sz);
      var n := new byte[nsz];
      forall i | 0 <= i < sb.Length { n[i] := sb[i]; }
      assert n[..w] == sb[..w];
      sb := n;
    }

    /** Moves what is buffered to the start of sb, where more can follow it. */
    method Keep(len: nat)
      requires Valid() && pe - p < len <= MAX_BUF
      modifies this, sb
      ensures Valid() && (sb == old(sb) || fresh(sb)) && c == old(c) && Buffered() == old(Buffered())
      ensures w == old(pe - p) == pe - p && (w != 0 ==> p == 0)
    {
      var n := pe - p;
      if n != 0 {
        ghost var s := Buffered();
        if w != 0 {
          forall i | 0 <= i < n { sb[i] := sb[p + i]; }
        } else {
          NeedRoom(len);
          forall i | 0 <= i < n { sb[i] := rd.buf[p + i]; }
        }
        assert sb[0..n] == s;
        inSb, p, pe := true, 0, n;
      }
      w := n;
    }

    /** Appends a chunk at pos in the reader's buffer to the n bytes in sb. */
    method Append(n: nat, pos: nat, sz: nat, len: nat)
      requires w == n <= sb.Length < 2 * HALF_RANGE && sb != rd.buf && len <= MAX_BUF && n + sz < MAX_BUF
               && pos + sz <= rd.buf.Length
      modifies this`sb, sb
      ensures n + sz <= sb.Length < 2 * HALF_RANGE && (sb == old(sb) || fresh(sb))
      ensures sb[..n + sz] == old(sb[..n]) + old(rd.buf[pos..pos + sz])
    {
      ghost var s, t := sb[..n], rd.buf[pos..pos + sz];
      NeedRoom(if n + sz < len then len else n + sz);
      forall i | 0 <= i < sz { sb[n + i] := rd.buf[pos + i]; }
      assert sb[..n] == s && sb[n..n + sz] == t;
    }

    /** Appends the chunk to what was kept, or hands it out as it is. */
    method Take(pos: nat, sz: nat, len: nat)
      requires Valid() && w == pe - p && (w != 0 ==> p == 0) && len <= MAX_BUF
      requires 0 < sz && w + sz < MAX_BUF && pos + sz <= rd.buf.Length
      modifies this, sb
      ensures Valid() && (sb == old(sb) || fresh(sb)) && c == old(c)
              && Buffered() == old(Buffered()) + old(rd.buf[pos..pos + sz])
    {
      if w != 0 {
        Append(w, pos, sz, len);
        p, pe, w := 0, w + sz, w + sz;
        assert Cur()[p..pe] == sb[..pe];
      } else {
        inSb, p, pe := false, pos, pos + sz;
      }
    }

    /** Keeps what is buffered and asks the reader for more. */
    method Ask(len: nat) returns (pos: nat, sz: nat)
      requires Valid() && pe - p < len <= MAX_BUF
      modifies this, sb, rd, rd.buf
      ensures Valid() && (sb == old(sb) || fresh(sb)) && (rd.buf == old(rd.buf) || fresh(rd.buf))
      ensures Buffered() == old(Buffered()) && c == old(c) && w == pe - p && (w != 0 ==> p == 0)
      ensures rd.chunks == if old(rd.chunks) == [] then [] else old(rd.chunks)[1..]
      ensures sz == if old(rd.chunks) == [] then 0 else |old(rd.chunks)[0]|
      ensures sz > 0 ==> pos + sz <= rd.buf.Length && rd.buf[pos..pos + sz] == old(rd.chunks)[0]
    {
      Keep(len);
      ghost var s := Buffered();
      pos, sz := rd.Next();
      assert Valid() && Buffered() == s;
    }

    /** One more chunk. */
    method Refill(len: nat, need: bool) returns (r: Outcome)
      requires Valid() && pe - p < len <= MAX_BUF && c >= 0
      modifies this, sb, rd, rd.buf
      ensures Valid() && (sb == old(sb) || fresh(sb)) && (rd.buf == old(rd.buf) || fresh(rd.buf))
      ensures r.Filled? || r.Eof? ==> Unread() == old(Unread())
      ensures !r.Eof? ==> c == old(c)
      ensures r.Filled? ==> |rd.chunks| < old(|rd.chunks|)
      ensures r.Eof? ==> !need && c == -1 && pe - p < len
      ensures r.Bad? ==> need && old(|Unread()|) < len
      ensures r.Memory? ==> old(|Unread()|) >= MAX_BUF
    {
      ghost var s, was := Buffered(), rd.chunks;
      var pos, sz := Ask(len);
      if sz == 0 {
        if need { return Bad; }
        c := -1;
        return Eof;
      }
      StreamStep(s, was);
      hide Stream;
      if sz >= MAX_BUF - w { return Memory; }
      Take(pos, sz, len);
      r := Filled;
    }

    /**
     * Refills until len bytes are buffered. Nothing that was to be read is lost or moved, however it is cut into
     * chunks, and the outcome is told by the number of bytes alone.
     */
    method Fill(len: nat, need: bool) returns (r: Outcome)
      requires Valid() && pe - p < len
      modifies this, sb, rd, rd.buf
      ensures Valid() && (sb == old(sb) || fresh(sb)) && (rd.buf == old(rd.buf) || fresh(rd.buf))
      ensures r.Filled? || r.Eof? ==> Unread() == old(Unread())
      ensures !r.Eof? ==> c == old(c)
      ensures r.Filled? ==> pe - p >= len
      ensures r.Eof? ==> !need && c == -1 && pe - p < len
      ensures len > MAX_BUF || old(c) < 0 ==> r.Bad?
      ensures r.Bad? && len <= MAX_BUF && old(c) >= 0 ==> need && old(|Unread()|) < len
      ensures r.Memory? ==> old(|Unread()|) >= MAX_BUF
    {
      if len > MAX_BUF || c < 0 { return Bad; }
      r := Refill(len, need);
      while r.Filled? && pe - p < len
        invariant Valid() && (sb == old(sb) || fresh(sb)) && (rd.buf == old(rd.buf) || fresh(rd.buf))
        invariant r.Filled? || r.Eof? ==> Unread() == old(Unread())
        invariant !r.Eof? ==> c == old(c)
        invariant r.Eof? ==> !need && c == -1 && pe - p < len
        invariant r.Bad? ==> need && old(|Unread()|) < len
        invariant r.Memory? ==> old(|Unread()|) >= MAX_BUF
        decreases r.Filled?, |rd.chunks|
      {
        r := Refill(len, need);
      }
    }

    /** Makes len bytes available, or as many as there are if fewer will do. */
    method Demand(len: nat, need: bool) returns (r: Outcome)
      requires Valid()
      modifies this, sb, rd, rd.buf
      ensures Valid() && (sb == old(sb) || fresh(sb)) && (rd.buf == old(rd.buf) || fresh(rd.buf))
      ensures r.Filled? || r.Eof? ==> Unread() == old(Unread())
      ensures !r.Eof? ==> c == old(c)
      ensures r.Filled? ==> pe - p >= len
      ensures r.Eof? ==> !need && Unread() == Buffered() && pe - p < len
      ensures r.Bad? && len <= MAX_BUF ==> old(|Unread()|) < len && (need || old(c) < 0)
      ensures r.Memory? ==> old(|Unread()|) >= MAX_BUF
    {
      r := Filled;
      if pe - p < len { r := Fill(len, need); }
    }

    /** The next len bytes. */
    method Mem(len: nat) returns (s: seq<byte>)
      requires Valid() && len <= pe - p
      modifies this
      ensures Valid() && sb == old(sb) && c == old(c) && s == old(Buffered())[..len]
              && Buffered() == old(Buffered())[len..]
    {
      s := if len == 0 then [] else Cur()[p..p + len];
      p := p + len;
    }

    /** A number's bytes from i on, after v was made of those before. */
    method Scan(i: nat, v: nat, unit: nat) returns (u: nat, j: nat)
      requires Valid() && p <= i < pe && Uleb.Ends(Cur()[i..pe])
      ensures i < j <= pe && (u, Cur()[j..pe]) == Uleb.Tail(Cur()[i..pe], v, unit)
    {
      u, j := v, i;
      var k := unit;
      ghost var goal := Uleb.Tail(Cur()[i..pe], v, unit);
      while Cur()[j] >= 0x80
        invariant i <= j < pe && Uleb.Ends(Cur()[j..pe]) && Uleb.Tail(Cur()[j..pe], u, k) == goal
        decreases pe - j
      {
        assert Cur()[j..pe][1..] == Cur()[j + 1..pe];
        u, j, k := (u + Cur()[j] % 0x80 * k) % Uleb.WORD, j + 1, 0x80 * k;
      }
      assert Cur()[j..pe][1..] == Cur()[j + 1..pe];
      u, j := (u + Cur()[j] % 0x80 * k) % Uleb.WORD, j + 1;
    }

    method Number() returns (v: nat)
      requires Valid() && Uleb.Ends(Buffered())
      modifies this
      ensures Valid() && sb == old(sb) && c == old(c) && (v, Buffered()) == Uleb.Read32(old(Buffered()))
    {
      var b, j := Cur()[p], p + 1;
      v := b;
      ghost var s := Buffered();
      assert s[1..] == Cur()[p + 1..pe];
      if b >= 0x80 { v, j := Scan(p + 1, b % 0x80, 0x80); }
      p := j;
      assert Buffered() == Cur()[j..pe];
    }

    /** The upper 32 of 33 bits. */
    method Number33() returns (v: nat)
      requires Valid() && Uleb.Ends(Buffered())
      modifies this
      ensures Valid() && sb == old(sb) && c == old(c) && (v, Buffered()) == Uleb.Read33(old(Buffered()))
    {
      var b, j := Cur()[p], p + 1;
      v := b / 2;
      ghost var s := Buffered();
      assert s[1..] == Cur()[p + 1..pe];
      if v >= 0x40 { v, j := Scan(p + 1, b / 2 % 0x40, 0x40); }
      p := j;
      assert Buffered() == Cur()[j..pe];
    }

    /** A number that is next in the input. */
    method Length(ghost x: nat, ghost rest: seq<byte>) returns (r: Outcome, v: nat)
      requires Valid() && c >= 0 && x < Uleb.WORD && Unread() == Uleb.Enc(x) + rest
      modifies this, sb, rd, rd.buf
      ensures Valid() && (sb == old(sb) || fresh(sb)) && (rd.buf == old(rd.buf) || fresh(rd.buf))
      ensures r.Memory? ==> old(|Unread()|) >= MAX_BUF
      ensures !r.Memory? ==> r.Filled? && v == x && Unread() == rest
      ensures c < 0 ==> old(|Unread()|) < 5
    {
      ghost var all := Unread();
      v := 0;
      r := Demand(5, false);
      if r.Memory? { return; }
      ghost var s, t := Buffered(), if c < 0 then [] else Stream(rd.chunks);
      ghost var mid := Within(x, rest, s, t);
      Uleb.RoundTrip32(x, mid);
      v := Number();
      r := Filled;
    }

    /** A block of len bytes that is next in the input. */
    method Block(len: nat, ghost b: seq<byte>, ghost rest: seq<byte>) returns (r: Outcome, s: seq<byte>)
      requires Valid() && Unread() == b + rest && |b| == len
      modifies this, sb, rd, rd.buf
      ensures Valid() && (sb == old(sb) || fresh(sb)) && (rd.buf == old(rd.buf) || fresh(rd.buf))
      ensures !r.Filled? ==> old(|Unread()|) >= MAX_BUF
      ensures r.Filled? ==> s == b && Unread() == rest && c == old(c)
    {
      r := Demand(len, true);
      s := [];
      if !r.Filled? { return; }
      ghost var a, t := Buffered(), if c < 0 then [] else Stream(rd.chunks);
      Cut(a, t, b, rest);
      s := Mem(len);
    }

    /** The block of a dump that is next in the input, unless its end is. */
    method Next(ghost left: seq<seq<byte>>, ghost rest: seq<byte>) returns (r: Outcome, end: bool, s: seq<byte>)
      requires Valid() && Blocks(left) && Unread() == Dump(left) + rest && (c < 0 ==> left == [])
      modifies this, sb, rd, rd.buf
      ensures Valid() && (sb == old(sb) || fresh(sb)) && (rd.buf == old(rd.buf) || fresh(rd.buf))
      ensures !r.Filled? ==> old(|Unread()|) >= MAX_BUF
      ensures r.Filled? && left == [] ==> end && Unread() == rest
      ensures r.Filled? && left != [] ==>
        !end && s == left[0] && Unread() == Dump(left[1..]) + rest && (c < 0 ==> left[1..] == [])
    {
      r, end, s := Filled, true, [];
      DumpStep(left, rest);
      if p < pe && Cur()[p] == 0 {
        assert Unread()[0] == 0;
        Cut(Buffered(), if c < 0 then [] else Stream(rd.chunks), [0], rest);
        s := Mem(1);
        return;
      }
      ghost var b, after := if left == [] then [] else left[0], if left == [] then rest else Dump(left[1..]) + rest;
      var len;
      r, len := Length(|b|, b + after);
      if r.Memory? || len == 0 { return; }
      end := false;
      r, s := Block(len, b, after);
    }

    /** Reads all blocks of a dump, whatever the chunks it comes in; nothing but its size can prevent that. */
    method ReadDump(ghost blocks: seq<seq<byte>>, ghost rest: seq<byte>) returns (r: Outcome, out: seq<seq<byte>>)
      requires Valid() && c >= 0 && Blocks(blocks) && Unread() == Dump(blocks) + rest
      modifies this, sb, rd, rd.buf
      ensures Valid()
      ensures r.Filled? ==> out == blocks && Unread() == rest
      ensures !r.Filled? ==> old(|Unread()|) >= MAX_BUF
    {
      out, r := [], Filled;
      ghost var left := blocks;
      while true
        invariant Valid() && (sb == old(sb) || fresh(sb)) && (rd.buf == old(rd.buf) || fresh(rd.buf))
        invariant Blocks(left) && out + left == blocks && Unread() == Dump(left) + rest && (c < 0 ==> left == [])
        invariant |Unread()| <= old(|Unread()|)
        decreases |left|
      {
        DumpStep(left, rest);
        hide Blocks, Dump, Stream;
        var end, s;
        r, end, s := Next(left, rest);
        if !r.Filled? || end { return; }
        out, left := out + [s], left[1..];
      }
    }
  }

  /** A number within the first bytes is within what is buffered. */
  ghost function Within(x: nat, rest: seq<byte>, s: seq<byte>, t: seq<byte>): (mid: seq<byte>)
    requires x < Uleb.WORD && s + t == Uleb.Enc(x) + rest && (|s| >= 5 || t == [])
    ensures s == Uleb.Enc(x) + mid && mid + t == rest
  {
    assert Uleb.Power(5) >= Uleb.WORD;
    Uleb.EncLength(x, 5);
    Cut(s, t, Uleb.Enc(x), rest);
    s[|Uleb.Enc(x)|..]
  }

  lemma Cut(s: seq<byte>, t: seq<byte>, b: seq<byte>, rest: seq<byte>)
    requires s + t == b + rest && |b| <= |s|
    ensures s == b + s[|b|..] && s[..|b|] == b && s[|b|..] + t == rest
  {
    assert (s + t)[..|b|] == b && (s + t)[|b|..] == rest;
  }

  // Dumps.

  predicate Blocks(blocks: seq<seq<byte>>) {
    forall b {:trigger b in blocks} :: b in blocks ==> 0 < |b| < Uleb.WORD
  }

  /** Every block after its length, and a length of zero at the end. */
  function Dump(blocks: seq<seq<byte>>): seq<byte> {
    if blocks == [] then [0] else Uleb.Enc(|blocks[0]|) + blocks[0] + Dump(blocks[1..])
  }

  lemma DumpStep(left: seq<seq<byte>>, rest: seq<byte>)
    requires Blocks(left)
    ensures left == [] ==> Dump(left) + rest == Uleb.Enc(0) + ([] + rest) == [0] + rest
    ensures left != [] ==> Dump(left) + rest == Uleb.Enc(|left[0]|) + (left[0] + (Dump(left[1..]) + rest))
    ensures left != [] ==> (Dump(left) + rest)[0] != 0 && Blocks(left[1..]) && 0 < |left[0]| < Uleb.WORD
    ensures |left| > 1 ==> |Dump(left)| >= 5
    ensures left != [] ==> |Dump(left)| >= |Dump(left[1..])|
  {
    if left != [] {
      assert left[0] in left && forall b {:trigger b in left[1..]} :: b in left[1..] ==> b in left;
      Regroup(Uleb.Enc(|left[0]|), left[0], Dump(left[1..]), rest);
      if |left| > 1 {
        assert left[1] in left;
        assert Dump(left[1..]) == Uleb.Enc(|left[1]|) + left[1] + Dump(left[1..][1..]);
        Ended(left[1..][1..]);
        hide Dump, Uleb.Enc;
      }
    }
  }

  lemma Regroup(a: seq<byte>, b: seq<byte>, d: seq<byte>, rest: seq<byte>)
    ensures a + b + d + rest == a + (b + (d + rest))
  {
  }

  lemma Ended(blocks: seq<seq<byte>>)
    ensures |Dump(blocks)| >= 1
  {
  }
}
