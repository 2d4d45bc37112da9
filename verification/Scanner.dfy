/** The scanner: a DFA run over a buffer that shifts and doubles while a match is in progress
    (src/lexer/matcher.c, include/lexer/matcher_fsm.h, include/lexer/matcher_priv.h). */
module Scanners {
  import opened Munches

  const BLOCK := 262144
  const EOF := -1

  /** A source of bytes that hands out chunks of any size it likes. */
  class Input {
    var rest: seq<Byte>

    constructor (bytes: seq<Byte>)
      ensures rest == bytes
    {
      rest := bytes;
    }

    /** Between one and n bytes, none only at the end. */
    method Get(n: nat) returns (chunk: seq<Byte>)
      requires n > 0
      modifies this
      ensures |chunk| <= n && old(rest) == chunk + rest
      ensures chunk == [] ==> rest == []
    {
      var k: nat := 0;
      if rest != [] {
        k :| 1 <= k <= n && k <= |rest|;
      }
      chunk := rest[..k];
      rest := rest[k..];
    }
  }

  /** The bytes of the stream held by the buffer: num of them were shifted out before. */
  ghost predicate Holds(bytes: seq<Byte>, stream: seq<Byte>, num: nat, rest: seq<Byte>) {
    && num + |bytes| <= |stream|
    && bytes == stream[num..num + |bytes|]
    && rest == stream[num + |bytes|..]
  }

  lemma HoldsAt(bytes: seq<Byte>, stream: seq<Byte>, num: nat, rest: seq<Byte>, k: nat)
    requires Holds(bytes, stream, num, rest) && k < |bytes|
    ensures num + k < |stream| && bytes[k] == stream[num + k]
  {
  }

  lemma HoldsSlice(bytes: seq<Byte>, stream: seq<Byte>, num: nat, rest: seq<Byte>, i: nat, j: nat)
    requires Holds(bytes, stream, num, rest) && i <= j <= |bytes|
    ensures num + j <= |stream| && bytes[i..j] == stream[num + i..num + j]
  {
    forall k | 0 <= k < j - i
      ensures bytes[i..j][k] == stream[num + i..num + j][k]
    {
      HoldsAt(bytes, stream, num, rest, i + k);
    }
  }

  lemma HoldsMore(bytes: seq<Byte>, stream: seq<Byte>, num: nat, rest: seq<Byte>, chunk: seq<Byte>, rest': seq<Byte>)
    requires Holds(bytes, stream, num, rest) && rest == chunk + rest'
    ensures Holds(bytes + chunk, stream, num, rest')
  {
    var n := num + |bytes|;
    assert stream[n..][..|chunk|] == chunk;
    assert stream[num..n + |chunk|] == stream[num..n] + stream[n..n + |chunk|];
    assert stream[n..][|chunk|..] == stream[n + |chunk|..];
  }

  lemma HoldsShifted(bytes: seq<Byte>, stream: seq<Byte>, num: nat, rest: seq<Byte>, gap: nat)
    requires Holds(bytes, stream, num, rest) && gap <= |bytes|
    ensures Holds(bytes[gap..], stream, num + gap, rest)
  {
  }

  class Matcher {
    const input: Input
    const tab: nat
    ghost const stream: seq<Byte>

    var buf: array<Byte>
    /** Where the text of the last match starts, and its length. */
    var txt: nat
    var len: nat
    var cap: nat
    /** Where the next match starts, the next byte to read, and the end of what was read. */
    var cur: nat
    var pos: nat
    var end: nat
    /** How far lines and columns have been counted. */
    var lpb: nat
    var lno: nat
    var cno: nat
    /** How many bytes were shifted out. */
    var num: nat
    var eof: bool

    ghost predicate Valid()
      reads this, buf, input
    {
      && PowerOfTwo(tab)
      && lpb <= txt <= cur <= pos <= end < buf.Length
      && Holds(buf[..end], stream, num, input.rest)
      && (eof ==> input.rest == [])
      && PlaceAfter(stream[..num + lpb], tab) == Place(lno, cno)
    }

    /** The place in the stream where the next match starts. */
    ghost function Position(): nat
      reads this
    {
      num + cur
    }

    /** Nothing has been read beyond the start of the next match, or it will be read again. */
    ghost predicate Ready()
      reads this, buf, input
    {
      Valid() && pos == cur
    }

    /** The text of the last match. */
    function Text(): (text: seq<Byte>)
      requires txt + len <= buf.Length
      reads this, buf
      ensures |text| == len
    {
      buf[txt..txt + len]
    }

    constructor (input: Input, tab: nat)
      requires PowerOfTwo(tab)
      ensures this.input == input && this.tab == tab && stream == input.rest
      ensures Ready() && Position() == 0 && fresh(buf)
    {
      this.input, this.tab, this.stream := input, tab, input.rest;
      buf := new Byte[2 * BLOCK];
      txt, len, cap, cur, pos, end := 0, 0, 0, 0, 0, 0;
      lpb, lno, cno, num, eof := 0, 1, 0, 0, false;
    }

    /** Count on from the last place counted to the start of the text. */
    method CountOn() returns (place: Place)
      requires Valid()
      ensures num + txt <= |stream| && place == PlaceAfter(stream[..num + txt], tab)
    {
      InStream();
      hide PlaceAfter, Moved, PowerOfTwo, Holds;
      place := Place(lno, cno);
      for s := lpb to txt
        invariant place == PlaceAfter(stream[..num + s], tab)
      {
        HoldsAt(buf[..end], stream, num, input.rest, s);
        PlaceStep(stream, num + s, tab);
        place := Moved(place, buf[s], tab);
      }
    }

    method LineNo() returns (n: nat)
      requires Valid()
      modifies `lpb, `lno, `cno
      ensures Valid() && lpb == txt
      ensures Place(lno, cno) == PlaceAfter(stream[..num + txt], tab)
      ensures n == PlaceAfter(stream[..num + txt], tab).line && IsLine(stream[..num + txt], n)
    {
      InStream();
      hide PlaceAfter, PowerOfTwo, Holds, IsLine, IsColumn;
      var place := CountOn();
      PlaceMeans(stream[..num + txt], tab);
      lpb, lno, cno := txt, place.line, place.column;
      n := lno;
    }

    method ColumnNo() returns (k: nat)
      requires Valid()
      modifies `lpb, `lno, `cno
      ensures Valid() && lpb == txt
      ensures k == PlaceAfter(stream[..num + txt], tab).column && IsColumn(stream[..num + txt], tab, k)
    {
      InStream();
      hide PlaceAfter, PowerOfTwo, Holds, IsLine, IsColumn;
      var _ := LineNo();
      PlaceMeans(stream[..num + txt], tab);
      k := cno;
    }

    /** Make room for at least need bytes: shift the text to the front of the buffer, or double the
        buffer until it fits. */
    method Grow(need: nat) returns (grown: bool)
      requires Valid() && need > 0
      modifies `buf, `txt, `cur, `pos, `end, `lpb, `lno, `cno, `num, buf
      ensures Valid() && (buf == old(buf) || fresh(buf))
      ensures num + txt == old(num + txt) && num + cur == old(num + cur) && num + pos == old(num + pos) && num + end == old(num + end)
      ensures buf.Length - end >= need
      ensures grown <==> old(buf.Length - end) < need + 1
      ensures if grown then txt == 0 else txt == old(txt) && buf == old(buf)
      ensures old(buf.Length - end + txt) >= need ==> buf == old(buf)
      ensures buf == old(buf) || old(buf.Length) < buf.Length < 2 * (end + need)
    {
      hide PlaceAfter, PowerOfTwo, Holds;
      if buf.Length - end >= need + 1 { return false; }
      var gap := txt;
      if buf.Length - end + gap >= need {
        var _ := LineNo();
        ShiftOut();
      } else {
        var max := Doubled(buf.Length, end - gap + need);
        var _ := LineNo();
        ShiftOut();
        Reallocate(max);
      }
      grown := true;
    }

    /** Move the bytes from the text on to the front of the buffer. */
    method ShiftOut()
      requires Valid() && lpb == txt
      modifies `txt, `cur, `pos, `end, `lpb, `num, buf
      ensures Valid() && txt == 0
      ensures num == old(num + txt) && num + cur == old(num + cur) && num + pos == old(num + pos) && num + end == old(num + end)
    {
      hide PlaceAfter, PowerOfTwo, Holds;
      var gap := txt;
      HoldsShifted(buf[..end], stream, num, input.rest, gap);
      assert buf[..end][gap..] == buf[gap..end];
      cur, pos, end, num := cur - gap, pos - gap, end - gap, num + gap;
      MoveToFront(gap, end);
      txt, lpb := 0, 0;
    }

    method MoveToFront(gap: nat, n: nat)
      requires gap + n <= buf.Length
      modifies buf
      ensures buf[..n] == old(buf[gap..gap + n])
    {
      forall i | 0 <= i < n {
        buf[i] := buf[gap + i];
      }
    }

    method Reallocate(max: nat)
      requires Valid() && max >= buf.Length
      modifies `buf
      ensures Valid() && fresh(buf) && buf.Length == max
    {
      hide PlaceAfter, PowerOfTwo, Holds;
      var more := new Byte[max];
      forall i | 0 <= i < buf.Length {
        more[i] := buf[i];
      }
      assert more[..end] == buf[..end];
      buf := more;
      assert buf[..end] == old(buf[..end]);
    }

    /** Read more bytes behind the end of the buffer; the end of the input is remembered. */
    method Fill()
      requires Valid() && pos == end && !eof
      modifies `buf, `txt, `cur, `pos, `end, `lpb, `lno, `cno, `num, `eof, buf, input
      ensures Valid() && (buf == old(buf) || fresh(buf))
      ensures num + txt == old(num + txt) && num + cur == old(num + cur) && num + pos == old(num + pos)
      ensures eof <==> pos == end
    {
      hide PlaceAfter, PowerOfTwo, Holds;
      if end + 1 >= buf.Length {
        var _ := Grow(BLOCK);
      }
      Read();
    }

    /** One call of the input, for as much as the buffer has room for. */
    method Read()
      requires Valid() && pos == end && !eof && end + 1 < buf.Length
      modifies `end, `eof, buf, input
      ensures Valid() && (eof <==> pos == end)
    {
      hide PlaceAfter, PowerOfTwo, Holds;
      ghost var rest, bytes := input.rest, buf[..end];
      var chunk := input.Get(buf.Length - end - 1);
      Store(chunk);
      HoldsMore(bytes, stream, num, rest, chunk, input.rest);
      end := end + |chunk|;
      eof := pos >= end;
    }

    /** Write a chunk behind the end. */
    method Store(chunk: seq<Byte>)
      requires end + |chunk| <= buf.Length
      modifies buf
      ensures buf[..end + |chunk|] == old(buf[..end]) + chunk
    {
      forall i | 0 <= i < |chunk| {
        buf[end + i] := chunk[i];
      }
    }

    method GetMore() returns (c: int)
      requires Valid() && pos == end
      modifies `buf, `txt, `cur, `pos, `end, `lpb, `lno, `cno, `num, `eof, buf, input
      ensures Valid() && (buf == old(buf) || fresh(buf))
      ensures num + txt == old(num + txt) && num + cur == old(num + cur)
      ensures Got(c, old(num + pos), num + pos)
    {
      if eof { return EOF; }
      Fill();
      if pos < end {
        HoldsAt(buf[..end], stream, num, input.rest, pos);
        c := buf[pos];
        pos := pos + 1;
      } else {
        c := EOF;
      }
    }

    /** Reading at a place of the stream yields its byte and moves on, or EOF at the end. */
    ghost predicate Got(c: int, at: nat, next: nat) {
      if at < |stream| then c == stream[at] && next == at + 1 else c == -1 && next == at == |stream|
    }

    method Get() returns (c: int)
      requires Valid()
      modifies `buf, `txt, `cur, `pos, `end, `lpb, `lno, `cno, `num, `eof, buf, input
      ensures Valid() && (buf == old(buf) || fresh(buf))
      ensures num + txt == old(num + txt) && num + cur == old(num + cur)
      ensures Got(c, old(num + pos), num + pos)
    {
      if pos < end {
        HoldsAt(buf[..end], stream, num, input.rest, pos);
        c := buf[pos];
        pos := pos + 1;
      } else {
        c := GetMore();
      }
    }

    method PeekMore() returns (c: int)
      requires Valid() && pos == end
      modifies `buf, `txt, `cur, `pos, `end, `lpb, `lno, `cno, `num, `eof, buf, input
      ensures Valid() && (buf == old(buf) || fresh(buf))
      ensures num + txt == old(num + txt) && num + cur == old(num + cur) && num + pos == old(num + pos)
      ensures c == if num + pos < |stream| then stream[num + pos] as int else -1
    {
      if eof { return EOF; }
      Fill();
      if pos < end {
        HoldsAt(buf[..end], stream, num, input.rest, pos);
        c := buf[pos];
      } else {
        c := EOF;
      }
    }

    method AtEnd() returns (b: bool)
      requires Valid()
      modifies `buf, `txt, `cur, `pos, `end, `lpb, `lno, `cno, `num, `eof, buf, input
      ensures Valid() && (buf == old(buf) || fresh(buf))
      ensures num + txt == old(num + txt) && num + cur == old(num + cur) && num + pos == old(num + pos)
      ensures b <==> num + pos == |stream|
    {
      if pos < end {
        b := false;
      } else if eof {
        b := true;
      } else {
        var c := PeekMore();
        b := c == EOF;
      }
    }

    /** On entering a state: the start state moves an empty match along, an accepting one takes its rule. */
    method Enter(d: Dfa, s: nat, ghost w: seq<Byte>, ghost m: nat)
      requires WellFormed(d) && s < |d| && m <= |w| && Reach(d, w[..m]) == s
      requires txt <= cur <= pos == txt + m && BestBelow(d, w, cap, cur - txt, m)
      modifies `cap, `cur
      ensures txt <= cur <= pos && BestBelow(d, w, cap, cur - txt, m + 1)
    {
      hide BestBelow, Reach;
      if s == 0 && cap == 0 {
        BestNone(d, w, cur - txt, pos - txt, m);
        cur := pos;
      }
      BestTake(d, w, cap, cur - txt, m, s);
      if d[s].accept > 0 {
        cap, cur := d[s].accept, pos;
      }
    }

    /** The generated function of an automaton: each state takes its rule, reads a byte and follows
        its edge, until there is none. */
    method RunFsm(d: Dfa, ghost w: seq<Byte>)
      requires Ready() && WellFormed(d) && cap == 0 && txt == cur && Ahead(w, num + txt)
      modifies `buf, `txt, `cur, `pos, `end, `lpb, `lno, `cno, `num, `eof, `cap, buf, input
      ensures Valid() && (buf == old(buf) || fresh(buf)) && num + txt == old(num + txt)
      ensures BestBelow(d, w, cap, cur - txt, |w| + 1)
    {
      hide BestBelow, Reach, Holds, PlaceAfter, PowerOfTwo, WellFormed, Ahead;
      ghost var start, m := num + txt, 0;
      BestStart(d, w);
      var s: nat := 0;
      while true
        invariant Valid() && (buf == old(buf) || fresh(buf)) && num + txt == start && num + pos == start + m && m <= |w|
        invariant s < |d| && Reach(d, w[..m]) == s
        invariant BestBelow(d, w, cap, cur - txt, m)
        decreases |w| - m
      {
        Enter(d, s, w, m);
        NextState(d, w, m, s, cap, cur - txt);
        if d[s].moves == map[] { return; }
        var c := Get();
        GotAhead(w, start, m, c, num + pos);
        if c == EOF || c as Byte !in d[s].moves { return; }
        s, m := d[s].moves[c as Byte], m + 1;
      }
    }

    /** What the stream holds from a place on. */
    ghost predicate Ahead(w: seq<Byte>, at: nat) {
      at <= |stream| && w == stream[at..]
    }

    lemma GotAhead(w: seq<Byte>, at: nat, m: nat, c: int, next: nat)
      requires Ahead(w, at) && m <= |w| && Got(c, at + m, next)
      ensures if m < |w| then c == w[m] && next == at + m + 1 else c == EOF && next == at + m
    {
    }

    /** Match the longest non-empty text an automaton accepts at the current position, and move
        behind it; return its rule, or 0 without moving. */
    method Scan(d: Dfa) returns (rule: nat)
      requires Ready() && WellFormed(d)
      modifies `buf, `txt, `len, `cur, `pos, `end, `lpb, `lno, `cno, `num, `eof, `cap, buf, input
      ensures Ready() && (buf == old(buf) || fresh(buf))
      ensures rule == cap && IsLongest(d, stream[old(Position())..], rule, len) && (rule == 0 <==> len == 0)
      ensures num + txt == old(Position()) && Position() == old(Position()) + len <= |stream|
      ensures txt + len <= end && Text() == stream[old(Position())..old(Position()) + len]
    {
      hide BestBelow, IsLongest, Holds, PlaceAfter, PowerOfTwo, WellFormed, Ahead;
      ghost var w := Begin();
      RunFsm(d, w);
      BestIsLongest(d, w, cap, cur - txt);
      rule := Settle();
      TextHeld();
    }

    /** Start an empty text at the current position. */
    method Begin() returns (ghost w: seq<Byte>)
      requires Ready()
      modifies `len, `txt, `cap
      ensures Ready() && len == cap == 0 && txt == cur
      ensures Position() <= |stream| && w == stream[Position()..] && Ahead(w, num + txt)
    {
      InStream();
      hide Holds, PlaceAfter, PowerOfTwo;
      len := 0;
      txt := cur;
      cap := 0;
      w := stream[num + cur..];
    }

    /** Without a match, back up to the start of the text, looking for the end of the input; then
        continue from the end of the match. */
    method Settle() returns (rule: nat)
      requires Valid()
      modifies `buf, `txt, `len, `cur, `pos, `end, `lpb, `lno, `cno, `num, `eof, `cap, buf, input
      ensures Ready() && (buf == old(buf) || fresh(buf)) && num + txt == old(num + txt)
      ensures cur == txt + len && len == if old(cap) == 0 then 0 else old(cur - txt)
      ensures rule == cap == (if len == 0 then 0 else old(cap)) && (rule == 0 <==> len == 0)
    {
      hide Holds, PlaceAfter, PowerOfTwo;
      if cap == 0 {
        cur := txt;
      }
      len := cur - txt;
      pos := cur;
      if len == 0 {
        var _ := AtEnd();
        cap := 0;
      }
      rule := cap;
    }

    lemma InStream()
      requires Valid()
      ensures tab > 0 && num + cur <= num + end <= |stream|
    {
    }

    lemma TextHeld()
      requires Valid() && txt + len <= end
      ensures num + txt + len <= |stream|
      ensures Text() == stream[num + txt..num + txt + len]
    {
      HoldsSlice(buf[..end], stream, num, input.rest, txt, txt + len);
      assert Text() == buf[..end][txt..txt + len];
    }

    /** Scan again and again, each time with the automaton of the lexing state, until one matches
        nothing: the texts follow one another in the stream, and each is the longest at its place. */
    method ScanEach(ds: seq<Dfa>) returns (matches: seq<Match>)
      requires Ready() && forall i | 0 <= i < |ds| :: WellFormed(ds[i])
      modifies `buf, `txt, `len, `cur, `pos, `end, `lpb, `lno, `cno, `num, `eof, `cap, buf, input
      ensures Ready() && old(Position()) <= Position() <= |stream| && |matches| <= |ds|
      ensures Consecutive(ds, stream[old(Position())..], matches)
      ensures Texts(matches) == stream[old(Position())..Position()]
      ensures |matches| < |ds| ==> IsLongest(ds[|matches|], stream[Position()..], 0, 0)
    {
      hide IsLongest, Holds, PlaceAfter, PowerOfTwo, WellFormed, Consecutive, Texts, Text;
      InStream();
      ghost var start := Position();
      MatchNone(ds, stream, start);
      matches := [];
      while |matches| < |ds|
        invariant Ready() && (buf == old(buf) || fresh(buf)) && start <= Position() <= |stream| && |matches| <= |ds|
        invariant Consecutive(ds, stream[start..], matches) && Texts(matches) == stream[start..Position()]
        decreases |ds| - |matches|
      {
        ghost var at := Position();
        var rule := Scan(ds[|matches|]);
        if rule == 0 { return; }
        MatchAppend(ds, stream, start, at, matches, Match(rule, Text()));
        matches := matches + [Match(rule, Text())];
      }
    }
  }

  datatype Match = Match(rule: nat, text: seq<Byte>)

  ghost function Texts(matches: seq<Match>): seq<Byte> {
    if matches == [] then [] else Texts(matches[..|matches| - 1]) + matches[|matches| - 1].text
  }

  /** Each match is the longest its automaton accepts where the previous one ended. */
  ghost predicate Consecutive(ds: seq<Dfa>, w: seq<Byte>, matches: seq<Match>)
    requires |matches| <= |ds| && forall i | 0 <= i < |ds| :: WellFormed(ds[i])
  {
    if matches == [] then true
    else
      var n := |matches| - 1;
      var before, m := Texts(matches[..n]), matches[n];
      && Consecutive(ds, w, matches[..n])
      && |before| <= |w|
      && m.text != [] && IsLongest(ds[n], w[|before|..], m.rule, |m.text|)
  }

  lemma MatchNone(ds: seq<Dfa>, stream: seq<Byte>, at: nat)
    requires at <= |stream| && forall i | 0 <= i < |ds| :: WellFormed(ds[i])
    ensures Consecutive(ds, stream[at..], []) && Texts([]) == stream[at..at]
  {
  }

  lemma MatchAppend(ds: seq<Dfa>, stream: seq<Byte>, start: nat, at: nat, matches: seq<Match>, m: Match)
    requires start <= at && at + |m.text| <= |stream| && |matches| < |ds| && forall i | 0 <= i < |ds| :: WellFormed(ds[i])
    requires Consecutive(ds, stream[start..], matches) && Texts(matches) == stream[start..at]
    requires m.text == stream[at..at + |m.text|] != [] && IsLongest(ds[|matches|], stream[at..], m.rule, |m.text|)
    ensures Consecutive(ds, stream[start..], matches + [m]) && Texts(matches + [m]) == stream[start..at + |m.text|]
  {
    hide IsLongest, WellFormed, Consecutive, Texts;
    SliceOn(stream, start, at, |m.text|);
    ConsecutiveNext(ds, stream[start..], matches, m);
  }

  lemma ConsecutiveNext(ds: seq<Dfa>, w: seq<Byte>, matches: seq<Match>, m: Match)
    requires |matches| < |ds| && forall i | 0 <= i < |ds| :: WellFormed(ds[i])
    requires Consecutive(ds, w, matches) && |Texts(matches)| <= |w|
    requires m.text != [] && IsLongest(ds[|matches|], w[|Texts(matches)|..], m.rule, |m.text|)
    ensures Consecutive(ds, w, matches + [m]) && Texts(matches + [m]) == Texts(matches) + m.text
  {
    hide IsLongest, WellFormed;
    var more := matches + [m];
    assert more[..|more| - 1] == matches && more[|more| - 1] == m;
  }

  lemma SliceOn(stream: seq<Byte>, start: nat, at: nat, n: nat)
    requires start <= at && at + n <= |stream|
    ensures stream[start..][|stream[start..at]|..] == stream[at..]
    ensures stream[start..at] + stream[at..at + n] == stream[start..at + n]
  {
  }

  /** Where the edges of a state lead, and that nothing longer is accepted where none does. */
  lemma NextState(d: Dfa, w: seq<Byte>, m: nat, s: nat, cap: nat, n: nat)
    requires WellFormed(d) && m <= |w| && s < |d| && Reach(d, w[..m]) == s && BestBelow(d, w, cap, n, m + 1)
    ensures m < |w| && w[m] in d[s].moves ==> Reach(d, w[..m + 1]) == d[s].moves[w[m]] < |d|
    ensures m == |w| || w[m] !in d[s].moves ==> BestBelow(d, w, cap, n, |w| + 1)
  {
    hide BestBelow, Reach;
    if m < |w| {
      ReachNext(d, w, m, s);
    }
    if m == |w| || w[m] !in d[s].moves {
      BestHalt(d, w, cap, n, m);
    }
  }

  lemma BestStart(d: Dfa, w: seq<Byte>)
    requires WellFormed(d)
    ensures Reach(d, w[..0]) == 0 && forall n: nat :: BestBelow(d, w, 0, n, 0)
  {
  }

  lemma BestNone(d: Dfa, w: seq<Byte>, n: nat, n': nat, m: nat)
    requires WellFormed(d) && BestBelow(d, w, 0, n, m)
    ensures BestBelow(d, w, 0, n', m)
  {
  }

  /** The first size, doubling from max, that is at least need. */
  method Doubled(max: nat, need: nat) returns (size: nat)
    requires 0 < max
    ensures size >= max && size >= need && (size == max || size < 2 * need)
  {
    size := max;
    while size < need
      invariant size >= max && (size == max || size < 2 * need)
    {
      size := size * 2;
    }
  }
}
