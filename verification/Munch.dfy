/** What a scan is to return: the longest non-empty prefix of the input that an automaton accepts. */
module Munches {
  type Byte = b: int | 0 <= b < 128

  /** A state of a generated scanner: the rule it accepts, 0 for none, and its edges. */
  datatype State = State(accept: nat, moves: map<Byte, nat>)

  /** State 0 is the start state. */
  type Dfa = seq<State>

  ghost predicate WellFormed(d: Dfa) {
    |d| > 0 && forall s, c | 0 <= s < |d| && c in d[s].moves :: d[s].moves[c] < |d|
  }

  const STUCK := -1

  /** The state in which a word ends, or STUCK. */
  ghost function Reach(d: Dfa, w: seq<Byte>): (s: int)
    requires WellFormed(d)
    ensures STUCK <= s < |d|
  {
    if w == [] then 0
    else
      var s := Reach(d, w[..|w| - 1]);
      var c := w[|w| - 1];
      if s != STUCK && c in d[s].moves then d[s].moves[c] else STUCK
  }

  /** The rule that accepts a word, 0 for none. */
  ghost function Accepting(d: Dfa, w: seq<Byte>): nat
    requires WellFormed(d)
  {
    var s := Reach(d, w);
    if s == STUCK then 0 else d[s].accept
  }

  ghost predicate AcceptsAt(d: Dfa, w: seq<Byte>, n: nat)
    requires WellFormed(d) && n <= |w|
  {
    Accepting(d, w[..n]) != 0
  }

  /** Rule cap accepts the first n bytes of w, and no rule accepts a longer prefix; cap is 0 when no
      rule accepts a non-empty prefix. */
  ghost predicate IsLongest(d: Dfa, w: seq<Byte>, cap: nat, n: nat)
    requires WellFormed(d)
  {
    && n <= |w|
    && (if n == 0 then cap == 0 else cap != 0 && cap == Accepting(d, w[..n]))
    && (forall k: nat | n < k <= |w| :: !AcceptsAt(d, w, k))
  }

  lemma LongestUnique(d: Dfa, w: seq<Byte>, cap: nat, n: nat, cap': nat, n': nat)
    requires WellFormed(d) && IsLongest(d, w, cap, n) && IsLongest(d, w, cap', n')
    ensures cap == cap' && n == n'
  {
    hide Accepting;
    assert n > 0 ==> AcceptsAt(d, w, n);
    assert n' > 0 ==> AcceptsAt(d, w, n');
  }

  /** Once stuck, always stuck. */
  lemma {:induction false} StuckStays(d: Dfa, w: seq<Byte>, n: nat, k: nat)
    requires WellFormed(d) && n <= k <= |w| && Reach(d, w[..n]) == STUCK
    ensures Reach(d, w[..k]) == STUCK
    decreases k
  {
    if n < k {
      StuckStays(d, w, n, k - 1);
      assert w[..k][..k - 1] == w[..k - 1];
    }
  }

  /** Among the prefixes shorter than m, rule cap accepts the one of length n and none accepts a longer one;
      no rule accepts any while cap is 0. */
  ghost predicate BestBelow(d: Dfa, w: seq<Byte>, cap: nat, n: nat, m: nat)
    requires WellFormed(d)
  {
    && m <= |w| + 1
    && (cap != 0 ==> n < m && cap == Accepting(d, w[..n]))
    && (forall k: nat | k < m && (cap != 0 ==> n < k) :: !AcceptsAt(d, w, k))
  }

  lemma BestTake(d: Dfa, w: seq<Byte>, cap: nat, n: nat, m: nat, s: nat)
    requires WellFormed(d) && BestBelow(d, w, cap, n, m) && m <= |w| && Reach(d, w[..m]) == s
    ensures if d[s].accept > 0 then BestBelow(d, w, d[s].accept, m, m + 1) else BestBelow(d, w, cap, n, m + 1)
  {
  }

  /** Nothing longer can be accepted when the input has ended or no edge leads on. */
  lemma BestHalt(d: Dfa, w: seq<Byte>, cap: nat, n: nat, m: nat)
    requires WellFormed(d) && m <= |w| && BestBelow(d, w, cap, n, m + 1)
    requires m < |w| ==> Reach(d, w[..m + 1]) == STUCK
    ensures BestBelow(d, w, cap, n, |w| + 1)
  {
    forall k: nat | m < k <= |w|
      ensures !AcceptsAt(d, w, k)
    {
      StuckStays(d, w, m + 1, k);
    }
  }

  lemma ReachNext(d: Dfa, w: seq<Byte>, m: nat, s: nat)
    requires WellFormed(d) && m < |w| && Reach(d, w[..m]) == s
    ensures Reach(d, w[..m + 1]) == if w[m] in d[s].moves then d[s].moves[w[m]] else STUCK
  {
    assert w[..m + 1][..m] == w[..m] && w[..m + 1][m] == w[m];
  }

  /** A best match is the longest one; an empty match is none. */
  lemma BestIsLongest(d: Dfa, w: seq<Byte>, cap: nat, n: nat)
    requires WellFormed(d) && BestBelow(d, w, cap, n, |w| + 1)
    ensures var len := if cap == 0 then 0 else n; IsLongest(d, w, if len == 0 then 0 else cap, len)
  {
    hide Accepting;
    var len := if cap == 0 then 0 else n;
    assert forall k: nat | len < k <= |w| :: !AcceptsAt(d, w, k);
  }

  // ------------------------------------------------ positions

  /** The next tab stop: the least multiple of the tab size beyond column k. */
  function NextStop(k: nat, tab: nat): (stop: nat)
    requires tab > 0
  {
    (k / tab + 1) * tab
  }

  datatype Place = Place(line: nat, column: nat)

  const NEWLINE: Byte := 10
  const TAB: Byte := 9

  /** The line and column behind a text, counted from its start. */
  ghost function PlaceAfter(w: seq<Byte>, tab: nat): Place
    requires tab > 0
  {
    if w == [] then Place(1, 0)
    else
      var p := PlaceAfter(w[..|w| - 1], tab);
      var c := w[|w| - 1];
      if c == NEWLINE then Place(p.line + 1, 0)
      else if c == TAB then Place(p.line, NextStop(p.column, tab))
      else Place(p.line, p.column + 1)
  }

  /** ~k & m, bit by bit. */
  function AndNot(k: nat, m: nat): nat
    decreases m
  {
    if m == 0 then 0
    else 2 * AndNot(k / 2, m / 2) + if m % 2 == 1 && k % 2 == 0 then 1 else 0
  }

  ghost predicate PowerOfTwo(t: nat) {
    t == 1 || (t % 2 == 0 && t > 0 && PowerOfTwo(t / 2))
  }

  lemma HalfMod(k: nat, h: nat)
    requires h > 0
    ensures k % (2 * h) == 2 * ((k / 2) % h) + k % 2
  {
    var q, r := (k / 2) / h, (k / 2) % h;
    assert k == 2 * (q * h + r) + k % 2;
    assert k == (2 * h) * q + (2 * r + k % 2) by {
      assert 2 * (q * h) == (2 * h) * q;
    }
    ModIs(k, 2 * h, q, 2 * r + k % 2);
  }

  lemma MoreTimes(n: nat, q: nat, q': nat)
    requires q < q'
    ensures n * q' >= n * q + n
  {
    assert n * q' == n * q + n * (q' - q);
    TimesPositive(n, q' - q);
  }

  lemma TimesPositive(n: nat, k: nat)
    requires k > 0
    ensures n * k >= n
  {
    assert n * k == n * (k - 1) + n;
  }

  lemma QuotientIs(n: nat, q: nat, r: nat, q': nat, r': nat)
    requires n * q + r == n * q' + r' && r < n && r' < n
    ensures q == q' && r == r'
  {
    if q < q' {
      MoreTimes(n, q, q');
    } else if q' < q {
      MoreTimes(n, q', q);
    }
  }

  lemma ModIs(k: nat, n: nat, q: nat, r: nat)
    requires n > 0 && k == n * q + r && r < n
    ensures k % n == r && k / n == q
  {
    QuotientIs(n, q, r, k / n, k % n);
  }

  lemma {:induction false} AndNotMod(k: nat, t: nat)
    requires PowerOfTwo(t)
    ensures AndNot(k, t - 1) == t - 1 - k % t
    decreases t
  {
    if t > 1 {
      var h := t / 2;
      AndNotMod(k / 2, h);
      HalfMod(k, h);
      assert (t - 1) / 2 == h - 1 && (t - 1) % 2 == 1;
    }
  }

  lemma StopIs(k: nat, t: nat)
    requires t > 0
    ensures NextStop(k, t) == k - k % t + t && NextStop(k, t) == t * (k / t + 1)
  {
    var q := k / t;
    assert (q + 1) * t == t * q + t == t * (q + 1);
  }

  /** The next stop is the only multiple of the tab size within a tab beyond column k. */
  lemma StopIsMultiple(k: nat, t: nat)
    requires t > 0
    ensures NextStop(k, t) % t == 0 && k < NextStop(k, t) <= k + t
  {
    hide NextStop;
    StopIs(k, t);
    ModIs(NextStop(k, t), t, k / t + 1, 0);
  }

  lemma Sum(k: nat, t: nat, r: nat, a: int, stop: int)
    requires a == t - 1 - r && stop == k - r + t
    ensures k + 1 + a == stop
  {
  }

  /** The masked tab step always reaches the next multiple of a power-of-two tab size. */
  lemma TabStep(k: nat, t: nat)
    requires PowerOfTwo(t)
    ensures k + 1 + AndNot(k, t - 1) == NextStop(k, t)
  {
    hide NextStop, AndNot;
    AndNotMod(k, t);
    StopIs(k, t);
    Sum(k, t, k % t, AndNot(k, t - 1), NextStop(k, t));
  }

  /** How the scanner moves its line and column over one byte. */
  function Moved(p: Place, c: Byte, tab: nat): Place
    requires tab > 0
  {
    if c == NEWLINE then Place(p.line + 1, 0)
    else if c == TAB then Place(p.line, p.column + 1 + AndNot(p.column, tab - 1))
    else Place(p.line, p.column + 1)
  }

  lemma PlaceStep(w: seq<Byte>, n: nat, tab: nat)
    requires n < |w| && PowerOfTwo(tab)
    ensures PlaceAfter(w[..n + 1], tab) == Moved(PlaceAfter(w[..n], tab), w[n], tab)
  {
    hide NextStop, AndNot;
    assert w[..n + 1][..n] == w[..n] && w[..n + 1][n] == w[n];
    TabStep(PlaceAfter(w[..n], tab).column, tab);
  }

  // ------------------------------------------------ the place, told from the characters

  /** Lines are numbered from 1 and end in newline characters. */
  ghost predicate IsLine(w: seq<Byte>, n: nat) {
    n == 1 + |Newlines(w)|
  }

  ghost function Newlines(w: seq<Byte>): set<nat> {
    set k: nat | k < |w| && w[k] as char == '\n'
  }

  /** The least multiple of the tab size beyond column c. */
  ghost predicate IsStop(c: nat, tab: nat, stop: nat)
    requires tab > 0
  {
    stop > c && stop % tab == 0 && forall m: nat | c < m < stop :: m % tab != 0
  }

  /** What one character makes of a column. */
  ghost predicate Passes(ch: char, tab: nat, c: nat, next: nat)
    requires tab > 0
  {
    if ch == '\t' then IsStop(c, tab, next) else next == c + 1
  }

  /** The columns along the last line, which begins at b. */
  ghost predicate AreColumns(w: seq<Byte>, tab: nat, b: nat, cols: seq<nat>)
    requires tab > 0
  {
    && b <= |w| && (b == 0 || w[b - 1] as char == '\n') && (forall k | b <= k < |w| :: w[k] as char != '\n')
    && |cols| == |w| - b + 1 && cols[0] == 0
    && (forall k | b <= k < |w| :: Passes(w[k] as char, tab, cols[k - b], cols[k - b + 1]))
  }

  ghost predicate IsColumn(w: seq<Byte>, tab: nat, c: nat)
    requires tab > 0
  {
    exists b: nat, cols: seq<nat> :: AreColumns(w, tab, b, cols) && cols[|w| - b] == c
  }

  lemma LineStep(w: seq<Byte>, n: nat)
    requires w != [] && IsLine(w[..|w| - 1], n)
    ensures IsLine(w, if w[|w| - 1] as char == '\n' then n + 1 else n)
  {
    var last := |w| - 1;
    assert Newlines(w) == Newlines(w[..last]) + if w[last] as char == '\n' then {last} else {};
  }

  lemma ColumnStep(w: seq<Byte>, tab: nat, c: nat, next: nat)
    requires tab > 0 && w != [] && IsColumn(w[..|w| - 1], tab, c)
    requires w[|w| - 1] as char != '\n' && Passes(w[|w| - 1] as char, tab, c, next)
    ensures IsColumn(w, tab, next)
  {
    hide Passes;
    var u := w[..|w| - 1];
    var b: nat, cols: seq<nat> :| AreColumns(u, tab, b, cols) && cols[|u| - b] == c;
    var more := cols + [next];
    forall k | b <= k < |w|
      ensures w[k] as char != '\n' && Passes(w[k] as char, tab, more[k - b], more[k - b + 1])
    {
      if k < |u| {
        assert u[k] == w[k] && Passes(u[k] as char, tab, cols[k - b], cols[k - b + 1]);
      }
    }
    assert AreColumns(w, tab, b, more);
  }

  lemma LineStart(w: seq<Byte>, tab: nat)
    requires tab > 0 && (w == [] || w[|w| - 1] as char == '\n')
    ensures IsColumn(w, tab, 0)
  {
    assert AreColumns(w, tab, |w|, [0]);
  }

  lemma StopIsLeast(c: nat, tab: nat)
    requires tab > 0
    ensures IsStop(c, tab, NextStop(c, tab))
  {
    hide NextStop;
    StopIs(c, tab);
    StopIsMultiple(c, tab);
    forall m: nat | c < m < NextStop(c, tab)
      ensures m % tab != 0
    {
      if m % tab == 0 {
        NoStopBetween(c, tab, m);
      }
    }
  }

  lemma NoStopBetween(c: nat, tab: nat, m: nat)
    requires tab > 0 && m % tab == 0 && m > c
    ensures m >= tab * (c / tab + 1)
  {
    var q, p := c / tab, m / tab;
    assert m == tab * p && c == tab * q + c % tab;
    if p <= q {
      if p < q {
        MoreTimes(tab, p, q);
      }
      assert false;
    }
    if p > q + 1 {
      MoreTimes(tab, q + 1, p);
    }
  }

  /** The counted place is the one that the characters tell. */
  lemma {:induction false} PlaceMeans(w: seq<Byte>, tab: nat)
    requires tab > 0
    ensures IsLine(w, PlaceAfter(w, tab).line) && IsColumn(w, tab, PlaceAfter(w, tab).column)
    decreases |w|
  {
    hide IsLine, IsColumn, NextStop, IsStop;
    if w == [] {
      NoLines(w);
      LineStart(w, tab);
    } else {
      var u := w[..|w| - 1];
      PlaceMeans(u, tab);
      LineStep(w, PlaceAfter(u, tab).line);
      StopIsLeast(PlaceAfter(u, tab).column, tab);
      if w[|w| - 1] == NEWLINE {
        LineStart(w, tab);
      } else {
        ColumnStep(w, tab, PlaceAfter(u, tab).column, PlaceAfter(w, tab).column);
      }
    }
  }

  lemma NoLines(w: seq<Byte>)
    requires w == []
    ensures IsLine(w, 1)
  {
    assert Newlines(w) == {};
  }

  /** The characters leave one column only. */
  lemma ColumnUnique(w: seq<Byte>, tab: nat, c: nat, c2: nat)
    requires tab > 0 && IsColumn(w, tab, c) && IsColumn(w, tab, c2)
    ensures c == c2
  {
    var b: nat, cols: seq<nat> :| AreColumns(w, tab, b, cols) && cols[|w| - b] == c;
    var b2: nat, cols2: seq<nat> :| AreColumns(w, tab, b2, cols2) && cols2[|w| - b2] == c2;
    SameStart(w, tab, b, cols, b2, cols2);
    SameColumns(w, tab, b, cols, cols2, |w| - b);
  }

  lemma SameStart(w: seq<Byte>, tab: nat, b: nat, cols: seq<nat>, b2: nat, cols2: seq<nat>)
    requires tab > 0 && AreColumns(w, tab, b, cols) && AreColumns(w, tab, b2, cols2)
    ensures b == b2
  {
    hide Passes;
    if b < b2 {
      assert false;
    } else if b2 < b {
      assert false;
    }
  }

  lemma {:induction false} SameColumns(w: seq<Byte>, tab: nat, b: nat, cols: seq<nat>, cols2: seq<nat>, n: nat)
    requires tab > 0 && AreColumns(w, tab, b, cols) && AreColumns(w, tab, b, cols2) && n <= |w| - b
    ensures cols[n] == cols2[n]
    decreases n
  {
    if n > 0 {
      SameColumns(w, tab, b, cols, cols2, n - 1);
      var k := b + n - 1;
      assert Passes(w[k] as char, tab, cols[k - b], cols[k - b + 1]) && Passes(w[k] as char, tab, cols2[k - b], cols2[k - b + 1]);
      if w[k] as char == '\t' {
        StopUnique(cols[n - 1], tab, cols[n], cols2[n]);
      }
    }
  }

  lemma StopUnique(c: nat, tab: nat, s: nat, s2: nat)
    requires tab > 0 && IsStop(c, tab, s) && IsStop(c, tab, s2)
    ensures s == s2
  {
  }

  /** Without tabs the column is the number of characters since the last newline. */
  lemma {:induction false} PlainColumn(w: seq<Byte>, tab: nat, b: nat, c: nat)
    requires tab > 0 && IsColumn(w, tab, c) && b <= |w| && (b == 0 || w[b - 1] as char == '\n')
    requires forall k | b <= k < |w| :: w[k] as char != '\n' && w[k] as char != '\t'
    ensures c == |w| - b
  {
    var cols := seq(|w| - b + 1, i requires 0 <= i < |w| - b + 1 => i as nat);
    assert AreColumns(w, tab, b, cols);
    assert IsColumn(w, tab, |w| - b);
    ColumnUnique(w, tab, c, |w| - b);
  }
}
