/** The lookahead sets as the generator stores them: a vector of 32-bit words (src/parsergen/bit_vector.h). */
module BitVectors {

  /** 1 << j for a word. */
  function Mask(j: nat): bv32 {
    if j == 0 then 1 else Mask(j - 1) << 1
  }

  predicate On(w: bv32, m: bv32) {
    w & m != 0
  }

  predicate Bit(w: bv32, j: nat) {
    On(w, Mask(j))
  }

  predicate HasBit(v: seq<bv32>, k: nat) {
    k / 32 < |v| && Bit(v[k / 32], k % 32)
  }

  /** The set a vector of words stands for. */
  ghost function Members(v: seq<bv32>): set<nat> {
    set k: nat | k < 32 * |v| && HasBit(v, k)
  }

  // ------------------------------------------------ one word

  lemma {:induction false} MaskIsPower(j: nat)
    ensures Mask(j) & (Mask(j) - 1) == 0
  {
    if j > 0 {
      MaskIsPower(j - 1);
      ShiftIsPower(Mask(j - 1));
    }
  }

  lemma ShiftIsPower(m: bv32)
    requires m & (m - 1) == 0
    ensures (m << 1) & ((m << 1) - 1) == 0
  {
  }

  /** A higher bit is not among the lower ones. */
  lemma {:induction false} MaskAbove(i: nat, j: nat)
    requires i < j
    ensures Mask(j) & (Mask(i) | (Mask(i) - 1)) == 0
    decreases j
  {
    MaskIsPower(i);
    if j == i + 1 {
      ShiftAbove(Mask(i));
    } else {
      MaskAbove(i, j - 1);
      ShiftAway(Mask(j - 1), Mask(i));
    }
  }

  lemma ShiftAbove(m: bv32)
    requires m & (m - 1) == 0
    ensures (m << 1) & (m | (m - 1)) == 0
  {
  }

  lemma ShiftAway(x: bv32, m: bv32)
    requires m & (m - 1) == 0 && x & (m | (m - 1)) == 0
    ensures (x << 1) & (m | (m - 1)) == 0
  {
  }

  lemma MasksDisjoint(i: nat, j: nat)
    requires i != j
    ensures Mask(i) & Mask(j) == 0
  {
    if i < j {
      MaskAbove(i, j);
      Below(Mask(j), Mask(i), Mask(i) - 1);
    } else {
      MaskAbove(j, i);
      Below(Mask(i), Mask(j), Mask(j) - 1);
    }
  }

  lemma Below(x: bv32, y: bv32, z: bv32)
    requires x & (y | z) == 0
    ensures x & y == y & x == 0
  {
  }

  lemma TopMask()
    ensures Mask(31) == 0x8000_0000
  {
    assert Mask(3) == 0x8 && Mask(6) == 0x40 && Mask(9) == 0x200 && Mask(12) == 0x1000 && Mask(15) == 0x8000;
    assert Mask(18) == 0x4_0000 && Mask(21) == 0x20_0000 && Mask(24) == 0x100_0000 && Mask(27) == 0x800_0000 && Mask(30) == 0x4000_0000;
  }

  lemma {:induction false} MaskNonzero(j: nat)
    requires j < 32
    ensures Mask(j) != 0
  {
    if j > 0 {
      MaskNonzero(j - 1);
      TopMask();
      MasksDisjoint(j - 1, 31);
      ShiftNonzero(Mask(j - 1));
    }
  }

  lemma ShiftNonzero(m: bv32)
    requires m != 0 && m & 0x8000_0000 == 0
    ensures m << 1 != 0
  {
  }

  /** No difference at or below the bit of a mask. */
  ghost predicate Agree(a: bv32, b: bv32, m: bv32) {
    (a ^ b) & (m | (m - 1)) == 0
  }

  /** Words that agree on every bit agree at and below bit n, for every n. */
  lemma {:induction false} AgreeBelow(a: bv32, b: bv32, n: nat)
    requires n < 32 && forall j: nat | j < 32 :: Bit(a, j) == Bit(b, j)
    ensures Agree(a, b, Mask(n))
    decreases n
  {
    hide Agree, On;
    assert Bit(a, n) == Bit(b, n);
    if n == 0 {
      FirstBit(a, b, On(a, 1));
    } else {
      AgreeBelow(a, b, n - 1);
      MaskIsPower(n - 1);
      OneMoreBit(a, b, Mask(n - 1), Bit(a, n));
    }
  }

  lemma FirstBit(a: bv32, b: bv32, p: bool)
    requires p == On(a, 1)
    requires p == On(b, 1)
    ensures Agree(a, b, 1)
  {
  }

  lemma OneMoreBit(a: bv32, b: bv32, m: bv32, p: bool)
    requires m & (m - 1) == 0 && Agree(a, b, m)
    requires p == On(a, m << 1)
    requires p == On(b, m << 1)
    ensures Agree(a, b, m << 1)
  {
  }

  lemma WordsEqual(a: bv32, b: bv32)
    requires forall j: nat | j < 32 :: Bit(a, j) == Bit(b, j)
    ensures a == b
  {
    hide Bit;
    AgreeBelow(a, b, 31);
    TopMask();
    AgreeAll(a, b);
  }

  lemma AgreeAll(a: bv32, b: bv32)
    requires Agree(a, b, 0x8000_0000)
    ensures a == b
  {
  }

  function Or(a: bv32, b: bv32): bv32 {
    a | b
  }

  function Without(a: bv32, m: bv32): bv32 {
    a & !m
  }

  lemma OrOn(a: bv32, b: bv32, m: bv32)
    requires On(a, m)
    ensures On(Or(a, b), m) && On(Or(b, a), m)
  {
  }

  lemma OrOff(a: bv32, b: bv32, m: bv32)
    requires !On(a, m) && !On(b, m)
    ensures !On(Or(a, b), m)
  {
  }

  lemma BitOr(a: bv32, b: bv32, j: nat)
    ensures Bit(Or(a, b), j) <==> Bit(a, j) || Bit(b, j)
  {
    hide On, Or, Mask;
    if On(a, Mask(j)) {
      OrOn(a, b, Mask(j));
    } else if On(b, Mask(j)) {
      OrOn(b, a, Mask(j));
    } else {
      OrOff(a, b, Mask(j));
    }
  }

  lemma OnSelf(m: bv32)
    requires m != 0
    ensures On(m, m)
  {
  }

  lemma OnOther(m: bv32, n: bv32)
    requires m & n == 0
    ensures !On(m, n)
  {
  }

  /** A mask has exactly its own bit. */
  lemma MaskBit(i: nat, j: nat)
    requires i < 32 && j < 32
    ensures Bit(Mask(i), j) <==> i == j
  {
    hide On;
    if i == j {
      MaskNonzero(i);
      OnSelf(Mask(i));
    } else {
      MasksDisjoint(i, j);
      OnOther(Mask(i), Mask(j));
    }
  }

  lemma WithoutSelf(a: bv32, m: bv32)
    ensures !On(Without(a, m), m)
  {
  }

  ghost predicate Apart(m: bv32, n: bv32) {
    m & n == 0
  }

  lemma WithoutOn(a: bv32, m: bv32, n: bv32)
    requires Apart(m, n) && On(a, n)
    ensures On(Without(a, m), n)
  {
  }

  lemma WithoutOff(a: bv32, m: bv32, n: bv32)
    requires !On(a, n)
    ensures !On(Without(a, m), n)
  {
  }

  lemma MasksApart(i: nat, j: nat)
    requires i != j
    ensures Apart(Mask(i), Mask(j))
  {
    MasksDisjoint(i, j);
  }

  lemma BitClear(a: bv32, i: nat, j: nat)
    requires i < 32 && j < 32
    ensures Bit(Without(a, Mask(i)), j) <==> Bit(a, j) && i != j
  {
    hide On, Without, Mask, Apart;
    if i == j {
      WithoutSelf(a, Mask(i));
    } else {
      MasksApart(i, j);
      if On(a, Mask(j)) {
        WithoutOn(a, Mask(i), Mask(j));
      } else {
        WithoutOff(a, Mask(i), Mask(j));
      }
    }
  }

  lemma ZeroBit(j: nat)
    ensures !Bit(0, j)
  {
  }

  // ------------------------------------------------ vectors of words

  lemma SelectMembers(v: seq<bv32>, k: nat)
    requires k / 32 < |v|
    ensures Members(v[k / 32 := Or(v[k / 32], Mask(k % 32))]) == Members(v) + {k}
  {
    hide Bit, Mask, Or, Without;
    var w := v[k / 32 := Or(v[k / 32], Mask(k % 32))];
    forall j: nat | j < 32 * |v|
      ensures HasBit(w, j) <==> HasBit(v, j) || j == k
    {
      if j / 32 == k / 32 {
        BitOr(v[k / 32], Mask(k % 32), j % 32);
        MaskBit(k % 32, j % 32);
      }
    }
  }

  lemma ClearMembers(v: seq<bv32>, k: nat)
    requires k / 32 < |v|
    ensures Members(v[k / 32 := Without(v[k / 32], Mask(k % 32))]) == Members(v) - {k}
  {
    hide Bit, Mask, Or, Without;
    var w := v[k / 32 := Without(v[k / 32], Mask(k % 32))];
    forall j: nat | j < 32 * |v|
      ensures HasBit(w, j) <==> HasBit(v, j) && j != k
    {
      if j / 32 == k / 32 {
        BitClear(v[k / 32], k % 32, j % 32);
      }
    }
  }

  lemma ZeroMembers(v: seq<bv32>, w: seq<bv32>)
    requires |v| <= |w| && w[..|v|] == v && forall i | |v| <= i < |w| :: w[i] == 0
    ensures Members(w) == Members(v)
  {
    hide Bit;
    forall k: nat | k < 32 * |w|
      ensures HasBit(w, k) <==> HasBit(v, k)
    {
      ZeroBit(k % 32);
      if k / 32 < |v| {
        assert w[k / 32] == w[..|v|][k / 32];
      }
    }
  }

  ghost predicate Joined(a: seq<bv32>, b: seq<bv32>, w: seq<bv32>) {
    && |w| == |a| && |b| <= |a|
    && forall i | 0 <= i < |a| :: w[i] == if i < |b| then Or(a[i], b[i]) else a[i]
  }

  lemma JoinMembers(a: seq<bv32>, b: seq<bv32>, w: seq<bv32>)
    requires Joined(a, b, w)
    ensures Members(w) == Members(a) + Members(b)
  {
    hide Bit, Or;
    forall k: nat | k < 32 * |a|
      ensures HasBit(w, k) <==> HasBit(a, k) || HasBit(b, k)
    {
      var i := k / 32;
      assert w[i] == if i < |b| then Or(a[i], b[i]) else a[i];
      if i < |b| {
        BitOr(a[i], b[i], k % 32);
      }
    }
  }

  /** Vectors of one length that stand for the same set are the same vector. */
  lemma MembersEqual(a: seq<bv32>, b: seq<bv32>)
    requires |a| == |b| && Members(a) == Members(b)
    ensures a == b
  {
    hide Bit;
    forall i | 0 <= i < |a|
      ensures a[i] == b[i]
    {
      forall j: nat | j < 32
        ensures Bit(a[i], j) == Bit(b[i], j)
      {
        SameMember(a, b, 32 * i + j);
        assert (32 * i + j) / 32 == i && (32 * i + j) % 32 == j;
      }
      WordsEqual(a[i], b[i]);
    }
  }

  lemma SameMember(a: seq<bv32>, b: seq<bv32>, k: nat)
    requires |a| == |b| && Members(a) == Members(b) && k < 32 * |a|
    ensures HasBit(a, k) == HasBit(b, k)
  {
    hide HasBit;
    assert k in Members(a) <==> k in Members(b);
  }

  /** A vector stands for the empty set exactly when all its words are zero. */
  lemma NoMembers(v: seq<bv32>)
    ensures Members(v) == {} <==> forall i | 0 <= i < |v| :: v[i] == 0
  {
    var zeros := seq(|v|, i => 0 as bv32);
    ZeroMembers([], zeros);
    assert Members([]) == {};
    if Members(v) == {} {
      MembersEqual(v, zeros);
    }
    if forall i | 0 <= i < |v| :: v[i] == 0 {
      assert v == zeros;
    }
  }

  class BitVector {
    var len: nat
    var v: seq<bv32>

    /** Every index below the length has a word, and there is no word more than growing adds. */
    ghost predicate Valid()
      reads this
    {
      |v| == len / 32 + 1 || (len == 0 && v == [])
    }

    ghost function Bits(): set<nat>
      reads this
    {
      Members(v)
    }

    constructor (reserve: nat)
      ensures Valid() && len == reserve && Bits() == {} && |v| == reserve / 32 + 1
    {
      len := 0;
      v := [];
      new;
      Grow(reserve);
    }

    method Grow(amount: nat)
      requires Valid()
      modifies this
      ensures Valid() && len == old(len) + amount && |v| == len / 32 + 1
      ensures Bits() == old(Bits())
    {
      len := len + amount;
      var n := len / 32 + 1;
      ghost var v0 := v;
      while |v| < n
        invariant len == old(len) + amount && |v0| <= |v| <= n && v[..|v0|] == v0
        invariant forall i | |v0| <= i < |v| :: v[i] == 0
      {
        v := v + [0];
      }
      ZeroMembers(v0, v);
    }

    method Get(k: nat) returns (b: bool)
      requires Valid() && k < len
      ensures b <==> k in Bits()
    {
      hide On, Mask;
      b := On(v[k / 32], Mask(k % 32));
    }

    method Select(k: nat)
      requires Valid() && k < len
      modifies `v
      ensures Valid() && Bits() == old(Bits()) + {k}
    {
      hide Or, Mask, Members;
      SelectMembers(v, k);
      v := v[k / 32 := Or(v[k / 32], Mask(k % 32))];
    }

    method Clear(k: nat)
      requires Valid() && k < len
      modifies `v
      ensures Valid() && Bits() == old(Bits()) - {k}
    {
      hide Without, Mask, Members;
      ClearMembers(v, k);
      v := v[k / 32 := Without(v[k / 32], Mask(k % 32))];
    }

    method ClearAll()
      requires Valid()
      modifies `v
      ensures Valid() && Bits() == {}
    {
      for i := 0 to |v|
        invariant |v| == |old(v)| && forall j | 0 <= j < i :: v[j] == 0
      {
        v := v[i := 0];
      }
      NoMembers(v);
    }

    /** Add all bits of another vector, and tell whether that changed anything. */
    method Merge(r: BitVector) returns (changed: bool)
      requires Valid() && r.Valid() && |r.v| <= |v|
      modifies `v
      ensures Valid() && Bits() == old(Bits()) + old(r.Bits())
      ensures changed <==> Bits() != old(Bits())
    {
      hide Or, Members;
      ghost var v0, r0 := v, r.v;
      changed := false;
      for i := 0 to |r.v|
        invariant len == old(len) && |r.v| == |r0| <= |v| == |v0| && forall k | i <= k < |r0| :: r.v[k] == r0[k]
        invariant forall k | 0 <= k < |v| :: v[k] == if k < i then Or(v0[k], r0[k]) else v0[k]
        invariant changed <==> exists k :: 0 <= k < i && v[k] != v0[k]
      {
        var word := Or(v[i], r.v[i]);
        ghost var before := v;
        changed := changed || word != v[i];
        v := v[i := word];
        assert forall k | 0 <= k < i :: v[k] == before[k];
      }
      JoinMembers(v0, r0, v);
      assert !changed ==> v == v0;
      if Members(v) == Members(v0) {
        MembersEqual(v, v0);
      }
    }

    /** The comparison of the words is the comparison of the sets, for vectors of as many words. */
    method Equals(other: BitVector) returns (same: bool)
      ensures |v| == |other.v| ==> (same <==> Bits() == other.Bits())
      ensures |v| != |other.v| ==> !same
    {
      same := v == other.v;
      if |v| == |other.v| && Bits() == other.Bits() {
        MembersEqual(v, other.v);
      }
    }

    method HasAny() returns (any: bool)
      ensures any <==> Bits() != {}
    {
      NoMembers(v);
      any := exists i | 0 <= i < |v| :: v[i] != 0;
    }

    method HasNone() returns (none: bool)
      ensures none <==> Bits() == {}
    {
      NoMembers(v);
      none := forall i | 0 <= i < |v| :: v[i] == 0;
    }

    /** The first index from i on whose bit is set, or the length. */
    method Next(i: nat) returns (k: nat)
      requires Valid() && i <= len
      ensures i <= k <= len && (k < len ==> k in Bits())
      ensures forall j | i <= j < k :: j !in Bits()
    {
      k := i;
      while k < len
        invariant i <= k <= len && forall j | i <= j < k :: j !in Bits()
      {
        var on := Get(k);
        if on { return; }
        k := k + 1;
      }
    }

    /** Walking from begin to end meets every set bit below the length once, in ascending order. */
    method Elements() returns (ks: seq<nat>)
      requires Valid()
      ensures forall k | 0 <= k < len :: k in ks <==> k in Bits()
      ensures forall i | 0 <= i < |ks| :: ks[i] < len
      ensures forall i, j | 0 <= i < j < |ks| :: ks[i] < ks[j]
    {
      ks := [];
      var i := Next(0);
      while i != len
        invariant i <= len && (i < len ==> i in Bits())
        invariant forall k | 0 <= k < i :: k in ks <==> k in Bits()
        invariant forall k | 0 <= k < |ks| :: ks[k] < i
        invariant forall k, j | 0 <= k < j < |ks| :: ks[k] < ks[j]
        decreases len - i
      {
        ks := ks + [i];
        i := Next(i + 1);
      }
    }
  }
}
