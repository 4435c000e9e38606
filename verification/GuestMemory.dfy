/** Guest memory: a host buffer of byte-swapped words that behaves as big-endian memory,
    and the left and right halves of unaligned accesses. */
module GuestMemory {
  import opened Lanes

  const WINDOW := 0x4000_0000
  const SPACE := 0x1_0000_0000_0000_0000
  const BASE := 0xFFFF_FFFF_8000_0000

  /** Guest addresses are 64-bit register values. */
  type Address = a: nat | a < SPACE

  type Memory = m: Lane | |m| == WINDOW witness seq(WINDOW, _ => 0)

  function Plus(a: Address, k: nat): Address {
    (a + k) % SPACE
  }

  /** `a ^ 3` and `a ^ 2`. */
  function Xor3(a: Address): Address {
    a - a % 4 + (3 - a % 4)
  }

  function Xor2(a: Address): Address {
    a - a % 4 + (a % 4 + 2) % 4
  }

  /** The offset in the host buffer: from the base of the window, masked to its size. */
  function Offset(a: Address): (r: nat)
    ensures r < WINDOW
  {
    ((a + SPACE - BASE) % SPACE) % WINDOW
  }

  lemma OffsetIs(a: Address)
    ensures Offset(a) == a % WINDOW
  {
    var q, r := a / WINDOW, a % WINDOW;
    if a >= BASE {
      ModIs(a - BASE, q - BASE / WINDOW, r);
    } else {
      ModIs(a + SPACE - BASE, q + (SPACE - BASE) / WINDOW, r);
    }
  }

  lemma ModIs(x: int, q: int, r: nat)
    requires x == WINDOW * q + r && r < WINDOW
    ensures x % WINDOW == r
  {
  }

  /** The byte a guest program sees at an address. */
  function Byte(m: Memory, a: Address): bv8 {
    m[Xor3(a % WINDOW)]
  }

  /** How far `x` is past `a` in the window. */
  function Distance(a: Address, x: Address): (d: nat)
    ensures d < WINDOW
  {
    (x % WINDOW + WINDOW - a % WINDOW) % WINDOW
  }

  /** The guest bytes from `a` on. */
  function Bytes(m: Memory, a: Address, n: nat): (r: Lane)
    ensures |r| == n && forall i :: 0 <= i < n ==> r[i] == Byte(m, Plus(a, i))
  {
    seq(n, i requires 0 <= i < n => Byte(m, Plus(a, i)))
  }

  // ----- Aligned accesses, as the host makes them -----

  /** A host word: four bytes, the least significant first. */
  function HostWord(m: Memory, o: nat): Word
    requires o + 4 <= WINDOW
  {
    [m[o + 3], m[o + 2], m[o + 1], m[o]]
  }

  function WithHostWord(m: Memory, o: nat, w: Word): Memory
    requires o + 4 <= WINDOW
  {
    m[o := w[3]][o + 1 := w[2]][o + 2 := w[1]][o + 3 := w[0]]
  }

  predicate Aligned(a: Address, n: nat)
    requires n > 0
  {
    a % n == 0
  }

  function LoadWord(m: Memory, a: Address): Word
    requires Aligned(a, 4)
  {
    OffsetIs(a);
    HostWord(m, Offset(a))
  }

  function LoadHalf(m: Memory, a: Address): Lane
    requires Aligned(a, 2)
  {
    OffsetIs(Xor2(a));
    [m[Offset(Xor2(a)) + 1], m[Offset(Xor2(a))]]
  }

  function LoadByte(m: Memory, a: Address): bv8 {
    m[Offset(Xor3(a))]
  }

  function LoadLong(m: Memory, a: Address): Long
    requires Aligned(a, 4)
  {
    LoadWord(m, a) + LoadWord(m, Plus(a, 4))
  }

  function StoreWord(m: Memory, a: Address, w: Word): Memory
    requires Aligned(a, 4)
  {
    OffsetIs(a);
    WithHostWord(m, Offset(a), w)
  }

  function StoreHalf(m: Memory, a: Address, w: Lane): Memory
    requires Aligned(a, 2) && |w| == 2
  {
    OffsetIs(Xor2(a));
    m[Offset(Xor2(a)) := w[1]][Offset(Xor2(a)) + 1 := w[0]]
  }

  function StoreByte(m: Memory, a: Address, b: bv8): Memory {
    m[Offset(Xor3(a)) := b]
  }

  /** `SD`: the low word first. */
  function StoreLong(m: Memory, a: Address, w: Long): Memory
    requires Aligned(a, 4)
  {
    StoreWord(StoreWord(m, Plus(a, 4), w[4..]), a, w[..4])
  }

  lemma PlusOffset(a: Address, k: nat)
    requires k < WINDOW
    ensures Plus(a, k) % WINDOW == if a % WINDOW + k < WINDOW then a % WINDOW + k else a % WINDOW + k - WINDOW
  {
    var q, r, p := a / WINDOW, a % WINDOW + k, SPACE / WINDOW;
    if a + k < SPACE {
      if r < WINDOW { ModIs(a + k, q, r); } else { ModIs(a + k, q + 1, r - WINDOW); }
    } else {
      assert r >= WINDOW;
      ModIs(a + k - SPACE, q + 1 - p, r - WINDOW);
      assert Plus(a, k) == a + k - SPACE;
    }
  }

  /** The bytes of an aligned unit do not leave the window. */
  lemma HalfOffset(a: Address, k: nat)
    requires Aligned(a, 2) && k < 2
    ensures Plus(a, k) % WINDOW == a % WINDOW + k && (a % WINDOW) % 2 == 0
  {
    PlusOffset(a, k);
    assert a == WINDOW * (a / WINDOW) + a % WINDOW;
  }

  lemma WordOffset(a: Address, k: nat)
    requires Aligned(a, 4) && k < 4
    ensures Plus(a, k) % WINDOW == a % WINDOW + k && (a % WINDOW) % 4 == 0
  {
    PlusOffset(a, k);
    assert a == WINDOW * (a / WINDOW) + a % WINDOW;
  }

  // ----- The buffer is big-endian memory -----

  lemma WordIsBytes(m: Memory, a: Address)
    requires Aligned(a, 4)
    ensures LoadWord(m, a) == Bytes(m, a, 4)
  {
    hide Plus;
    OffsetIs(a);
    WordOffset(a, 0);
    forall i | 0 <= i < 4
      ensures LoadWord(m, a)[i] == Byte(m, Plus(a, i))
    {
      WordOffset(a, i);
    }
  }

  lemma Xors(q: nat, r: nat)
    requires r < 4 && 4 * q + r < SPACE
    ensures Xor2(4 * q + r) == 4 * q + (if r < 2 then r + 2 else r - 2) && Xor3(4 * q + r) == 4 * q + 3 - r
  {
    assert (4 * q + r) % 4 == r;
  }

  lemma HalfSwap(o: nat)
    requires o % 2 == 0 && o + 1 < WINDOW
    ensures Xor2(o) + 1 == Xor3(o) && Xor2(o) == Xor3(o + 1)
  {
    hide Xor2, Xor3;
    var h := o / 2;
    var q, r := h / 2, h % 2;
    assert o == 4 * q + 2 * r;
    Xors(q, 2 * r);
    Xors(q, 2 * r + 1);
  }

  lemma HalfIsBytes(m: Memory, a: Address)
    requires Aligned(a, 2)
    ensures LoadHalf(m, a) == Bytes(m, a, 2)
  {
    hide Plus;
    hide Offset;
    OffsetIs(Xor2(a));
    HalfOffset(a, 0);
    HalfOffset(a, 1);
    Xor2Offset(a);
    HalfSwap(a % WINDOW);
    assert LoadHalf(m, a)[0] == Byte(m, Plus(a, 0)) && LoadHalf(m, a)[1] == Byte(m, Plus(a, 1));
  }

  lemma Xor2Offset(a: Address)
    ensures Xor2(a) % WINDOW == Xor2(a % WINDOW) && Xor3(a) % WINDOW == Xor3(a % WINDOW)
  {
    var q, r := a / WINDOW, a % WINDOW;
    assert a == WINDOW * q + r;
    assert a % 4 == r % 4;
    ModIs(Xor2(a), q, Xor2(r));
    ModIs(Xor3(a), q, Xor3(r));
  }

  lemma ByteIsByte(m: Memory, a: Address)
    ensures LoadByte(m, a) == Byte(m, a)
  {
    OffsetIs(Xor3(a));
    Xor2Offset(a);
  }

  lemma WordAligned(a: Address)
    requires Aligned(a, 4)
    ensures Aligned(Plus(a, 4), 4)
  {
    assert a + 4 < SPACE ==> Plus(a, 4) == a + 4;
  }

  lemma LongAligned(a: Address)
    requires Aligned(a, 8)
    ensures Aligned(a, 4) && Aligned(Plus(a, 4), 4)
  {
    hide Plus;
    assert a == 4 * (2 * (a / 8));
    WordAligned(a);
  }

  lemma LongIsBytes(m: Memory, a: Address)
    requires Aligned(a, 8)
    ensures LoadLong(m, a) == Bytes(m, a, 8)
  {
    hide Byte, Plus, Aligned, LoadWord;
    LongAligned(a);
    WordIsBytes(m, a);
    WordIsBytes(m, Plus(a, 4));
    forall i | 0 <= i < 4
      ensures Plus(Plus(a, 4), i) == Plus(a, 4 + i)
    {
      PlusPlus(a, 4, i);
    }
  }

  /** What a store leaves: `bytes` at the addresses from `a` on, all others as before. */
  ghost predicate Stored(m: Memory, m': Memory, a: Address, bytes: Lane) {
    forall x: Address ::
      Byte(m', x) == if Distance(a, x) < |bytes| then bytes[Distance(a, x)] else Byte(m, x)
  }

  lemma Swapped(o: nat, x: nat)
    requires o % 4 == 0 && o + 4 <= WINDOW && x < WINDOW
    ensures Xor3(x) == if o <= x < o + 4 then o + 3 - (x - o) else Xor3(x)
    ensures o <= Xor3(x) < o + 4 <==> o <= x < o + 4
  {
  }

  lemma StoreWordStores(m: Memory, a: Address, w: Word)
    requires Aligned(a, 4)
    ensures Stored(m, StoreWord(m, a, w), a, w)
  {
    hide Plus;
    OffsetIs(a);
    WordOffset(a, 0);
    var o := a % WINDOW;
    forall x: Address
      ensures Byte(StoreWord(m, a, w), x) == if Distance(a, x) < 4 then w[Distance(a, x)] else Byte(m, x)
    {
      Swapped(o, x % WINDOW);
    }
  }

  lemma StoreHalfStores(m: Memory, a: Address, w: Lane)
    requires Aligned(a, 2) && |w| == 2
    ensures Stored(m, StoreHalf(m, a, w), a, w)
  {
    hide Plus, Offset;
    OffsetIs(Xor2(a));
    HalfOffset(a, 0);
    Xor2Offset(a);
    var o := a % WINDOW;
    HalfSwap(o);
    forall x: Address
      ensures Byte(StoreHalf(m, a, w), x) == if Distance(a, x) < 2 then w[Distance(a, x)] else Byte(m, x)
    {
      SwapInjective(o, x % WINDOW);
      SwapInjective(o + 1, x % WINDOW);
    }
  }

  lemma SwapInjective(o: nat, x: nat)
    requires o < WINDOW && x < WINDOW
    ensures Xor3(o) == Xor3(x) <==> o == x
    ensures Xor3(o) < WINDOW && Xor3(x) < WINDOW
  {
  }

  lemma DistanceZero(a: Address, x: Address)
    ensures Distance(a, x) == 0 <==> a % WINDOW == x % WINDOW
  {
  }

  lemma StoreByteStores(m: Memory, a: Address, b: bv8)
    ensures Stored(m, StoreByte(m, a, b), a, [b])
  {
    hide Offset, Distance, Xor3;
    OffsetIs(Xor3(a));
    Xor2Offset(a);
    forall x: Address
      ensures Byte(StoreByte(m, a, b), x) == if Distance(a, x) < 1 then [b][Distance(a, x)] else Byte(m, x)
    {
      SwapInjective(a % WINDOW, x % WINDOW);
      DistanceZero(a, x);
    }
  }

  lemma DistancePast(a: Address, x: Address, k: nat)
    requires k < WINDOW
    ensures Distance(Plus(a, k), x) == if Distance(a, x) >= k then Distance(a, x) - k else Distance(a, x) + WINDOW - k
  {
    hide Plus;
    PlusOffset(a, k);
  }

  /** Two stores side by side are one store. */
  lemma StoredTogether(m: Memory, m1: Memory, m2: Memory, a: Address, low: Lane, high: Lane)
    requires Stored(m, m1, Plus(a, |low|), high) && Stored(m1, m2, a, low) && |low| + |high| <= WINDOW && |low| < WINDOW
    ensures Stored(m, m2, a, low + high)
  {
    hide Byte, Distance, Plus;
    forall x: Address
      ensures Byte(m2, x) == if Distance(a, x) < |low + high| then (low + high)[Distance(a, x)] else Byte(m, x)
    {
      DistancePast(a, x, |low|);
    }
  }

  lemma StoreLongStores(m: Memory, a: Address, w: Long)
    requires Aligned(a, 4)
    ensures Stored(m, StoreLong(m, a, w), a, w)
  {
    hide StoreWord, Stored, Plus, Aligned;
    WordAligned(a);
    var m1 := StoreWord(m, Plus(a, 4), w[4..]);
    StoreWordStores(m, Plus(a, 4), w[4..]);
    StoreWordStores(m1, a, w[..4]);
    StoredTogether(m, m1, StoreLong(m, a, w), a, w[..4], w[4..]);
    assert w[..4] + w[4..] == w;
  }

  // ----- Unaligned accesses -----

  function Down4(a: Address): Address {
    a - a % 4
  }

  function Down8(a: Address): Address {
    a - a % 8
  }

  function Lwl(m: Memory, prior: Long, a: Address): Long {
    var loaded := LoadWord(m, Down4(a));
    var misalignment := a % 4;
    var masked := And(prior, ZeroExtend(Not(Lsl(Ones(4), misalignment))));
    SignExtend(Low(Or(masked, ZeroExtend(Lsl(loaded, misalignment)))))
  }

  function Lwr(m: Memory, prior: Long, a: Address): Long {
    var loaded := LoadWord(m, Down4(a));
    var misalignment := a % 4;
    var masked := And(prior, ZeroExtend(Not(Lsr(Ones(4), 3 - misalignment))));
    SignExtend(Low(Or(masked, ZeroExtend(Lsr(loaded, 3 - misalignment)))))
  }

  function Swl(m: Memory, a: Address, val: Long): Memory {
    var initial := LoadWord(m, Down4(a));
    var misalignment := a % 4;
    StoreWord(m, Down4(a), Or(And(initial, Not(Lsr(Ones(4), misalignment))), Lsr(Low(val), misalignment)))
  }

  function Swr(m: Memory, a: Address, val: Long): Memory {
    var initial := LoadWord(m, Down4(a));
    var misalignment := a % 4;
    StoreWord(m, Down4(a), Or(And(initial, Not(Lsl(Ones(4), 3 - misalignment))), Lsl(Low(val), 3 - misalignment)))
  }

  function Ldl(m: Memory, prior: Long, a: Address): Long {
    var loaded := LoadLong(m, Down8(a));
    Or(And(prior, Not(Lsl(Ones(8), a % 8))), Lsl(loaded, a % 8))
  }

  function Ldr(m: Memory, prior: Long, a: Address): Long {
    var loaded := LoadLong(m, Down8(a));
    Or(And(prior, Not(Lsr(Ones(8), 7 - a % 8))), Lsr(loaded, 7 - a % 8))
  }

  function Sdl(m: Memory, a: Address, val: Long): Memory {
    var initial := LoadLong(m, Down8(a));
    StoreLong(m, Down8(a), Or(And(initial, Not(Lsr(Ones(8), a % 8))), Lsr(val, a % 8)))
  }

  function Sdr(m: Memory, a: Address, val: Long): Memory {
    var initial := LoadLong(m, Down8(a));
    StoreLong(m, Down8(a), Or(And(initial, Not(Lsl(Ones(8), 7 - a % 8))), Lsl(val, 7 - a % 8)))
  }

  // ----- What they do to the bytes -----

  lemma LowMerge(prior: Long, mask: Word, v: Word)
    ensures Low(Or(And(prior, ZeroExtend(mask)), ZeroExtend(v))) == Or(And(Low(prior), mask), v)
  {
    var x, y := Or(And(prior, ZeroExtend(mask)), ZeroExtend(v)), Or(And(Low(prior), mask), v);
    forall i | 0 <= i < 4
      ensures Low(x)[i] == y[i]
    {
      assert x[4 + i] == (prior[4 + i] & mask[i]) | v[i];
    }
  }

  lemma LwlBytes(m: Memory, prior: Long, a: Address)
    ensures Lwl(m, prior, a) == Lanes.SignExtend(Bytes(m, Down4(a), 4)[a % 4..] + Low(prior)[4 - a % 4..])
  {
    hide LoadWord, ZeroExtend, Or, And, Not, Lsl, Low, Bytes;
    WordIsBytes(m, Down4(a));
    var loaded := LoadWord(m, Down4(a));
    LowMerge(prior, Not(Lsl(Ones(4), a % 4)), Lsl(loaded, a % 4));
    MergeLeft(Low(prior), loaded, a % 4);
  }

  lemma LwrBytes(m: Memory, prior: Long, a: Address)
    ensures Lwr(m, prior, a) == Lanes.SignExtend(Low(prior)[..3 - a % 4] + Bytes(m, Down4(a), 4)[..a % 4 + 1])
  {
    hide LoadWord, ZeroExtend, Or, And, Not, Lsr, Low, Bytes;
    WordIsBytes(m, Down4(a));
    var loaded := LoadWord(m, Down4(a));
    LowMerge(prior, Not(Lsr(Ones(4), 3 - a % 4)), Lsr(loaded, 3 - a % 4));
    MergeRight(Low(prior), loaded, 3 - a % 4);
  }

  /** Bytes across a boundary. */
  lemma BytesAcross(m: Memory, d: Address, n: nat, k: nat)
    requires k <= n < WINDOW
    ensures Bytes(m, d, n)[k..] + Bytes(m, Plus(d, n), n)[..k] == Bytes(m, Plus(d, k), n)
  {
    hide Byte;
    var x, y := Bytes(m, d, n)[k..] + Bytes(m, Plus(d, n), n)[..k], Bytes(m, Plus(d, k), n);
    forall i | 0 <= i < n
      ensures x[i] == y[i]
    {
      PlusPlus(d, k, i);
      if i >= n - k {
        PlusPlus(d, n, i - (n - k));
      }
    }
  }

  lemma PlusPlus(a: Address, j: nat, k: nat)
    ensures Plus(Plus(a, j), k) == Plus(a, j + k)
  {
  }

  /** The right half of an unaligned word lies in the next aligned word, unless the
      address is aligned. */
  lemma RightHalf4(a: Address)
    ensures a % 4 == 0 ==> Down4(Plus(a, 3)) == a && Plus(a, 3) % 4 == 3
    ensures a % 4 != 0 ==> Down4(Plus(a, 3)) == Plus(Down4(a), 4) && Plus(a, 3) % 4 == a % 4 - 1
  {
    assert Plus(a, 3) == if a + 3 < SPACE then a + 3 else a + 3 - SPACE;
  }

  /** `lwl` then `lwr` loads the unaligned word, sign extended, whatever was there. */
  lemma LoadsUnalignedWord(m: Memory, prior: Long, a: Address)
    ensures Lwr(m, Lwl(m, prior, a), Plus(a, 3)) == Lanes.SignExtend(Bytes(m, a, 4))
  {
    hide Lwl, Lwr, Bytes, Down4, Plus;
    var left := Lwl(m, prior, a);
    LwlBytes(m, prior, a);
    LwrBytes(m, left, Plus(a, 3));
    RightHalf4(a);
    var k := a % 4;
    var word := Bytes(m, Down4(a), 4)[k..] + Low(prior)[4 - k..];
    assert Low(left) == word;
    if k == 0 {
      assert Bytes(m, a, 4)[..4] == Bytes(m, a, 4);
    } else {
      BytesAcross(m, Down4(a), 4, k);
      assert Plus(Down4(a), k) == a by { PlusDown4(a); }
      assert word[..4 - k] == Bytes(m, Down4(a), 4)[k..];
    }
  }

  lemma PlusDown4(a: Address)
    ensures Plus(Down4(a), a % 4) == a
  {
  }

  /** Storing the lower part and then the upper part is one store. */
  lemma StoredInOrder(m: Memory, m1: Memory, m2: Memory, a: Address, low: Lane, high: Lane)
    requires Stored(m, m1, a, low) && Stored(m1, m2, Plus(a, |low|), high) && |low| + |high| <= WINDOW && |low| < WINDOW
    ensures Stored(m, m2, a, low + high)
  {
    hide Byte, Distance, Plus;
    forall x: Address
      ensures Byte(m2, x) == if Distance(a, x) < |low + high| then (low + high)[Distance(a, x)] else Byte(m, x)
    {
      DistancePast(a, x, |low|);
    }
  }

  /** Storing a unit whose first or last bytes are the old ones stores only the others. */
  lemma StoredLater(m: Memory, m': Memory, d: Address, n: nat, k: nat, bytes: Lane)
    requires k <= n < WINDOW && |bytes| == n - k
    requires Stored(m, m', d, Bytes(m, d, n)[..k] + bytes)
    ensures Stored(m, m', Plus(d, k), bytes)
  {
    hide Byte, Distance, Plus;
    forall x: Address
      ensures Byte(m', x) == if Distance(Plus(d, k), x) < n - k then bytes[Distance(Plus(d, k), x)] else Byte(m, x)
    {
      DistancePast(d, x, k);
      if Distance(d, x) < n {
        ByteAtDistance(m, d, x);
      }
    }
  }

  lemma StoredEarlier(m: Memory, m': Memory, d: Address, n: nat, k: nat, bytes: Lane)
    requires k <= n < WINDOW && |bytes| == k
    requires Stored(m, m', d, bytes + Bytes(m, d, n)[k..])
    ensures Stored(m, m', d, bytes)
  {
    hide Byte, Distance, Plus;
    forall x: Address
      ensures Byte(m', x) == if Distance(d, x) < k then bytes[Distance(d, x)] else Byte(m, x)
    {
      if Distance(d, x) < n {
        ByteAtDistance(m, d, x);
      }
    }
  }

  /** Addresses at the same place in the window hold the same byte. */
  lemma ByteAtDistance(m: Memory, d: Address, x: Address)
    ensures Byte(m, Plus(d, Distance(d, x))) == Byte(m, x)
  {
    hide Plus;
    PlusOffset(d, Distance(d, x));
  }

  lemma SwlStores(m: Memory, a: Address, val: Long)
    ensures Stored(m, Swl(m, a, val), a, Low(val)[..4 - a % 4])
  {
    hide LoadWord, StoreWord, Or, And, Not, Lsr, Bytes, Down4, Stored;
    Down4Aligned(a);
    var initial, k := LoadWord(m, Down4(a)), a % 4;
    WordIsBytes(m, Down4(a));
    MergeRight(initial, Low(val), k);
    StoreWordStores(m, Down4(a), initial[..k] + Low(val)[..4 - k]);
    StoredLater(m, Swl(m, a, val), Down4(a), 4, k, Low(val)[..4 - k]);
    PlusDown4(a);
  }

  lemma Down4Aligned(a: Address)
    ensures Aligned(Down4(a), 4)
  {
  }

  lemma SwrStores(m: Memory, a: Address, val: Long)
    ensures Stored(m, Swr(m, a, val), Down4(a), Low(val)[3 - a % 4..])
  {
    hide LoadWord, StoreWord, Or, And, Not, Lsl, Bytes, Down4, Stored;
    Down4Aligned(a);
    var initial, k := LoadWord(m, Down4(a)), a % 4;
    WordIsBytes(m, Down4(a));
    MergeLeft(initial, Low(val), 3 - k);
    assert initial[4 - (3 - k)..] == initial[k + 1..];
    StoreWordStores(m, Down4(a), Low(val)[3 - k..] + initial[k + 1..]);
    StoredEarlier(m, Swr(m, a, val), Down4(a), 4, k + 1, Low(val)[3 - k..]);
  }

  lemma StoredTwice(m: Memory, m1: Memory, m2: Memory, a: Address, bytes: Lane)
    requires Stored(m, m1, a, bytes) && Stored(m1, m2, a, bytes)
    ensures Stored(m, m2, a, bytes)
  {
    hide Byte, Distance;
  }

  /** `swl` then `swr` writes exactly the four bytes of the unaligned word. */
  lemma StoresUnalignedWord(m: Memory, a: Address, val: Long)
    ensures Stored(m, Swr(Swl(m, a, val), Plus(a, 3), val), a, Low(val))
  {
    hide Swl, Swr, Stored, Down4, Plus;
    var k, left := a % 4, Swl(m, a, val);
    SwlStores(m, a, val);
    SwrStores(left, Plus(a, 3), val);
    RightHalf4(a);
    if k == 0 {
      assert Low(val)[..4] == Low(val) && Low(val)[0..] == Low(val);
      StoredTwice(m, left, Swr(left, Plus(a, 3), val), a, Low(val));
    } else {
      PlusDown4(a);
      assert Plus(Down4(a), 4) == Plus(a, 4 - k) by { PlusPlus(Down4(a), k, 4 - k); }
      StoredInOrder(m, left, Swr(left, Plus(a, 3), val), a, Low(val)[..4 - k], Low(val)[4 - k..]);
      assert Low(val)[..4 - k] + Low(val)[4 - k..] == Low(val);
    }
  }

  // ----- Doublewords -----

  lemma Down8Aligned(a: Address)
    ensures Aligned(Down8(a), 8) && Aligned(Down8(a), 4) && Plus(Down8(a), a % 8) == a
  {
  }

  lemma RightHalf8(a: Address)
    ensures a % 8 == 0 ==> Down8(Plus(a, 7)) == a && Plus(a, 7) % 8 == 7
    ensures a % 8 != 0 ==> Down8(Plus(a, 7)) == Plus(Down8(a), 8) && Plus(a, 7) % 8 == a % 8 - 1
  {
    assert Plus(a, 7) == if a + 7 < SPACE then a + 7 else a + 7 - SPACE;
  }

  lemma LdlBytes(m: Memory, prior: Long, a: Address)
    ensures Ldl(m, prior, a) == Bytes(m, Down8(a), 8)[a % 8..] + prior[8 - a % 8..]
  {
    hide LoadLong, Or, And, Not, Lsl, Bytes, Down8;
    Down8Aligned(a);
    LongIsBytes(m, Down8(a));
    MergeLeft(prior, LoadLong(m, Down8(a)), a % 8);
  }

  lemma LdrBytes(m: Memory, prior: Long, a: Address)
    ensures Ldr(m, prior, a) == prior[..7 - a % 8] + Bytes(m, Down8(a), 8)[..a % 8 + 1]
  {
    hide LoadLong, Or, And, Not, Lsr, Bytes, Down8;
    Down8Aligned(a);
    LongIsBytes(m, Down8(a));
    MergeRight(prior, LoadLong(m, Down8(a)), 7 - a % 8);
  }

  /** `ldl` then `ldr` loads the unaligned doubleword, whatever was there. */
  lemma LoadsUnalignedLong(m: Memory, prior: Long, a: Address)
    ensures Ldr(m, Ldl(m, prior, a), Plus(a, 7)) == Bytes(m, a, 8)
  {
    hide Ldl, Ldr, Bytes, Down8, Plus;
    var left, k := Ldl(m, prior, a), a % 8;
    LdlBytes(m, prior, a);
    LdrBytes(m, left, Plus(a, 7));
    RightHalf8(a);
    if k == 0 {
      assert Bytes(m, a, 8)[..8] == Bytes(m, a, 8);
    } else {
      BytesAcross(m, Down8(a), 8, k);
      Down8Aligned(a);
      assert left[..8 - k] == Bytes(m, Down8(a), 8)[k..];
    }
  }

  lemma SdlStores(m: Memory, a: Address, val: Long)
    ensures Stored(m, Sdl(m, a, val), a, val[..8 - a % 8])
  {
    hide LoadLong, StoreLong, Or, And, Not, Lsr, Bytes, Down8, Stored, Plus;
    Down8Aligned(a);
    var initial, k := LoadLong(m, Down8(a)), a % 8;
    LongIsBytes(m, Down8(a));
    MergeRight(initial, val, k);
    StoreLongStores(m, Down8(a), initial[..k] + val[..8 - k]);
    StoredLater(m, Sdl(m, a, val), Down8(a), 8, k, val[..8 - k]);
  }

  lemma SdrStores(m: Memory, a: Address, val: Long)
    ensures Stored(m, Sdr(m, a, val), Down8(a), val[7 - a % 8..])
  {
    hide LoadLong, StoreLong, Or, And, Not, Lsl, Bytes, Down8, Stored, Plus;
    Down8Aligned(a);
    var initial, k := LoadLong(m, Down8(a)), a % 8;
    LongIsBytes(m, Down8(a));
    MergeLeft(initial, val, 7 - k);
    assert initial[8 - (7 - k)..] == initial[k + 1..];
    StoreLongStores(m, Down8(a), val[7 - k..] + initial[k + 1..]);
    StoredEarlier(m, Sdr(m, a, val), Down8(a), 8, k + 1, val[7 - k..]);
  }

  /** `sdl` then `sdr` writes exactly the eight bytes of the unaligned doubleword. */
  lemma StoresUnalignedLong(m: Memory, a: Address, val: Long)
    ensures Stored(m, Sdr(Sdl(m, a, val), Plus(a, 7), val), a, val)
  {
    hide Sdl, Sdr, Stored, Down8, Plus;
    var k, left := a % 8, Sdl(m, a, val);
    SdlStores(m, a, val);
    SdrStores(left, Plus(a, 7), val);
    RightHalf8(a);
    if k == 0 {
      assert val[..8] == val && val[0..] == val;
      StoredTwice(m, left, Sdr(left, Plus(a, 7), val), a, val);
    } else {
      Down8Aligned(a);
      PlusPlus(Down8(a), k, 8 - k);
      StoredInOrder(m, left, Sdr(left, Plus(a, 7), val), a, val[..8 - k], val[8 - k..]);
      assert val[..8 - k] + val[8 - k..] == val;
    }
  }
}
