/** Return addresses of sections that are loaded elsewhere than they were linked: which of
    them rebasing takes for addresses of the section itself. */
module Rebasing {
  import opened Machine
  import opened Translator
  import opened Host
  import opened Points

  /** Rebasing leaves an address alone exactly if the section has not moved, or the address
      is not one where it is loaded. */
  lemma RebasedExactly(base: Addr, ram: Addr, size: nat, a: Addr)
    ensures Rebased(base, ram, size, a) == a <==> base == ram || Minus(a, base) >= size
  {
    AddMinus(a, base);
  }

  /** All addresses from `lo` to `hi` are left alone exactly if the section has not moved or
      is loaded apart from them; in particular its own link addresses. */
  lemma RangeRebasedExactly(base: Addr, ram: Addr, size: nat, lo: Addr, hi: nat)
    requires 0 < size && base + size <= WORD && lo < hi <= WORD
    ensures (forall a: Addr :: lo <= a < hi ==> Rebased(base, ram, size, a) == a)
            <==> base == ram || base + size <= lo || hi <= base
  {
    forall a: Addr ensures Rebased(base, ram, size, a) == a <==> base == ram || !(base <= a < base + size) {
      RebasedExactly(base, ram, size, a);
    }
    if base != ram && lo < base + size && base < hi {
      var a: Addr := if lo < base then base else lo;
      assert lo <= a < hi && Rebased(base, ram, size, a) != a;
    }
  }

  /** A section of 8 KiB moved by 4 KiB: a return address in its upper half, as linked, is
      taken for one in its lower half. */
  lemma OverlapIsMisled()
    ensures Rebased(0x8000_1000, 0x8000_0000, 0x2000, 0x8000_1800) == 0x8000_0800
  {
  }

  /** What a loader can check of a function: its section stays, or lies apart from a range
      that holds all return addresses. */
  lemma ApartRebasesNothing(p: Program, fn: nat, lo: Addr, hi: nat)
    requires fn < |p.funcs| && fn < |p.bases| && lo < hi <= WORD && forall a :: a in p.known ==> lo <= a < hi
    requires var base, size := p.bases[fn], p.funcs[fn].sectionSize;
             base == p.funcs[fn].sectionRam || (0 < size && base + size <= WORD && (base + size <= lo || hi <= base))
    ensures RebasesNothing(p, fn)
  {
    var f := p.funcs[fn];
    if p.bases[fn] != f.sectionRam {
      RangeRebasedExactly(p.bases[fn], f.sectionRam, f.sectionSize, lo, hi);
    }
  }
}
