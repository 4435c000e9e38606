/** Where decompressed fragments are put in the ROM image: one after the other, above any
    real address, each never written again. */
module SyntheticRom {
  import opened Machine
  import opened Synthesis

  const BASE := 0xFE00_0000

  /** A fragment and where it was put. */
  datatype Placed = Placed(at: nat, body: seq<Byte>)

  predicate Holds(rom: seq<Byte>, p: Placed) {
    p.at + |p.body| <= |rom| && rom[p.at..p.at + |p.body|] == p.body
  }

  /** The image as the fragments must stay in it: aligned, in order, apart, intact, and
      below where the next one goes. */
  predicate Intact(rom: seq<Byte>, placed: seq<Placed>, next: nat) {
    && BASE <= next && Aligned(next)
    && (forall i :: 0 <= i < |placed| ==>
          BASE <= placed[i].at && Aligned(placed[i].at) && placed[i].at + |placed[i].body| <= next
            && placed[i].at + |placed[i].body| < WORD)
    && (forall i, j :: 0 <= i < j < |placed| ==> placed[i].at + |placed[i].body| <= placed[j].at)
    && (forall i :: 0 <= i < |placed| ==> Holds(rom, placed[i]))
  }

  /** The image with `body` written at `at`, grown with zeros if it was too short. */
  function Written(rom: seq<Byte>, at: nat, body: seq<Byte>): (r: seq<Byte>)
    ensures |r| == (if |rom| < at + |body| then at + |body| else |rom|)
    ensures r[at..at + |body|] == body
    ensures forall k :: 0 <= k < |rom| && (k < at || k >= at + |body|) ==> r[k] == rom[k]
  {
    var grown := if |rom| < at + |body| then rom + seq(at + |body| - |rom|, _ => 0) else rom;
    grown[..at] + body + grown[at + |body|..]
  }

  /** Writing past all fragments leaves them intact. */
  lemma WrittenIntact(rom: seq<Byte>, placed: seq<Placed>, next: nat, body: seq<Byte>)
    requires Intact(rom, placed, next) && next + AlignUp4(|body|) < WORD
    ensures Intact(Written(rom, next, body), placed + [Placed(next, body)], next + AlignUp4(|body|))
  {
    hide Written, AlignUp4, Aligned;
    AlignedSum(next, AlignUp4(|body|));
    var r, all := Written(rom, next, body), placed + [Placed(next, body)];
    forall i | 0 <= i < |all| ensures Holds(r, all[i]) {
      if i < |placed| {
        var p := placed[i];
        assert Holds(rom, p);
        forall k | 0 <= k < |p.body| ensures r[p.at..p.at + |p.body|][k] == p.body[k] {
          assert rom[p.at..p.at + |p.body|][k] == rom[p.at + k] == r[p.at + k];
        }
      }
    }
  }

  /** A function's words are those of the image at its address. */
  lemma PieceInRom(rom: seq<Byte>, f: Placed, p: Piece)
    requires Holds(rom, f) && InBody(|f.body|, p)
    ensures f.at + p.end <= |rom| && rom[f.at + p.start..f.at + p.end] == f.body[p.start..p.end]
  {
    forall k | p.start <= k < p.end ensures rom[f.at + k] == f.body[k] {
      assert rom[f.at..f.at + |f.body|][k] == rom[f.at + k];
    }
  }

  class Allocator {
    var rom: seq<Byte>
    var next: nat
    var placed: seq<Placed>

    constructor (rom: seq<Byte>)
      ensures Intact(this.rom, placed, next) && this.rom == rom && placed == [] && next == BASE
    {
      this.rom, next, placed := rom, BASE, [];
    }

    /** Puts a fragment into the image; fails, and from then on always, once the addresses
        below 4 GB are used up. */
    method Stash(body: seq<Byte>) returns (r: Option<Addr>)
      requires Intact(rom, placed, next)
      modifies this
      ensures r.Some? <==> old(next) + AlignUp4(|body|) < WORD
      ensures next == old(next) + AlignUp4(|body|)
      ensures r.Some? ==> r.value == old(next) && placed == old(placed) + [Placed(r.value, body)]
                          && rom == Written(old(rom), r.value, body)
      ensures r.None? ==> placed == old(placed) && rom == old(rom)
      ensures Intact(rom, placed, next)
    {
      hide Written;
      var at := Low(next);
      ghost var before := next;
      next := next + AlignUp4(|body|);
      if next > 0xFFFF_FFFF {
        StillIntact(rom, placed, before, next, |body|);
        return None;
      }
      WrittenIntact(rom, placed, before, body);
      rom := Written(rom, at, body);
      placed := placed + [Placed(at, body)];
      r := Some(at);
    }
  }

  lemma StillIntact(rom: seq<Byte>, placed: seq<Placed>, next: nat, later: nat, n: nat)
    requires Intact(rom, placed, next) && later == next + AlignUp4(n)
    ensures Intact(rom, placed, later)
  {
    hide Holds;
    AlignedSum(next, AlignUp4(n));
  }
}
