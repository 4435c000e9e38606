/** Little-endian words and string tables: what is appended to a buffer can be read
    back from it. */
module Binary {
  import opened Machine

  type Text = seq<Byte>

  function Split(w: Addr): (r: seq<Byte>)
    ensures |r| == 4
  {
    [w % 0x100, (w / 0x100) % 0x100, (w / 0x1_0000) % 0x100, w / 0x100_0000]
  }

  function WordAt(data: seq<Byte>, at: nat): Addr
    requires at + 4 <= |data|
  {
    var a: int, b: int, c: int, d: int := data[at], data[at + 1], data[at + 2], data[at + 3];
    a + 0x100 * b + 0x1_0000 * c + 0x100_0000 * d
  }

  lemma SplitJoins(w: Addr)
    ensures WordAt(Split(w), 0) == w
  {
    var x, y, z := w / 0x100, w / 0x1_0000, w / 0x100_0000;
    assert w == 0x100 * x + w % 0x100 && x == 0x100 * y + x % 0x100 && y == 0x100 * z + y % 0x100;
  }

  /** Words in the buffer. */
  function Bin(words: seq<Addr>): (r: seq<Byte>)
    ensures |r| == 4 * |words|
  {
    if words == [] then [] else Bin(words[..|words| - 1]) + Split(words[|words| - 1])
  }

  function WordsAt(data: seq<Byte>, at: nat, n: nat): (r: seq<Addr>)
    requires at + 4 * n <= |data|
    ensures |r| == n
  {
    if n == 0 then [] else WordsAt(data, at, n - 1) + [WordAt(data, at + 4 * (n - 1))]
  }

  /** `n` words at the cursor, if the buffer holds them. */
  function ReadWords(data: seq<Byte>, at: nat, n: nat): (r: Option<seq<Addr>>)
    ensures r.Some? ==> |r.value| == n && at + 4 * n <= |data|
  {
    if at + 4 * n > |data| then None else Some(WordsAt(data, at, n))
  }

  lemma WordWithin(pre: seq<Byte>, w: Addr, post: seq<Byte>)
    ensures |pre + Split(w) + post| >= |pre| + 4 && WordAt(pre + Split(w) + post, |pre|) == w
  {
    SplitJoins(w);
    var data := pre + Split(w) + post;
    assert forall k :: 0 <= k < 4 ==> data[|pre| + k] == Split(w)[k];
  }

  /** Words that were appended are read back. */
  lemma {:induction false} ReadBack(pre: seq<Byte>, words: seq<Addr>, post: seq<Byte>)
    ensures WordsAt(pre + Bin(words) + post, |pre|, |words|) == words
    decreases |words|
  {
    hide WordAt, Split;
    if words != [] {
      var n := |words| - 1;
      var init, last := words[..n], words[n];
      var data := pre + Bin(words) + post;
      assert data == pre + Bin(init) + (Split(last) + post);
      ReadBack(pre, init, Split(last) + post);
      assert data == (pre + Bin(init)) + Split(last) + post;
      WordWithin(pre + Bin(init), last, post);
      assert words == init + [last];
    }
  }

  lemma {:induction false} BinConcat(x: seq<Addr>, y: seq<Addr>)
    ensures Bin(x + y) == Bin(x) + Bin(y)
    decreases |y|
  {
    hide Split;
    if y == [] {
      assert x + y == x;
    } else {
      var n := |y| - 1;
      BinConcat(x, y[..n]);
      assert (x + y)[..|x + y| - 1] == x + y[..n];
    }
  }

  // ----- String tables -----

  function Concat(names: seq<Text>): seq<Byte> {
    if names == [] then [] else Concat(names[..|names| - 1]) + names[|names| - 1]
  }

  /** Where name `k` begins. */
  function Start(names: seq<Text>, k: nat): nat
    requires k <= |names|
  {
    |Concat(names[..k])|
  }

  function AlignUp(n: nat): (r: nat)
    ensures n <= r < n + 4 && r % 4 == 0
  {
    n + (4 - n % 4) % 4
  }

  function Zeros(n: nat): (r: seq<Byte>)
    ensures |r| == n
  {
    seq(n, _ => 0)
  }

  /** The string table, padded to whole words. */
  function StringTable(names: seq<Text>): (r: seq<Byte>)
    ensures |r| % 4 == 0
  {
    Concat(names) + Zeros(AlignUp(|Concat(names)|) - |Concat(names)|)
  }

  lemma {:induction false} ConcatSplits(names: seq<Text>, k: nat)
    requires k <= |names|
    ensures Concat(names) == Concat(names[..k]) + Concat(names[k..])
    decreases |names| - k
  {
    if k == |names| {
      assert names[..k] == names;
    } else {
      var n := |names| - 1;
      ConcatPrefix(names, k);
    }
  }

  lemma {:induction false} ConcatPrefix(names: seq<Text>, k: nat)
    requires k < |names|
    ensures Concat(names) == Concat(names[..k]) + Concat(names[k..])
    decreases |names|
  {
    var n := |names| - 1;
    var init := names[..n];
    assert names[k..][..|names[k..]| - 1] == init[k..] && names[k..][|names[k..]| - 1] == names[n];
    if k < n {
      ConcatPrefix(init, k);
      assert init[..k] == names[..k];
    } else {
      assert init[k..] == [];
      assert names[..k] == init;
    }
  }

  /** Each name can be cut out of the table at its start. */
  lemma NameAt(names: seq<Text>, k: nat)
    requires k < |names|
    ensures Start(names, k) + |names[k]| <= |Concat(names)| <= |StringTable(names)|
    ensures StringTable(names)[Start(names, k)..Start(names, k) + |names[k]|] == names[k]
  {
    ConcatSplits(names, k + 1);
    assert names[..k + 1][..k] == names[..k];
    assert Concat(names[..k + 1]) == Concat(names[..k]) + names[k];
    var pre, rest := Concat(names[..k]), Concat(names[k + 1..]) + Zeros(AlignUp(|Concat(names)|) - |Concat(names)|);
    assert StringTable(names) == pre + names[k] + rest;
  }
}
