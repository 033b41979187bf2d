// `exit_idempotency_key` and the entry key (src/runtime.rs): both hash a plain
// concatenation of fields.  SHA-256 is taken as injective, so a key is the
// concatenated bytes, and the question is whether the fields can be read back.
module ExitKeys {
  newtype byte = x: int | 0 <= x < 256

  type Bytes = seq<byte>

  // `to_le_bytes` of an integer that fits in `width` bytes.
  function LittleEndian(n: nat, width: nat): (b: Bytes)
    ensures |b| == width
  {
    if width == 0 then [] else [(n % 256) as byte] + LittleEndian(n / 256, width - 1)
  }

  function Pow256(k: nat): nat {
    if k == 0 then 1 else 256 * Pow256(k - 1)
  }

  function ExitKey(positionId: Bytes, remaining: nat, reason: Bytes, attempt: nat): Bytes {
    positionId + LittleEndian(remaining, 8) + reason + LittleEndian(attempt, 4)
  }

  function EntryKey(signalId: Bytes, mint: Bytes, amount: nat): Bytes {
    signalId + mint + LittleEndian(amount, 8)
  }

  lemma {:induction false} LittleEndianInjective(a: nat, b: nat, width: nat)
    requires a < Pow256(width) && b < Pow256(width)
    requires LittleEndian(a, width) == LittleEndian(b, width)
    ensures a == b
  {
    if width > 0 {
      assert LittleEndian(a, width)[0] == LittleEndian(b, width)[0];
      assert LittleEndian(a, width)[1..] == LittleEndian(a / 256, width - 1);
      assert LittleEndian(b, width)[1..] == LittleEndian(b / 256, width - 1);
      LittleEndianInjective(a / 256, b / 256, width - 1);
    }
  }

  lemma SplitFront(a: Bytes, b: Bytes, c: Bytes, d: Bytes)
    requires |a| == |c| && a + b == c + d
    ensures a == c && b == d
  {
    assert a == (a + b)[..|a|] && b == (a + b)[|a|..];
    assert c == (c + d)[..|a|] && d == (c + d)[|a|..];
  }

  lemma Pow256Values()
    ensures Pow256(8) == 0x1_0000_0000_0000_0000 && Pow256(4) == 0x1_0000_0000
  {
    assert Pow256(4) == 0x1_0000_0000;
    assert Pow256(8) == 256 * (256 * (256 * (256 * Pow256(4))));
  }

  // Position ids are UUIDs, all of one length: then two exit keys agree only when every field agrees.
  lemma ExitKeyInjective(p: Bytes, r: nat, why: Bytes, n: nat, p': Bytes, r': nat, why': Bytes, n': nat)
    requires |p| == |p'|
    requires r < Pow256(8) && r' < Pow256(8) && n < Pow256(4) && n' < Pow256(4)
    ensures ExitKey(p, r, why, n) == ExitKey(p', r', why', n') <==> p == p' && r == r' && why == why' && n == n'
  {
    if ExitKey(p, r, why, n) == ExitKey(p', r', why', n') {
      var tail, tail' := why + LittleEndian(n, 4), why' + LittleEndian(n', 4);
      assert ExitKey(p, r, why, n) == p + (LittleEndian(r, 8) + tail);
      assert ExitKey(p', r', why', n') == p' + (LittleEndian(r', 8) + tail');
      SplitFront(p, LittleEndian(r, 8) + tail, p', LittleEndian(r', 8) + tail');
      SplitFront(LittleEndian(r, 8), tail, LittleEndian(r', 8), tail');
      SplitFront(why, LittleEndian(n, 4), why', LittleEndian(n', 4));
      LittleEndianInjective(r, r', 8);
      LittleEndianInjective(n, n', 4);
    }
  }

  // Two orders whose keys start with different ids of one length never share a key, whatever follows.
  lemma DifferentHeads(p: Bytes, rest: Bytes, q: Bytes, rest': Bytes)
    requires |p| == |q| && p != q
    ensures p + rest != q + rest'
  {
    if p + rest == q + rest' {
      SplitFront(p, rest, q, rest');
    }
  }
}
