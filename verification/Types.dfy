/** Shared vocabulary: optional values, bytes, hashes, scripts and the wire-level
    transaction and block records. */
module Types {

  datatype Option<+T> = None | Some(value: T)

  type byte = b: int | 0 <= b < 256

  type Script = seq<byte>

  // A hash is an opaque identity: equal hashes stand for equal preimages.
  type Hash = nat

  const ZERO_HASH: Hash := 0
  const MAX_UINT32: nat := 0xffff_ffff
  const MAX_INT64: int := 0x7fff_ffff_ffff_ffff
  const TWO_64: int := 0x1_0000_0000_0000_0000
  const MAX_SATOSHI: int := 2_100_000_000_000_000

  datatype OutPoint = OutPoint(hash: Hash, index: nat)

  datatype TxOut = TxOut(value: int, pkScript: Script)

  datatype Tx = Tx(hash: Hash, ins: seq<OutPoint>, outs: seq<TxOut>)

  datatype Block = Block(hash: Hash, prev: Hash, height: int, txs: seq<Tx>)

  // A single input whose previous output is the null outpoint.
  predicate IsCoinBase(tx: Tx) {
    |tx.ins| == 1 && tx.ins[0] == OutPoint(ZERO_HASH, MAX_UINT32)
  }

  const OP_DATA_75: byte := 0x4b
  const OP_PUSHDATA1: byte := 0x4c
  const OP_PUSHDATA2: byte := 0x4d
  const OP_PUSHDATA4: byte := 0x4e
  const OP_RETURN: byte := 0x6a

  function ByteAt(script: Script, i: nat): int {
    if i < |script| then script[i] else 0
  }

  // Position after the opcode at position i and the data it pushes; this is past the
  // end when the script is too short for them.
  function NextOpcode(script: Script, i: nat): (r: nat)
    requires i < |script|
    ensures i < r
  {
    var op: int := script[i];
    if 1 <= op <= OP_DATA_75 then i + op + 1
    else if op == OP_PUSHDATA1 then i + 2 + ByteAt(script, i + 1)
    else if op == OP_PUSHDATA2 then i + 3 + ByteAt(script, i + 1) + 256 * ByteAt(script, i + 2)
    else if op == OP_PUSHDATA4 then
      i + 5 + ByteAt(script, i + 1) + 256 * ByteAt(script, i + 2)
      + 65536 * ByteAt(script, i + 3) + 16777216 * ByteAt(script, i + 4)
    else i + 1
  }

  predicate ParsesFrom(script: Script, i: nat)
    decreases |script| - i
  {
    if i < |script| then ParsesFrom(script, NextOpcode(script, i)) else i == |script|
  }

  // Outputs that can never be spent are kept out of the utxo set.
  predicate IsUnspendable(script: Script) {
    !ParsesFrom(script, 0) || (script != [] && script[0] == OP_RETURN)
  }

  // Go's int64 arithmetic and conversions: two's complement wrap-around.
  function Wrap64(x: int): (r: int)
    ensures -MAX_INT64 - 1 <= r <= MAX_INT64
    ensures -MAX_INT64 - 1 <= x <= MAX_INT64 ==> r == x
  {
    var m := x % TWO_64;
    if m <= MAX_INT64 then m else m - TWO_64
  }

  ghost predicate NoDup<T>(s: seq<T>) {
    forall i, j :: 0 <= i < j < |s| ==> s[i] != s[j]
  }

  /** Sequence slices, stated once so that proofs elsewhere need not look for them */

  lemma TakeNone<T>(a: seq<T>, b: seq<T>)
    ensures a + b[..0] == a && b[..0] == []
  {
  }

  lemma TakeAll<T>(a: seq<T>)
    ensures a[..|a|] == a
  {
  }

  lemma TakeOneMore<T>(a: seq<T>, b: seq<T>, j: nat)
    requires j < |b|
    ensures b[..j + 1] == b[..j] + [b[j]] && b[..j + 1][..j] == b[..j]
    ensures a + b[..j + 1] == a + b[..j] + [b[j]]
  {
  }

  lemma TakeDrop<T>(a: seq<T>, j: nat)
    requires j <= |a|
    ensures a[..j] + a[j..] == a
  {
  }

  lemma Associate<T>(a: seq<T>, b: seq<T>, c: seq<T>)
    ensures (a + b) + c == a + (b + c)
  {
  }

  lemma SliceTail<T>(a: seq<T>, i: nat, j: nat)
    requires i <= j <= |a|
    ensures a[..j][i..] == a[i..j]
  {
  }

  lemma TakeTake<T>(a: seq<T>, i: nat, j: nat)
    requires i <= j <= |a|
    ensures a[..j][..i] == a[..i]
  {
  }
}
