/** Output scripts as lists of opcodes with the data they push: a script parses exactly
    when it is such a list written out, and an output is kept out of the utxo set exactly
    when its script is none or begins with the return opcode. */
module ScriptPops {
  import opened Types

  datatype Pop = Pop(opcode: byte, data: seq<byte>)

  // How much data each opcode carries.
  predicate PopOk(p: Pop) {
    if 0x01 <= p.opcode <= 0x4b then |p.data| == p.opcode
    else if p.opcode == 0x4c then |p.data| < 0x100
    else if p.opcode == 0x4d then |p.data| < 0x1_0000
    else if p.opcode == 0x4e then |p.data| < 0x1_0000_0000
    else p.data == []
  }

  // The opcode, the length of its data where that is not fixed, least byte first, the data.
  function PopBytes(p: Pop): (s: seq<byte>)
    requires PopOk(p)
    ensures |s| > 0 && s[0] == p.opcode
  {
    var n := |p.data|;
    [p.opcode] + (if p.opcode == 0x4c then [n]
                  else if p.opcode == 0x4d then [n % 256, n / 256]
                  else if p.opcode == 0x4e then [n % 256, n / 256 % 256, n / 65536 % 256, n / 16777216]
                  else [])
               + p.data
  }

  predicate AllOk(ps: seq<Pop>) {
    forall i :: 0 <= i < |ps| ==> PopOk(ps[i])
  }

  function Written(ps: seq<Pop>): seq<byte>
    requires AllOk(ps)
  {
    if ps == [] then [] else PopBytes(ps[0]) + Written(ps[1..])
  }

  // Stepping over one written opcode.
  lemma StepOver(pre: seq<byte>, p: Pop, rest: seq<byte>)
    requires PopOk(p)
    ensures var s := pre + PopBytes(p) + rest;
      |pre| < |s| && NextOpcode(s, |pre|) == |pre| + |PopBytes(p)|
  {
    var b, n := PopBytes(p), |p.data|;
    var s := pre + b + rest;
    assert forall k :: 0 <= k < |b| ==> s[|pre| + k] == b[k];
    assert n == n % 256 + 256 * (n / 256);
    assert n / 256 == n / 256 % 256 + 256 * (n / 65536);
    assert n / 65536 == n / 65536 % 256 + 256 * (n / 16777216);
  }

  lemma {:induction false} WrittenParses(pre: seq<byte>, ps: seq<Pop>)
    requires AllOk(ps)
    ensures ParsesFrom(pre + Written(ps), |pre|)
    decreases |ps|
  {
    hide PopBytes, PopOk, NextOpcode;
    var s := pre + Written(ps);
    if ps == [] {
      assert s == pre;
    } else {
      var b := PopBytes(ps[0]);
      assert s == pre + b + Written(ps[1..]);
      StepOver(pre, ps[0], Written(ps[1..]));
      WrittenParses(pre + b, ps[1..]);
    }
  }

  // The opcode at position i, with its data.
  lemma ReadPop(s: Script, i: nat) returns (p: Pop)
    requires i < |s| && NextOpcode(s, i) <= |s|
    ensures PopOk(p) && PopBytes(p) == s[i..NextOpcode(s, i)]
  {
    if s[i] == 0x4d {
      p := ReadTwo(s, i);
    } else if s[i] == 0x4e {
      p := ReadFour(s, i);
    } else if s[i] == 0x4c {
      p := Pop(s[i], s[i + 2..NextOpcode(s, i)]);
      assert s[i..NextOpcode(s, i)] == [s[i]] + [s[i + 1]] + p.data;
    } else {
      p := Pop(s[i], s[i + 1..NextOpcode(s, i)]);
      assert s[i..NextOpcode(s, i)] == [s[i]] + [] + p.data;
    }
  }

  lemma ReadTwo(s: Script, i: nat) returns (p: Pop)
    requires i < |s| && s[i] == 0x4d && NextOpcode(s, i) <= |s|
    ensures PopOk(p) && PopBytes(p) == s[i..NextOpcode(s, i)]
  {
    var j := NextOpcode(s, i);
    p := Pop(s[i], s[i + 3..j]);
    Little2(s[i + 1], s[i + 2]);
    assert s[i..j] == [s[i]] + [s[i + 1], s[i + 2]] + p.data;
  }

  lemma ReadFour(s: Script, i: nat) returns (p: Pop)
    requires i < |s| && s[i] == 0x4e && NextOpcode(s, i) <= |s|
    ensures PopOk(p) && PopBytes(p) == s[i..NextOpcode(s, i)]
  {
    var j := NextOpcode(s, i);
    p := Pop(s[i], s[i + 5..j]);
    Little4(s[i + 1], s[i + 2], s[i + 3], s[i + 4]);
    assert s[i..j] == [s[i]] + [s[i + 1], s[i + 2], s[i + 3], s[i + 4]] + p.data;
  }

  lemma Little2(a: byte, b: byte)
    ensures (a + 256 * b) % 256 == a && (a + 256 * b) / 256 == b && a + 256 * b < 0x1_0000
  {
  }

  lemma Little4(a: byte, b: byte, c: byte, d: byte)
    ensures var n := a + 256 * b + 65536 * c + 16777216 * d;
      n < 0x1_0000_0000 && n % 256 == a && n / 256 % 256 == b && n / 65536 % 256 == c && n / 16777216 == d
  {
    var x := c + 256 * d;
    var y := b + 256 * x;
    var n := a + 256 * y;
    assert n % 256 == a && n / 256 == y;
    assert y % 256 == b && y / 256 == x;
    assert x % 256 == c && x / 256 == d;
    Halves(n, y, x, d);
  }

  lemma Halves(n: nat, y: nat, x: nat, d: nat)
    requires n / 256 == y && y / 256 == x && x / 256 == d
    ensures n / 65536 == x && n / 16777216 == d
  {
  }

  lemma {:induction false} ParsedWritten(s: Script, i: nat) returns (ps: seq<Pop>)
    requires i <= |s| && ParsesFrom(s, i)
    ensures AllOk(ps) && Written(ps) == s[i..]
    decreases |s| - i
  {
    hide PopBytes, PopOk, NextOpcode;
    if i == |s| {
      ps := [];
    } else {
      var j := NextOpcode(s, i);
      ParsesWithin(s, j);
      var p := ReadPop(s, i);
      var rest := ParsedWritten(s, j);
      ps := [p] + rest;
      assert ps[1..] == rest && s[i..] == s[i..j] + s[j..];
    }
  }

  lemma ParsesWithin(s: Script, j: nat)
    requires ParsesFrom(s, j)
    ensures j <= |s|
  {
  }

  /** An output is kept out of the utxo set exactly when its script is not a list of
      opcodes written out, or is one that begins with the return opcode. */
  lemma UnspendableExactly(s: Script)
    ensures IsUnspendable(s) <==>
      !exists ps: seq<Pop> :: AllOk(ps) && Written(ps) == s && (ps == [] || ps[0].opcode != 0x6a)
  {
    hide PopBytes, PopOk, NextOpcode;
    if ps: seq<Pop> :| AllOk(ps) && Written(ps) == s && (ps == [] || ps[0].opcode != 0x6a) {
      WrittenParses([], ps);
      assert [] + Written(ps) == s;
      FirstOpcode(ps);
    }
    if !IsUnspendable(s) {
      var ps := ParsedWritten(s, 0);
      assert s[0..] == s;
      FirstOpcode(ps);
    }
  }

  lemma FirstOpcode(ps: seq<Pop>)
    requires AllOk(ps)
    ensures ps == [] <==> Written(ps) == []
    ensures ps != [] ==> Written(ps)[0] == ps[0].opcode
  {
  }
}
