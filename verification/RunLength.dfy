/** The InterBase record decoder: a signed length byte, then a literal block or one repeated byte. */
module RunLength {
  import opened Common

  type Byte = b: int | 0 <= b < 256

  /** The byte read as a two's complement number. */
  function Signed(b: Byte): (n: int)
    ensures -128 <= n <= 127
    ensures n == b || n == b - 256
  {
    if b < 128 then b else b - 256
  }

  /** What a compressed record is meant to be: a list of runs. */
  datatype Run = Literal(bytes: seq<Byte>) | Repeat(value: Byte, count: nat)

  predicate WellFormed(run: Run)
  {
    match run
    case Literal(bytes) => 1 <= |bytes| <= 127
    case Repeat(_, count) => 1 <= count <= 128
  }

  function Copies(value: Byte, count: nat): seq<Byte>
  {
    seq(count, _ => value)
  }

  predicate AllWellFormed(runs: seq<Run>)
  {
    forall i :: 0 <= i < |runs| ==> WellFormed(runs[i])
  }

  function DenotedRun(run: Run): seq<Byte>
  {
    match run
    case Literal(bytes) => bytes
    case Repeat(value, count) => Copies(value, count)
  }

  function Denoted(runs: seq<Run>): seq<Byte>
  {
    if |runs| == 0 then [] else DenotedRun(runs[0]) + Denoted(runs[1..])
  }

  function EncodedRun(run: Run): (bytes: seq<Byte>)
    requires WellFormed(run)
    ensures |bytes| >= 2
  {
    match run
    case Literal(bytes) => [|bytes|] + bytes
    case Repeat(value, count) => [256 - count, value]
  }

  function Encoded(runs: seq<Run>): seq<Byte>
    requires AllWellFormed(runs)
  {
    if |runs| == 0 then [] else EncodedRun(runs[0]) + Encoded(runs[1..])
  }

  /** What comes out of the bytes that are left; a cut-off literal gives what is there. */
  function Expansion(bytes: seq<Byte>): (out: seq<Byte>)
    decreases |bytes|
  {
    if |bytes| == 0 then [] else
      var length := Signed(bytes[0]);
      if length > 0 then bytes[1..Min(1 + length, |bytes|)] + Expansion(bytes[Min(1 + length, |bytes|)..])
      else if length < 0 && |bytes| > 1 then Copies(bytes[1], -length) + Expansion(bytes[2..])
      else []
  }

  /** out and what is left make up the whole expansion. */
  predicate SoFar(data: seq<Byte>, pos: nat, out: seq<Byte>)
  {
    out + Expansion(data[Min(pos, |data|)..]) == Expansion(data)
  }

  lemma Regroup(a: seq<Byte>, b: seq<Byte>, c: seq<Byte>)
    ensures a + b + c == a + (b + c)
  {
  }

  /** What comes next moves over to what is out. */
  lemma TakeOn(out: seq<Byte>, next: seq<Byte>, rest: seq<Byte>, left: seq<Byte>, all: seq<Byte>)
    requires out + left == all && left == next + rest
    ensures (out + next) + rest == all
  {
    Regroup(out, next, rest);
  }

  lemma LiteralExpands(bytes: seq<Byte>, head: seq<Byte>, rest: seq<Byte>)
    requires |bytes| > 0 && Signed(bytes[0]) > 0
    requires var m := Min(1 + Signed(bytes[0]), |bytes|);
      head == bytes[1..m] && rest == bytes[m..]
    ensures Expansion(bytes) == head + Expansion(rest)
  {
  }

  lemma FromThere(data: seq<Byte>, pos: nat, next: nat)
    requires pos < next <= |data|
    ensures data[pos..][0] == data[pos] && |data[pos..]| == |data| - pos
    ensures data[pos..][1..next - pos] == data[pos + 1..next] && data[pos..][next - pos..] == data[next..]
  {
  }

  lemma LiteralSplits(data: seq<Byte>, pos: nat, next: nat)
    requires pos < |data| && Signed(data[pos]) > 0 && next == Min(pos + 1 + Signed(data[pos]), |data|)
    ensures pos < next && Expansion(data[pos..]) == data[pos + 1..next] + Expansion(data[next..])
  {
    FromThere(data, pos, next);
    LiteralExpands(data[pos..], data[pos + 1..next], data[next..]);
  }

  /** A literal run, its length byte just read. */
  lemma LiteralAt(data: seq<Byte>, pos: nat, out: seq<Byte>)
    requires pos < |data| && Signed(data[pos]) > 0
    requires SoFar(data, pos, out)
    ensures var next := pos + 1 + Signed(data[pos]);
      SoFar(data, next, out + data[pos + 1..Min(next, |data|)])
  {
    var next := Min(pos + 1 + Signed(data[pos]), |data|);
    LiteralSplits(data, pos, next);
    TakeOn(out, data[pos + 1..next], Expansion(data[next..]), Expansion(data[pos..]), Expansion(data));
  }

  /** A repeat run, its length byte just read. */
  lemma RepeatAt(data: seq<Byte>, pos: nat, out: seq<Byte>)
    requires pos + 1 < |data| && Signed(data[pos]) < 0
    requires SoFar(data, pos, out)
    ensures SoFar(data, pos + 2, out + Copies(data[pos + 1], -Signed(data[pos])))
  {
    assert data[pos..][2..] == data[pos + 2..];
    TakeOn(out, Copies(data[pos + 1], -Signed(data[pos])), Expansion(data[pos + 2..]),
           Expansion(data[pos..]), Expansion(data));
  }

  /** The end of the record: a zero, or a repeat run without its byte. */
  lemma StopsAt(data: seq<Byte>, pos: nat, out: seq<Byte>)
    requires pos < |data|
    requires Signed(data[pos]) == 0 || (Signed(data[pos]) < 0 && pos + 1 == |data|)
    requires SoFar(data, pos, out)
    ensures out == Expansion(data)
  {
    assert Expansion(data[pos..]) == [];
  }

  lemma AllRead(data: seq<Byte>, pos: nat, out: seq<Byte>)
    requires pos >= |data| && SoFar(data, pos, out)
    ensures out == Expansion(data)
  {
  }

  /** A literal run adds at most the bytes it passes; a repeat run at most 128 for two. */
  lemma RunsStayShort(made: nat, at: nat, length: nat, size: nat)
    requires made <= 64 * at && at < size && 0 < length
    ensures made + Min(at + 1 + length, size) - (at + 1) <= 64 * Min(at + 1 + length, size)
    ensures length <= 128 && at + 1 < size ==> made + length <= 64 * Min(at + 2, size)
  {
  }

  /** Copy a literal block, or what there is of it. */
  method ReadLiteral(data: seq<Byte>, at: nat, before: seq<Byte>) returns (out: seq<Byte>, pos: nat)
    requires at < |data| && Signed(data[at]) > 0 && SoFar(data, at, before)
    requires |before| <= 64 * at
    ensures pos > at && SoFar(data, pos, out) && |out| <= 64 * Min(pos, |data|)
  {
    pos := at + 1 + Signed(data[at]);
    LiteralAt(data, at, before);
    RunsStayShort(|before|, at, Signed(data[at]), |data|);
    out := before + data[at + 1..Min(pos, |data|)];
  }

  /** Repeat the next byte. */
  method ReadRepeat(data: seq<Byte>, at: nat, before: seq<Byte>) returns (out: seq<Byte>, pos: nat)
    requires at + 1 < |data| && Signed(data[at]) < 0 && SoFar(data, at, before)
    requires |before| <= 64 * at
    ensures pos > at && SoFar(data, pos, out) && |out| <= 64 * Min(pos, |data|)
  {
    pos := at + 2;
    RepeatAt(data, at, before);
    RunsStayShort(|before|, at, -Signed(data[at]), |data|);
    out := before + Copies(data[at + 1], -Signed(data[at]));
  }

  /** One turn of the decoding loop: read a length byte and what it governs. */
  method ReadRun(data: seq<Byte>, at: nat, before: seq<Byte>) returns (out: seq<Byte>, pos: nat, done: bool)
    requires at < |data| && SoFar(data, at, before)
    requires |before| <= 64 * at
    ensures if done then out == Expansion(data) else pos > at && SoFar(data, pos, out)
    ensures |out| <= 64 * Min(pos, |data|)
  {
    out, pos, done := before, at + 1, false;
    var length := Signed(data[at]);
    if length > 0 {
      out, pos := ReadLiteral(data, at, before);
    } else if length < 0 && pos < |data| {
      out, pos := ReadRepeat(data, at, before);
    } else {
      StopsAt(data, at, before);
      done := true;
    }
  }

  /** Decodes a whole record; the output is at most 64 times as long as the input. */
  method RleDecompress(data: seq<Byte>) returns (out: seq<Byte>)
    ensures out == Expansion(data)
    ensures |out| <= 64 * |data|
  {
    out := [];
    var pos := 0;
    assert data[0..] == data;
    while pos < |data|
      invariant 0 <= pos
      invariant SoFar(data, pos, out)
      invariant |out| <= 64 * Min(pos, |data|)
      decreases |data| - pos
    {
      var done;
      out, pos, done := ReadRun(data, pos, out);
      if done {
        return;
      }
    }
    AllRead(data, pos, out);
  }

  lemma OneRun(run: Run, rest: seq<Byte>)
    requires WellFormed(run)
    ensures Expansion(EncodedRun(run) + rest) == DenotedRun(run) + Expansion(rest)
  {
    var code := EncodedRun(run);
    var bytes := code + rest;
    assert bytes[0] == code[0] && bytes[1] == code[1];
    assert bytes[1..|code|] == code[1..] && bytes[|code|..] == rest;
  }

  lemma FirstRun(runs: seq<Run>)
    requires AllWellFormed(runs) && |runs| > 0
    ensures WellFormed(runs[0]) && AllWellFormed(runs[1..])
    ensures Encoded(runs) == EncodedRun(runs[0]) + Encoded(runs[1..])
    ensures Denoted(runs) == DenotedRun(runs[0]) + Denoted(runs[1..])
  {
  }

  /** Decoding inverts encoding, whether the record ends with its bytes or with a zero and leftovers. */
  lemma {:induction false} DecodesWhatWasEncoded(runs: seq<Run>, tail: seq<Byte>)
    requires AllWellFormed(runs)
    requires |tail| > 0 ==> tail[0] == 0
    ensures Expansion(Encoded(runs) + tail) == Denoted(runs)
  {
    if |runs| == 0 {
      assert Encoded(runs) + tail == tail;
    } else {
      FirstRun(runs);
      var run, rest := EncodedRun(runs[0]), Encoded(runs[1..]);
      DecodesWhatWasEncoded(runs[1..], tail);
      OneRun(runs[0], rest + tail);
      Regroup(run, rest, tail);
    }
  }
}
