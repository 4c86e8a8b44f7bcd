/** Decoding plugins: where their registers are in a block of words, and the value they read from it. */
module Plugins {
  import opened Sequences

  datatype RegType = Coils | Discrete | Input | Holding

  type Word = x: int | 0 <= x < 65536

  /** What a device answers at every address of every register type. */
  type Memory = (RegType, int) -> Word

  datatype Decoder =
    | Shift(addr: int, exponent: int)
    | Satec(hi: int, lo: int, isSigned: bool, exponent: int)
    | Bit(addr: int, bit: int)

  /**
    The settings of a plugin, and what it has learned about the block it is read from: whether it was found there,
    and at which positions (`pos` of its only or high register, `loPos` of its low register).
  */
  datatype Plugin = Plugin(id: int, tag: string, isLogging: bool, regType: RegType, decoder: Decoder,
                           isInit: bool, pos: nat, loPos: nat)

  /** An exact decimal, `numerator / 10^exponent`, or the marker of a failed reading. */
  datatype Reading = Reading(numerator: int, exponent: int) | Unreadable

  datatype ModbusMeasure = ModbusMeasure(value: Reading, isLogging: bool, id: int, tag: string, time: int)

  /** The registers the plugin asks for. */
  function Registers(d: Decoder): seq<int> {
    match d
    case Shift(addr, _) => [addr]
    case Satec(hi, lo, _, _) => [hi, lo]
    case Bit(addr, _) => [addr]
  }

  /** The plugin as it was before it was looked for in any block. */
  function Settings(p: Plugin): Plugin {
    p.(isInit := false, pos := 0, loPos := 0)
  }

  // ----- Finding the registers -----

  predicate Covers(d: Decoder, dataset: seq<int>) {
    forall r :: r in Registers(d) ==> r in dataset
  }

  function FirstIndex(s: seq<int>, x: int): (i: nat)
    requires x in s
    ensures i < |s| && s[i] == x && x !in s[..i]
  {
    if s[0] == x then 0
    else
      assert s == [s[0]] + s[1..];
      1 + FirstIndex(s[1..], x)
  }

  function LastIndex(s: seq<int>, x: int): (i: nat)
    requires x in s
    ensures i < |s| && s[i] == x && x !in s[i + 1..]
  {
    if Last(s) == x then |s| - 1
    else
      FrontLast(s);
      LastIndex(Front(s), x)
  }

  /** The plugin after it was shown a block; a low or high register alone leaves its position behind. */
  function Located(p: Plugin, dataset: seq<int>): Plugin {
    if p.isInit then p
    else match p.decoder
      case Shift(addr, _) => if addr in dataset then p.(pos := FirstIndex(dataset, addr), isInit := true) else p
      case Bit(addr, _) => if addr in dataset then p.(pos := FirstIndex(dataset, addr), isInit := true) else p
      case Satec(hi, lo, _, _) =>
        p.(pos := if hi in dataset then LastIndex(dataset, hi) else p.pos,
           loPos := if lo in dataset then LastIndex(dataset, lo) else p.loPos,
           isInit := hi in dataset && lo in dataset)
  }

  predicate Finds(p: Plugin, dataset: seq<int>) {
    !p.isInit && Covers(p.decoder, dataset)
  }

  method FindYourRegisters(p: Plugin, dataset: seq<int>) returns (p': Plugin, found: bool)
    ensures p' == Located(p, dataset) && found == Finds(p, dataset)
  {
    match p.decoder
    case Shift(addr, _) => p', found := FindOne(p, addr, dataset);
    case Bit(addr, _) => p', found := FindOne(p, addr, dataset);
    case Satec(hi, lo, _, _) => p', found := FindTwo(p, hi, lo, dataset);
  }

  method FindOne(p: Plugin, addr: int, dataset: seq<int>) returns (p': Plugin, found: bool)
    ensures found == (!p.isInit && addr in dataset)
    ensures p' == if found then p.(pos := FirstIndex(dataset, addr), isInit := true) else p
  {
    p', found := p, false;
    if p.isInit {
      return;
    }
    for i := 0 to |dataset|
      invariant addr !in dataset[..i]
    {
      if dataset[i] == addr {
        SameFirst(dataset, addr, i);
        return p.(pos := i, isInit := true), true;
      }
      assert dataset[..i + 1] == dataset[..i] + [dataset[i]];
    }
    assert dataset[..|dataset|] == dataset;
  }

  lemma {:induction false} SameFirst(s: seq<int>, x: int, i: nat)
    requires i < |s| && s[i] == x && x !in s[..i]
    ensures x in s && FirstIndex(s, x) == i
  {
    if i > 0 {
      assert s[0] in s[..i] && s[1..][..i - 1] == s[..i][1..];
      SameFirst(s[1..], x, i - 1);
    }
  }

  method FindTwo(p: Plugin, hi: int, lo: int, dataset: seq<int>) returns (p': Plugin, found: bool)
    ensures found == (!p.isInit && hi in dataset && lo in dataset)
    ensures p' == if p.isInit then p else
                    p.(pos := if hi in dataset then LastIndex(dataset, hi) else p.pos,
                       loPos := if lo in dataset then LastIndex(dataset, lo) else p.loPos,
                       isInit := found)
  {
    p', found := p, false;
    if p.isInit {
      return;
    }
    var hiFound, loFound := false, false;
    for i := 0 to |dataset|
      invariant hiFound == (hi in dataset[..i]) && loFound == (lo in dataset[..i])
      invariant p' == p.(pos := if hiFound then LastIndex(dataset[..i], hi) else p.pos,
                         loPos := if loFound then LastIndex(dataset[..i], lo) else p.loPos)
    {
      var value := dataset[i];
      assert Front(dataset[..i + 1]) == dataset[..i] && dataset[..i + 1] == dataset[..i] + [value];
      if hi == value {
        p' := p'.(pos := i);
        hiFound := true;
      }
      if lo == value {
        p' := p'.(loPos := i);
        loFound := true;
      }
    }
    assert dataset[..|dataset|] == dataset;
    if hiFound && loFound {
      p' := p'.(isInit := true);
      found := true;
    }
  }

  // ----- Decoding -----

  /** A word as a signed 16-bit number. */
  function Signed16(w: Word): int {
    if w < 32768 then w else w - 65536
  }

  function Pow2(n: nat): (r: nat)
    ensures r > 0
  {
    if n == 0 then 1 else 2 * Pow2(n - 1)
  }

  /** The value of a decoder, given the words of its first and second register. */
  function Decode(d: Decoder, first: Word, second: Word): Reading {
    match d
    case Shift(_, exponent) => Reading(Signed16(first), exponent)
    case Bit(_, bit) => Reading(first / Pow2(bit % 16) % 2, 0)
    case Satec(_, _, isSigned, exponent) =>
      var hi: int := first;
      Reading(if isSigned then (if hi > 32767 then -hi else hi) + second else hi * 65536 + second, exponent)
  }

  /** What the plugin makes of an answer; nothing, if one of its positions lies outside of it. */
  function GetValue(p: Plugin, words: seq<Word>, ts: int): Option<ModbusMeasure> {
    match p.decoder
    case Satec(_, _, _, _) =>
      if |words| <= p.pos || |words| <= p.loPos then None
      else Some(ModbusMeasure(Decode(p.decoder, words[p.pos], words[p.loPos]), p.isLogging, p.id, p.tag, ts))
    case _ =>
      if |words| <= p.pos then None
      else Some(ModbusMeasure(Decode(p.decoder, words[p.pos], 0), p.isLogging, p.id, p.tag, ts))
  }

  function Fail(p: Plugin, ts: int): ModbusMeasure {
    ModbusMeasure(Unreadable, p.isLogging, p.id, p.tag, ts)
  }

  /** The measure of a plugin that reads each of its own registers by itself. */
  function Direct(p: Plugin, memory: Memory, ts: int): ModbusMeasure {
    var first := memory(p.regType, Registers(p.decoder)[0]);
    var second := if p.decoder.Satec? then memory(p.regType, p.decoder.lo) else 0;
    ModbusMeasure(Decode(p.decoder, first, second), p.isLogging, p.id, p.tag, ts)
  }

  lemma LocatedKeepsSettings(p: Plugin, dataset: seq<int>)
    ensures Settings(Located(p, dataset)) == Settings(p)
    ensures !p.isInit ==> Located(p, dataset).isInit == Finds(p, dataset)
  {
    if p.decoder.Satec? {
      assert p.decoder.hi in Registers(p.decoder) && p.decoder.lo in Registers(p.decoder);
    }
  }

  /** A plugin found in a block of addresses decodes the words of that block as it would decode its own registers. */
  lemma FoundDecodesDirectly(p: Plugin, dataset: seq<int>, words: seq<Word>, memory: Memory, ts: int)
    requires Finds(p, dataset)
    requires |words| == |dataset| && forall i :: 0 <= i < |dataset| ==> words[i] == memory(p.regType, dataset[i])
    ensures GetValue(Located(p, dataset), words, ts) == Some(Direct(p, memory, ts))
  {
    match p.decoder
    case Satec(hi, lo, _, _) => assert hi in Registers(p.decoder) && lo in Registers(p.decoder);
    case Shift(addr, _) => assert addr in Registers(p.decoder);
    case Bit(addr, _) => assert addr in Registers(p.decoder);
  }

  /** Both words of an unsigned 32-bit number give that number back. */
  lemma UnsignedRoundTrip(n: int, hi: int, lo: int, exponent: int)
    requires 0 <= n < 0x1_0000_0000
    ensures n / 65536 < 65536
    ensures Decode(Satec(hi, lo, false, exponent), n / 65536, n % 65536) == Reading(n, exponent)
  {
  }

  /** The word of a signed 16-bit number gives that number back. */
  lemma SignedRoundTrip(n: int, addr: int, exponent: int)
    requires -32768 <= n < 32768
    ensures Decode(Shift(addr, exponent), n % 65536, 0) == Reading(n, exponent)
  {
  }

  /** The number made of the bits from `i` on that bit decoders read from a word. */
  function FromBits(w: Word, addr: int, i: nat): int
    requires i <= 16
    decreases 16 - i
  {
    if i == 16 then 0 else Decode(Bit(addr, i), w, 0).numerator + 2 * FromBits(w, addr, i + 1)
  }

  /** All 16 bits of a word give the word back, and each of them is read as the number 0 or the number 1. */
  lemma {:induction false} BitsRoundTrip(w: Word, addr: int)
    ensures FromBits(w, addr, 0) == w
    ensures forall i: nat, x: Word :: i < 16 ==> Decode(Bit(addr, i), w, x) in {Reading(0, 0), Reading(1, 0)}
  {
    hide FromBits, Decode;
    HighBits(w, addr, 0);
    forall i: nat, x: Word | i < 16 ensures Decode(Bit(addr, i), w, x) in {Reading(0, 0), Reading(1, 0)} {
      BitIsBinary(w, addr, i, x);
    }
  }

  lemma BitIsBinary(w: Word, addr: int, i: nat, x: Word)
    ensures Decode(Bit(addr, i), w, x) in {Reading(0, 0), Reading(1, 0)}
  {
    hide Pow2;
  }

  /**
    The signed number of two words is their sum, the high word counted as negative if its top bit is set. It is the
    number that the two words hold in two's complement if and only if the high word is 0.
  */
  lemma SignedPairExactly(hi: int, lo: int, a: Word, b: Word, exponent: int)
    ensures var r, high: int := Decode(Satec(hi, lo, true, exponent), a, b), a;
            && r.Reading? && r.exponent == exponent
            && r.numerator == b + (if high >= 32768 then -high else high)
            && (r.numerator == (if high >= 32768 then high - 65536 else high) * 65536 + b <==> high == 0)
  {
  }

  lemma {:induction false} HighBits(w: Word, addr: int, i: nat)
    requires i <= 16
    ensures FromBits(w, addr, i) == Quotient(w, Pow2(i))
    decreases 16 - i
  {
    if i == 16 {
      WordRange();
    } else {
      BitValue(w, addr, i);
      hide Decode, Quotient;
      HighBits(w, addr, i + 1);
      HalfAgain(w, Pow2(i), Pow2(i + 1));
    }
  }

  lemma WordRange()
    ensures Pow2(16) == 65536
  {
    assert Pow2(8) == 256;
  }

  lemma BitValue(w: Word, addr: int, i: nat)
    requires i < 16
    ensures Decode(Bit(addr, i), w, 0).numerator == Quotient(w, Pow2(i)) % 2
  {
    assert i % 16 == i;
    hide Pow2;
  }

  lemma HalfAgain(w: nat, p: nat, p': nat)
    requires p > 0 && p' == 2 * p
    ensures Quotient(w, p) == Quotient(w, p) % 2 + 2 * Quotient(w, p')
  {
    var q, h := Quotient(w, p), Quotient(w, p');
    hide Quotient;
    assert h * p' == h * (2 * p);
    Halves(w, p, q, h);
  }

  function Quotient(w: nat, p: nat): (q: nat)
    requires p > 0
    ensures q * p <= w < q * p + p
  {
    w / p
  }

  lemma Halves(w: nat, p: nat, q: nat, h: nat)
    requires q * p <= w < q * p + p && h * (2 * p) <= w < h * (2 * p) + 2 * p
    ensures q == q % 2 + 2 * h
  {
    assert (2 * h) * p == h * (2 * p);
    Between(2 * h, q + 1, p);
    Between(q, 2 * h + 2, p);
  }

  lemma Between(a: nat, b: nat, p: nat)
    requires a * p < b * p
    ensures a < b
  {
    var d := b - a;
    assert d * p == b * p - a * p;
  }
}
