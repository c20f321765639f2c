/** Shared secrets as text: base32 (section 6 of RFC 4648) without its padding.

    `generate_secret` strips the trailing '=' characters, and every use of the secret puts them back
    before decoding.  Bytes and symbols meet in the bit string both of them spell. */
module Base32 {
  import opened Wrappers

  type Bit = b: nat | b < 2

  type Byte = b: nat | b < 256

  // ---- numbers and bits, most significant bit first ----------------------------------------------

  function Pow2(k: nat): nat {
    if k == 0 then 1 else 2 * Pow2(k - 1)
  }

  function ToBits(n: nat, k: nat): (bits: seq<Bit>)
    ensures |bits| == k
  {
    if k == 0 then [] else ToBits(n / 2, k - 1) + [n % 2]
  }

  function FromBits(bits: seq<Bit>): nat {
    if bits == [] then 0 else 2 * FromBits(bits[..|bits| - 1]) + bits[|bits| - 1]
  }

  lemma {:induction false} FromBitsBound(bits: seq<Bit>)
    ensures FromBits(bits) < Pow2(|bits|)
  {
    if bits != [] { FromBitsBound(bits[..|bits| - 1]); }
  }

  lemma {:induction false} NumberOfBits(n: nat, k: nat)
    requires n < Pow2(k)
    ensures FromBits(ToBits(n, k)) == n
  {
    if k > 0 {
      NumberOfBits(n / 2, k - 1);
      assert ToBits(n, k)[..k - 1] == ToBits(n / 2, k - 1);
    }
  }

  lemma {:induction false} BitsOfNumber(bits: seq<Bit>)
    ensures ToBits(FromBits(bits), |bits|) == bits
  {
    if bits != [] { BitsOfNumber(bits[..|bits| - 1]); }
  }

  // The numbers that consecutive groups of w bits spell; a short last group is dropped.
  function Chunks(bits: seq<Bit>, w: nat): seq<nat>
    requires w > 0
  {
    if |bits| < w then [] else [FromBits(bits[..w])] + Chunks(bits[w..], w)
  }

  function Spread(ns: seq<nat>, w: nat): seq<Bit> {
    if ns == [] then [] else ToBits(ns[0], w) + Spread(ns[1..], w)
  }

  lemma {:induction false} ChunksOfSpread(ns: seq<nat>, w: nat, rest: seq<Bit>)
    requires w > 0 && |rest| < w
    requires forall i | 0 <= i < |ns| :: ns[i] < Pow2(w)
    ensures Chunks(Spread(ns, w) + rest, w) == ns
  {
    var bits := Spread(ns, w) + rest;
    if ns == [] {
      assert bits == rest;
    } else {
      NumberOfBits(ns[0], w);
      assert bits[..w] == ToBits(ns[0], w);
      assert bits[w..] == Spread(ns[1..], w) + rest;
      ChunksOfSpread(ns[1..], w, rest);
    }
  }

  lemma {:induction false} SpreadOfChunks(bits: seq<Bit>)
    requires |bits| % 5 == 0
    ensures Spread(Chunks(bits, 5), 5) == bits
    ensures forall i | 0 <= i < |Chunks(bits, 5)| :: Chunks(bits, 5)[i] < 32
    ensures 5 * |Chunks(bits, 5)| == |bits|
  {
    if bits != [] {
      BitsOfNumber(bits[..5]);
      FromBitsBound(bits[..5]);
      PowersOfTwo();
      SpreadOfChunks(bits[5..]);
      assert bits == bits[..5] + bits[5..];
    }
  }

  lemma {:induction false} SpreadLength(ns: seq<nat>)
    ensures |Spread(ns, 8)| == 8 * |ns|
  {
    if ns != [] { SpreadLength(ns[1..]); }
  }

  lemma PowersOfTwo()
    ensures Pow2(5) == 32 && Pow2(8) == 256
  {
    assert Pow2(3) == 8;
    assert Pow2(5) == 2 * Pow2(4);
    assert Pow2(6) == 2 * Pow2(5);
    assert Pow2(8) == 2 * Pow2(7);
  }

  // ---- the alphabet ----------------------------------------------------------------------------

  const ALPHABET := "ABCDEFGHIJKLMNOPQRSTUVWXYZ234567"

  function Symbol(d: nat): char
    requires d < 32
  {
    ALPHABET[d]
  }

  function ValueOf(c: char): Option<nat> {
    if 'A' <= c <= 'Z' then Some((c as int) - ('A' as int))
    else if '2' <= c <= '7' then Some((c as int) - ('2' as int) + 26)
    else None
  }

  lemma SymbolHasItsValue(d: nat)
    requires d < 32
    ensures ValueOf(Symbol(d)) == Some(d) && Symbol(d) != '='
  {
    assert forall i: nat | i < 32 :: ALPHABET[i] == if i < 26 then (i + 65) as char else (i + 24) as char;
  }

  function Upper(c: char): char {
    if 'a' <= c <= 'z' then c - 'a' + 'A' else c
  }

  // ---- encoding --------------------------------------------------------------------------------

  predicate Quintets(ds: seq<nat>) {
    forall i | 0 <= i < |ds| :: ds[i] < 32
  }

  function Symbols(ds: seq<nat>): (s: string)
    requires Quintets(ds)
    ensures |s| == |ds|
  {
    seq(|ds|, i requires 0 <= i < |ds| => Symbol(ds[i]))
  }

  function Zeros(n: nat): (z: seq<Bit>)
    ensures |z| == n
  {
    seq(n, _ => 0)
  }

  function Padding(n: nat): (s: string)
    ensures |s| == n
  {
    seq(n, _ => '=')
  }

  // -len % 8, as Python takes it.
  function PadCount(len: nat): nat { (-(len as int)) % 8 }

  predicate PadAccepted(n: int) { n == 0 || n == 1 || n == 3 || n == 4 || n == 6 }

  // The bits that are missing from the last symbol.
  function Missing(len: nat): (z: nat)
    ensures z < 5 && (len + z) % 5 == 0
  {
    if len % 5 == 0 then 0 else 5 - len % 5
  }

  // Zero bits complete the last symbol.
  function Aligned(b: seq<Byte>): (bits: seq<Bit>)
    ensures |bits| % 5 == 0
  {
    var bits := Spread(b, 8);
    bits + Zeros(Missing(|bits|))
  }

  function Body(b: seq<Byte>): string {
    SpreadOfChunks(Aligned(b));
    Symbols(Chunks(Aligned(b), 5))
  }

  // '=' completes the last group of eight.
  function Encode(b: seq<Byte>): string {
    Body(b) + Padding(PadCount(|Body(b)|))
  }

  function StripPadding(s: string): string {
    if s != "" && s[|s| - 1] == '=' then StripPadding(s[..|s| - 1]) else s
  }

  // What generate_secret stores.
  function Secret(b: seq<Byte>): string { StripPadding(Encode(b)) }

  function Repad(s: string): string { s + Padding(PadCount(|s|)) }

  // ---- decoding --------------------------------------------------------------------------------

  datatype DecodeError = IncorrectPadding | NonAlphabet

  function Values(s: string): Option<seq<nat>> {
    if s == "" then Some([])
    else
      var d, rest := ValueOf(s[0]), Values(s[1..]);
      if d.Some? && rest.Some? then Some([d.value] + rest.value) else None
  }

  function ToBytes(bits: seq<Bit>): (b: seq<Byte>) {
    if |bits| < 8 then []
    else
      FromBitsBound(bits[..8]);
      PowersOfTwo();
      [FromBits(bits[..8])] + ToBytes(bits[8..])
  }

  function Decode(s: string): Result<seq<Byte>, DecodeError> {
    if |s| % 8 != 0 then Err(IncorrectPadding)
    else
      var data := StripPadding(s);
      match Values(seq(|data|, i requires 0 <= i < |data| => Upper(data[i])))
      case None => Err(NonAlphabet)
      case Some(ds) =>
        if PadAccepted(|s| - |data|) then Ok(ToBytes(Spread(ds, 5))) else Err(IncorrectPadding)
  }

  // ---- round trip ------------------------------------------------------------------------------

  // Symbols of the alphabet, which upper-casing leaves alone.
  predicate InAlphabet(s: string) {
    forall i | 0 <= i < |s| :: ValueOf(s[i]).Some? && Upper(s[i]) == s[i] && s[i] != '='
  }

  lemma SymbolsInAlphabet(ds: seq<nat>)
    requires Quintets(ds)
    ensures InAlphabet(Symbols(ds))
  {
    forall i | 0 <= i < |ds| ensures ValueOf(Symbols(ds)[i]).Some? && Symbols(ds)[i] != '=' {
      SymbolHasItsValue(ds[i]);
    }
  }

  lemma {:induction false} ValuesOfSymbols(ds: seq<nat>)
    requires Quintets(ds)
    ensures Values(Symbols(ds)) == Some(ds)
  {
    if ds != [] {
      SymbolHasItsValue(ds[0]);
      ValuesOfSymbols(ds[1..]);
      assert Symbols(ds)[1..] == Symbols(ds[1..]);
      assert Symbols(ds)[0] == Symbol(ds[0]);
      assert ds == [ds[0]] + ds[1..];
    }
  }

  lemma {:induction false} StripRemovesPad(s: string, n: nat)
    requires InAlphabet(s)
    ensures StripPadding(s + Padding(n)) == s
  {
    var t := s + Padding(n);
    if n > 0 {
      assert t[..|t| - 1] == s + Padding(n - 1);
      StripRemovesPad(s, n - 1);
    } else {
      assert t == s;
    }
  }

  lemma BodyInAlphabet(b: seq<Byte>)
    ensures InAlphabet(Body(b))
  {
    SpreadOfChunks(Aligned(b));
    SymbolsInAlphabet(Chunks(Aligned(b), 5));
  }

  // The decoder accepts only these amounts of padding; an encoding never has another.
  lemma PadIsAccepted(n: nat, symbols: nat)
    requires 5 * symbols == 8 * n + Missing(8 * n)
    ensures PadAccepted(PadCount(symbols)) && (symbols + PadCount(symbols)) % 8 == 0
  {
    var q, r := n / 5, n % 5;
    assert n == 5 * q + r;
    assert symbols
        == 8 * q + (if r == 0 then 0 else if r == 1 then 2 else if r == 2 then 4 else if r == 3 then 5 else 7);
  }

  // '=' completes the last group, and never by an amount that the decoder refuses.
  lemma PadOfBody(b: seq<Byte>)
    ensures (|Body(b)| + PadCount(|Body(b)|)) % 8 == 0 && PadAccepted(PadCount(|Body(b)|))
  {
    SpreadOfChunks(Aligned(b));
    SpreadLength(b);
    PadIsAccepted(|b|, |Body(b)|);
  }

  // Re-padding restores exactly the characters that stripping removed.
  lemma RepadUndoesStrip(b: seq<Byte>)
    ensures Repad(Secret(b)) == Encode(b)
  {
    BodyInAlphabet(b);
    StripRemovesPad(Body(b), PadCount(|Body(b)|));
  }

  lemma {:induction false} BytesAreChunks(bits: seq<Bit>)
    ensures ToBytes(bits) == Chunks(bits, 8)
  {
    if |bits| >= 8 { BytesAreChunks(bits[8..]); }
  }

  lemma BitsRoundTrip(b: seq<Byte>)
    ensures ToBytes(Aligned(b)) == b
  {
    PowersOfTwo();
    BytesAreChunks(Aligned(b));
    ChunksOfSpread(b, 8, Zeros(Missing(|Spread(b, 8)|)));
  }

  lemma DecodePadded(data: string, pad: nat, ds: seq<nat>)
    requires InAlphabet(data) && Values(data) == Some(ds)
    requires PadAccepted(pad) && (|data| + pad) % 8 == 0
    ensures Decode(data + Padding(pad)) == Ok(ToBytes(Spread(ds, 5)))
  {
    StripRemovesPad(data, pad);
    assert seq(|data|, i requires 0 <= i < |data| => Upper(data[i])) == data;
  }

  lemma BodySpellsBytes(b: seq<Byte>)
    ensures Values(Body(b)).Some? && ToBytes(Spread(Values(Body(b)).value, 5)) == b
  {
    SpreadOfChunks(Aligned(b));
    ValuesOfSymbols(Chunks(Aligned(b), 5));
    BitsRoundTrip(b);
  }

  lemma DecodeEncoding(b: seq<Byte>)
    ensures Decode(Encode(b)) == Ok(b)
  {
    hide Decode, Body, ToBytes, Spread, Values;
    BodyInAlphabet(b);
    BodySpellsBytes(b);
    PadOfBody(b);
    DecodePadded(Body(b), PadCount(|Body(b)|), Values(Body(b)).value);
  }

  // Every secret decodes to the bytes it was made from, at any length.
  lemma SecretRoundTrip(b: seq<Byte>)
    ensures Decode(Repad(Secret(b))) == Ok(b)
  {
    RepadUndoesStrip(b);
    DecodeEncoding(b);
  }

  // ---- what the symbols say ---------------------------------------------------------------------

  // The number that digits spell, w bits each.
  function Number(digits: seq<nat>, w: nat): nat {
    if digits == [] then 0 else Number(digits[..|digits| - 1], w) * Pow2(w) + digits[|digits| - 1]
  }

  lemma {:induction false} BitsApart(a: seq<Bit>, b: seq<Bit>)
    ensures FromBits(a + b) == FromBits(a) * Pow2(|b|) + FromBits(b)
  {
    if b == [] {
      assert a + b == a;
    } else {
      var init := b[..|b| - 1];
      BitsApart(a, init);
      assert (a + b)[..|a + b| - 1] == a + init;
      assert FromBits(a) * Pow2(|b|) == 2 * (FromBits(a) * Pow2(|init|));
    }
  }

  lemma {:induction false} SpreadOneMore(ns: seq<nat>, last: nat, w: nat)
    ensures Spread(ns + [last], w) == Spread(ns, w) + ToBits(last, w)
  {
    if ns == [] {
      assert ns + [last] == [last] && Spread([last], w) == ToBits(last, w) + [];
    } else {
      SpreadOneMore(ns[1..], last, w);
      assert (ns + [last])[1..] == ns[1..] + [last];
    }
  }

  lemma {:induction false} SpreadIsItsNumber(ns: seq<nat>, w: nat)
    requires forall i | 0 <= i < |ns| :: ns[i] < Pow2(w)
    ensures FromBits(Spread(ns, w)) == Number(ns, w)
  {
    if ns != [] {
      var init, last := ns[..|ns| - 1], ns[|ns| - 1];
      SpreadIsItsNumber(init, w);
      SpreadOneMore(init, last, w);
      assert init + [last] == ns;
      BitsApart(Spread(init, w), ToBits(last, w));
      NumberOfBits(last, w);
    }
  }

  // The symbols of a secret of whole groups spell the number its bytes spell.
  lemma SymbolsSpellTheBytes(b: seq<Byte>)
    requires |b| % 5 == 0
    ensures var ds := Values(Body(b)); ds.Some? && Number(ds.value, 5) == Number(b, 8)
  {
    hide Spread, Chunks, Number, Values, Symbols, FromBits, Aligned, Pow2;
    var ds := Chunks(Aligned(b), 5);
    PowersOfTwo();
    SpreadOfChunks(Aligned(b));
    ValuesOfSymbols(ds);
    WholeGroupsAreAligned(b);
    SpreadIsItsNumber(ds, 5);
    SpreadIsItsNumber(b, 8);
  }

  lemma WholeGroupsAreAligned(b: seq<Byte>)
    requires |b| % 5 == 0
    ensures Aligned(b) == Spread(b, 8)
  {
    hide Spread, Missing;
    SpreadLength(b);
    NothingMissing(|b|);
    assert Zeros(0) == [];
  }

  lemma NothingMissing(len: nat)
    requires len % 5 == 0
    ensures Missing(8 * len) == 0
  {
    var groups := len / 5;
    assert 8 * len == 5 * (8 * groups);
  }
}
