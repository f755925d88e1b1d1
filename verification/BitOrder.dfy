// Bit order of the CPLD images: packing fuse characters into words and swapping bytes
// (common/dev/lattice.c), and the three-mask swap of common/dev/altera.c.  A machine word
// is the list of its bits, bit 0 first.
module BitOrder {
  import opened CText

  type Bits = seq<bool>

  /** The eight bits of a byte. */
  function BitsOf(v: byte): (b: Bits)
    ensures |b| == 8
  {
    [v % 2 == 1, v / 2 % 2 == 1, v / 4 % 2 == 1, v / 8 % 2 == 1,
     v / 16 % 2 == 1, v / 32 % 2 == 1, v / 64 % 2 == 1, v / 128 % 2 == 1]
  }

  function Zeros(n: nat): (b: Bits)
    ensures |b| == n && forall k :: 0 <= k < n ==> !b[k]
  {
    seq(n, k => false)
  }

  function Reverse<T>(s: seq<T>): (r: seq<T>)
    ensures |r| == |s| && forall k :: 0 <= k < |s| ==> r[k] == s[|s| - 1 - k]
  {
    seq(|s|, k requires 0 <= k < |s| => s[|s| - 1 - k])
  }

  // --------------------------------------------------------------- operators

  function And(a: Bits, b: Bits): (r: Bits)
    requires |a| == |b|
    ensures |r| == |a| && forall k :: 0 <= k < |a| ==> r[k] == (a[k] && b[k])
  {
    seq(|a|, k requires 0 <= k < |a| => a[k] && b[k])
  }

  function Or(a: Bits, b: Bits): (r: Bits)
    requires |a| == |b|
    ensures |r| == |a| && forall k :: 0 <= k < |a| ==> r[k] == (a[k] || b[k])
  {
    seq(|a|, k requires 0 <= k < |a| => a[k] || b[k])
  }

  /** Right shift. */
  function Shr(a: Bits, n: nat): (r: Bits)
    ensures |r| == |a| && forall k :: 0 <= k < |a| ==> r[k] == (k + n < |a| && a[k + n])
  {
    seq(|a|, k requires 0 <= k < |a| => k + n < |a| && a[k + n])
  }

  /** Left shift by which no set bit leaves the word. */
  function Shl(a: Bits, n: nat): (r: Bits)
    requires forall k :: 0 <= k < |a| && k + n >= |a| ==> !a[k]
    ensures |r| == |a| && forall k :: 0 <= k < |a| ==> r[k] == (k >= n && a[k - n])
  {
    seq(|a|, k requires 0 <= k < |a| => k >= n && a[k - n])
  }

  // -------------------------------------------------------------- byte swaps

  /** bit_swap: bit by bit from one end to the other. */
  method BitSwap(input: Bits) returns (output: Bits)
    requires |input| == 8
    ensures output == Reverse(input)
  {
    output := Zeros(8);
    for bit := 0 to 8
      invariant |output| == 8
      invariant forall k :: 0 <= k < 8 ==> output[k] == (7 - bit < k && input[7 - k])
    {
      output := output[7 - bit := output[7 - bit] || input[bit]];
    }
  }

  /** Exchange of neighbouring groups of n bits: the high groups, masked by hi, move down and
      the low groups, masked by lo, move up. */
  function Exchange(x: Bits, hi: Bits, lo: Bits, n: nat): Bits
    requires |x| == |hi| == |lo|
    requires forall k :: 0 <= k < |x| && k + n >= |x| ==> !lo[k]
  {
    Or(Shr(And(x, hi), n), Shl(And(x, lo), n))
  }

  /** SWAP_LSB_TO_MSB with its masks 0xaa/0x55, 0xcc/0x33 and 0xf0/0x0f. */
  function SwapByMasks(x: Bits): Bits
    requires |x| == 8
  {
    var a := Exchange(x, BitsOf(0xAA), BitsOf(0x55), 1);
    var b := Exchange(a, BitsOf(0xCC), BitsOf(0x33), 2);
    Exchange(b, BitsOf(0xF0), BitsOf(0x0F), 4)
  }

  lemma Masks()
    ensures forall k :: 0 <= k < 8 ==> BitsOf(0xAA)[k] == (k % 2 == 1) && BitsOf(0x55)[k] == (k % 2 == 0)
    ensures forall k :: 0 <= k < 8 ==> BitsOf(0xCC)[k] == (k % 4 >= 2) && BitsOf(0x33)[k] == (k % 4 < 2)
    ensures forall k :: 0 <= k < 8 ==> BitsOf(0xF0)[k] == (k >= 4) && BitsOf(0x0F)[k] == (k < 4)
  {
  }

  /** An exchange takes the bit n above where the low mask is set and n below where the high one is. */
  lemma ExchangeAt(x: Bits, hi: Bits, lo: Bits, n: nat, k: nat)
    requires |x| == |hi| == |lo| == 8 && k < 8
    requires forall j :: 0 <= j < 8 && j + n >= 8 ==> !lo[j]
    ensures |Exchange(x, hi, lo, n)| == 8
    ensures Exchange(x, hi, lo, n)[k] == ((k + n < 8 && hi[k + n] && x[k + n]) || (k >= n && lo[k - n] && x[k - n]))
  {
  }

  /** Neighbouring bits change places, */
  lemma SwapOnes(x: Bits)
    requires |x| == 8
    ensures var a := Exchange(x, BitsOf(0xAA), BitsOf(0x55), 1);
            |a| == 8 && forall k :: 0 <= k < 8 ==> a[k] == x[if k % 2 == 0 then k + 1 else k - 1]
  {
    Masks();
    hide BitsOf, Exchange;
    ExchangeAt(x, BitsOf(0xAA), BitsOf(0x55), 1, 0);
    forall k | 0 <= k < 8
      ensures Exchange(x, BitsOf(0xAA), BitsOf(0x55), 1)[k] == x[if k % 2 == 0 then k + 1 else k - 1]
    {
      ExchangeAt(x, BitsOf(0xAA), BitsOf(0x55), 1, k);
    }
  }

  /** then neighbouring pairs, */
  lemma SwapTwos(x: Bits)
    requires |x| == 8
    ensures var a := Exchange(x, BitsOf(0xCC), BitsOf(0x33), 2);
            |a| == 8 && forall k :: 0 <= k < 8 ==> a[k] == x[if k % 4 < 2 then k + 2 else k - 2]
  {
    Masks();
    hide BitsOf, Exchange;
    ExchangeAt(x, BitsOf(0xCC), BitsOf(0x33), 2, 0);
    forall k | 0 <= k < 8
      ensures Exchange(x, BitsOf(0xCC), BitsOf(0x33), 2)[k] == x[if k % 4 < 2 then k + 2 else k - 2]
    {
      ExchangeAt(x, BitsOf(0xCC), BitsOf(0x33), 2, k);
    }
  }

  /** then the halves. */
  lemma SwapFours(x: Bits)
    requires |x| == 8
    ensures var a := Exchange(x, BitsOf(0xF0), BitsOf(0x0F), 4);
            |a| == 8 && forall k :: 0 <= k < 8 ==> a[k] == x[if k < 4 then k + 4 else k - 4]
  {
    Masks();
    hide BitsOf, Exchange;
    ExchangeAt(x, BitsOf(0xF0), BitsOf(0x0F), 4, 0);
    forall k | 0 <= k < 8
      ensures Exchange(x, BitsOf(0xF0), BitsOf(0x0F), 4)[k] == x[if k < 4 then k + 4 else k - 4]
    {
      ExchangeAt(x, BitsOf(0xF0), BitsOf(0x0F), 4, k);
    }
  }

  /** The mask swap and the bit-by-bit swap agree on every byte. */
  lemma {:induction false} SwapsAgree(x: Bits)
    requires |x| == 8
    ensures SwapByMasks(x) == Reverse(x)
  {
    Masks();
    hide BitsOf, Exchange;
    SwapOnes(x);
    var a := Exchange(x, BitsOf(0xAA), BitsOf(0x55), 1);
    SwapTwos(a);
    var b := Exchange(a, BitsOf(0xCC), BitsOf(0x33), 2);
    SwapFours(b);
  }

  /** Each swap is its own inverse. */
  lemma {:induction false} SwapTwice(x: Bits)
    requires |x| == 8
    ensures Reverse(Reverse(x)) == x && SwapByMasks(SwapByMasks(x)) == x
  {
    SwapsAgree(x);
    assert Reverse(Reverse(x)) == x;
    SwapsAgree(Reverse(x));
  }

  // ----------------------------------------------------------------- packing

  /** The byte a fuse character contributes: its code minus that of '0', modulo 256. */
  function FuseByte(c: char): byte { (c as int - '0' as int) % 256 }

  /** word |= v << n, in a 32-bit word. */
  function OrShifted(word: Bits, v: Bits, n: nat): (r: Bits)
    requires |word| == 32 && |v| == 8 && n < 32
    ensures |r| == 32
    ensures forall k {:trigger r[k]} :: 0 <= k < 32 ==> r[k] == (word[k] || (n <= k < n + 8 && v[k - n]))
  {
    seq(32, k requires 0 <= k < 32 => word[k] || (n <= k < n + 8 && v[k - n]))
  }

  /** A word after its first n characters have been or-ed in.  Characters other than 0 and 1
      spill into the bits above their own. */
  function PackedWord(chars: string, n: nat): (word: Bits)
    requires |chars| == 32 && n <= 32
    ensures |word| == 32
  {
    if n == 0 then Zeros(32) else OrShifted(PackedWord(chars, n - 1), BitsOf(FuseByte(chars[n - 1])), n - 1)
  }

  /** The 32 characters of word w. */
  function WordChars(data: string, w: nat): (s: string)
    requires w < 4 && |data| >= 128
    ensures |s| == 32
  {
    data[32 * w..32 * w + 32]
  }

  function PackedWords(data: string): (ws: seq<Bits>)
    requires |data| >= 128
    ensures |ws| == 4 && forall w :: 0 <= w < 4 ==> |ws[w]| == 32
  {
    seq(4, w requires 0 <= w < 4 => PackedWord(WordChars(data, w), 32))
  }

  /** cfg_data_parsing for a row of 128 characters: four 32-bit words. */
  method CfgDataParsing(data: string) returns (result: seq<Bits>)
    requires |data| >= 128
    ensures result == PackedWords(data)
  {
    hide BitsOf, FuseByte, OrShifted;
    result := [Zeros(32), Zeros(32), Zeros(32), Zeros(32)];
    var index, shift := 0, 0;
    for i := 0 to 128
      invariant |result| == 4 && 0 <= index <= 4 && i == 32 * index + shift && 0 <= shift < 32
      invariant forall w :: 0 <= w < 4 ==>
        result[w] == PackedWord(WordChars(data, w), if w < index then 32 else if w == index then shift else 0)
    {
      assert WordChars(data, index)[shift] == data[i];
      result := result[index := OrShifted(result[index], BitsOf(FuseByte(data[i])), shift)];
      shift := shift + 1;
      if (i + 1) % 32 == 0 {
        shift := 0;
        index := index + 1;
      }
    }
  }

  /** The 16 bytes of the words in memory, least significant byte of each word first. */
  function Memory(words: seq<Bits>): (m: seq<Bits>)
    requires |words| == 4 && forall w :: 0 <= w < 4 ==> |words[w]| == 32
    ensures |m| == 16 && forall i :: 0 <= i < 16 ==> |m[i]| == 8
  {
    seq(16, i requires 0 <= i < 16 => words[i / 4][8 * (i % 4)..8 * (i % 4) + 8])
  }

  /** The bytes of a page command: the packed row with every byte swapped. */
  function Page(row: string): (page: seq<Bits>)
    requires |row| >= 128
    ensures |page| == 16 && forall i :: 0 <= i < 16 ==> |page[i]| == 8
  {
    var m := Memory(PackedWords(row));
    seq(16, i requires 0 <= i < 16 => Reverse(m[i]))
  }

  /** The swap loop of cpld_program_i2c. */
  method SwapPage(words: seq<Bits>) returns (page: seq<Bits>)
    requires |words| == 4 && forall w :: 0 <= w < 4 ==> |words[w]| == 32
    ensures |page| == 16 && forall i :: 0 <= i < 16 ==> page[i] == Reverse(Memory(words)[i])
  {
    page := [];
    var buff := Memory(words);
    for index := 0 to 16
      invariant |page| == index && forall i :: 0 <= i < index ==> page[i] == Reverse(buff[i])
    {
      var b := BitSwap(buff[index]);
      page := page + [b];
    }
  }

  /** The wire carries every byte most significant bit first. */
  function Wire(bytes: seq<Bits>): Bits {
    if bytes == [] then [] else Reverse(bytes[0]) + Wire(bytes[1..])
  }

  predicate IsFuseRow(row: string) {
    |row| == 128 && forall i :: 0 <= i < 128 ==> row[i] == '0' || row[i] == '1'
  }

  function FuseBits(row: string): (b: Bits)
    ensures |b| == |row|
  {
    seq(|row|, i requires 0 <= i < |row| => row[i] == '1')
  }

  lemma FuseBytes()
    ensures forall j :: 0 <= j < 8 ==> !BitsOf(FuseByte('0'))[j]
    ensures forall j :: 0 <= j < 8 ==> BitsOf(FuseByte('1'))[j] == (j == 0)
  {
    assert FuseByte('0') == 0 && FuseByte('1') == 1;
  }

  /** On zeros and ones every packed bit is its own character. */
  lemma {:induction false} PackedIsFuse(chars: string, n: nat, k: nat)
    requires |chars| == 32 && n <= 32 && k < 32
    requires forall i :: 0 <= i < 32 ==> chars[i] == '0' || chars[i] == '1'
    ensures PackedWord(chars, n)[k] == (k < n && chars[k] == '1')
  {
    hide BitsOf, FuseByte;
    FuseBytes();
    if n > 0 {
      PackedIsFuse(chars, n - 1, k);
    }
  }

  /** Byte i of the packed row holds characters 8i to 8i+7. */
  lemma MemoryIsFuse(row: string, i: nat)
    requires IsFuseRow(row) && i < 16
    ensures Memory(PackedWords(row))[i] == FuseBits(row[8 * i..8 * i + 8])
  {
    hide PackedWord;
    var m, f := Memory(PackedWords(row))[i], FuseBits(row[8 * i..8 * i + 8]);
    var w, o := i / 4, 8 * (i % 4);
    assert m == PackedWord(WordChars(row, w), 32)[o..o + 8];
    forall k | 0 <= k < 8
      ensures m[k] == f[k]
    {
      assert WordChars(row, w)[o + k] == row[8 * i + k] == row[8 * i..8 * i + 8][k];
      assert forall j :: 0 <= j < 32 ==> WordChars(row, w)[j] == row[32 * w + j];
      PackedIsFuse(WordChars(row, w), 32, o + k);
    }
  }

  lemma {:induction false} WireFrom(row: string, i: nat)
    requires IsFuseRow(row) && i <= 16
    ensures Wire(Page(row)[i..]) == FuseBits(row[8 * i..])
    decreases 16 - i
  {
    hide Memory, PackedWords;
    var page := Page(row);
    if i < 16 {
      MemoryIsFuse(row, i);
      WireFrom(row, i + 1);
      assert page[i..][1..] == page[i + 1..];
      assert Reverse(page[i]) == FuseBits(row[8 * i..8 * i + 8]);
      assert FuseBits(row[8 * i..]) == FuseBits(row[8 * i..8 * i + 8]) + FuseBits(row[8 * (i + 1)..]);
    } else {
      assert page[i..] == [] && row[8 * i..] == "";
    }
  }

  /** Bit order: packing into little-endian words and then swapping every byte puts the fuse
      characters on the wire in file order. */
  lemma FileOrderOnWire(row: string)
    requires IsFuseRow(row)
    ensures Wire(Page(row)) == FuseBits(row)
  {
    WireFrom(row, 0);
    assert Page(row)[0..] == Page(row) && row[0..] == row;
  }
}
