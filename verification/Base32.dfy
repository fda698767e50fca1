/** Base32 secrets, section 6 of RFC 4648 without the final padding characters. */
module Base32 {
  import opened Basics

  type Byte = n: int | 0 <= n < 256

  /** Binary digits, most significant first. */
  type Bits = seq<bool>

  const ALPHABET := "ABCDEFGHIJKLMNOPQRSTUVWXYZ234567"

  /** `n` in binary, padded on the left to the width. */
  function Digits(n: nat, width: nat): (r: Bits)
    ensures |r| == width
  {
    if width == 0 then [] else Digits(n / 2, width - 1) + [n % 2 == 1]
  }

  function Value(bits: Bits): nat {
    if |bits| == 0 then 0 else 2 * Value(bits[..|bits| - 1]) + if bits[|bits| - 1] then 1 else 0
  }

  function Zeros(n: nat): Bits { seq(n, _ => false) }

  // ----- encoding --------------------------------------------------------------------

  function BitsOf(bytes: seq<Byte>): Bits {
    if |bytes| == 0 then [] else BitsOf(bytes[..|bytes| - 1]) + Digits(bytes[|bytes| - 1], 8)
  }

  lemma {:induction false} ValueBound(bits: Bits)
    ensures Value(bits) < Power2(|bits|)
  {
    if |bits| > 0 {
      ValueBound(bits[..|bits| - 1]);
    }
  }

  lemma FiveBits(bits: Bits)
    requires |bits| == 5
    ensures Value(bits) < 32
  {
    ValueBound(bits);
    assert Power2(2) == 4 && Power2(4) == 16 && Power2(5) == 32;
  }

  function CharOf(bits: Bits): char
    requires |bits| == 5
  {
    FiveBits(bits);
    ALPHABET[Value(bits)]
  }

  /** Groups of five digits; the last one is filled up with zeros. */
  function Chars(bits: Bits): string {
    if |bits| == 0 then ""
    else if |bits| < 5 then [CharOf(bits + Zeros(5 - |bits|))]
    else [CharOf(bits[..5])] + Chars(bits[5..])
  }

  function Encode(bytes: seq<Byte>): string { Chars(BitsOf(bytes)) }

  // ----- decoding --------------------------------------------------------------------

  predicate Letter(c: char) { 'A' <= c <= 'Z' || '2' <= c <= '7' }

  predicate Letters(s: string) { forall i :: 0 <= i < |s| ==> Letter(s[i]) }

  /** Where a letter stands in the alphabet. */
  function IndexOf(c: char): (i: nat)
    requires Letter(c)
    ensures i < 32
  {
    if c >= 'A' then c as int - 'A' as int else c as int - '2' as int + 26
  }

  lemma AlphabetIndex(i: nat)
    requires i < 32
    ensures Letter(ALPHABET[i]) && IndexOf(ALPHABET[i]) == i
  {
  }

  function BitsIn(s: string): Bits
    requires Letters(s)
  {
    if |s| == 0 then [] else Digits(IndexOf(s[0]), 5) + BitsIn(s[1..])
  }

  lemma EightBits(bits: Bits)
    requires |bits| == 8
    ensures Value(bits) < 256
  {
    ValueBound(bits);
    assert Power2(2) == 4 && Power2(4) == 16 && Power2(6) == 64 && Power2(8) == 256;
  }

  /** Whole groups of eight digits; what is left over is dropped. */
  function BytesIn(bits: Bits): seq<Byte> {
    if |bits| < 8 then []
    else
      EightBits(bits[..8]);
      [Value(bits[..8])] + BytesIn(bits[8..])
  }

  function Decode(s: string): seq<Byte>
    requires Letters(s)
  {
    BytesIn(BitsIn(s))
  }

  // ----- digits and values undo each other -------------------------------------------

  lemma {:induction false} DigitsOfValue(bits: Bits)
    ensures Digits(Value(bits), |bits|) == bits
  {
    if |bits| > 0 {
      var init, last := bits[..|bits| - 1], bits[|bits| - 1];
      DigitsOfValue(init);
      assert bits == init + [last];
      assert Value(bits) / 2 == Value(init) && (Value(bits) % 2 == 1 <==> last);
    }
  }

  lemma {:induction false} ValueOfDigits(n: nat, width: nat)
    requires n < Power2(width)
    ensures Value(Digits(n, width)) == n
  {
    if width > 0 {
      ValueOfDigits(n / 2, width - 1);
      var bits := Digits(n, width);
      assert bits[..width - 1] == Digits(n / 2, width - 1);
    }
  }

  lemma ByteFits(n: Byte)
    ensures Value(Digits(n, 8)) == n
  {
    assert Power2(2) == 4 && Power2(4) == 16 && Power2(6) == 64 && Power2(8) == 256;
    ValueOfDigits(n, 8);
  }

  lemma IndexFits(i: nat)
    requires i < 32
    ensures Value(Digits(i, 5)) == i
  {
    assert Power2(2) == 4 && Power2(4) == 16 && Power2(5) == 32;
    ValueOfDigits(i, 5);
  }

  // ----- groups undo each other ------------------------------------------------------

  lemma {:induction false} BitsCount(bytes: seq<Byte>)
    ensures |BitsOf(bytes)| == 8 * |bytes|
  {
    if |bytes| > 0 {
      BitsCount(bytes[..|bytes| - 1]);
    }
  }

  lemma {:induction false} BitsFromFront(bytes: seq<Byte>)
    requires |bytes| > 0
    ensures BitsOf(bytes) == Digits(bytes[0], 8) + BitsOf(bytes[1..])
  {
    if |bytes| > 1 {
      var n := |bytes| - 1;
      BitsFromFront(bytes[..n]);
      assert bytes[..n][1..] == bytes[1..][..n - 1];
    } else {
      assert bytes[..0] == [] && bytes[1..] == [];
    }
  }

  /** Bytes survive, whatever fewer than eight digits follow them. */
  lemma {:induction false} BytesSurvive(bytes: seq<Byte>, rest: Bits)
    requires |rest| < 8
    ensures BytesIn(BitsOf(bytes) + rest) == bytes
  {
    if |bytes| == 0 {
      assert BitsOf(bytes) + rest == rest;
    } else {
      BitsFromFront(bytes);
      var bits := BitsOf(bytes) + rest;
      assert bits == Digits(bytes[0], 8) + (BitsOf(bytes[1..]) + rest);
      assert bits[..8] == Digits(bytes[0], 8) && bits[8..] == BitsOf(bytes[1..]) + rest;
      ByteFits(bytes[0]);
      BytesSurvive(bytes[1..], rest);
      assert bytes == [bytes[0]] + bytes[1..];
    }
  }

  /** How many zeros fill up the last group of five. */
  function Fill(n: nat): nat { (5 - n % 5) % 5 }

  lemma FillStep(n: nat)
    ensures n >= 5 ==> Fill(n - 5) == Fill(n)
    ensures 0 < n < 5 ==> Fill(n) == 5 - n
  {
  }

  lemma CharRead(bits: Bits)
    requires |bits| == 5
    ensures Letter(CharOf(bits)) && Digits(IndexOf(CharOf(bits)), 5) == bits
  {
    FiveBits(bits);
    AlphabetIndex(Value(bits));
    DigitsOfValue(bits);
  }

  /** Reading the letters back gives the digits and the filling. */
  lemma {:induction false} CharsRead(bits: Bits)
    ensures Letters(Chars(bits)) && BitsIn(Chars(bits)) == bits + Zeros(Fill(|bits|))
    ensures |Chars(bits)| == (|bits| + 4) / 5
    decreases |bits|
  {
    if |bits| == 0 {
    } else if |bits| < 5 {
      LastCharRead(bits);
    } else {
      CharRead(bits[..5]);
      CharsRead(bits[5..]);
      FillStep(|bits|);
      NextCharRead(CharOf(bits[..5]), Chars(bits[5..]), bits[..5], bits[5..], Zeros(Fill(|bits|)));
      assert bits[..5] + bits[5..] == bits;
    }
  }

  lemma LastCharRead(bits: Bits)
    requires 0 < |bits| < 5
    ensures Letters(Chars(bits)) && BitsIn(Chars(bits)) == bits + Zeros(Fill(|bits|)) && |Chars(bits)| == 1
  {
    var full := bits + Zeros(5 - |bits|);
    CharRead(full);
    var s := Chars(bits);
    assert s == [CharOf(full)] && s[1..] == "" && BitsIn("") == [];
    assert BitsIn(s) == Digits(IndexOf(s[0]), 5) + BitsIn(s[1..]);
    FillStep(|bits|);
    assert full + [] == full;
  }

  lemma NextCharRead(c: char, more: string, first: Bits, rest: Bits, zeros: Bits)
    requires Letter(c) && Digits(IndexOf(c), 5) == first
    requires Letters(more) && BitsIn(more) == rest + zeros
    ensures Letters([c] + more) && BitsIn([c] + more) == first + rest + zeros
  {
    assert ([c] + more)[1..] == more;
    assert first + (rest + zeros) == first + rest + zeros;
  }

  // ----- main results ----------------------------------------------------------------

  /** Decoding undoes encoding for every byte sequence, and the encoding is as short as five bits a letter allow. */
  lemma RoundTrip(bytes: seq<Byte>)
    ensures Letters(Encode(bytes)) && Decode(Encode(bytes)) == bytes
    ensures |Encode(bytes)| == (8 * |bytes| + 4) / 5
  {
    BitsCount(bytes);
    CharsRead(BitsOf(bytes));
    BytesSurvive(bytes, Zeros(Fill(8 * |bytes|)));
  }

  // ----- numbers ---------------------------------------------------------------------

  /** Bytes as one number in base 256, most significant first. */
  function BytesNumber(bytes: seq<Byte>): nat {
    if |bytes| == 0 then 0 else 256 * BytesNumber(bytes[..|bytes| - 1]) + bytes[|bytes| - 1]
  }

  /** Letters as one number in base 32: A to Z are 0 to 25, and 2 to 7 are 26 to 31. */
  function LettersNumber(s: string): nat
    requires Letters(s)
  {
    if |s| == 0 then 0
    else
      var c := s[|s| - 1];
      32 * LettersNumber(s[..|s| - 1]) + if c >= 'A' then c as int - 65 else c as int - 24
  }

  lemma Shifted(x: nat, power: nat, sum: nat, y: nat, digit: nat)
    requires sum == x * power + y
    ensures 2 * sum + digit == x * (2 * power) + (2 * y + digit)
  {
  }

  lemma {:induction false} ValueConcat(a: Bits, b: Bits)
    ensures Value(a + b) == Value(a) * Power2(|b|) + Value(b)
  {
    if |b| == 0 {
      assert a + b == a;
    } else {
      var n := |b| - 1;
      ValueConcat(a, b[..n]);
      assert (a + b)[..|a| + n] == a + b[..n];
      Shifted(Value(a), Power2(n), Value(a + b[..n]), Value(b[..n]), if b[n] then 1 else 0);
    }
  }

  lemma {:induction false} ZerosValue(n: nat)
    ensures Value(Zeros(n)) == 0
  {
    if n > 0 {
      ZerosValue(n - 1);
      assert Zeros(n)[..n - 1] == Zeros(n - 1);
    }
  }

  lemma NextByte(bits: Bits, n: Byte)
    ensures Value(bits + Digits(n, 8)) == 256 * Value(bits) + n
  {
    ByteFits(n);
    ValueConcat(bits, Digits(n, 8));
    assert Power2(2) == 4 && Power2(4) == 16 && Power2(6) == 64 && Power2(8) == 256;
  }

  lemma {:induction false} BytesValue(bytes: seq<Byte>)
    ensures Value(BitsOf(bytes)) == BytesNumber(bytes)
  {
    if |bytes| > 0 {
      var n := |bytes| - 1;
      BytesValue(bytes[..n]);
      NextByte(BitsOf(bytes[..n]), bytes[n]);
    }
  }

  lemma {:induction false} BitsFromBack(s: string)
    requires |s| > 0 && Letters(s)
    ensures BitsIn(s) == BitsIn(s[..|s| - 1]) + Digits(IndexOf(s[|s| - 1]), 5)
  {
    var n := |s| - 1;
    if n > 0 {
      BitsFromBack(s[1..]);
      assert s[1..][..n - 1] == s[..n][1..];
    } else {
      assert s[1..] == "" && s[..0] == "";
    }
  }

  lemma NextLetter(bits: Bits, c: char)
    requires Letter(c)
    ensures Value(bits + Digits(IndexOf(c), 5)) == 32 * Value(bits) + if c >= 'A' then c as int - 65 else c as int - 24
  {
    IndexFits(IndexOf(c));
    ValueConcat(bits, Digits(IndexOf(c), 5));
    assert Power2(2) == 4 && Power2(4) == 16 && Power2(5) == 32;
  }

  lemma {:induction false} LettersValue(s: string)
    requires Letters(s)
    ensures Value(BitsIn(s)) == LettersNumber(s)
  {
    if |s| > 0 {
      var n := |s| - 1;
      LettersValue(s[..n]);
      BitsFromBack(s);
      NextLetter(BitsIn(s[..n]), s[n]);
    }
  }

  /**
   The letters are the bytes in another base: read as a number in base 32 they are the bytes read in
   base 256, times two for every digit that fills up the last letter. With the number of letters
   this leaves no other encoding.
   */
  lemma EncodesNumber(bytes: seq<Byte>)
    ensures Letters(Encode(bytes))
    ensures LettersNumber(Encode(bytes)) == BytesNumber(bytes) * Power2(Fill(8 * |bytes|))
  {
    BitsCount(bytes);
    CharsRead(BitsOf(bytes));
    LettersValue(Encode(bytes));
    BytesValue(bytes);
    ValueConcat(BitsOf(bytes), Zeros(Fill(8 * |bytes|)));
    ZerosValue(Fill(8 * |bytes|));
  }

  /** The digits that decoding drops. */
  function Dropped(s: string): Bits
    requires Letters(s)
  {
    var bits := BitsIn(s);
    bits[|bits| / 8 * 8..]
  }

  lemma {:induction false} LettersCount(s: string)
    requires Letters(s)
    ensures |BitsIn(s)| == 5 * |s|
  {
    if |s| > 0 {
      LettersCount(s[1..]);
    }
  }

  lemma {:induction false} BytesKeepBits(bits: Bits)
    ensures BitsOf(BytesIn(bits)) == bits[..|bits| / 8 * 8]
    decreases |bits|
  {
    if |bits| >= 8 {
      BytesKeepBits(bits[8..]);
      EightBits(bits[..8]);
      var bytes := BytesIn(bits);
      BitsFromFront(bytes);
      assert bytes[1..] == BytesIn(bits[8..]);
      DigitsOfValue(bits[..8]);
      var k := |bits| / 8 * 8;
      assert |bits[8..]| / 8 * 8 == k - 8;
      assert bits[..k] == bits[..8] + bits[8..][..k - 8];
    }
  }

  lemma {:induction false} LettersFromBits(s: string)
    requires Letters(s)
    ensures Chars(BitsIn(s)) == s
  {
    if |s| > 0 {
      LettersFromBits(s[1..]);
      var bits := BitsIn(s);
      assert bits[..5] == Digits(IndexOf(s[0]), 5) && bits[5..] == BitsIn(s[1..]);
      IndexFits(IndexOf(s[0]));
      LetterOf(s[0]);
      assert s == [s[0]] + s[1..];
    }
  }

  lemma LetterOf(c: char)
    requires Letter(c)
    ensures ALPHABET[IndexOf(c)] == c
  {
    AlphabetIndex(IndexOf(c));
  }

  lemma {:induction false} FillingIsInvisible(bits: Bits, zeros: nat)
    requires zeros < 5 && (|bits| + zeros) % 5 == 0
    ensures Chars(bits + Zeros(zeros)) == Chars(bits)
    decreases |bits|
  {
    if |bits| < 5 {
      assert bits + Zeros(0) == bits;
      if 0 < |bits| {
        assert zeros == 5 - |bits|;
        assert (bits + Zeros(zeros))[5..] == [] && (bits + Zeros(zeros))[..5] == bits + Zeros(zeros);
      }
    } else {
      assert (bits + Zeros(zeros))[..5] == bits[..5] && (bits + Zeros(zeros))[5..] == bits[5..] + Zeros(zeros);
      FillingIsInvisible(bits[5..], zeros);
    }
  }

  /** A text is the encoding of what it decodes to exactly when fewer than five digits are dropped, all of them zero. */
  lemma ReencodeExact(s: string)
    requires Letters(s)
    ensures Encode(Decode(s)) == s <==> |Dropped(s)| < 5 && Dropped(s) == Zeros(|Dropped(s)|)
  {
    var bits := BitsIn(s);
    var kept, dropped := bits[..|bits| / 8 * 8], Dropped(s);
    LettersCount(s);
    BytesKeepBits(bits);
    assert bits == kept + dropped;
    if Encode(Decode(s)) == s {
      DroppedIsFilling(s, kept, dropped);
    }
    if |dropped| < 5 && dropped == Zeros(|dropped|) {
      FillingIsDropped(s, kept, |dropped|);
    }
  }

  lemma FillingIsDropped(s: string, kept: Bits, zeros: nat)
    requires Letters(s) && BitsIn(s) == kept + Zeros(zeros) && zeros < 5
    ensures Chars(kept) == s
  {
    LettersCount(s);
    assert |kept| + zeros == 5 * |s|;
    FillingIsInvisible(kept, zeros);
    LettersFromBits(s);
  }

  lemma DroppedIsFilling(s: string, kept: Bits, dropped: Bits)
    requires Letters(s) && BitsIn(s) == kept + dropped && Chars(kept) == s
    ensures |dropped| < 5 && dropped == Zeros(|dropped|)
  {
    CharsRead(kept);
    SameTail(kept, dropped, Zeros(Fill(|kept|)));
  }

  lemma SameTail(front: Bits, a: Bits, b: Bits)
    requires front + a == front + b
    ensures a == b
  {
    assert (front + a)[|front|..] == a && (front + b)[|front|..] == b;
  }

  // ----- the loops -------------------------------------------------------------------

  method CollectBits(input: seq<Byte>) returns (bits: Bits)
    ensures bits == BitsOf(input)
  {
    bits := [];
    var i := 0;
    while i < |input|
      invariant 0 <= i <= |input| && bits == BitsOf(input[..i])
    {
      assert input[..i + 1][..i] == input[..i];
      bits := bits + Digits(input[i], 8);
      i := i + 1;
    }
    assert input[..i] == input;
  }

  function GroupEnd(bits: Bits, from: nat): (to: nat)
    requires from < |bits|
    ensures from < to <= |bits|
  {
    if from + 5 <= |bits| then from + 5 else |bits|
  }

  /** The next group of five digits, filled up with zeros at the end. */
  function Group(bits: Bits, from: nat): (group: Bits)
    requires from < |bits|
    ensures |group| == 5
  {
    var chunk := bits[from..GroupEnd(bits, from)];
    chunk + Zeros(5 - |chunk|)
  }

  /** One more letter: what is written so far and what is left make up the same text. */
  lemma NextGroup(text: string, bits: Bits, from: nat)
    requires from < |bits|
    ensures text + [CharOf(Group(bits, from))] + Chars(bits[GroupEnd(bits, from)..]) == text + Chars(bits[from..])
  {
    var rest := bits[from..];
    if from + 5 <= |bits| {
      assert rest[..5] == bits[from..from + 5] && rest[5..] == bits[from + 5..];
      assert rest[..5] + Zeros(0) == rest[..5];
    } else {
      assert rest == bits[from..|bits|] && bits[|bits|..] == [];
    }
    assert Chars(rest) == [CharOf(Group(bits, from))] + Chars(bits[GroupEnd(bits, from)..]);
  }

  /** The digits accumulate byte by byte; then letters are taken five digits at a time. */
  method EncodeBytes(input: seq<Byte>) returns (text: string)
    ensures text == Encode(input)
  {
    var bits := CollectBits(input);
    text := "";
    var from := 0;
    assert bits[from..] == bits;
    while from < |bits|
      invariant 0 <= from <= |bits|
      invariant text + Chars(bits[from..]) == Chars(bits)
    {
      NextGroup(text, bits, from);
      text := text + [CharOf(Group(bits, from))];
      from := GroupEnd(bits, from);
    }
    assert bits[from..] == [];
  }
}
