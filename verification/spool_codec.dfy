/** The 45-byte handshake of the print spooler: what the client prints and what
    the server makes of it. */
module SpoolCodec {
  import opened Decimal

  type Bytes = seq<char>

  predicate IsSpace(c: char) {
    c in {' ', '\t', '\n', '\r', '\U{0B}', '\U{0C}'}
  }

  function LStrip(s: Bytes): (r: Bytes)
    ensures |r| <= |s|
  {
    if s != [] && IsSpace(s[0]) then LStrip(s[1..]) else s
  }

  function RStrip(s: Bytes): (r: Bytes)
    ensures |r| <= |s|
  {
    if s != [] && IsSpace(s[|s| - 1]) then RStrip(s[..|s| - 1]) else s
  }

  function Strip(s: Bytes): (r: Bytes)
    ensures |r| <= |s|
  {
    RStrip(LStrip(s))
  }

  function Spaces(n: nat): (r: Bytes)
    ensures |r| == n
  {
    if n == 0 then [] else [' '] + Spaces(n - 1)
  }

  /** The %30s and %10s formats pad on the left and never truncate. */
  function PadLeft(s: Bytes, width: nat): (r: Bytes)
    ensures |r| == if |s| < width then width else |s|
  {
    if |s| < width then Spaces(width - |s|) + s else s
  }

  function Handshake(queue: Bytes, size: nat): (r: Bytes)
    ensures |r| >= 45
  {
    "SPOOL" + PadLeft(queue, 30) + PadLeft(Print(size), 10)
  }

  datatype Parsed = Job(queue: Bytes, size: int) | BadMagic | BadSize | ZeroSize

  /** int() on a stripped string: an optional sign and at least one digit. */
  function ParseInt(s: Bytes): Parsed {
    var sign := if s != [] && s[0] == '-' then -1 else 1;
    var digits := if s != [] && s[0] in {'-', '+'} then s[1..] else s;
    if digits == [] || !AllDigits(digits) then BadSize else Job([], sign * Value(digits))
  }

  function Parse(msg: Bytes): Parsed
    requires |msg| == 45
  {
    if msg[..5] != "SPOOL" then BadMagic else
    var n := ParseInt(Strip(msg[35..45]));
    if !n.Job? then BadSize
    else if n.size == 0 then ZeroSize
    else Job(Strip(msg[5..35]), n.size)
  }

  // -------------------------------------------------------------------- stripping

  lemma {:induction false} LStripSpaces(n: nat, s: Bytes)
    ensures LStrip(Spaces(n) + s) == LStrip(s)
    decreases n
  {
    if n == 0 {
      assert Spaces(0) + s == s;
    } else {
      LStripSpaces(n - 1, s);
      assert (Spaces(n) + s)[1..] == Spaces(n - 1) + s;
    }
  }

  lemma StripPad(s: Bytes, width: nat)
    ensures Strip(PadLeft(s, width)) == Strip(s)
  {
    if |s| < width { LStripSpaces(width - |s|, s); }
  }

  lemma {:induction false} StripDigits(s: Bytes)
    requires AllDigits(s)
    ensures Strip(s) == s
  {
  }

  lemma ParsePrinted(n: nat)
    ensures ParseInt(Print(n)) == Job([], n)
  {
    ValueOfPrint(n);
  }

  // -------------------------------------------------------------------- round trip

  /** The fields of a handshake whose queue name fits. */
  lemma Fields(queue: Bytes, size: nat)
    requires |queue| <= 30
    ensures var h := Handshake(queue, size);
            && h[..5] == "SPOOL"
            && h[5..35] == PadLeft(queue, 30)
            && h[35..45] == PadLeft(Print(size), 10)[..10]
            && (|h| == 45 <==> size < Pow10(10))
  {
    PrintFits(size, 10);
    var magic, name, num := "SPOOL", PadLeft(queue, 30), PadLeft(Print(size), 10);
    var h := Handshake(queue, size);
    assert h == magic + name + num;
    assert |magic| == 5 && |name| == 30;
    assert h[35..45] == num[..10];
  }

  /** A long number loses its last digits. */
  lemma CutSizeDiffers(size: nat)
    requires size >= Pow10(10)
    ensures ParseInt(Strip(PadLeft(Print(size), 10)[..10])) != Job([], size)
  {
    PrintFits(size, 10);
    var cut := Print(size)[..10];
    assert PadLeft(Print(size), 10)[..10] == cut;
    StripDigits(cut);
    ValueBound(cut);
  }

  function SizeField(size: nat): Parsed {
    ParseInt(Strip(PadLeft(Print(size), 10)[..10]))
  }

  lemma ParseOfHandshake(queue: Bytes, size: nat)
    requires |queue| <= 30
    ensures Parse(Handshake(queue, size)[..45])
         == if !SizeField(size).Job? then BadSize
            else if SizeField(size).size == 0 then ZeroSize
            else Job(Strip(queue), SizeField(size).size)
  {
    var h := Handshake(queue, size);
    var msg := h[..45];
    Fields(queue, size);
    assert msg[..5] == h[..5] && msg[5..35] == h[5..35] && msg[35..45] == h[35..45];
    StripPad(queue, 30);
  }

  lemma SizeFieldIs(size: nat)
    ensures SizeField(size) == Job([], size) <==> size < Pow10(10)
    ensures SizeField(size).Job? ==> SizeField(size).queue == []
  {
    if size < Pow10(10) {
      PrintFits(size, 10);
      StripPad(Print(size), 10);
      StripDigits(Print(size));
      ParsePrinted(size);
      assert PadLeft(Print(size), 10)[..10] == PadLeft(Print(size), 10);
    } else {
      CutSizeDiffers(size);
    }
  }

  /** The server reads back the client's queue name and size from the first 45
      bytes if and only if the name fits, has no outer white space, and the size
      is neither zero nor longer than ten digits. */
  lemma HandshakeRoundTrip(queue: Bytes, size: nat)
    ensures Parse(Handshake(queue, size)[..45]) == Job(queue, size)
       <==> |queue| <= 30 && Strip(queue) == queue && 1 <= size < Pow10(10)
  {
    if |queue| <= 30 {
      ParseOfHandshake(queue, size);
      SizeFieldIs(size);
    } else {
      assert |Strip(Handshake(queue, size)[..45][5..35])| <= 30;
    }
  }

  /** A message of the right length is always understood, up to stripping. */
  lemma HandshakeParses(queue: Bytes, size: nat)
    requires |queue| <= 30 && size < Pow10(10)
    ensures |Handshake(queue, size)| == 45
    ensures Parse(Handshake(queue, size)) == if size == 0 then ZeroSize else Job(Strip(queue), size)
  {
    Fields(queue, size);
    ParseOfHandshake(queue, size);
    SizeFieldIs(size);
    assert Handshake(queue, size)[..45] == Handshake(queue, size);
  }

  // ------------------------------------------------------------ all other messages

  lemma {:induction false} LStripCuts(s: Bytes)
    ensures LStrip(s) == s[|s| - |LStrip(s)|..]
    ensures forall k :: 0 <= k < |s| - |LStrip(s)| ==> IsSpace(s[k])
    ensures LStrip(s) != [] ==> !IsSpace(LStrip(s)[0])
    decreases |s|
  {
    if s != [] && IsSpace(s[0]) {
      LStripCuts(s[1..]);
      forall k | 0 <= k < |s| - |LStrip(s)| ensures IsSpace(s[k]) {
        if k > 0 { assert s[k] == s[1..][k - 1]; }
      }
    }
  }

  lemma {:induction false} RStripCuts(s: Bytes)
    ensures RStrip(s) == s[..|RStrip(s)|]
    ensures forall k :: |RStrip(s)| <= k < |s| ==> IsSpace(s[k])
    ensures RStrip(s) != [] ==> !IsSpace(RStrip(s)[|RStrip(s)| - 1])
    decreases |s|
  {
    if s != [] && IsSpace(s[|s| - 1]) {
      RStripCuts(s[..|s| - 1]);
    }
  }

  /** strip() cuts off exactly the white space at both ends. */
  lemma StripExactly(s: Bytes) returns (i: nat, j: nat)
    ensures i <= j <= |s| && Strip(s) == s[i..j]
    ensures forall k :: 0 <= k < i || j <= k < |s| ==> s[k] in {' ', '\t', '\n', '\r', '\U{0B}', '\U{0C}'}
    ensures i < j ==> s[i] !in {' ', '\t', '\n', '\r', '\U{0B}', '\U{0C}'}
    ensures i < j ==> s[j - 1] !in {' ', '\t', '\n', '\r', '\U{0B}', '\U{0C}'}
  {
    var left := LStrip(s);
    LStripCuts(s);
    RStripCuts(left);
    i := |s| - |left|;
    j := i + |Strip(s)|;
    assert forall k :: i <= k < |s| ==> s[k] == left[k - i];
  }

  /** s is the number v in decimal, with or without a sign. */
  ghost predicate IsNumber(s: Bytes, v: int) {
    exists digits: Bytes :: digits != [] && AllDigits(digits)
      && (((s == digits || s == "+" + digits) && v == Value(digits)) || (s == "-" + digits && v + Value(digits) == 0))
  }

  lemma ParseIntExactly(s: Bytes, v: int)
    ensures ParseInt(s) == Job([], v) <==> IsNumber(s, v)
    ensures ParseInt(s) == BadSize || ParseInt(s) == Job([], ParseInt(s).size)
  {
    var digits := if s != [] && s[0] in {'-', '+'} then s[1..] else s;
    if ParseInt(s) == Job([], v) {
      assert s != [] && s[0] in {'-', '+'} ==> s == [s[0]] + digits;
      assert IsNumber(s, v);
    }
    forall d: Bytes | d != [] && AllDigits(d) && (s == d || s == "+" + d || s == "-" + d) ensures d == digits {
      assert IsDigit(d[0]);
      assert s != d ==> s[1..] == d;
    }
  }

  /** The server's reading of any 45 bytes: refused without the magic word, refused
      without a number in the size field, refused if that is zero, and otherwise
      understood as the stripped name and the number. */
  lemma ParseExactly(msg: Bytes, v: int)
    requires |msg| == 45
    ensures Parse(msg) == BadMagic <==> msg[..5] != "SPOOL"
    ensures Parse(msg) == ZeroSize <==> msg[..5] == "SPOOL" && IsNumber(Strip(msg[35..45]), 0)
    ensures (Parse(msg) == Job(Strip(msg[5..35]), v) && v != 0)
       <==> msg[..5] == "SPOOL" && v != 0 && IsNumber(Strip(msg[35..45]), v)
    ensures Parse(msg).Job? ==> Parse(msg) == Job(Strip(msg[5..35]), Parse(msg).size) && Parse(msg).size != 0
  {
    var field := Strip(msg[35..45]);
    ParseIntExactly(field, v);
    ParseIntExactly(field, 0);
  }

  /** What the client prints: name and size at the right of their fields, or in
      full if they are longer, and blanks in between. */
  lemma HandshakeLayout(queue: Bytes, size: nat)
    ensures var h, num := Handshake(queue, size), Print(size);
            var p := if |queue| < 30 then 30 - |queue| else 0;
            var q := if |num| < 10 then 10 - |num| else 0;
            && |h| == 5 + p + |queue| + q + |num| && h[..5] == "SPOOL"
            && h[5 + p..5 + p + |queue|] == queue && h[5 + p + |queue| + q..] == num
            && (forall k :: 5 <= k < 5 + p ==> h[k] == ' ')
            && (forall k :: 5 + p + |queue| <= k < 5 + p + |queue| + q ==> h[k] == ' ')
  {
    var num := Print(size);
    var p := if |queue| < 30 then 30 - |queue| else 0;
    var q := if |num| < 10 then 10 - |num| else 0;
    AllBlank(p);
    AllBlank(q);
    assert PadLeft(queue, 30) == Spaces(p) + queue && PadLeft(num, 10) == Spaces(q) + num;
    FiveParts("SPOOL", Spaces(p), queue, Spaces(q), num);
  }

  lemma FiveParts(a: Bytes, b: Bytes, c: Bytes, d: Bytes, e: Bytes)
    ensures var h := a + (b + c) + (d + e);
            && |h| == |a| + |b| + |c| + |d| + |e| && h[..|a|] == a
            && h[|a| + |b|..|a| + |b| + |c|] == c && h[|a| + |b| + |c| + |d|..] == e
            && (forall k :: |a| <= k < |a| + |b| ==> h[k] == b[k - |a|])
            && (forall k :: |a| + |b| + |c| <= k < |a| + |b| + |c| + |d| ==> h[k] == d[k - |a| - |b| - |c|])
  {
  }

  lemma {:induction false} AllBlank(n: nat)
    ensures forall k :: 0 <= k < n ==> Spaces(n)[k] == ' '
    decreases n
  {
    if n > 0 { AllBlank(n - 1); }
  }
}
