/** The pure decisions of the table cell (`generic-cell.tsx`): how blob bytes are
    shown (`prettifyBytes` and the 64-byte preview of `BlobCellValue`) and when the
    type-mismatch marker of `GenericCell` appears. */
module GenericCell {
  import opened Common
  import opened JsText

  const Backslash: char := '\\'

  /** Bytes shown as `\xHH`: control bytes and DEL. */
  predicate IsHexEscaped(b: int)
  {
    b < 0x20 || b == 0x7F
  }

  /** Bytes shown as the character with their code. */
  predicate IsPlain(b: int)
  {
    b >= 0x20 && b != 0x7F && b != 0x5C
  }

  const UpperHexDigits: string := "0123456789ABCDEF"

  /** `b.toString(16).toUpperCase().padStart(2, "0")`. */
  function HexByte(b: byte): (r: string)
    ensures r == [UpperHexDigits[b / 16], UpperHexDigits[b % 16]]
  {
    HexByteDigits(b);
    PadStart(Upper(ToHex(b)), 2, '0')
  }

  /** For a byte the hex text is exactly two upper-case digits, high digit first. */
  lemma HexByteDigits(b: byte)
    ensures PadStart(Upper(ToHex(b)), 2, '0') == [UpperHexDigits[b / 16], UpperHexDigits[b % 16]]
  {
    if b < 16 {
      SmallHex(b);
    } else {
      var hi, lo := b / 16, b % 16;
      assert ToHex(b) == ToHex(hi) + [HexDigits[lo]];
      SmallHex(hi);
      UpperDigit(hi);
      UpperDigit(lo);
      assert Upper(ToHex(b)) == [UpperHexDigits[hi], UpperHexDigits[lo]];
    }
  }

  /** A digit of `toString(16)`, upper-cased, is the upper-case digit. */
  lemma UpperDigit(d: int)
    requires 0 <= d < 16
    ensures UpperChar(HexDigits[d]) == UpperHexDigits[d]
  {
  }

  /** A value below 16 has one hex digit, and padding puts a `0` before it. */
  lemma SmallHex(d: int)
    requires 0 <= d < 16
    ensures ToHex(d) == [HexDigits[d]]
    ensures PadStart(Upper(ToHex(d)), 2, '0') == ['0', UpperHexDigits[d]]
  {
    UpperDigit(d);
    var u := Upper(ToHex(d));
    assert u == [UpperHexDigits[d]];
    var p := PadStart(u, 2, '0');
    assert p[1..] == u;
  }

  /** What one byte becomes. */
  function Piece(b: byte): (p: string)
    ensures |p| == 1 || |p| == 2 || |p| == 4
  {
    if b == 0x5C then [Backslash, Backslash]
    else if b >= 0x20 && b != 0x7F then [b as char]
    else [Backslash, 'x'] + HexByte(b)
  }

  /** The three shapes a byte takes: a backslash is doubled, ... */
  lemma PieceBackslash()
    ensures Piece(0x5C) == [Backslash, Backslash]
  {
  }

  /** ... a printable byte is its own character, ... */
  lemma PiecePlain(b: byte)
    requires IsPlain(b)
    ensures Piece(b) == [b as char]
  {
  }

  /** ... and a control byte or DEL is `\x` and two upper-case hex digits. */
  lemma PieceHex(b: byte)
    requires IsHexEscaped(b)
    ensures Piece(b) == [Backslash, 'x', UpperHexDigits[b / 16], UpperHexDigits[b % 16]]
  {
  }

  /** `prettifyBytes(bytes)`: the pieces of the bytes, in order. */
  function Prettify(bytes: seq<byte>): (r: string)
    ensures |bytes| <= |r| <= 4 * |bytes|
  {
    if |bytes| == 0 then "" else Piece(bytes[0]) + Prettify(bytes[1..])
  }

  /** Prettifying works byte by byte: it distributes over concatenation. */
  lemma {:induction false} PrettifyConcat(a: seq<byte>, b: seq<byte>)
    ensures Prettify(a + b) == Prettify(a) + Prettify(b)
  {
    if |a| == 0 {
      assert a + b == b;
    } else {
      assert (a + b)[0] == a[0];
      assert (a + b)[1..] == a[1..] + b;
      PrettifyConcat(a[1..], b);
    }
  }

  // ---------------------------------------------------------------------------
  // Decoding

  function HexValue(c: char): (v: int)
    ensures -1 <= v < 16
    ensures 0 <= v ==> UpperHexDigits[v] == c
  {
    if '0' <= c <= '9' then c as int - '0' as int
    else if 'A' <= c <= 'F' then c as int - 'A' as int + 10
    else -1
  }

  function Cons(b: byte, rest: Option<seq<byte>>): Option<seq<byte>>
  {
    match rest
    case Some(bs) => Some([b] + bs)
    case None => None
  }

  /** Reads `\\` as 0x5C, `\xHH` (upper-case digits, a control byte or DEL) as that
      byte, and any other character with a code below 256 as that code; anything else
      is not the output of `Prettify`. */
  function Unprettify(s: string): Option<seq<byte>>
    decreases |s|
  {
    if |s| == 0 then Some([])
    else if s[0] == Backslash then
      if |s| >= 2 && s[1] == Backslash then Cons(0x5C, Unprettify(s[2..]))
      else if |s| >= 4 && s[1] == 'x' && HexValue(s[2]) >= 0 && HexValue(s[3]) >= 0
              && IsHexEscaped(HexValue(s[2]) * 16 + HexValue(s[3]))
      then Cons(HexValue(s[2]) * 16 + HexValue(s[3]), Unprettify(s[4..]))
      else None
    else if s[0] as int < 256 && IsPlain(s[0] as int) then Cons(s[0] as int, Unprettify(s[1..]))
    else None
  }

  lemma DecodeBackslash(rest: string)
    ensures Unprettify([Backslash, Backslash] + rest) == Cons(0x5C, Unprettify(rest))
  {
    assert ([Backslash, Backslash] + rest)[2..] == rest;
  }

  lemma DecodePlain(b: byte, rest: string)
    requires IsPlain(b)
    ensures Unprettify([b as char] + rest) == Cons(b, Unprettify(rest))
  {
    assert ([b as char] + rest)[1..] == rest;
  }

  lemma DecodeHex(b: byte, rest: string)
    requires IsHexEscaped(b)
    ensures Unprettify([Backslash, 'x', UpperHexDigits[b / 16], UpperHexDigits[b % 16]] + rest) == Cons(b, Unprettify(rest))
  {
    var s := [Backslash, 'x', UpperHexDigits[b / 16], UpperHexDigits[b % 16]] + rest;
    assert HexValue(s[2]) == b / 16;
    assert HexValue(s[3]) == b % 16;
    assert s[4..] == rest;
  }

  /** The display is uniquely decodable: decoding it gives back the bytes. */
  lemma {:induction false} UnprettifyPrettify(bytes: seq<byte>)
    ensures Unprettify(Prettify(bytes)) == Some(bytes)
  {
    if |bytes| > 0 {
      var b, tail := bytes[0], bytes[1..];
      var rest := Prettify(tail);
      PrettifyFront(bytes);
      UnprettifyPrettify(tail);
      DecodePiece(b, rest);
      SplitAt(bytes, 1);
      assert bytes[..1] == [b];
    }
  }

  lemma PrettifyFront(bytes: seq<byte>)
    requires |bytes| > 0
    ensures Prettify(bytes) == Piece(bytes[0]) + Prettify(bytes[1..])
  {
  }

  /** Decoding reads one piece back as its byte. */
  lemma DecodePiece(b: byte, rest: string)
    ensures Unprettify(Piece(b) + rest) == Cons(b, Unprettify(rest))
  {
    if b == 0x5C {
      PieceBackslash();
      DecodeBackslash(rest);
    } else if IsPlain(b) {
      PiecePlain(b);
      DecodePlain(b, rest);
    } else {
      PieceHex(b);
      DecodeHex(b, rest);
    }
  }

  /** How many characters the first piece of a decodable text takes. */
  function FrontLength(s: string): nat
    requires |s| > 0
  {
    if s[0] != Backslash then 1 else if |s| >= 2 && s[1] == Backslash then 2 else 4
  }

  /** A decodable text starts with the piece of its first byte, and the rest decodes
      to the remaining bytes. */
  lemma DecodeFront(s: string)
    requires |s| > 0 && Unprettify(s).Some?
    ensures FrontLength(s) <= |s|
    ensures |Unprettify(s).value| > 0
    ensures s[..FrontLength(s)] == Piece(Unprettify(s).value[0])
    ensures Unprettify(s[FrontLength(s)..]) == Some(Unprettify(s).value[1..])
  {
    if s[0] != Backslash {
      PiecePlain(s[0] as int);
    } else if |s| >= 2 && s[1] == Backslash {
      PieceBackslash();
    } else {
      DecodeFrontHex(s);
    }
  }

  lemma DecodeFrontHex(s: string)
    requires |s| >= 2 && s[0] == Backslash && s[1] != Backslash && Unprettify(s).Some?
    ensures |s| >= 4 && |Unprettify(s).value| > 0
    ensures s[..4] == Piece(Unprettify(s).value[0])
    ensures Unprettify(s[4..]) == Some(Unprettify(s).value[1..])
  {
    var b: byte := HexValue(s[2]) * 16 + HexValue(s[3]);
    PieceHex(b);
    assert b / 16 == HexValue(s[2]) && b % 16 == HexValue(s[3]);
  }

  /** Conversely, whatever decodes is the display of what it decodes to. */
  lemma {:induction false} PrettifyUnprettify(s: string)
    requires Unprettify(s).Some?
    ensures Prettify(Unprettify(s).value) == s
    decreases |s|
  {
    if |s| > 0 {
      var bs := Unprettify(s).value;
      DecodeFront(s);
      var k := FrontLength(s);
      PrettifyUnprettify(s[k..]);
      PrettifyFront(bs);
      SplitAt(s, k);
    }
  }

  /** Different byte strings are never shown the same way. */
  lemma PrettifyInjective(a: seq<byte>, b: seq<byte>)
    requires Prettify(a) == Prettify(b)
    ensures a == b
  {
    UnprettifyPrettify(a);
    UnprettifyPrettify(b);
  }

  // ---------------------------------------------------------------------------
  // Blob cell

  const PreviewBytes: nat := 64

  /** A blob cell value: bytes (`Uint8Array`, `ArrayBuffer`) or an array of numbers. */
  datatype BlobValue = Bytes(bytes: seq<byte>) | Numbers(numbers: seq<int>)

  /** `new Uint8Array(value)`: numbers are reduced modulo 256. */
  function BlobBytes(v: BlobValue): (r: seq<byte>)
    ensures |r| == if v.Bytes? then |v.bytes| else |v.numbers|
    ensures v.Bytes? ==> r == v.bytes
    ensures v.Numbers? ==> forall i :: 0 <= i < |r| ==> (r[i] - v.numbers[i]) % 256 == 0
  {
    match v
    case Bytes(bytes) => bytes
    case Numbers(numbers) => seq(|numbers|, i requires 0 <= i < |numbers| => numbers[i] % 256)
  }

  /** The text of a (non-vector) blob cell: the first 64 bytes, prettified. */
  function BlobPreview(v: BlobValue): (r: string)
    ensures var bytes := BlobBytes(v);
            && r <= Prettify(bytes)
            && |r| <= 4 * PreviewBytes
            && (|bytes| <= PreviewBytes ==> r == Prettify(bytes))
            && Unprettify(r) == Some(bytes[..Min(PreviewBytes, |bytes|)])
  {
    var bytes := BlobBytes(v);
    var shown := bytes[..Min(PreviewBytes, |bytes|)];
    PrettifyConcat(shown, bytes[|shown|..]);
    assert shown + bytes[|shown|..] == bytes;
    UnprettifyPrettify(shown);
    Prettify(shown)
  }

  // ---------------------------------------------------------------------------
  // Type-mismatch marker

  /** A column affinity (`TableColumnDataType`). */
  datatype ColumnType = TextType | IntegerType | RealType | BlobType

  /** `valueType && header.dataType && valueType !== header.dataType`. */
  function ShowsMismatch(valueType: Option<ColumnType>, dataType: Option<ColumnType>): (shown: bool)
    ensures shown <==> valueType.Some? && dataType.Some? && valueType != dataType
  {
    match (valueType, dataType)
    case (Some(v), Some(d)) => v != d
    case _ => false
  }
}
