/**
 * The assembler text `GenerateBundles` writes to `temp.s`: a symbol header
 * per embedded blob (`WriteSymbol`) followed by its bytes as decimal
 * `.byte` directives (`WriteBuffer`).
 */
module Assembler {
  import opened Bytes
  import opened AssemblyNames

  /** The length of the read buffer `GenerateBundles` hands to `WriteBuffer`. */
  const BUFFER_SIZE: nat := 8192
  const ROW_START: string := "\n\t.byte "

  // ---------------------------------------------------------------------
  // Decimal numerals (`i.ToString()`)
  // ---------------------------------------------------------------------

  predicate IsDigit(c: char) { '0' <= c <= '9' }

  function Digit(d: nat): (c: char)
    requires d < 10
    ensures IsDigit(c)
  {
    ('0' as int + d) as char
  }

  function DecimalText(n: nat): (r: string)
    ensures |r| >= 1
    decreases n
  {
    if n < 10 then [Digit(n)] else DecimalText(n / 10) + [Digit(n % 10)]
  }

  function ParseDecimal(s: string): int
  {
    if s == [] then 0 else ParseDecimal(s[..|s| - 1]) * 10 + (s[|s| - 1] as int - '0' as int)
  }

  /** The numeral is all digits, has no leading zero, and reads back as the number. */
  lemma {:induction false} DecimalRoundTrip(n: nat)
    ensures ParseDecimal(DecimalText(n)) == n
    ensures forall i :: 0 <= i < |DecimalText(n)| ==> IsDigit(DecimalText(n)[i])
    ensures DecimalText(n)[0] == '0' ==> n == 0
    decreases n
  {
    if n >= 10 {
      DecimalRoundTrip(n / 10);
      var s := DecimalText(n / 10);
      assert (s + [Digit(n % 10)])[..|s|] == s;
      assert (s + [Digit(n % 10)])[0] == s[0];
    }
  }

  // ---------------------------------------------------------------------
  // `WriteBuffer`
  // ---------------------------------------------------------------------

  /** What precedes the byte at position `count` of a read: a new row every 32 bytes, a comma otherwise. */
  function Separator(count: nat): string
  {
    if count % 32 == 0 then ROW_START else ","
  }

  /** The text for the bytes `bs` of one read, the first of which is its `k`-th byte. */
  function Elements(bs: seq<byte>, k: nat): string
    decreases |bs|
  {
    if bs == [] then "" else Separator(k) + DecimalText(bs[0]) + Elements(bs[1..], k + 1)
  }

  /** Each call of `stream.Read` fills at most `length` bytes; the row counter restarts with each read. */
  function ReadsText(data: seq<byte>, length: nat): string
    decreases |data|
  {
    if length == 0 || data == [] then ""
    else
      var n := if |data| < length then |data| else length;
      Elements(data[..n], 0) + ReadsText(data[n..], length)
  }

  /** The whole output of `WriteBuffer`, closed by `ts.WriteLine()`. */
  function BufferText(data: seq<byte>, length: nat): string
  {
    ReadsText(data, length) + "\n"
  }

  /** `WriteBuffer(ts, stream, buffer)`: the stream holds `data` and the buffer is `length` bytes long. */
  method WriteBuffer(data: seq<byte>, length: nat) returns (text: string)
    ensures text == BufferText(data, length)
  {
    text := "";
    var pos := 0;
    while pos < |data| && length > 0
      invariant 0 <= pos <= |data|
      invariant text + ReadsText(data[pos..], length) == ReadsText(data, length)
      invariant length == 0 ==> pos == 0
      decreases |data| - pos
    {
      var n := if |data| - pos < length then |data| - pos else length;
      var row := WriteRead(data[pos..pos + n]);
      ReadsStep(data, pos, length, text);
      text := text + row;
      pos := pos + n;
    }
    assert data[pos..] == [] || length == 0;
    text := text + "\n";
  }

  /** One read consumes the next `min(length, remaining)` bytes and writes their text. */
  lemma ReadsStep(data: seq<byte>, pos: nat, length: nat, text: string)
    requires pos < |data| && length > 0
    requires text + ReadsText(data[pos..], length) == ReadsText(data, length)
    ensures var n := if |data| - pos < length then |data| - pos else length;
      text + Elements(data[pos..pos + n], 0) + ReadsText(data[pos + n..], length) == ReadsText(data, length)
  {
    var n := if |data| - pos < length then |data| - pos else length;
    var rest := data[pos..];
    var a, b := Elements(data[pos..pos + n], 0), ReadsText(data[pos + n..], length);
    assert ReadsText(rest, length) == a + b by {
      assert rest[..n] == data[pos..pos + n];
      assert rest[n..] == data[pos + n..];
      FirstRead(rest, length);
    }
    assert text + (a + b) == text + a + b;
  }

  lemma FirstRead(data: seq<byte>, length: nat)
    requires data != [] && length > 0
    ensures var n := if |data| < length then |data| else length;
      ReadsText(data, length) == Elements(data[..n], 0) + ReadsText(data[n..], length)
  {
  }

  /** The body of the `while` for one read of `n` bytes: `count` starts again at 0. */
  method WriteRead(chunk: seq<byte>) returns (row: string)
    ensures row == Elements(chunk, 0)
  {
    row := "";
    var count := 0;
    while count < |chunk|
      invariant 0 <= count <= |chunk|
      invariant row == Elements(chunk[..count], 0)
    {
      ElementsAppend(chunk[..count], [chunk[count]], 0);
      assert chunk[..count + 1] == chunk[..count] + [chunk[count]];
      row := row + Separator(count) + DecimalText(chunk[count]);
      count := count + 1;
    }
    assert chunk[..count] == chunk;
  }

  lemma {:induction false} ElementsAppend(a: seq<byte>, b: seq<byte>, k: nat)
    ensures Elements(a + b, k) == Elements(a, k) + Elements(b, k + |a|)
    decreases |a|
  {
    if a != [] {
      assert (a + b)[1..] == a[1..] + b;
      ElementsAppend(a[1..], b, k + 1);
    } else {
      assert a + b == b;
    }
  }

  // The reference layout: rows of 32 bytes, comma separated.

  function CommaList(bs: seq<byte>): string
    decreases |bs|
  {
    if bs == [] then "" else "," + DecimalText(bs[0]) + CommaList(bs[1..])
  }

  function RowText(row: seq<byte>): string
    requires |row| > 0
  {
    ROW_START + DecimalText(row[0]) + CommaList(row[1..])
  }

  /** `data` cut into rows of 32 bytes, the last one possibly shorter, one `.byte` directive each. */
  function RowsText(data: seq<byte>): string
    decreases |data|
  {
    if data == [] then ""
    else if |data| <= 32 then RowText(data)
    else RowText(data[..32]) + RowsText(data[32..])
  }

  lemma {:induction false} ElementsInRow(bs: seq<byte>, k: nat)
    requires k % 32 != 0 && k % 32 + |bs| <= 32
    ensures Elements(bs, k) == CommaList(bs)
    decreases |bs|
  {
    if bs != [] && |bs| > 1 {
      ElementsInRow(bs[1..], k + 1);
    }
  }

  lemma {:induction false} ElementsRows(bs: seq<byte>, k: nat)
    requires k % 32 == 0
    ensures Elements(bs, k) == RowsText(bs)
    decreases |bs|
  {
    if bs != [] {
      if |bs| <= 32 {
        if |bs| > 1 {
          ElementsInRow(bs[1..], k + 1);
        }
      } else {
        var head, tail := bs[..32], bs[32..];
        assert bs == head + tail;
        ElementsAppend(head, tail, k);
        ElementsInRow(head[1..], k + 1);
        ElementsRows(tail, k + 32);
      }
    }
  }

  /**
   * When the buffer length is a multiple of 32 the per-read reset of the
   * row counter is invisible: the text is the plain row layout of the data.
   */
  lemma {:induction false} ReadsAreRows(data: seq<byte>, length: nat)
    requires length > 0 && length % 32 == 0
    ensures ReadsText(data, length) == RowsText(data)
    decreases |data|
  {
    if data != [] {
      if |data| < length {
        assert data[..|data|] == data;
        ElementsRows(data, 0);
      } else {
        ReadsAreRows(data[length..], length);
        RowsSplit(data, length);
      }
    }
  }

  /** Cutting the data at a multiple of 32 cuts its rows. */
  lemma RowsSplit(data: seq<byte>, n: nat)
    requires n <= |data| && n % 32 == 0
    ensures RowsText(data) == Elements(data[..n], 0) + RowsText(data[n..])
  {
    ElementsRows(data[..n], 0);
    RowsCut(data, n);
  }

  lemma {:induction false} RowsCut(data: seq<byte>, n: nat)
    requires n <= |data| && n % 32 == 0
    ensures RowsText(data) == RowsText(data[..n]) + RowsText(data[n..])
    decreases n
  {
    if n == 0 {
      assert data[..0] == [] && data[0..] == data;
    } else if n == |data| {
      assert data[..n] == data && data[n..] == [];
    } else {
      var head, rest := data[..32], data[32..];
      assert RowsText(data) == RowText(head) + RowsText(rest);
      RowsCut(rest, n - 32);
      assert rest[n - 32..] == data[n..];
      if n == 32 {
        assert data[..n] == head && rest[..0] == [];
      } else {
        assert data[..n][..32] == head && data[..n][32..] == rest[..n - 32];
        assert RowsText(data[..n]) == RowText(head) + RowsText(rest[..n - 32]);
      }
    }
  }

  /** With the 8192-byte buffer of `GenerateBundles`, `WriteBuffer` writes the data in rows of 32. */
  lemma WriteBufferRows(data: seq<byte>)
    ensures BufferText(data, BUFFER_SIZE) == RowsText(data) + "\n"
  {
    ReadsAreRows(data, BUFFER_SIZE);
  }

  // ---------------------------------------------------------------------
  // `WriteSymbol` and the blocks of `temp.s`
  // ---------------------------------------------------------------------

  /**
   * `WriteSymbol(sw, name, size)`; `target64` is `Target64BitApplication()`,
   * which only the Windows style consults. The `switch` has no `mac` case,
   * so that style writes no header at all; every other style writes a label.
   */
  function SymbolText(style: Style, target64: bool, name: string, size: nat): (r: string)
    ensures r == [] <==> style == Mac
  {
    match style
    case Linux =>
      ".globl " + name + "\n\t.section .rodata\n\t.p2align 5\n\t.type " + name + ", \"object\"\n\t.size "
        + name + ", " + DecimalText(size) + "\n" + name + ":\n" + "\n"
    case Osx =>
      "\t.section __TEXT,__text,regular,pure_instructions\n\t.globl _" + name + "\n\t.data\n\t.align 4\n_"
        + name + ":\n" + "\n"
    case Windows =>
      var mangled := if target64 then name else "_" + name;
      ".globl " + mangled + "\n\t.section .rdata,\"dr\"\n\t.align 32\n" + mangled + ":\n" + "\n"
    case Mac => ""
  }

  /** Only the Linux style declares the size; the others write the same header whatever it is. */
  lemma SizeOnlyOnLinux(style: Style, target64: bool, name: string, size1: nat, size2: nat)
    ensures style != Linux ==> SymbolText(style, target64, name, size1) == SymbolText(style, target64, name, size2)
    ensures style == Linux && size1 != size2 ==> SymbolText(style, target64, name, size1) != SymbolText(style, target64, name, size2)
  {
    if style == Linux && size1 != size2 {
      DecimalRoundTrip(size1);
      DecimalRoundTrip(size2);
      var prefix := ".globl " + name + "\n\t.section .rodata\n\t.p2align 5\n\t.type " + name + ", \"object\"\n\t.size "
        + name + ", ";
      var t1, t2 := SymbolText(style, target64, name, size1), SymbolText(style, target64, name, size2);
      var d1, d2 := DecimalText(size1), DecimalText(size2);
      var rest := "\n" + name + ":\n" + "\n";
      assert t1 == prefix + d1 + rest && t2 == prefix + d2 + rest;
      if t1 == t2 {
        TextsDiffer(prefix, d1, d2, rest);
      }
    }
  }

  /** Two different numerals cannot be told apart by what follows them when that starts with a newline. */
  lemma TextsDiffer(prefix: string, d1: string, d2: string, rest: string)
    requires d1 != d2 && |rest| > 0 && rest[0] == '\n'
    requires forall i :: 0 <= i < |d1| ==> IsDigit(d1[i])
    requires forall i :: 0 <= i < |d2| ==> IsDigit(d2[i])
    ensures prefix + d1 + rest != prefix + d2 + rest
  {
    var t1, t2 := prefix + d1 + rest, prefix + d2 + rest;
    if |d1| < |d2| {
      assert t1[|prefix| + |d1|] == '\n' && t2[|prefix| + |d1|] == d2[|d1|];
    } else if |d2| < |d1| {
      assert t2[|prefix| + |d2|] == '\n' && t1[|prefix| + |d2|] == d1[|d2|];
    } else {
      var i :| 0 <= i < |d1| && d1[i] != d2[i];
      assert t1[|prefix| + i] == d1[i] && t2[|prefix| + i] == d2[i];
    }
  }

  /**
   * One symbol of `temp.s`: its declared size, the bytes written through
   * `WriteBuffer`, whether a `.byte 0` terminator follows and whether an
   * empty line closes it.
   */
  datatype Block = Block(name: string, size: nat, body: seq<byte>, terminated: bool, blankLine: bool)

  /** The number of bytes the block places after its label. */
  function EmittedBytes(b: Block): nat
  {
    |b.body| + if b.terminated then 1 else 0
  }

  predicate SizeMatches(b: Block)
  {
    b.size == EmittedBytes(b)
  }

  function BlockText(style: Style, target64: bool, b: Block): string
  {
    SymbolText(style, target64, b.name, b.size) + BufferText(b.body, BUFFER_SIZE)
      + (if b.terminated then "\t.byte 0\n" else "") + (if b.blankLine then "\n" else "")
  }

  function AsmText(style: Style, target64: bool, blocks: seq<Block>): string
  {
    if blocks == [] then "" else AsmText(style, target64, blocks[..|blocks| - 1]) + BlockText(style, target64, blocks[|blocks| - 1])
  }
}
