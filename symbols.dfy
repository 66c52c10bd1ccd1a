/**
 * Assembler symbol names.
 *
 * `EncodeAotSymbol` turns an assembly name into the suffix of its AOT module
 * symbol the way the AOT compiler does: byte by byte over the UTF-8 form,
 * keeping ASCII letters and digits and writing `_` for anything else.
 * `GenerateBundles` escapes the canonical name for its data symbols with the
 * pattern `[^\w_]`, character by character.
 */
module Symbols {
  import opened Bytes
  import opened Utf8

  /** `c >= '0' && c <= '9' || c >= 'a' && c <= 'z' || c >= 'A' && c <= 'Z'`. */
  predicate IsAlphanumeric(c: char)
  {
    '0' <= c <= '9' || 'a' <= c <= 'z' || 'A' <= c <= 'Z'
  }

  /** What the symbol may contain. */
  predicate IsSymbolChar(c: char)
  {
    IsAlphanumeric(c) || c == '_'
  }

  predicate IsSymbol(s: string)
  {
    forall i :: 0 <= i < |s| ==> IsSymbolChar(s[i])
  }

  /** One byte of the UTF-8 form, read as the character `(char) b`. */
  function ByteSymbol(b: byte): char
  {
    var c := b as char;
    if IsAlphanumeric(c) then c else '_'
  }

  function BytesSymbol(bs: seq<byte>): (r: string)
    ensures |r| == |bs|
    ensures forall i :: 0 <= i < |bs| ==> r[i] == ByteSymbol(bs[i])
  {
    if bs == [] then [] else BytesSymbol(bs[..|bs| - 1]) + [ByteSymbol(bs[|bs| - 1])]
  }

  function AotSymbol(name: string): string
  {
    BytesSymbol(Encode(name))
  }

  /** `EncodeAotSymbol`: the `StringBuilder` loop over the UTF-8 bytes. */
  method EncodeAotSymbol(symbol: string) returns (r: string)
    ensures r == AotSymbol(symbol)
  {
    var bytes := Encode(symbol);
    r := [];
    var i := 0;
    while i < |bytes|
      invariant 0 <= i <= |bytes|
      invariant r == BytesSymbol(bytes[..i])
    {
      var c := bytes[i] as char;
      if IsAlphanumeric(c) {
        r := r + [c];
      } else {
        r := r + ['_'];
      }
      assert bytes[..i + 1][..i] == bytes[..i];
      i := i + 1;
    }
    assert bytes[..i] == bytes;
  }

  /** One character per UTF-8 byte, each a letter, a digit or `_`. */
  lemma AotSymbolShape(name: string)
    ensures |AotSymbol(name)| == |Encode(name)|
    ensures IsSymbol(AotSymbol(name))
    ensures |AotSymbol(name)| >= |name|
  {
  }

  /** ASCII names keep their letters and digits in place; every other character becomes `_`. */
  lemma AotSymbolAscii(name: string)
    requires IsAscii(name)
    ensures |AotSymbol(name)| == |name|
    ensures forall i :: 0 <= i < |name| ==>
      AotSymbol(name)[i] == if IsAlphanumeric(name[i]) then name[i] else '_'
  {
    EncodeAscii(name);
  }

  /** Encoding an already encoded symbol changes nothing. */
  lemma AotSymbolIdempotent(name: string)
    ensures AotSymbol(AotSymbol(name)) == AotSymbol(name)
  {
    var s := AotSymbol(name);
    assert IsAscii(s);
    AotSymbolAscii(s);
  }

  /** `Regex("[^\\w_]").Replace(name, "_")`, with `\w` read as ASCII letters, digits and `_`. */
  function EscapeDataSymbol(name: string): (r: string)
  {
    if name == [] then [] else
      var c := name[|name| - 1];
      EscapeDataSymbol(name[..|name| - 1]) + [if IsSymbolChar(c) then c else '_']
  }

  /** The escape keeps every symbol character in place and replaces everything else, one for one. */
  lemma {:induction false} EscapeDataSymbolSpec(name: string)
    ensures |EscapeDataSymbol(name)| == |name|
    ensures forall i :: 0 <= i < |name| ==>
      EscapeDataSymbol(name)[i] == if IsSymbolChar(name[i]) then name[i] else '_'
  {
    if name != [] {
      EscapeDataSymbolSpec(name[..|name| - 1]);
    }
  }

  /** For ASCII names the data symbol and the AOT symbol agree: `_` maps to itself under both rules. */
  lemma EscapeAgreesWithAot(name: string)
    requires IsAscii(name)
    ensures EscapeDataSymbol(name) == AotSymbol(name)
  {
    EscapeDataSymbolSpec(name);
    AotSymbolAscii(name);
  }

  /** Escaping yields a symbol and is the identity on symbols. */
  lemma EscapeDataSymbolIsSymbol(name: string)
    ensures IsSymbol(EscapeDataSymbol(name))
    ensures IsSymbol(name) ==> EscapeDataSymbol(name) == name
  {
    EscapeDataSymbolSpec(name);
  }
}
