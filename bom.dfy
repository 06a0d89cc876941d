/**
 * Byte-order-mark removal: `strip_bom` (downloader.py:64-65) and its use
 * on every line handed to the CSV reader (downloader.py:131).
 */
module Bom {

  /** U+FEFF, what `codecs.BOM_UTF8.decode()` yields. */
  const ByteOrderMark: char := '\U{FEFF}'

  predicate StartsWithBom(line: string) {
    |line| > 0 && line[0] == ByteOrderMark
  }

  /** `strip_bom(line)`: one leading U+FEFF is dropped, nothing else changes. */
  function StripBom(line: string): (r: string)
    ensures StartsWithBom(line) ==> r == line[1..]
    ensures !StartsWithBom(line) ==> r == line
    ensures |r| <= |line| && r == line[|line| - |r|..]
  {
    if StartsWithBom(line) then line[1..] else line
  }

  /** Putting a mark in front of a line and stripping it gives the line back,
      and a line that bore a mark is the mark followed by the stripped line. */
  lemma StripBomRoundTrip(line: string)
    ensures StripBom([ByteOrderMark] + line) == line
    ensures StartsWithBom(line) ==> [ByteOrderMark] + StripBom(line) == line
  {
    assert ([ByteOrderMark] + line)[1..] == line;
  }

  /** Only one mark goes: a line with two leading marks keeps the second. */
  lemma StripBomRemovesOnlyOne(line: string)
    ensures StartsWithBom(StripBom([ByteOrderMark, ByteOrderMark] + line))
  {
    assert ([ByteOrderMark, ByteOrderMark] + line)[1..] == [ByteOrderMark] + line;
  }

  /** `map(strip_bom, input_handle)`: EVERY line loses one leading mark,
      not only the first one. */
  function StripBomLines(lines: seq<string>): (r: seq<string>)
    ensures |r| == |lines|
    ensures forall i :: 0 <= i < |lines| ==> r[i] == StripBom(lines[i])
  {
    if lines == [] then [] else [StripBom(lines[0])] + StripBomLines(lines[1..])
  }
}
