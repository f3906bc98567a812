/** Character classes of the lexer, UTF-8 widths, and the byte offsets they induce.

A Go string is modelled as the sequence of its runes.  The lexer of the source keeps byte
offsets, so `Offset(s, i)` gives the byte offset of the i-th rune and `RuneAt(s, off)`
decodes the rune whose first byte stands at `off`. */
module Runes {

  // The lexer's end-of-input marker, which is also the NUL character.
  const EOF: char := '\0'

  predicate IsWhitespace(r: char) {
    r == '\t' || r == ' '
  }

  predicate IsNL(r: char) {
    r == '\n' || r == '\r'
  }

  predicate IsDigit(r: char) {
    '0' <= r <= '9'
  }

  predicate IsHexadecimal(r: char) {
    '0' <= r <= '9' || 'a' <= r <= 'f' || 'A' <= r <= 'F'
  }

  predicate IsBareKeyChar(r: char) {
    'A' <= r <= 'Z' || 'a' <= r <= 'z' || '0' <= r <= '9' || r == '_' || r == '-'
  }

  predicate IsAsciiLetter(r: char) {
    'a' <= r <= 'z' || 'A' <= r <= 'Z'
  }

  // unicode.IsLetter: which runes outside ASCII are letters is left open.
  type LetterClass = f: char -> bool | forall r: char :: r as int < 0x80 ==> f(r) == IsAsciiLetter(r)
    witness IsAsciiLetter

  const IsLetter: LetterClass

  function Width(r: char): (w: nat)
    ensures 1 <= w <= 4
  {
    if r as int < 0x80 then 1 else if r as int < 0x800 then 2 else if r as int < 0x1_0000 then 3 else 4
  }

  // Byte offset of rune i of s.
  function Offset(s: string, i: nat): nat
    requires i <= |s|
  {
    if i == 0 then 0 else Offset(s, i - 1) + Width(s[i - 1])
  }

  lemma {:induction false} OffsetStrict(s: string, i: nat, j: nat)
    requires i < j <= |s|
    ensures Offset(s, i) + (j - i) <= Offset(s, j)
    decreases j
  {
    if i < j - 1 {
      OffsetStrict(s, i, j - 1);
    }
  }

  lemma {:induction false} OffsetTail(s: string, i: nat)
    requires 0 < i <= |s|
    ensures Offset(s, i) == Width(s[0]) + Offset(s[1..], i - 1)
  {
    if i > 1 {
      OffsetTail(s, i - 1);
    }
  }

  // utf8.DecodeRuneInString(s[off:]), for an offset at which a rune starts.
  function RuneAt(s: string, off: nat): char
  {
    if s == [] then EOF else if off < Width(s[0]) then s[0] else RuneAt(s[1..], off - Width(s[0]))
  }

  // s[from:to], for offsets at which runes start.
  function Slice(s: string, from: nat, to: nat): string
  {
    if s == [] || to == 0 then []
    else if from == 0 then [s[0]] + Slice(s[1..], 0, if to < Width(s[0]) then 0 else to - Width(s[0]))
    else Slice(s[1..], if from < Width(s[0]) then 0 else from - Width(s[0]),
               if to < Width(s[0]) then 0 else to - Width(s[0]))
  }

  lemma {:induction false} RuneAtOffset(s: string, i: nat)
    requires i < |s|
    ensures RuneAt(s, Offset(s, i)) == s[i]
  {
    if i > 0 {
      OffsetTail(s, i);
      RuneAtOffset(s[1..], i - 1);
    }
  }

  lemma {:induction false} SliceOffsets(s: string, i: nat, j: nat)
    requires i <= j <= |s|
    ensures Slice(s, Offset(s, i), Offset(s, j)) == s[i..j]
  {
    if j > 0 {
      OffsetTail(s, j);
      if i == 0 {
        SliceOffsets(s[1..], 0, j - 1);
        assert s[0..j] == [s[0]] + s[1..][0..j - 1];
      } else {
        OffsetTail(s, i);
        SliceOffsets(s[1..], i - 1, j - 1);
        assert s[i..j] == s[1..][i - 1..j - 1];
      }
    }
  }

  // 1 plus the number of newlines before rune i: the line the lexer reports there.
  function Line(s: string, i: nat): nat
    requires i <= |s|
  {
    if i == 0 then 1 else Line(s, i - 1) + if s[i - 1] == '\n' then 1 else 0
  }
}
