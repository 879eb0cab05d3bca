/** The avatar's background colour, picked from a fixed palette by the first character of its
    text, and the upper-cased initial it shows. */
module Avatar {
  import opened Results

  /** `colors`: the twelve background colours, in palette order. */
  const Colors: seq<string> := [
    "#f44336", "#e91e63", "#9c27b0", "#673ab7", "#3f51b5", "#2196f3",
    "#03a9f4", "#00bcd4", "#009688", "#4caf50", "#8bc34a", "#cddc39"
  ]

  /** The colour used when there is no text to pick by. */
  const Blank: string := "#fff"

  /** `s.charCodeAt(0)` for a string whose first character is `c`: the first UTF-16 code unit of
      `c`, which for a character outside the Basic Multilingual Plane is its high surrogate. */
  function FirstCodeUnit(c: char): (u: int)
    ensures 0 <= u < 0x1_0000
    ensures c as int < 0x1_0000 ==> u == c as int
    ensures c as int >= 0x1_0000 ==> 0xD800 <= u < 0xDC00
  {
    if c as int < 0x1_0000 then c as int else 0xD800 + (c as int - 0x1_0000) / 0x400
  }

  /** `letter.charCodeAt(0) % colors.length` for a non-empty `letter`: always a palette index. */
  function ColorIndex(letter: string): (i: int)
    requires letter != []
    ensures 0 <= i < |Colors|
  {
    FirstCodeUnit(letter[0]) % |Colors|
  }

  /** `getRandomColor(letter)`: blank for a missing or empty string, otherwise the palette entry
      at the colour index of its first character. */
  function RandomColor(letter: Option<string>): (color: string)
    ensures color == Blank <==> letter.None? || letter.value == []
    ensures color != Blank ==> color in Colors
  {
    if letter.None? || letter.value == [] then Blank
    else Colors[ColorIndex(letter.value)]
  }

  /** The palette holds twelve different colours, none of them the blank one. */
  lemma PaletteDistinct(i: int, j: int)
    requires 0 <= i < |Colors| && 0 <= j < |Colors|
    ensures Colors[i] != Blank
    ensures Colors[i] == Colors[j] <==> i == j
  {
  }

  /** Two non-empty strings get the same colour exactly when the code units of their first
      characters agree modulo twelve; in particular the rest of the string never matters. */
  lemma SameColor(a: string, b: string)
    requires a != [] && b != []
    ensures RandomColor(Some(a)) == RandomColor(Some(b)) <==>
      FirstCodeUnit(a[0]) % 12 == FirstCodeUnit(b[0]) % 12
  {
  }

  /** Every palette entry is in use: the one-letter string "H", "I", ..., "S" at offset `i`
      picks entry `i`. */
  lemma EveryColorUsed(i: int)
    requires 0 <= i < |Colors|
    ensures exists c: char :: RandomColor(Some([c])) == Colors[i]
  {
    var c := (72 + i) as char;
    assert FirstCodeUnit(c) == 72 + i;
    assert ColorIndex([c]) == i by {
      assert (72 + i) % 12 == i;
    }
    assert RandomColor(Some([c])) == Colors[i];
  }

  predicate IsLowerAscii(c: char)
  {
    'a' <= c <= 'z'
  }

  /** `toUpperCase` on one ASCII character; other characters are kept as they are. */
  function UpperAscii(c: char): char
  {
    if IsLowerAscii(c) then (c as int - 32) as char else c
  }

  /** `text?.charAt(0).toUpperCase()`: absent for absent text, empty for empty text, otherwise
      the first character upper-cased. Only ASCII is case-mapped; the contract says nothing
      about the initial of a text that starts with any other character. */
  function Initial(text: Option<string>): (r: Option<string>)
    ensures r.None? <==> text.None?
    ensures text.Some? && text.value == [] ==> r == Some([])
    ensures text.Some? && text.value != [] && text.value[0] as int < 128 ==>
      |r.value| == 1 && !IsLowerAscii(r.value[0])
    ensures text.Some? && text.value != [] && IsLowerAscii(text.value[0]) ==>
      r.value[0] as int == text.value[0] as int - 32 && 'A' <= r.value[0] <= 'Z'
    ensures text.Some? && text.value != [] && text.value[0] as int < 128 && !IsLowerAscii(text.value[0]) ==>
      r.value == text.value[..1]
  {
    match text
    case None => None
    case Some(s) => if s == [] then Some([]) else Some([UpperAscii(s[0])])
  }

  /** The colour is picked from the text as given, not from the initial shown on it: "alice" and
      "Alice" show the same initial "A" on different colours. */
  lemma ColorFollowsTextNotInitial()
    ensures Initial(Some("alice")) == Initial(Some("Alice")) == Some("A")
    ensures RandomColor(Some("alice")) == Colors[1]
    ensures RandomColor(Some("Alice")) == Colors[5]
  {
    assert FirstCodeUnit('a') == 97;
    assert FirstCodeUnit('A') == 65;
  }
}
