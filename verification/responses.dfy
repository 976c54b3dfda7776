/** Normalisation and classification of one typed response line:
    `input(...).strip().lower()` compared against "n" and "y". */
module Responses {

  /** What a response line means to the search. */
  datatype Answer = Yes | No | Invalid

  /** The ASCII characters Python's `str.strip()` removes by default:
      tab, line feed, vertical tab, form feed, carriage return, the four
      information separators 0x1C..0x1F, and space. */
  predicate IsSpace(c: char) {
    var n := c as int;
    n == 0x20 || 0x09 <= n <= 0x0D || 0x1C <= n <= 0x1F
  }

  predicate AllSpace(s: string) {
    forall i :: 0 <= i < |s| ==> IsSpace(s[i])
  }

  /** Length of the longest all-space prefix of `s`. */
  function LeadingSpaces(s: string): (n: nat)
    ensures n <= |s|
    ensures AllSpace(s[..n])
    ensures n < |s| ==> !IsSpace(s[n])
  {
    if |s| == 0 || !IsSpace(s[0]) then 0
    else
      var m := LeadingSpaces(s[1..]);
      assert s[..1 + m] == [s[0]] + s[1..][..m];
      1 + m
  }

  /** Length of the longest all-space suffix of `s`. */
  function TrailingSpaces(s: string): (n: nat)
    ensures n <= |s|
    ensures AllSpace(s[|s| - n..])
    ensures n < |s| ==> !IsSpace(s[|s| - n - 1])
  {
    if |s| == 0 || !IsSpace(s[|s| - 1]) then 0
    else
      var m := TrailingSpaces(s[..|s| - 1]);
      assert s[|s| - (1 + m)..] == s[..|s| - 1][|s| - 1 - m..] + [s[|s| - 1]];
      1 + m
  }

  /** `s.strip()`, restricted to ASCII whitespace: the infix of `s` that is
      empty or starts and ends with a non-space, with only spaces around it. */
  function Strip(s: string): (r: string)
    ensures IsStripOf(s, LeadingSpaces(s), r)
  {
    var lo := LeadingSpaces(s);
    var t := s[lo..];
    var n := TrailingSpaces(t);
    var r := t[..|t| - n];
    assert s[lo..lo + |r|] == r;
    assert s[lo + |r|..] == t[|t| - n..];
    assert |r| > 0 ==> r[0] == s[lo] && r[|r| - 1] == t[|t| - n - 1];
    r
  }

  /** `r` sits at offset `lo` of `s`, is surrounded only by spaces, and is
      empty or has non-space ends. */
  predicate IsStripOf(s: string, lo: nat, r: string) {
    && lo + |r| <= |s|
    && s[lo..lo + |r|] == r
    && AllSpace(s[..lo])
    && AllSpace(s[lo + |r|..])
    && (|r| > 0 ==> !IsSpace(r[0]) && !IsSpace(r[|r| - 1]))
  }

  /** ASCII case folding: 'A'..'Z' become 'a'..'z', every other character is kept. */
  function LowerChar(c: char): char {
    if 'A' <= c <= 'Z' then (c as int + 32) as char else c
  }

  /** `s.lower()`, restricted to ASCII case folding. */
  function Lower(s: string): (r: string)
    ensures |r| == |s|
    ensures forall i :: 0 <= i < |s| ==> r[i] == LowerChar(s[i])
  {
    if |s| == 0 then [] else [LowerChar(s[0])] + Lower(s[1..])
  }

  /** The response line after `.strip().lower()`. */
  function Normalise(line: string): string {
    Lower(Strip(line))
  }

  /** The three-way branch on the normalised line: "n", then "y", else re-prompt. */
  function Classify(line: string): Answer {
    var w := Normalise(line);
    if w == "n" then No else if w == "y" then Yes else Invalid
  }

  /** `line` is the letter `lower` or `upper`, with nothing but ASCII spaces
      around it. */
  ghost predicate KeyLine(line: string, lower: char, upper: char) {
    exists i :: 0 <= i < |line| && AllSpace(line[..i]) && IsKey(line[i], lower, upper) && AllSpace(line[i + 1..])
  }

  predicate IsKey(c: char, lower: char, upper: char) {
    c == lower || c == upper
  }

  /** Whatever surrounds a non-space core with spaces strips back to that core. */
  lemma StripIsUnique(s: string, lo: nat, r: string)
    requires IsStripOf(s, lo, r)
    requires |r| > 0
    ensures Strip(s) == r
  {
  }

  /** Folding a character gives the lower-case letter exactly when the
      character is that letter in either case. */
  lemma LowerCharIsKey(c: char, lower: char, upper: char)
    requires 'a' <= lower <= 'z' && upper as int == lower as int - 32
    ensures LowerChar(c) == lower <==> IsKey(c, lower, upper)
  {
  }

  /** A line whose normalised form is one letter is that letter in either
      case, padded by spaces. */
  lemma NormalisedKeyIsKeyLine(line: string, lower: char, upper: char)
    requires 'a' <= lower <= 'z' && upper as int == lower as int - 32
    requires Normalise(line) == [lower]
    ensures KeyLine(line, lower, upper)
  {
    var r := Strip(line);
    var lo := LeadingSpaces(line);
    LowerCharIsKey(r[0], lower, upper);
    assert line[lo..lo + 1][0] == line[lo];
    assert IsKey(line[lo], lower, upper);
  }

  /** A padded letter in either case normalises to the lower-case letter. */
  lemma KeyLineNormalises(line: string, lower: char, upper: char)
    requires 'a' <= lower <= 'z' && upper as int == lower as int - 32
    requires KeyLine(line, lower, upper)
    ensures Normalise(line) == [lower]
  {
    var i :| 0 <= i < |line| && AllSpace(line[..i]) && IsKey(line[i], lower, upper) && AllSpace(line[i + 1..]);
    assert IsStripOf(line, i, [line[i]]);
    StripIsUnique(line, i, [line[i]]);
    LowerCharIsKey(line[i], lower, upper);
  }

  /** Classification ignores case and surrounding ASCII whitespace: a line is
      "detected" exactly when it is a padded 'y' or 'Y', "not detected"
      exactly when it is a padded 'n' or 'N', and invalid otherwise. */
  lemma ClassifyMeaning(line: string)
    ensures Classify(line) == Yes <==> KeyLine(line, 'y', 'Y')
    ensures Classify(line) == No <==> KeyLine(line, 'n', 'N')
    ensures Classify(line) == Invalid <==> !KeyLine(line, 'y', 'Y') && !KeyLine(line, 'n', 'N')
  {
    if Normalise(line) == "y" { NormalisedKeyIsKeyLine(line, 'y', 'Y'); }
    if KeyLine(line, 'y', 'Y') { KeyLineNormalises(line, 'y', 'Y'); }
    if Normalise(line) == "n" { NormalisedKeyIsKeyLine(line, 'n', 'N'); }
    if KeyLine(line, 'n', 'N') { KeyLineNormalises(line, 'n', 'N'); }
  }

  /** Every line of a script classified on its own, in order. */
  function ClassifyAll(lines: seq<string>): (r: seq<Answer>)
    ensures |r| == |lines|
    ensures forall i :: 0 <= i < |lines| ==> r[i] == Classify(lines[i])
  {
    seq(|lines|, i requires 0 <= i < |lines| => Classify(lines[i]))
  }

  /** A capital "Y" padded by spaces is a "y". */
  lemma PaddedCapitalIsYes()
    ensures Classify(" Y ") == Yes
  {
    var line := " Y ";
    assert AllSpace(line[..1]) && IsKey(line[1], 'y', 'Y') && AllSpace(line[2..]);
    ClassifyMeaning(line);
  }

  /** A bare "y" is a "y". */
  lemma BareLetterIsYes()
    ensures Classify("y") == Yes
  {
    var line := "y";
    assert AllSpace(line[..0]) && IsKey(line[0], 'y', 'Y') && AllSpace(line[1..]);
    ClassifyMeaning(line);
  }

  /** An empty line is neither answer. */
  lemma EmptyLineIsInvalid()
    ensures Classify("") == Invalid
  {
    ClassifyMeaning("");
  }

  /** A word that merely contains the letter is neither answer. */
  lemma WordIsInvalid()
    ensures Classify("maybe") == Invalid
  {
    var line := "maybe";
    forall i | 0 < i <= |line|
      ensures !AllSpace(line[..i])
    {
      assert line[..i][0] == 'm';
    }
    assert !KeyLine(line, 'y', 'Y') && !KeyLine(line, 'n', 'N');
    ClassifyMeaning(line);
  }
}
