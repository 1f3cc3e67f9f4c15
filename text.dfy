/**
 * The text normalisation that `classify_text` applies before any pattern is tried:
 *   1. every run of line breaks and tabs becomes one space (`NEWLINES_REGEX`);
 *   2. every match of `CLEAN_REGEX` (an HTML tag, a URL starting with `http`, or one
 *      character that is neither a word character nor whitespace) becomes one space,
 *      scanning left to right as `re.sub` does;
 *   3. every run of whitespace becomes one space (`SPACES_REGEX`);
 *   4. the text is lower-cased and 5. stripped of surrounding whitespace.
 * The character classes follow Python's Unicode `\s`, `\w` and `str.lower` on ASCII and
 * Latin-1; above U+00FF they are approximated (see README).
 */
module Text {

  /** Python's `\s` for `str` patterns. */
  predicate IsSpace(c: char) {
    c == ' ' || c == '\t' || c == '\n' || c == '\r' || c == '\U{B}' || c == '\U{C}'
    || ('\U{1C}' <= c <= '\U{1F}') || c == '\U{85}' || c == '\U{A0}' || c == '\U{1680}'
    || ('\U{2000}' <= c <= '\U{200A}') || c == '\U{2028}' || c == '\U{2029}'
    || c == '\U{202F}' || c == '\U{205F}' || c == '\U{3000}'
  }

  /** Python's `\w` for `str` patterns: letters, digits, numerals and the underscore. */
  predicate IsWordChar(c: char) {
    ('a' <= c <= 'z') || ('A' <= c <= 'Z') || ('0' <= c <= '9') || c == '_'
    || c == '\U{AA}' || c == '\U{B2}' || c == '\U{B3}' || c == '\U{B5}' || c == '\U{B9}'
    || c == '\U{BA}' || ('\U{BC}' <= c <= '\U{BE}')
    || ('\U{C0}' <= c <= '\U{FF}' && c != '\U{D7}' && c != '\U{F7}')
    || ('\U{100}' <= c && !IsSpace(c)
        && !('\U{300}' <= c <= '\U{36F}')    // combining diacritical marks
        && !('\U{2000}' <= c <= '\U{206F}')  // general punctuation: quotes, dashes, ellipsis
        && !('\U{20A0}' <= c <= '\U{20FF}')  // currency signs, combining marks for symbols
        && c != '\U{2122}'                    // trade mark sign
        && !('\U{2190}' <= c <= '\U{245F}')  // arrows, mathematical operators, technical symbols
        && !('\U{2500}' <= c <= '\U{2BFF}')  // box drawing, shapes, miscellaneous symbols, dingbats
        && !('\U{3000}' <= c <= '\U{303F}')  // CJK punctuation
        && !('\U{FE00}' <= c <= '\U{FE0F}')  // variation selectors
        && !('\U{1F000}' <= c <= '\U{1FAFF}')) // emoji and pictographs
  }

  /** The characters `NEWLINES_REGEX` collapses: `[\n\r\t]`. */
  predicate IsLineBreak(c: char) {
    c == '\n' || c == '\r' || c == '\t'
  }

  /** `str.lower` on one character (ASCII and Latin-1 capitals). */
  function Lower(c: char): char {
    if 'A' <= c <= 'Z' || ('\U{C0}' <= c <= '\U{DE}' && c != '\U{D7}') then
      (c as int + 32) as char
    else
      c
  }

  /** Length of the longest prefix of `s` whose characters all satisfy `inRun`. */
  function RunLength(s: string, inRun: char -> bool): (n: nat)
    ensures n <= |s|
    ensures forall i :: 0 <= i < n ==> inRun(s[i])
    ensures n < |s| ==> !inRun(s[n])
  {
    if s == [] || !inRun(s[0]) then 0 else 1 + RunLength(s[1..], inRun)
  }

  /** `re.sub(r'[class]+', ' ', s)`: every maximal run of characters satisfying `inRun` becomes one space. */
  function Squeeze(s: string, inRun: char -> bool): string
    decreases |s|
  {
    if s == [] then []
    else if inRun(s[0]) then " " + Squeeze(s[RunLength(s, inRun)..], inRun)
    else [s[0]] + Squeeze(s[1..], inRun)
  }

  /** Index of the first `c` in `s`, or -1. */
  function IndexOf(s: string, c: char): (i: int)
    ensures -1 <= i < |s|
    ensures i >= 0 ==> s[i] == c && forall k :: 0 <= k < i ==> s[k] != c
    ensures i == -1 ==> forall k :: 0 <= k < |s| ==> s[k] != c
  {
    if s == [] then -1
    else if s[0] == c then 0
    else
      var j := IndexOf(s[1..], c);
      if j < 0 then -1 else j + 1
  }

  /** Length of a match of `<[^>]+>` at the start of `s`, or 0: the tag runs to the first `>`
      and must enclose at least one character. */
  function TagLength(s: string): (n: nat)
    ensures n <= |s|
    ensures n > 0 ==> n >= 3 && s[0] == '<' && s[n - 1] == '>'
    ensures n > 0 ==> forall k :: 0 < k < n - 1 ==> s[k] != '>'
    ensures forall j :: 1 < j < |s| && s[0] == '<' && s[j] == '>' && '>' !in s[1..j] ==> n == j + 1
  {
    if s != [] && s[0] == '<' then
      var j := IndexOf(s[1..], '>');
      if j >= 1 then j + 2 else 0
    else 0
  }

  /** Length of a match of `http\S+` at the start of `s`, or 0 (case-sensitive: the regex has no `re.I`). */
  function UrlLength(s: string): (n: nat)
    ensures n <= |s|
    ensures n > 0 ==> n >= 5 && s[..4] == "http" && forall k :: 4 <= k < n ==> !IsSpace(s[k])
    ensures 0 < n < |s| ==> IsSpace(s[n])
    ensures |s| >= 5 && s[..4] == "http" && !IsSpace(s[4]) ==> n > 0
  {
    if |s| >= 5 && s[..4] == "http" && !IsSpace(s[4]) then
      4 + RunLength(s[4..], c => !IsSpace(c))
    else 0
  }

  /** Length of the `CLEAN_REGEX` match at the start of `s`, or 0; the alternatives are tried in
      the regex's order: tag, URL, one character that is neither `\w` nor `\s`. */
  function CleanMatch(s: string): (n: nat)
    ensures n <= |s|
    ensures TagLength(s) > 0 ==> n == TagLength(s)
    ensures TagLength(s) == 0 && UrlLength(s) > 0 ==> n == UrlLength(s)
    ensures TagLength(s) == 0 && UrlLength(s) == 0 ==> (n > 0 <==> s != [] && !IsWordChar(s[0]) && !IsSpace(s[0]))
    ensures n > 0 ==> n == TagLength(s) || n == UrlLength(s) || n == 1
  {
    if TagLength(s) > 0 then TagLength(s)
    else if UrlLength(s) > 0 then UrlLength(s)
    else if s != [] && !IsWordChar(s[0]) && !IsSpace(s[0]) then 1
    else 0
  }

  /** `CLEAN_REGEX.sub(' ', s)`. */
  function Clean(s: string): string
    decreases |s|
  {
    if s == [] then []
    else
      var n := CleanMatch(s);
      if n == 0 then [s[0]] + Clean(s[1..]) else " " + Clean(s[n..])
  }

  function LowerAll(s: string): (r: string)
    ensures |r| == |s|
  {
    seq(|s|, i requires 0 <= i < |s| => Lower(s[i]))
  }

  function TrimStart(s: string): (r: string)
    ensures |r| <= |s| && r == s[|s| - |r|..]
    ensures r != [] ==> !IsSpace(r[0])
  {
    if s != [] && IsSpace(s[0]) then TrimStart(s[1..]) else s
  }

  function TrimEnd(s: string): (r: string)
    ensures |r| <= |s| && r == s[..|r|]
    ensures r != [] ==> !IsSpace(r[|r| - 1])
  {
    if s != [] && IsSpace(s[|s| - 1]) then TrimEnd(s[..|s| - 1]) else s
  }

  /** `str.strip()`. */
  function Strip(s: string): string {
    TrimEnd(TrimStart(s))
  }

  /** The cleaned text `text_clean` of `classify_text`. */
  function Normalize(text: string): string {
    Strip(LowerAll(Squeeze(Clean(Squeeze(text, IsLineBreak)), IsSpace)))
  }

  // ---------------------------------------------------------------------------
  // What normalisation guarantees about its result

  ghost predicate WordsAndSpaces(s: string) {
    forall i :: 0 <= i < |s| ==> IsWordChar(s[i]) || IsSpace(s[i])
  }

  ghost predicate WordsAndBlanks(s: string) {
    forall i :: 0 <= i < |s| ==> IsWordChar(s[i]) || s[i] == ' '
  }

  ghost predicate NoDoubleBlank(s: string) {
    forall i :: 0 <= i < |s| - 1 ==> s[i] != ' ' || s[i + 1] != ' '
  }

  ghost predicate LowerCase(s: string) {
    forall i :: 0 <= i < |s| ==> Lower(s[i]) == s[i]
  }

  /** Word characters and single blanks, all lower-case. */
  ghost predicate Shape(s: string) {
    WordsAndBlanks(s) && NoDoubleBlank(s) && LowerCase(s)
  }

  /** The shape of every cleaned text: word characters separated by single spaces,
      lower-case, with no space at either end. */
  ghost predicate Normalized(t: string) {
    && Shape(t)
    && (t != [] ==> t[0] != ' ' && t[|t| - 1] != ' ')
  }

  /** After `CLEAN_REGEX` only word characters and whitespace are left. */
  lemma {:induction false} CleanLeavesWordsAndSpaces(s: string)
    ensures WordsAndSpaces(Clean(s))
    decreases |s|
  {
    if s != [] {
      var n := CleanMatch(s);
      if n == 0 {
        CleanLeavesWordsAndSpaces(s[1..]);
        assert IsWordChar(s[0]) || IsSpace(s[0]);
        assert Clean(s) == [s[0]] + Clean(s[1..]);
      } else {
        CleanLeavesWordsAndSpaces(s[n..]);
        assert Clean(s) == " " + Clean(s[n..]);
      }
    }
  }

  lemma SqueezeStart(s: string, inRun: char -> bool)
    requires s != [] && !inRun(s[0])
    ensures Squeeze(s, inRun) != [] && Squeeze(s, inRun)[0] == s[0]
  {
  }

  /** Squeezing whitespace leaves single blanks between word characters. */
  lemma {:induction false} SqueezeSpacesLeavesBlanks(s: string)
    requires WordsAndSpaces(s)
    ensures WordsAndBlanks(Squeeze(s, IsSpace)) && NoDoubleBlank(Squeeze(s, IsSpace))
    decreases |s|
  {
    if s != [] {
      var r := Squeeze(s, IsSpace);
      if IsSpace(s[0]) {
        var n := RunLength(s, IsSpace);
        var rest := s[n..];
        assert WordsAndSpaces(rest) by {
          forall i | 0 <= i < |rest| ensures IsWordChar(rest[i]) || IsSpace(rest[i]) {
            assert rest[i] == s[n + i];
          }
        }
        SqueezeSpacesLeavesBlanks(rest);
        assert r == " " + Squeeze(rest, IsSpace);
        if rest != [] {
          SqueezeStart(rest, IsSpace);
          assert r[1] == rest[0] && r[1] != ' ';
        }
      } else {
        var rest := s[1..];
        assert WordsAndSpaces(rest) by {
          forall i | 0 <= i < |rest| ensures IsWordChar(rest[i]) || IsSpace(rest[i]) {
            assert rest[i] == s[1 + i];
          }
        }
        SqueezeSpacesLeavesBlanks(rest);
        assert r == [s[0]] + Squeeze(rest, IsSpace);
        assert IsWordChar(s[0]) && s[0] != ' ';
      }
    }
  }

  lemma LowerChar(c: char)
    ensures IsWordChar(c) ==> IsWordChar(Lower(c))
    ensures Lower(c) == ' ' <==> c == ' '
    ensures Lower(Lower(c)) == Lower(c)
  {
  }

  lemma LowerAllKeepsShape(s: string)
    requires WordsAndBlanks(s) && NoDoubleBlank(s)
    ensures Shape(LowerAll(s))
  {
    var r := LowerAll(s);
    forall i | 0 <= i < |s| ensures (IsWordChar(r[i]) || r[i] == ' ') && Lower(r[i]) == r[i] {
      LowerChar(s[i]);
    }
    forall i | 0 <= i < |s| - 1 ensures r[i] != ' ' || r[i + 1] != ' ' {
      LowerChar(s[i]);
      LowerChar(s[i + 1]);
    }
  }

  lemma SliceKeepsShape(s: string, a: nat, b: nat)
    requires a <= b <= |s| && Shape(s)
    ensures Shape(s[a..b])
  {
    var r := s[a..b];
    assert forall i :: 0 <= i < |r| ==> r[i] == s[a + i];
  }

  lemma TrimKeepsShape(s: string)
    requires Shape(s)
    ensures Shape(TrimStart(s)) && Shape(TrimEnd(s))
  {
    var front, back := TrimStart(s), TrimEnd(s);
    SliceKeepsShape(s, |s| - |front|, |s|);
    assert front == s[|s| - |front|..|s|];
    SliceKeepsShape(s, 0, |back|);
    assert back == s[0..|back|];
  }

  lemma StripKeepsShape(s: string)
    requires Shape(s)
    ensures Normalized(Strip(s))
  {
    var a := TrimStart(s);
    TrimKeepsShape(s);
    TrimKeepsShape(a);
    var r := TrimEnd(a);
    assert Shape(r);
    if r != [] {
      assert a != [] && r[0] == a[0] && !IsSpace(a[0]);
      assert !IsSpace(r[|r| - 1]);
    }
  }

  /** Every cleaned text has the shape `Normalized` describes. */
  lemma NormalizeIsNormalized(text: string)
    ensures Normalized(Normalize(text))
  {
    var c := Clean(Squeeze(text, IsLineBreak));
    CleanLeavesWordsAndSpaces(Squeeze(text, IsLineBreak));
    SqueezeSpacesLeavesBlanks(c);
    LowerAllKeepsShape(Squeeze(c, IsSpace));
    StripKeepsShape(LowerAll(Squeeze(c, IsSpace)));
  }

  /** `http` starts at position `i`: where `CLEAN_REGEX` would remove a URL. */
  predicate HttpAt(s: string, i: int) {
    0 <= i && i + 4 <= |s| && s[i..i + 4] == "http"
  }

  ghost predicate NoHttp(s: string) {
    forall i :: !HttpAt(s, i)
  }

  lemma NoHttpTail(s: string)
    requires s != [] && NoHttp(s)
    ensures NoHttp(s[1..])
  {
    forall i ensures !HttpAt(s[1..], i) {
      if HttpAt(s[1..], i) {
        assert s[1..][i..i + 4] == s[i + 1..i + 5];
        assert HttpAt(s, i + 1);
      }
    }
  }

  /** Word characters and whitespace without `http` contain no match of `CLEAN_REGEX`. */
  lemma {:induction false} CleanKeepsPlainText(s: string)
    requires WordsAndSpaces(s) && NoHttp(s)
    ensures Clean(s) == s
    decreases |s|
  {
    if s != [] {
      assert !HttpAt(s, 0);
      assert TagLength(s) == 0;
      assert UrlLength(s) == 0 by {
        if |s| >= 5 {
          assert s[..4] == s[0..4];
        }
      }
      assert CleanMatch(s) == 0;
      var rest := s[1..];
      assert WordsAndSpaces(rest) by {
        forall i | 0 <= i < |rest| ensures IsWordChar(rest[i]) || IsSpace(rest[i]) {
          assert rest[i] == s[i + 1];
        }
      }
      NoHttpTail(s);
      CleanKeepsPlainText(rest);
      assert Clean(s) == [s[0]] + Clean(rest);
    }
  }

  /** Single blanks between word characters are left as they are by `SPACES_REGEX`. */
  lemma {:induction false} SqueezeKeepsSingleBlanks(s: string)
    requires WordsAndBlanks(s) && NoDoubleBlank(s)
    ensures Squeeze(s, IsSpace) == s
    decreases |s|
  {
    if s != [] {
      var rest := s[1..];
      assert WordsAndBlanks(rest) && NoDoubleBlank(rest) by {
        forall i | 0 <= i < |rest| ensures IsWordChar(rest[i]) || rest[i] == ' ' {
          assert rest[i] == s[i + 1];
        }
        forall i | 0 <= i < |rest| - 1 ensures rest[i] != ' ' || rest[i + 1] != ' ' {
          assert rest[i] == s[i + 1] && rest[i + 1] == s[i + 2];
        }
      }
      SqueezeKeepsSingleBlanks(rest);
      if IsSpace(s[0]) {
        assert s[0] == ' ';
        assert RunLength(s, IsSpace) == 1 by {
          if |s| > 1 {
            assert s[1] != ' ' && IsWordChar(s[1]) && !IsSpace(s[1]);
            assert RunLength(rest, IsSpace) == 0;
          }
        }
        assert Squeeze(s, IsSpace) == " " + Squeeze(rest, IsSpace);
      } else {
        assert Squeeze(s, IsSpace) == [s[0]] + Squeeze(rest, IsSpace);
      }
    }
  }

  /** A text already in the shape `Normalized` describes and free of `http` is its own
      cleaned text: every word the classifier could look for survives normalisation. */
  lemma NormalizeFixesCleanText(s: string)
    requires Normalized(s) && NoHttp(s)
    ensures Normalize(s) == s
  {
    assert forall i :: 0 <= i < |s| ==> !IsLineBreak(s[i]);
    SqueezeWithoutRun(s, IsLineBreak);
    CleanKeepsPlainText(s);
    SqueezeKeepsSingleBlanks(s);
    assert LowerAll(s) == s;
    if s != [] {
      assert !IsSpace(s[0]) && !IsSpace(s[|s| - 1]);
      StripWithoutSpaceEnds(s);
    }
  }

  lemma {:induction false} SqueezeWithoutRun(s: string, inRun: char -> bool)
    requires forall i :: 0 <= i < |s| ==> !inRun(s[i])
    ensures Squeeze(s, inRun) == s
    decreases |s|
  {
    if s != [] {
      SqueezeWithoutRun(s[1..], inRun);
    }
  }

  /** Word characters other than `h` start no match of `CLEAN_REGEX`. */
  lemma {:induction false} CleanWithoutMatch(s: string)
    requires forall i :: 0 <= i < |s| ==> IsWordChar(s[i]) && s[i] != 'h'
    ensures Clean(s) == s
    decreases |s|
  {
    if s != [] {
      assert CleanMatch(s) == 0;
      CleanWithoutMatch(s[1..]);
    }
  }

  /** Normalising twice is not normalising once: `http\S+` is matched before lower-casing
      and only in lower case, so lower-casing can make a URL that the next pass removes. */
  lemma NormalizeIsNotIdempotent()
    ensures Normalize("HTTPx") == "httpx"
    ensures Normalize("httpx") == ""
  {
    UpperUrlIsKept();
    LowerUrlIsRemoved();
  }

  lemma UpperUrlIsKept()
    ensures Normalize("HTTPx") == "httpx"
  {
    PlainWordIsOnlyLowered("HTTPx");
    LowerHttp();
  }

  lemma LowerHttp()
    ensures LowerAll("HTTPx") == "httpx"
  {
    var l := LowerAll("HTTPx");
    assert l[0] == 'h' && l[1] == 't' && l[2] == 't' && l[3] == 'p' && l[4] == 'x';
  }

  /** A text of ASCII letters without an `h` is only lower-cased. */
  lemma PlainWordIsOnlyLowered(s: string)
    requires s != []
    requires forall i :: 0 <= i < |s| ==> IsAsciiLetter(s[i]) && s[i] != 'h'
    ensures Normalize(s) == LowerAll(s)
  {
    PlainWordIsClean(s);
    var l := LowerAll(s);
    assert IsAsciiLetter(l[0]) && IsAsciiLetter(l[|l| - 1]);
    StripWithoutSpaceEnds(l);
  }

  predicate IsAsciiLetter(c: char) {
    'a' <= c <= 'z' || 'A' <= c <= 'Z'
  }

  lemma PlainWordIsClean(s: string)
    requires forall i :: 0 <= i < |s| ==> IsAsciiLetter(s[i]) && s[i] != 'h'
    ensures Squeeze(Clean(Squeeze(s, IsLineBreak)), IsSpace) == s
  {
    SqueezeWithoutRun(s, IsLineBreak);
    CleanWithoutMatch(s);
    SqueezeWithoutRun(s, IsSpace);
  }

  lemma StripWithoutSpaceEnds(s: string)
    requires s != [] && !IsSpace(s[0]) && !IsSpace(s[|s| - 1])
    ensures Strip(s) == s
  {
    assert TrimStart(s) == s;
  }

  lemma LowerUrlIsRemoved()
    ensures Normalize("httpx") == ""
  {
    var lower := "httpx";
    SqueezeWithoutRun(lower, IsLineBreak);
    assert UrlLength(lower) == 5 by {
      assert lower[..4] == "http" && lower[4..] == "x";
      assert RunLength("x", c => !IsSpace(c)) == 1;
    }
    assert Clean(lower) == " ";
    assert Squeeze(" ", IsSpace) == " ";
    assert LowerAll(" ") == " ";
  }
}
