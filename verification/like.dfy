/** LIKE patterns: safeLikePattern against the meaning of LIKE with backslash as the escape character. */
module LikePattern {

  datatype Position = Start | End | Contains

  // ---------- the pattern builder ----------

  /** A global replace of one character by a string. */
  function ReplaceAll(s: string, c: char, to: string): string {
    if s == "" then "" else (if s[0] == c then to else [s[0]]) + ReplaceAll(s[1..], c, to)
  }

  function Escaped(value: string): string {
    ReplaceAll(ReplaceAll(ReplaceAll(value, '\\', "\\\\"), '%', "\\%"), '_', "\\_")
  }

  function SafeLikePattern(value: string, position: Position): string {
    if value == "" then "%"
    else
      match position
      case Start => Escaped(value) + "%"
      case End => "%" + Escaped(value)
      case Contains => "%" + Escaped(value) + "%"
  }

  // ---------- what LIKE means ----------

  /** Does s match the pattern? A pattern ending in a lone escape character matches nothing. */
  predicate Like(pattern: string, s: string)
    decreases |pattern|, |s|
  {
    if pattern == "" then s == ""
    else if pattern[0] == '%' then Like(pattern[1..], s) || (s != "" && Like(pattern, s[1..]))
    else if pattern[0] == '_' then s != "" && Like(pattern[1..], s[1..])
    else if pattern[0] == '\\' then |pattern| > 1 && s != "" && s[0] == pattern[1] && Like(pattern[2..], s[1..])
    else s != "" && s[0] == pattern[0] && Like(pattern[1..], s[1..])
  }

  // ---------- the three replaces are one ----------

  function EscapeChar(c: char): string {
    if c == '\\' || c == '%' || c == '_' then ['\\', c] else [c]
  }

  function EscapeEach(value: string): string {
    if value == "" then "" else EscapeChar(value[0]) + EscapeEach(value[1..])
  }

  lemma {:induction false} ReplaceConcat(a: string, b: string, c: char, to: string)
    ensures ReplaceAll(a + b, c, to) == ReplaceAll(a, c, to) + ReplaceAll(b, c, to)
  {
    if a == "" {
      assert a + b == b;
    } else {
      assert (a + b)[1..] == a[1..] + b;
      ReplaceConcat(a[1..], b, c, to);
    }
  }

  lemma ReplaceOne(x: char, c: char, to: string)
    ensures ReplaceAll([x], c, to) == if x == c then to else [x]
  {
    assert [x][1..] == "";
  }

  lemma ReplaceTwo(x: char, y: char, c: char, to: string)
    ensures ReplaceAll([x, y], c, to) == (if x == c then to else [x]) + (if y == c then to else [y])
  {
    assert [x, y] == [x] + [y];
    ReplaceConcat([x], [y], c, to);
    ReplaceOne(x, c, to);
    ReplaceOne(y, c, to);
  }

  /** Replacing backslashes first, then percent signs, then underscores escapes each character once. */
  lemma {:induction false} OrderedReplacesEscapeEach(value: string)
    ensures Escaped(value) == EscapeEach(value)
  {
    if value != "" {
      var c, rest := value[0], value[1..];
      OrderedReplacesEscapeEach(rest);
      var a1 := if c == '\\' then "\\\\" else [c];
      var b1 := ReplaceAll(rest, '\\', "\\\\");
      assert ReplaceAll(value, '\\', "\\\\") == a1 + b1;
      ReplaceConcat(a1, b1, '%', "\\%");
      var a2, b2 := ReplaceAll(a1, '%', "\\%"), ReplaceAll(b1, '%', "\\%");
      ReplaceConcat(a2, b2, '_', "\\_");
      ReplaceOne(c, '%', "\\%");
      ReplaceOne(c, '_', "\\_");
      ReplaceTwo('\\', '\\', '%', "\\%");
      ReplaceTwo('\\', '\\', '_', "\\_");
      ReplaceTwo('\\', '%', '_', "\\_");
      assert ReplaceAll(a2, '_', "\\_") == EscapeChar(c);
    }
  }

  /** Escaping the backslash last would escape the escapes as well. */
  lemma OtherOrderDiffers()
    ensures ReplaceAll(ReplaceAll("%", '%', "\\%"), '\\', "\\\\") != EscapeEach("%")
  {
    ReplaceOne('%', '%', "\\%");
    ReplaceTwo('\\', '%', '\\', "\\\\");
    assert "\\%" == ['\\', '%'];
    assert "%"[1..] == "";
    assert |EscapeEach("%")| == 2;
  }

  // ---------- what the patterns match ----------

  lemma EscapedCharMatches(c: char, rest: string, s: string)
    ensures Like(EscapeChar(c) + rest, s) <==> s != "" && s[0] == c && Like(rest, s[1..])
  {
    var e := EscapeChar(c);
    assert (e + rest)[|e|..] == rest;
  }

  /** An escaped value in front of a pattern matches exactly that value in front of a match. */
  lemma {:induction false} EscapedPrefixMatches(value: string, rest: string, s: string)
    ensures Like(EscapeEach(value) + rest, s) <==> value <= s && Like(rest, s[|value|..])
  {
    hide Like, EscapeChar;
    if value == "" {
      assert EscapeEach(value) + rest == rest;
      assert s[0..] == s;
    } else {
      var e, tail := EscapeChar(value[0]), EscapeEach(value[1..]);
      assert EscapeEach(value) + rest == e + (tail + rest);
      EscapedCharMatches(value[0], tail + rest, s);
      if s != "" {
        EscapedPrefixMatches(value[1..], rest, s[1..]);
        assert s[0] == value[0] ==> (value <= s <==> value[1..] <= s[1..]);
        assert value <= s ==> s[1..][|value[1..]|..] == s[|value|..];
      }
    }
  }

  lemma {:induction false} AnySuffixMatches(pattern: string, s: string)
    ensures Like("%" + pattern, s) <==> exists i :: 0 <= i <= |s| && Like(pattern, s[i..])
    decreases |s|
  {
    assert ("%" + pattern)[1..] == pattern;
    assert s[0..] == s;
    if s != "" {
      AnySuffixMatches(pattern, s[1..]);
      forall i | 1 <= i <= |s|
        ensures s[i..] == s[1..][i - 1..]
      {
      }
      if j :| 0 <= j <= |s[1..]| && Like(pattern, s[1..][j..]) {
        assert s[j + 1..] == s[1..][j..];
      }
      if i :| 0 <= i <= |s| && Like(pattern, s[i..]) {
        if i > 0 {
          assert Like(pattern, s[1..][i - 1..]);
        }
      }
    }
  }

  lemma {:induction false} PercentMatchesAll(s: string)
    ensures Like("%", s)
    decreases |s|
  {
    AnySuffixMatches("", s);
    assert "%" + "" == "%";
    assert Like("", s[|s|..]);
  }

  predicate IsSuffix(value: string, s: string) {
    |value| <= |s| && s[|s| - |value|..] == value
  }

  predicate IsSubstring(value: string, s: string) {
    exists i :: 0 <= i <= |s| && value <= s[i..]
  }

  /** For every value and every string: a match means prefix, suffix or substring, whatever wildcards the value contains. */
  lemma SafePatternMeaning(value: string, position: Position, s: string)
    ensures Like(SafeLikePattern(value, position), s) <==>
      match position
      case Start => value <= s
      case End => IsSuffix(value, s)
      case Contains => IsSubstring(value, s)
  {
    OrderedReplacesEscapeEach(value);
    var e := EscapeEach(value);
    if value == "" {
      PercentMatchesAll(s);
      assert s[0..] == s && s[|s|..] == "";
      assert value <= s[0..];
    } else {
      match position
      case Start =>
        EscapedPrefixMatches(value, "%", s);
        if value <= s {
          PercentMatchesAll(s[|value|..]);
        }
      case End => EndMeaning(value, s);
      case Contains => ContainsMeaning(value, s);
    }
  }

  lemma EndMeaning(value: string, s: string)
    ensures Like("%" + EscapeEach(value), s) <==> IsSuffix(value, s)
  {
    var e := EscapeEach(value);
    AnySuffixMatches(e, s);
    forall i | 0 <= i <= |s|
      ensures Like(e, s[i..]) <==> s[i..] == value
    {
      EscapedPrefixMatches(value, "", s[i..]);
      assert e + "" == e;
    }
  }

  lemma ContainsMeaning(value: string, s: string)
    ensures Like("%" + EscapeEach(value) + "%", s) <==> IsSubstring(value, s)
  {
    var e := EscapeEach(value) + "%";
    assert "%" + EscapeEach(value) + "%" == "%" + e;
    AnySuffixMatches(e, s);
    forall i | 0 <= i <= |s|
      ensures Like(e, s[i..]) <==> value <= s[i..]
    {
      EscapedPrefixMatches(value, "%", s[i..]);
      if value <= s[i..] {
        PercentMatchesAll(s[i..][|value|..]);
      }
    }
  }
}
