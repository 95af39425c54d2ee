/** LIKE operands: escaping, and what an escaped pattern matches. */
module LikePattern {
  /** Replacing every occurrence of a one-character needle. */
  function Replace(s: string, needle: char, replacement: string): string {
    if s == "" then ""
    else (if s[0] == needle then replacement else [s[0]]) + Replace(s[1..], needle, replacement)
  }

  function EscapeLike(value: string): string {
    Replace(Replace(Replace(value, '\\', "\\\\"), '%', "\\%"), '_', "\\_")
  }

  predicate Special(c: char) {
    c == '\\' || c == '%' || c == '_'
  }

  /** Every special character behind a backslash, in one pass. */
  function Escaped(s: string): string {
    if s == "" then "" else (if Special(s[0]) then ['\\', s[0]] else [s[0]]) + Escaped(s[1..])
  }

  lemma {:induction false} Regroup(a: string, b: string, c: string)
    ensures a + (b + c) == (a + b) + c
  {
  }

  lemma {:induction false} ReplaceDistributes(s: string, t: string, needle: char, replacement: string)
    ensures Replace(s + t, needle, replacement) == Replace(s, needle, replacement) + Replace(t, needle, replacement)
  {
    if s == "" {
      assert s + t == t;
    } else {
      ReplaceDistributes(s[1..], t, needle, replacement);
      assert (s + t)[1..] == s[1..] + t && (s + t)[0] == s[0];
      Regroup(if s[0] == needle then replacement else [s[0]],
              Replace(s[1..], needle, replacement), Replace(t, needle, replacement));
    }
  }

  /** One character escapes the same way through all three replaces. */
  lemma {:induction false} EscapeCharacter(c: char)
    ensures EscapeLike([c]) == if Special(c) then ['\\', c] else [c]
  {
    if c == '\\' {
      assert Replace([c], '\\', "\\\\") == "\\\\";
      assert Replace("\\", '%', "\\%") == "\\" && Replace("\\", '_', "\\_") == "\\";
      ReplaceDistributes("\\", "\\", '%', "\\%");
      ReplaceDistributes("\\", "\\", '_', "\\_");
      assert "\\" + "\\" == "\\\\";
    } else {
      assert Replace([c], '\\', "\\\\") == [c];
      if c == '%' {
        assert Replace([c], '%', "\\%") == "\\%";
        assert Replace("\\", '_', "\\_") == "\\" && Replace("%", '_', "\\_") == "%";
        ReplaceDistributes("\\", "%", '_', "\\_");
        assert "\\" + "%" == "\\%";
      } else {
        assert Replace([c], '%', "\\%") == [c];
        assert Replace([c], '_', "\\_") == if c == '_' then "\\_" else [c];
      }
    }
  }

  /** The three sequential replaces are one character-by-character escape: no
      backslash that an earlier replace put in is escaped again. */
  lemma {:induction false} EscapeIsCharacterwise(value: string)
    ensures EscapeLike(value) == Escaped(value)
  {
    if value != "" {
      var head, tail := [value[0]], value[1..];
      assert value == head + tail;
      ReplaceDistributes(head, tail, '\\', "\\\\");
      var h1, t1 := Replace(head, '\\', "\\\\"), Replace(tail, '\\', "\\\\");
      ReplaceDistributes(h1, t1, '%', "\\%");
      ReplaceDistributes(Replace(h1, '%', "\\%"), Replace(t1, '%', "\\%"), '_', "\\_");
      EscapeCharacter(value[0]);
      EscapeIsCharacterwise(tail);
    }
  }

  /** LIKE with `\` as the escape character, as in section 8.5 of ISO/IEC 9075:1992. */
  predicate Matches(pattern: string, s: string)
    decreases |pattern|, |s|
  {
    if pattern == "" then s == ""
    else if pattern[0] == '%' then Matches(pattern[1..], s) || (s != "" && Matches(pattern, s[1..]))
    else if s == "" then false
    else if pattern[0] == '_' then Matches(pattern[1..], s[1..])
    else if pattern[0] == '\\' then |pattern| > 1 && pattern[1] == s[0] && Matches(pattern[2..], s[1..])
    else pattern[0] == s[0] && Matches(pattern[1..], s[1..])
  }

  /** `part` occurs in `s` as a block. */
  predicate Occurs(part: string, s: string) {
    exists i | 0 <= i <= |s| :: part <= s[i..]
  }

  lemma {:induction false} PercentMatches(s: string)
    ensures Matches("%", s)
  {
    if s != "" {
      PercentMatches(s[1..]);
    }
  }

  lemma {:induction false} EscapedMatchesItself(v: string, s: string)
    ensures Matches(Escaped(v) + "%", s) <==> v <= s
  {
    if v == "" {
      assert Escaped(v) + "%" == "%";
      PercentMatches(s);
    } else {
      var p := Escaped(v) + "%";
      if s != "" {
        EscapedMatchesItself(v[1..], s[1..]);
        assert v == [v[0]] + v[1..] && s == [s[0]] + s[1..];
      }
      if Special(v[0]) {
        assert p == ['\\', v[0]] + (Escaped(v[1..]) + "%");
        assert p[2..] == Escaped(v[1..]) + "%";
      } else {
        assert p == [v[0]] + (Escaped(v[1..]) + "%");
        assert p[1..] == Escaped(v[1..]) + "%";
      }
    }
  }

  lemma {:induction false} LeadingPercent(rest: string, s: string)
    ensures Matches("%" + rest, s) <==> exists i | 0 <= i <= |s| :: Matches(rest, s[i..])
  {
    var p := "%" + rest;
    assert p[1..] == rest && s[0..] == s;
    if s != "" {
      LeadingPercent(rest, s[1..]);
      forall i | 0 <= i <= |s[1..]| ensures s[1..][i..] == s[i + 1..] {}
      if j :| 0 <= j <= |s| && Matches(rest, s[j..]) {
        if j > 0 {
          assert s[1..][j - 1..] == s[j..];
        }
      }
      if i :| 0 <= i <= |s[1..]| && Matches(rest, s[1..][i..]) {
        assert s[i + 1..] == s[1..][i..];
      }
    }
  }

  /** The LIKE pattern of an escaped value matches exactly the strings it occurs in. */
  lemma {:induction false} EscapedPatternFindsValue(v: string, s: string)
    ensures Matches("%" + EscapeLike(v) + "%", s) <==> Occurs(v, s)
  {
    EscapeIsCharacterwise(v);
    assert "%" + EscapeLike(v) + "%" == "%" + (Escaped(v) + "%");
    LeadingPercent(Escaped(v) + "%", s);
    forall i | 0 <= i <= |s| ensures Matches(Escaped(v) + "%", s[i..]) <==> v <= s[i..] {
      EscapedMatchesItself(v, s[i..]);
    }
  }

  // ------------------------------------------------------------ case folding

  function Folded(s: string, fold: char -> char): (r: string)
    ensures |r| == |s| && forall i | 0 <= i < |s| :: r[i] == fold(s[i])
  {
    seq(|s|, i requires 0 <= i < |s| => fold(s[i]))
  }

  /** Case folding leaves the three special characters alone, and makes no new ones. */
  ghost predicate FoldsCase(fold: char -> char) {
    forall c :: (Special(c) ==> fold(c) == c) && (Special(fold(c)) ==> Special(c))
  }

  lemma {:induction false} EscapedFolds(v: string, fold: char -> char)
    requires FoldsCase(fold)
    ensures Folded(Escaped(v), fold) == Escaped(Folded(v, fold))
  {
    if v != "" {
      EscapedFolds(v[1..], fold);
      assert Folded(v, fold)[1..] == Folded(v[1..], fold);
      assert Special(fold(v[0])) <==> Special(v[0]);
    }
  }

  /** A case-insensitive LIKE of an escaped value is a case-insensitive search: for all
      strings, nothing in the value acts as a wildcard and no match is lost. */
  lemma {:induction false} EscapedPatternFindsFolded(v: string, s: string, fold: char -> char)
    requires FoldsCase(fold)
    ensures Matches(Folded("%" + EscapeLike(v) + "%", fold), Folded(s, fold))
       <==> Occurs(Folded(v, fold), Folded(s, fold))
  {
    EscapeIsCharacterwise(v);
    EscapeIsCharacterwise(Folded(v, fold));
    EscapedFolds(v, fold);
    var p := "%" + EscapeLike(v) + "%";
    assert Special('%');
    assert Folded(p, fold) == "%" + Folded(Escaped(v), fold) + "%";
    EscapedPatternFindsValue(Folded(v, fold), Folded(s, fold));
  }
}
