/**
 * String primitives shared by the browser scripts and the Flask server:
 * whitespace trimming, ASCII case mapping, substring search, splitting on a
 * separator character and Python's whitespace `split()`.
 *
 * Strings are sequences of characters. Whitespace and case mapping are the
 * ASCII part of what `String.prototype.trim`, `toUpperCase`, `toLowerCase`,
 * `str.strip`, `str.upper` and `str.split` do. The two languages disagree on
 * ASCII whitespace: Python also counts the four information separators
 * U+001C..U+001F, so trimming takes the language whose rule applies.
 */
module Text {

  /** The language whose whitespace rule a trim or split follows. */
  datatype Language = JavaScript | Python

  /** The four ASCII information separators, whitespace to Python only. */
  predicate IsSeparatorControl(c: char) {
    '\U{001C}' <= c <= '\U{001F}'
  }

  /**
   * ASCII whitespace: space, tab, line feed, vertical tab, form feed and
   * carriage return in both languages, and the information separators in Python.
   */
  predicate IsSpace(lang: Language, c: char) {
    c == ' ' || c == '\t' || c == '\n' || c == '\r' || c == '\U{000B}' || c == '\U{000C}'
    || (lang == Python && IsSeparatorControl(c))
  }

  predicate NoSpace(lang: Language, s: string) {
    forall i :: 0 <= i < |s| ==> !IsSpace(lang, s[i])
  }

  /** Drops leading whitespace. */
  function TrimStart(lang: Language, s: string): (r: string)
    ensures |r| <= |s|
    ensures r == [] || !IsSpace(lang, r[0])
  {
    if s != [] && IsSpace(lang, s[0]) then TrimStart(lang, s[1..]) else s
  }

  /** What `TrimStart` keeps is a suffix of its input. */
  lemma {:induction false} TrimStartSuffix(lang: Language, s: string)
    ensures TrimStart(lang, s) == s[|s| - |TrimStart(lang, s)|..]
  {
    if s != [] && IsSpace(lang, s[0]) {
      TrimStartSuffix(lang, s[1..]);
    }
  }

  /** Drops trailing whitespace. */
  function TrimEnd(lang: Language, s: string): (r: string)
    ensures |r| <= |s|
    ensures r == [] || !IsSpace(lang, r[|r| - 1])
  {
    if s != [] && IsSpace(lang, s[|s| - 1]) then TrimEnd(lang, s[..|s| - 1]) else s
  }

  /** What `TrimEnd` keeps is a prefix of its input. */
  lemma {:induction false} TrimEndPrefix(lang: Language, s: string)
    ensures TrimEnd(lang, s) == s[..|TrimEnd(lang, s)|]
  {
    if s != [] && IsSpace(lang, s[|s| - 1]) {
      TrimEndPrefix(lang, s[..|s| - 1]);
    }
  }

  /** Everything `TrimStart` drops is whitespace. */
  lemma {:induction false} TrimStartDropsSpace(lang: Language, s: string)
    ensures AllSpace(lang, s[..|s| - |TrimStart(lang, s)|])
  {
    if s != [] && IsSpace(lang, s[0]) {
      TrimStartDropsSpace(lang, s[1..]);
      assert s[..|s| - |TrimStart(lang, s)|] == [s[0]] + s[1..][..|s| - 1 - |TrimStart(lang, s)|];
    }
  }

  /** Everything `TrimEnd` drops is whitespace. */
  lemma {:induction false} TrimEndDropsSpace(lang: Language, s: string)
    ensures AllSpace(lang, s[|TrimEnd(lang, s)|..])
  {
    if s != [] && IsSpace(lang, s[|s| - 1]) {
      TrimEndDropsSpace(lang, s[..|s| - 1]);
      assert s[|TrimEnd(lang, s)|..] == s[..|s| - 1][|TrimEnd(lang, s)|..] + [s[|s| - 1]];
    }
  }

  /** `s.trim()` in JavaScript, `s.strip()` in Python. */
  function Trim(lang: Language, s: string): (r: string)
    ensures |r| <= |s|
    ensures r == [] || (!IsSpace(lang, r[0]) && !IsSpace(lang, r[|r| - 1]))
  {
    TrimEndPrefix(lang, TrimStart(lang, s));
    TrimEnd(lang, TrimStart(lang, s))
  }

  /** A string that neither starts nor ends with whitespace is its own trim. */
  lemma TrimOfTrimmed(lang: Language, s: string)
    requires s == [] || (!IsSpace(lang, s[0]) && !IsSpace(lang, s[|s| - 1]))
    ensures Trim(lang, s) == s
  {
  }

  /** Both trims leave a string with no whitespace at its ends unchanged. */
  lemma Unpadded(lang: Language, s: string)
    requires s == [] || (!IsSpace(lang, s[0]) && !IsSpace(lang, s[|s| - 1]))
    ensures TrimStart(lang, s) == s && Trim(lang, s) == s
  {
  }

  lemma TrimIdempotent(lang: Language, s: string)
    ensures Trim(lang, Trim(lang, s)) == Trim(lang, s)
  {
    TrimOfTrimmed(lang, Trim(lang, s));
  }

  predicate AllSpace(lang: Language, s: string) {
    forall i :: 0 <= i < |s| ==> IsSpace(lang, s[i])
  }

  lemma {:induction false} TrimStartSpacePrefix(lang: Language, a: string, s: string)
    requires AllSpace(lang, a)
    ensures TrimStart(lang, a + s) == TrimStart(lang, s)
    decreases |a|
  {
    if a == [] {
      assert a + s == s;
    } else {
      assert (a + s)[0] == a[0];
      assert (a + s)[1..] == a[1..] + s;
      TrimStartSpacePrefix(lang, a[1..], s);
    }
  }

  lemma {:induction false} TrimEndSpaceSuffix(lang: Language, s: string, b: string)
    requires AllSpace(lang, b)
    ensures TrimEnd(lang, s + b) == TrimEnd(lang, s)
    decreases |b|
  {
    if b == [] {
      assert s + b == s;
    } else {
      assert (s + b)[|s + b| - 1] == b[|b| - 1];
      assert (s + b)[..|s + b| - 1] == s + b[..|b| - 1];
      TrimEndSpaceSuffix(lang, s, b[..|b| - 1]);
    }
  }

  lemma {:induction false} TrimStartSpaceSuffix(lang: Language, s: string, b: string)
    requires AllSpace(lang, b)
    ensures TrimStart(lang, s + b) == if TrimStart(lang, s) == [] then [] else TrimStart(lang, s) + b
    decreases |s|
  {
    if s == [] {
      assert s + b == b;
      assert b + [] == b;
      TrimStartSpacePrefix(lang, b, []);
    } else if IsSpace(lang, s[0]) {
      assert (s + b)[0] == s[0];
      assert (s + b)[1..] == s[1..] + b;
      TrimStartSpaceSuffix(lang, s[1..], b);
    } else {
      assert (s + b)[0] == s[0];
    }
  }

  /** Whitespace added around a string does not change its trim. */
  lemma TrimSpacePadded(lang: Language, a: string, s: string, b: string)
    requires AllSpace(lang, a) && AllSpace(lang, b)
    ensures Trim(lang, a + s + b) == Trim(lang, s)
  {
    assert a + s + b == a + (s + b);
    TrimStartSpacePrefix(lang, a, s + b);
    TrimStartSpaceSuffix(lang, s, b);
    if TrimStart(lang, s) != [] {
      TrimEndSpaceSuffix(lang, TrimStart(lang, s), b);
    }
  }

  /** Text without information separators is whitespace in the same places for both languages. */
  predicate NoSeparatorControl(s: string) {
    forall i :: 0 <= i < |s| ==> !IsSeparatorControl(s[i])
  }

  /** Without information separators, `trim` and `strip` drop the same characters. */
  lemma {:induction false} TrimStartLanguagesAgree(s: string)
    requires NoSeparatorControl(s)
    ensures TrimStart(JavaScript, s) == TrimStart(Python, s)
  {
    if s != [] && IsSpace(Python, s[0]) {
      TrimStartLanguagesAgree(s[1..]);
    }
  }

  lemma {:induction false} TrimEndLanguagesAgree(s: string)
    requires NoSeparatorControl(s)
    ensures TrimEnd(JavaScript, s) == TrimEnd(Python, s)
  {
    if s != [] && IsSpace(Python, s[|s| - 1]) {
      TrimEndLanguagesAgree(s[..|s| - 1]);
    }
  }

  lemma TrimLanguagesAgree(s: string)
    requires NoSeparatorControl(s)
    ensures Trim(JavaScript, s) == Trim(Python, s)
  {
    TrimStartLanguagesAgree(s);
    var t := TrimStart(JavaScript, s);
    TrimStartSuffix(JavaScript, s);
    assert forall i :: 0 <= i < |t| ==> t[i] == s[|s| - |t| + i];
    TrimEndLanguagesAgree(t);
  }

  /** A separator next to the text is whitespace to `strip` but kept by `trim`. */
  lemma SeparatorTrimmedByPythonOnly(s: string)
    requires NoSeparatorControl(s) && Trim(JavaScript, s) == s
    ensures Trim(Python, "\U{001F}" + s) == s
    ensures Trim(JavaScript, "\U{001F}" + s) == "\U{001F}" + s
  {
    TrimLanguagesAgree(s);
    assert ("\U{001F}" + s)[1..] == s;
    assert TrimStart(Python, "\U{001F}" + s) == TrimStart(Python, s);
  }

  /** ASCII `toUpperCase` / `upper` of one character. */
  function UpperChar(c: char): char {
    if 'a' <= c <= 'z' then (c as int - 32) as char else c
  }

  /** ASCII `toLowerCase` / `lower` of one character. */
  function LowerChar(c: char): char {
    if 'A' <= c <= 'Z' then (c as int + 32) as char else c
  }

  function Upper(s: string): (r: string)
    ensures |r| == |s|
    ensures forall i :: 0 <= i < |s| ==> r[i] == UpperChar(s[i])
  {
    seq(|s|, i requires 0 <= i < |s| => UpperChar(s[i]))
  }

  function Lower(s: string): (r: string)
    ensures |r| == |s|
    ensures forall i :: 0 <= i < |s| ==> r[i] == LowerChar(s[i])
  {
    seq(|s|, i requires 0 <= i < |s| => LowerChar(s[i]))
  }

  predicate HasLower(s: string) {
    exists i :: 0 <= i < |s| && 'a' <= s[i] <= 'z'
  }

  /** Upper-casing leaves no lower-case letter and is idempotent. */
  lemma UpperNormal(s: string)
    ensures !HasLower(Upper(s))
    ensures Upper(Upper(s)) == Upper(s)
  {
  }

  /** `p` occurs in `s` at index `i`. */
  predicate OccursAt(s: string, p: string, i: int) {
    0 <= i && i + |p| <= |s| && s[i..i + |p|] == p
  }

  /** `s.includes(p)` in JavaScript, `p in s` in Python. */
  predicate Contains(s: string, p: string) {
    exists i | 0 <= i <= |s| :: OccursAt(s, p, i)
  }

  /** Every string contains itself, and an occurrence inside a part is one in the whole. */
  lemma ContainsInConcat(a: string, s: string, b: string, p: string)
    requires Contains(s, p)
    ensures Contains(a + s + b, p)
  {
    var i :| 0 <= i <= |s| && OccursAt(s, p, i);
    assert (a + s + b)[|a| + i..|a| + i + |p|] == s[i..i + |p|];
    assert OccursAt(a + s + b, p, |a| + i);
  }

  /** A string lacking one of the characters of `p` cannot contain `p`. */
  lemma AbsentCharExcludes(s: string, p: string, c: char)
    requires c in p && c !in s
    ensures !Contains(s, p)
  {
    var m :| 0 <= m < |p| && p[m] == c;
    forall i | 0 <= i <= |s| ensures !OccursAt(s, p, i) {
      if i + |p| <= |s| {
        assert s[i..i + |p|][m] == s[i + m];
      }
    }
  }

  /** A slice of a string without `p` does not contain `p` either. */
  lemma SliceLacks(s: string, p: string, a: nat, b: nat)
    requires a <= b <= |s| && !Contains(s, p)
    ensures !Contains(s[a..b], p)
  {
    var t := s[a..b];
    forall i | 0 <= i <= |t| ensures !OccursAt(t, p, i) {
      assert !OccursAt(s, p, a + i);
      if i + |p| <= |t| {
        var x, y := t[i..i + |p|], s[a + i..a + i + |p|];
        forall j | 0 <= j < |p| ensures x[j] == y[j] {
          assert t[i + j] == s[a + i + j];
        }
        assert x == y;
      }
    }
  }

  /** Trimming removes characters only, so it cannot create a substring. */
  lemma TrimLacks(lang: Language, s: string, p: string)
    requires !Contains(s, p)
    ensures !Contains(Trim(lang, s), p)
  {
    var t := TrimStart(lang, s);
    TrimStartSuffix(lang, s);
    SliceLacks(s, p, |s| - |t|, |s|);
    assert s[|s| - |t|..|s|] == t;
    TrimEndPrefix(lang, t);
    SliceLacks(t, p, 0, |Trim(lang, s)|);
    assert t[0..|Trim(lang, s)|] == Trim(lang, s);
  }

  /** `s.split(sep)` for a one-character separator: keeps empty fields, never returns []. */
  function Split(s: string, sep: char): (r: seq<string>)
    ensures |r| >= 1
    ensures forall i :: 0 <= i < |r| ==> sep !in r[i]
  {
    if s == [] then [[]]
    else if s[0] == sep then [[]] + Split(s[1..], sep)
    else
      var rest := Split(s[1..], sep);
      [[s[0]] + rest[0]] + rest[1..]
  }

  /** `sep.join(fields)`. */
  function Join(fields: seq<string>, sep: char): string
    requires |fields| >= 1
  {
    if |fields| == 1 then fields[0] else fields[0] + [sep] + Join(fields[1..], sep)
  }

  /** Joining the fields of a split gives the original text back. */
  lemma {:induction false} JoinSplit(s: string, sep: char)
    ensures Join(Split(s, sep), sep) == s
  {
    if s == [] {
    } else if s[0] == sep {
      JoinSplit(s[1..], sep);
    } else {
      var rest := Split(s[1..], sep);
      JoinSplit(s[1..], sep);
      if |rest| == 1 {
      } else {
        assert rest == [rest[0]] + rest[1..];
        assert Join(rest, sep) == rest[0] + [sep] + Join(rest[1..], sep);
      }
    }
  }

  /** Splitting a join of separator-free fields gives the fields back. */
  lemma {:induction false} SplitJoin(fields: seq<string>, sep: char)
    requires |fields| >= 1
    requires forall i :: 0 <= i < |fields| ==> sep !in fields[i]
    ensures Split(Join(fields, sep), sep) == fields
    decreases |fields|, |fields[0]|
  {
    var f := fields[0];
    if f == [] {
      if |fields| > 1 {
        assert Join(fields, sep) == [sep] + Join(fields[1..], sep);
        SplitJoin(fields[1..], sep);
      }
    } else {
      var shorter := [f[1..]] + fields[1..];
      assert sep !in f[1..] && f[0] != sep by {
        assert f[0] in f;
      }
      SplitJoin(shorter, sep);
      JoinFirstChar(fields, sep);
      var j := Join(fields, sep);
      assert Split(j, sep) == [[j[0]] + Split(j[1..], sep)[0]] + Split(j[1..], sep)[1..];
      assert [f[0]] + f[1..] == f;
      assert shorter[1..] == fields[1..];
      assert fields == [f] + fields[1..];
    }
  }

  /** Joining fields whose first field is non-empty: its first character, then the join with that character dropped. */
  lemma JoinFirstChar(fields: seq<string>, sep: char)
    requires |fields| >= 1 && fields[0] != []
    ensures Join(fields, sep) != []
    ensures Join(fields, sep)[0] == fields[0][0]
    ensures Join(fields, sep)[1..] == Join([fields[0][1..]] + fields[1..], sep)
  {
    var f := fields[0];
    var shorter := [f[1..]] + fields[1..];
    assert shorter[1..] == fields[1..];
    if |fields| > 1 {
      assert Join(fields, sep) == [f[0]] + (f[1..] + [sep] + Join(fields[1..], sep));
    } else {
      assert Join(fields, sep) == [f[0]] + f[1..];
    }
  }

  /** A split yields more than one field exactly when the separator occurs. */
  lemma SplitHasSeveralFields(s: string, sep: char)
    ensures |Split(s, sep)| >= 2 <==> sep in s
  {
    var f := Split(s, sep);
    JoinSplit(s, sep);
    if |f| >= 2 {
      assert Join(f, sep) == f[0] + [sep] + Join(f[1..], sep);
      assert s[|f[0]|] == sep;
    }
  }

  /** Number of leading non-whitespace characters. */
  function WordLength(s: string): (n: nat)
    ensures n <= |s|
    ensures NoSpace(Python, s[..n]) && (n == |s| || IsSpace(Python, s[n]))
  {
    if s == [] || IsSpace(Python, s[0]) then 0 else 1 + WordLength(s[1..])
  }

  /** Python's `s.split()`: the maximal runs of non-whitespace, in order. */
  function Words(s: string): seq<string>
    decreases |s|
  {
    var t := TrimStart(Python, s);
    if t == [] then []
    else
      var n := WordLength(t);
      [t[..n]] + Words(t[n..])
  }

  /** Every piece `split()` returns is a non-empty run without whitespace. */
  lemma {:induction false} WordsAreWords(s: string)
    ensures AreWords(Words(s))
    decreases |s|
  {
    var t := TrimStart(Python, s);
    if t != [] {
      var n := WordLength(t);
      WordsAreWords(t[n..]);
    }
  }

  /** Python's `" ".join(words)`. */
  function JoinWords(ws: seq<string>): string {
    if ws == [] then []
    else if |ws| == 1 then ws[0]
    else ws[0] + " " + JoinWords(ws[1..])
  }

  predicate AreWords(ws: seq<string>) {
    forall i :: 0 <= i < |ws| ==> ws[i] != [] && NoSpace(Python, ws[i])
  }

  lemma {:induction false} WordLengthOfWord(w: string, rest: string)
    requires w != [] && NoSpace(Python, w)
    requires rest == [] || IsSpace(Python, rest[0])
    ensures WordLength(w + rest) == |w|
    decreases |w|
  {
    assert (w + rest)[0] == w[0];
    assert (w + rest)[1..] == w[1..] + rest;
    if |w| == 1 {
      assert w[1..] + rest == rest;
    } else {
      WordLengthOfWord(w[1..], rest);
    }
  }

  /** A word followed by whitespace (or nothing) is the first word. */
  lemma WordsOfWord(w: string, rest: string)
    requires w != [] && NoSpace(Python, w)
    requires rest == [] || IsSpace(Python, rest[0])
    ensures Words(w + rest) == [w] + Words(rest)
  {
    var t := w + rest;
    assert t[0] == w[0];
    assert TrimStart(Python, t) == t;
    WordLengthOfWord(w, rest);
    assert t[..|w|] == w;
    assert t[|w|..] == rest;
  }

  lemma WordsLeadingSpace(x: string)
    ensures Words(" " + x) == Words(x)
  {
    assert (" " + x)[1..] == x;
    assert TrimStart(Python, " " + x) == TrimStart(Python, x);
  }

  /** An information separator between two words splits them, as `split()` does. */
  lemma WordsSplitAtSeparator(a: string, b: string)
    requires a != [] && NoSpace(Python, a) && b != [] && NoSpace(Python, b)
    ensures Words(a + "\U{001F}" + b) == [a, b]
  {
    var rest := "\U{001F}" + b;
    assert a + "\U{001F}" + b == a + rest;
    WordsOfWord(a, rest);
    assert rest[1..] == b;
    assert TrimStart(Python, rest) == TrimStart(Python, b);
    assert b + [] == b;
    assert Words([]) == [];
    WordsOfWord(b, []);
  }

  lemma WordsJoinOne(ws: seq<string>)
    requires AreWords(ws) && |ws| == 1
    ensures Words(JoinWords(ws)) == ws
  {
    var w := ws[0];
    assert JoinWords(ws) == w;
    assert w + [] == w;
    assert Words([]) == [];
    WordsOfWord(w, []);
    assert ws == [w];
  }

  lemma WordsJoinCons(ws: seq<string>)
    requires AreWords(ws) && |ws| > 1
    requires Words(JoinWords(ws[1..])) == ws[1..]
    ensures Words(JoinWords(ws)) == ws
  {
    var w, rest := ws[0], JoinWords(ws[1..]);
    var tail := " " + rest;
    assert w != [] && NoSpace(Python, w);
    assert tail[0] == ' ';
    assert JoinWords(ws) == w + tail;
    WordsOfWord(w, tail);
    WordsLeadingSpace(rest);
    assert ws == [w] + ws[1..];
  }

  /** Splitting single-space-joined words gives the words back. */
  lemma {:induction false} WordsJoinWords(ws: seq<string>)
    requires AreWords(ws)
    ensures Words(JoinWords(ws)) == ws
    decreases |ws|
  {
    if |ws| == 1 {
      WordsJoinOne(ws);
    } else if |ws| > 1 {
      WordsJoinWords(ws[1..]);
      WordsJoinCons(ws);
    }
  }
}
