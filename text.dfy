/** The parts of Python's `str` that the assistant relies on: whitespace,
    `strip`, `split`, `join`, `in`, slicing, `startswith`, regex-style run
    collapsing and ASCII case mapping. */
module Text {

  /** Python's `str.isspace()` for one character. */
  predicate IsSpace(c: char)
  {
    || c == ' '
    || ('\t' <= c <= '\r')
    || ('\U{1C}' <= c <= '\U{1F}')
    || c == '\U{85}' || c == '\U{A0}' || c == '\U{1680}'
    || ('\U{2000}' <= c <= '\U{200A}')
    || c == '\U{2028}' || c == '\U{2029}'
    || c == '\U{202F}' || c == '\U{205F}' || c == '\U{3000}'
  }

  predicate AllSpace(s: string)
  {
    forall i :: 0 <= i < |s| ==> IsSpace(s[i])
  }

  /** No whitespace at either end: what `strip()` leaves. */
  predicate IsStripped(s: string)
  {
    s == [] || (!IsSpace(s[0]) && !IsSpace(s[|s| - 1]))
  }

  /** `s.lstrip()`: the suffix left after dropping leading whitespace. */
  function TrimStart(s: string): (r: string)
    ensures |r| <= |s| && r == s[|s| - |r|..]
    ensures r == [] || !IsSpace(r[0])
    ensures AllSpace(s[..|s| - |r|])
    decreases |s|
  {
    if s != [] && IsSpace(s[0]) then TrimStart(s[1..]) else s
  }

  /** `s.rstrip()`: the prefix left after dropping trailing whitespace. */
  function TrimEnd(s: string): (r: string)
    ensures |r| <= |s| && r == s[..|r|]
    ensures r == [] || !IsSpace(r[|r| - 1])
    ensures AllSpace(s[|r|..])
    decreases |s|
  {
    if s != [] && IsSpace(s[|s| - 1]) then TrimEnd(s[..|s| - 1]) else s
  }

  /** `s.strip()`. */
  function Strip(s: string): (r: string)
    ensures IsStripped(r)
    ensures |r| <= |s|
    ensures forall x :: x in r ==> x in s
  {
    var t := TrimStart(s);
    var r := TrimEnd(t);
    assert r != [] ==> r[0] == t[0];
    r
  }

  lemma {:induction false} TrimStartSkips(p: string, t: string)
    requires AllSpace(p)
    requires t == [] || !IsSpace(t[0])
    ensures TrimStart(p + t) == t
    decreases |p|
  {
    if p == [] {
      assert p + t == t;
    } else {
      var u := p + t;
      var p' := p[1..];
      assert u[0] == p[0];
      assert IsSpace(u[0]);
      assert u[1..] == p' + t;
      assert AllSpace(p') by {
        forall i | 0 <= i < |p'| ensures IsSpace(p'[i]) {
          assert p'[i] == p[i + 1];
        }
      }
      TrimStartSkips(p', t);
    }
  }

  lemma {:induction false} TrimEndSkips(t: string, q: string)
    requires AllSpace(q)
    requires t == [] || !IsSpace(t[|t| - 1])
    ensures TrimEnd(t + q) == t
    decreases |q|
  {
    if q == [] {
      assert t + q == t;
    } else {
      var u := t + q;
      var q' := q[..|q| - 1];
      assert u[|u| - 1] == q[|q| - 1];
      assert IsSpace(u[|u| - 1]);
      assert u[..|u| - 1] == t + q';
      assert AllSpace(q') by {
        forall i | 0 <= i < |q'| ensures IsSpace(q'[i]) {
          assert q'[i] == q[i];
        }
      }
      TrimEndSkips(t, q');
    }
  }

  /** A newline is whitespace. */
  lemma NewlineIsSpace()
    ensures AllSpace("\n")
  {
    assert "\n"[0] == '\n';
  }

  /** Trailing whitespace after a stripped string is all that stripping removes. */
  lemma StripTrailing(x: string, q: string)
    requires AllSpace(q) && IsStripped(x)
    ensures Strip(x + q) == x
  {
    StripPadded([], x, q);
    assert [] + x + q == x + q;
  }

  /** `strip()` removes exactly the whitespace padding around a stripped core. */
  lemma {:induction false} StripPadded(p: string, x: string, q: string)
    requires AllSpace(p) && AllSpace(q) && IsStripped(x)
    ensures Strip(p + x + q) == x
  {
    if x == [] {
      assert AllSpace(p + x + q);
    } else {
      assert p + x + q == p + (x + q);
      TrimStartSkips(p, x + q);
      TrimEndSkips(x, q);
    }
  }

  /** A stripped string is left alone by `strip()`. */
  lemma StripStripped(x: string)
    requires IsStripped(x)
    ensures Strip(x) == x
  {
    StripPadded([], x, []);
    assert [] + x + [] == x;
  }

  /** `sep.join(parts)`. */
  function Join(parts: seq<string>, sep: string): string
    decreases |parts|
  {
    if |parts| == 0 then []
    else if |parts| == 1 then parts[0]
    else parts[0] + sep + Join(parts[1..], sep)
  }

  lemma {:induction false} JoinSnoc(parts: seq<string>, x: string, sep: string)
    requires |parts| >= 1
    ensures Join(parts + [x], sep) == Join(parts, sep) + sep + x
    decreases |parts|
  {
    if |parts| == 1 {
      assert (parts + [x])[1..] == [x];
    } else {
      assert (parts + [x])[1..] == parts[1..] + [x];
      JoinSnoc(parts[1..], x, sep);
    }
  }

  /** `s.split(sep)` for a one-character separator: never empty, no piece
      contains the separator, and joining the pieces gives `s` back. */
  function Split(s: string, sep: char): (r: seq<string>)
    ensures |r| >= 1
    ensures forall i :: 0 <= i < |r| ==> sep !in r[i]
    ensures Join(r, [sep]) == s
    decreases |s|
  {
    if s == [] then [[]]
    else
      var rest := Split(s[1..], sep);
      if s[0] == sep then
        var r := [[]] + rest;
        assert r[1..] == rest;
        r
      else
        var r := [[s[0]] + rest[0]] + rest[1..];
        assert |rest| > 1 ==> Join(rest, [sep]) == rest[0] + [sep] + Join(rest[1..], [sep]);
        assert |r| > 1 ==> r[1..] == rest[1..];
        r
  }

  /** The other direction of the round trip: splitting a join of
      separator-free pieces gives the pieces back. */
  lemma {:induction false} SplitJoin(parts: seq<string>, sep: char)
    requires |parts| >= 1
    requires forall i :: 0 <= i < |parts| ==> sep !in parts[i]
    ensures Split(Join(parts, [sep]), sep) == parts
    decreases |parts|, |parts[0]|
  {
    var s := Join(parts, [sep]);
    if |parts| == 1 {
      if parts[0] != [] {
        var p := parts[0];
        assert s == p;
        SplitJoin([p[1..]], sep);
        assert Join([p[1..]], [sep]) == p[1..];
        assert s[1..] == p[1..];
        assert [p[0]] + p[1..] == p;
      }
    } else if parts[0] == [] {
      assert s == [sep] + Join(parts[1..], [sep]);
      assert s[1..] == Join(parts[1..], [sep]);
      SplitJoin(parts[1..], sep);
      assert [[]] + parts[1..] == parts;
    } else {
      var p := parts[0];
      var parts' := [p[1..]] + parts[1..];
      assert parts'[1..] == parts[1..];
      assert forall i :: 0 < i < |parts'| ==> parts'[i] == parts[i];
      assert sep !in parts'[0];
      SplitJoin(parts', sep);
      assert Join(parts', [sep]) == p[1..] + [sep] + Join(parts[1..], [sep]);
      assert s == p + [sep] + Join(parts[1..], [sep]);
      assert s[1..] == Join(parts', [sep]);
      assert s[0] == p[0] && p[0] != sep;
      assert [p[0]] + p[1..] == p;
      assert Split(s, sep) == [[p[0]] + p[1..]] + parts[1..];
      assert [p] + parts[1..] == parts;
    }
  }

  /** `s.startswith(p)`. */
  predicate StartsWith(s: string, p: string)
  {
    |p| <= |s| && s[..|p|] == p
  }

  /** `s.startswith(ps)` for a tuple of prefixes. */
  predicate StartsWithAny(s: string, ps: seq<string>)
  {
    exists p | p in ps :: StartsWith(s, p)
  }

  /** `sub in s`. */
  predicate Contains(s: string, sub: string)
    decreases |s|
  {
    StartsWith(s, sub) || (s != [] && Contains(s[1..], sub))
  }

  /** `any(w in s for w in subs)`. */
  predicate ContainsAny(s: string, subs: seq<string>)
  {
    exists w | w in subs :: Contains(s, w)
  }

  lemma {:induction false} ContainsLeft(a: string, b: string, sub: string)
    requires Contains(a, sub)
    ensures Contains(a + b, sub)
    decreases |a|
  {
    if StartsWith(a, sub) {
      assert (a + b)[..|sub|] == a[..|sub|];
    } else {
      assert (a + b)[1..] == a[1..] + b;
      ContainsLeft(a[1..], b, sub);
    }
  }

  lemma {:induction false} ContainsRight(a: string, b: string, sub: string)
    requires Contains(b, sub)
    ensures Contains(a + b, sub)
    decreases |a|
  {
    if a == [] {
      assert a + b == b;
    } else {
      assert (a + b)[1..] == a[1..] + b;
      ContainsRight(a[1..], b, sub);
    }
  }

  /** Every character of a substring occurs in the string. */
  lemma {:induction false} ContainsChar(s: string, sub: string, c: char)
    requires Contains(s, sub) && c in sub
    ensures c in s
    decreases |s|
  {
    if StartsWith(s, sub) {
      var i :| 0 <= i < |sub| && sub[i] == c;
      assert s[i] == sub[i];
    } else {
      ContainsChar(s[1..], sub, c);
    }
  }

  lemma ContainsSelf(s: string)
    ensures Contains(s, s)
  {
  }

  /** Where `sub in s` finds `sub`: a prefix before it and a rest after it. */
  lemma {:induction false} ContainsFound(s: string, sub: string) returns (a: string, b: string)
    requires Contains(s, sub)
    ensures s == a + sub + b
    decreases |s|
  {
    if StartsWith(s, sub) {
      a, b := [], s[|sub|..];
      assert s == s[..|sub|] + s[|sub|..];
    } else {
      var a', b' := ContainsFound(s[1..], sub);
      a, b := [s[0]] + a', b';
      assert s == [s[0]] + s[1..];
    }
  }

  /** `sub` with anything around it contains `sub`. */
  lemma {:induction false} ContainsAround(a: string, sub: string, b: string)
    ensures Contains(a + sub + b, sub)
    decreases |a|
  {
    var s := a + sub + b;
    if a == [] {
      assert s[..|sub|] == sub;
    } else {
      assert s[1..] == a[1..] + sub + b;
      ContainsAround(a[1..], sub, b);
    }
  }

  /** `sub in s` holds exactly when `s` is `sub` with something before
      and something after it. */
  lemma ContainsSplit(s: string, sub: string)
    ensures Contains(s, sub) <==> exists a, b :: s == a + sub + b
  {
    if Contains(s, sub) {
      var a, b := ContainsFound(s, sub);
    }
    if exists a, b :: s == a + sub + b {
      var a, b :| s == a + sub + b;
      ContainsAround(a, sub, b);
    }
  }

  /** A join whose first part is non-empty is non-empty. */
  lemma JoinNonEmpty(parts: seq<string>, sep: string)
    requires |parts| > 0 && parts[0] != ""
    ensures Join(parts, sep) != ""
  {
    if |parts| > 1 {
      assert Join(parts, sep) == parts[0] + sep + Join(parts[1..], sep);
      assert |Join(parts, sep)| >= |parts[0]|;
    }
  }

  /** Every piece of a join occurs in it. */
  lemma {:induction false} JoinContainsPart(parts: seq<string>, sep: string, i: nat)
    requires i < |parts|
    ensures Contains(Join(parts, sep), parts[i])
    decreases |parts|
  {
    if |parts| == 1 {
      ContainsSelf(parts[0]);
    } else if i == 0 {
      ContainsSelf(parts[0]);
      ContainsLeft(parts[0], sep + Join(parts[1..], sep), parts[0]);
      assert parts[0] + sep + Join(parts[1..], sep) == parts[0] + (sep + Join(parts[1..], sep));
    } else {
      JoinContainsPart(parts[1..], sep, i - 1);
      ContainsRight(parts[0] + sep, Join(parts[1..], sep), parts[i]);
    }
  }

  /** Python's `s[:n]`. */
  function Take<T>(s: seq<T>, n: nat): (r: seq<T>)
    ensures |r| == if n <= |s| then n else |s|
    ensures r == s[..|r|]
  {
    if n <= |s| then s[..n] else s
  }

  function LowerChar(c: char): char
  {
    if 'A' <= c <= 'Z' then (c as int + 32) as char else c
  }

  function UpperChar(c: char): char
  {
    if 'a' <= c <= 'z' then (c as int - 32) as char else c
  }

  predicate IsAsciiLetter(c: char)
  {
    ('a' <= c <= 'z') || ('A' <= c <= 'Z')
  }

  /** `s.lower()`, on ASCII letters only. */
  function Lower(s: string): (r: string)
    ensures |r| == |s|
    ensures forall i :: 0 <= i < |s| ==> r[i] == LowerChar(s[i])
  {
    seq(|s|, i requires 0 <= i < |s| => LowerChar(s[i]))
  }

  /** `s.upper()`, on ASCII letters only. */
  function Upper(s: string): (r: string)
    ensures |r| == |s|
    ensures forall i :: 0 <= i < |s| ==> r[i] == UpperChar(s[i])
  {
    seq(|s|, i requires 0 <= i < |s| => UpperChar(s[i]))
  }

  /** `s.title()`, on ASCII letters only: a letter after a non-letter is
      upper-cased, a letter after a letter lower-cased. */
  function TitleCase(s: string): (r: string)
    ensures |r| == |s|
    ensures forall i :: 0 <= i < |s| && !IsAsciiLetter(s[i]) ==> r[i] == s[i]
    ensures forall i :: 0 < i < |s| && IsAsciiLetter(s[i]) && IsAsciiLetter(s[i - 1]) ==> r[i] == LowerChar(s[i])
    ensures forall i :: 0 <= i < |s| && IsAsciiLetter(s[i]) && (i == 0 || !IsAsciiLetter(s[i - 1])) ==> r[i] == UpperChar(s[i])
  {
    seq(|s|, i requires 0 <= i < |s| =>
      if !IsAsciiLetter(s[i]) then s[i]
      else if i > 0 && IsAsciiLetter(s[i - 1]) then LowerChar(s[i])
      else UpperChar(s[i]))
  }

  /** `s.split()` with no argument: the maximal whitespace-free words,
      `word` being the one read so far. */
  function WordsFrom(s: string, word: string): (ws: seq<string>)
    ensures forall i :: 0 <= i < |ws| ==> ws[i] != []
    ensures NoSpace(word) ==> forall i :: 0 <= i < |ws| ==> NoSpace(ws[i])
    decreases |s|
  {
    if s == [] then (if word == [] then [] else [word])
    else if !IsSpace(s[0]) then WordsFrom(s[1..], word + [s[0]])
    else if word == [] then WordsFrom(s[1..], [])
    else [word] + WordsFrom(s[1..], [])
  }

  function Words(s: string): seq<string>
  {
    WordsFrom(s, [])
  }

  /** `set(s.split())`: empty exactly when `s` is all white space, and no
      member is empty or holds white space. */
  function WordSet(s: string): (r: set<string>)
    ensures forall w :: w in r ==> w != [] && NoSpace(w)
    ensures r == {} <==> AllSpace(s)
  {
    WordsEmpty(s);
    var ws := Words(s);
    assert NoSpace([]);
    var r := set w | w in ws;
    assert ws != [] ==> ws[0] in r;
    r
  }

  /** The ranges of `IsSpace` hold exactly the 29 characters `str.isspace`
      accepts, listed one by one. */
  lemma IsSpaceChars(c: char)
    ensures IsSpace(c) <==> c in {
      ' ', '\t', '\n', '\U{B}', '\U{C}', '\r', '\U{1C}', '\U{1D}', '\U{1E}', '\U{1F}',
      '\U{85}', '\U{A0}', '\U{1680}',
      '\U{2000}', '\U{2001}', '\U{2002}', '\U{2003}', '\U{2004}', '\U{2005}',
      '\U{2006}', '\U{2007}', '\U{2008}', '\U{2009}', '\U{200A}',
      '\U{2028}', '\U{2029}', '\U{202F}', '\U{205F}', '\U{3000}'
    }
  {
  }

  /** No character of `w` is white space. */
  predicate NoSpace(w: string)
  {
    forall i :: 0 <= i < |w| ==> !IsSpace(w[i])
  }

  /** The characters of `s` that are not white space, in order. */
  function NonSpace(s: string): string
    decreases |s|
  {
    if s == [] then [] else (if IsSpace(s[0]) then [] else [s[0]]) + NonSpace(s[1..])
  }

  /** The pieces glued together without a separator. */
  function Concat(ws: seq<string>): string
    decreases |ws|
  {
    if ws == [] then [] else ws[0] + Concat(ws[1..])
  }

  /** Splitting loses only white space: the words glued together are the
      pending word followed by the non-space characters of `s`. */
  lemma {:induction false} WordsConcat(s: string, word: string)
    ensures Concat(WordsFrom(s, word)) == word + NonSpace(s)
    decreases |s|
  {
    if s == [] {
      if word != [] {
        assert Concat([word]) == word + Concat([]);
      }
    } else if !IsSpace(s[0]) {
      WordsConcat(s[1..], word + [s[0]]);
    } else if word == [] {
      WordsConcat(s[1..], []);
    } else {
      var rest := WordsFrom(s[1..], []);
      WordsConcat(s[1..], []);
      assert ([word] + rest)[1..] == rest;
    }
  }

  /** Only white space, or nothing, leaves no characters behind. */
  lemma {:induction false} NonSpaceEmpty(s: string)
    ensures NonSpace(s) == [] <==> AllSpace(s)
    decreases |s|
  {
    if s != [] {
      NonSpaceEmpty(s[1..]);
      if AllSpace(s[1..]) && IsSpace(s[0]) {
        forall i | 0 <= i < |s|
          ensures IsSpace(s[i])
        {
          if i > 0 {
            assert s[i] == s[1..][i - 1];
          }
        }
      }
    }
  }

  /** Glued non-empty pieces are empty only when there are none. */
  lemma ConcatEmpty(ws: seq<string>)
    requires forall i :: 0 <= i < |ws| ==> ws[i] != []
    ensures Concat(ws) == [] <==> ws == []
  {
    if ws != [] {
      assert |Concat(ws)| >= |ws[0]| > 0;
    }
  }

  /** `s.split()` is empty exactly when `s` is all white space. */
  lemma WordsEmpty(s: string)
    ensures Words(s) == [] <==> AllSpace(s)
  {
    WordsConcat(s, []);
    NonSpaceEmpty(s);
    ConcatEmpty(Words(s));
  }

  /** No two adjacent copies of `c`. */
  predicate NoRun(s: string, c: char)
  {
    forall i :: 0 <= i < |s| - 1 ==> !(s[i] == c && s[i + 1] == c)
  }

  /** `re.sub(c + '+', c, s)`: every run of `c` collapsed to one `c`. */
  function Squeeze(s: string, c: char): (r: string)
    ensures NoRun(r, c)
    ensures |r| <= |s|
    ensures s != [] ==> r != [] && r[0] == s[0]
    ensures forall x :: x in r ==> x in s
    decreases |s|
  {
    if |s| <= 1 then s
    else if s[0] == c && s[1] == c then Squeeze(s[1..], c)
    else [s[0]] + Squeeze(s[1..], c)
  }

  /** Collapsing runs changes a string exactly when it has a run. */
  lemma {:induction false} SqueezeFixpoint(s: string, c: char)
    ensures Squeeze(s, c) == s <==> NoRun(s, c)
    decreases |s|
  {
    if |s| > 1 {
      SqueezeFixpoint(s[1..], c);
      if s[0] == c && s[1] == c {
        assert |Squeeze(s, c)| < |s|;
      } else if NoRun(s, c) {
        assert NoRun(s[1..], c) by {
          forall i | 0 <= i < |s[1..]| - 1 ensures !(s[1..][i] == c && s[1..][i + 1] == c) {
            assert s[1..][i] == s[i + 1] && s[1..][i + 1] == s[i + 2];
          }
        }
        assert [s[0]] + s[1..] == s;
      }
    }
  }

  /** Collapsing runs of `b` creates no run of another character `a`. */
  lemma {:induction false} SqueezeKeepsNoRun(s: string, a: char, b: char)
    requires a != b && NoRun(s, a)
    ensures NoRun(Squeeze(s, b), a)
    decreases |s|
  {
    if |s| > 1 {
      assert NoRun(s[1..], a) by {
        forall i | 0 <= i < |s[1..]| - 1 ensures !(s[1..][i] == a && s[1..][i + 1] == a) {
          assert s[1..][i] == s[i + 1] && s[1..][i + 1] == s[i + 2];
        }
      }
      SqueezeKeepsNoRun(s[1..], a, b);
      if !(s[0] == b && s[1] == b) {
        var t := Squeeze(s[1..], b);
        var r := [s[0]] + t;
        forall i | 0 <= i < |r| - 1 ensures !(r[i] == a && r[i + 1] == a) {
          if i > 0 {
            assert r[i] == t[i - 1] && r[i + 1] == t[i];
          } else {
            assert r[1] == s[1];
          }
        }
      }
    }
  }

  /** A slice of a run-free string is run-free. */
  lemma NoRunSlice(s: string, c: char, lo: nat, hi: nat)
    requires lo <= hi <= |s| && NoRun(s, c)
    ensures NoRun(s[lo..hi], c)
  {
    var t := s[lo..hi];
    forall i | 0 <= i < |t| - 1 ensures !(t[i] == c && t[i + 1] == c) {
      assert t[i] == s[lo + i] && t[i + 1] == s[lo + i + 1];
    }
  }

  /** `strip()` keeps a string run-free. */
  lemma StripKeepsNoRun(s: string, c: char)
    requires NoRun(s, c)
    ensures NoRun(Strip(s), c)
  {
    var t := TrimStart(s);
    NoRunSlice(s, c, |s| - |t|, |s|);
    NoRunSlice(t, c, 0, |TrimEnd(t)|);
  }

  /** Every character of `s` lies outside `bad`. */
  predicate Avoids(s: string, bad: set<char>)
  {
    forall x :: x in s ==> x !in bad
  }

  lemma {:induction false} JoinAvoids(parts: seq<string>, sep: string, bad: set<char>)
    requires Avoids(sep, bad)
    requires forall i :: 0 <= i < |parts| ==> Avoids(parts[i], bad)
    ensures Avoids(Join(parts, sep), bad)
    decreases |parts|
  {
    if |parts| > 1 {
      JoinAvoids(parts[1..], sep, bad);
    }
  }
}
