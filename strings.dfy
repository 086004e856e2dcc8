/**
 * The parts of the .NET string library that the location service and the
 * location handler rely on: ordinal and ignore-case substring search,
 * ordinal `Replace`, `TrimStart`/`TrimEnd` of one character, and the catalog
 * URL join built from the two trims.
 */
module Strings {
  import opened Wrappers

  /** Case folding of one character (only the ASCII letters A-Z fold to something else). */
  function FoldChar(c: char): char
  {
    if 'A' <= c <= 'Z' then (c as int - 'A' as int + 'a' as int) as char else c
  }

  /** The string the ignore-case comparisons look at: every character folded. */
  function Fold(s: string): (r: string)
    ensures |r| == |s|
    ensures forall i :: 0 <= i < |s| ==> r[i] == FoldChar(s[i])
  {
    seq(|s|, i requires 0 <= i < |s| => FoldChar(s[i]))
  }

  /** Two characters fold alike exactly when they are equal or are one ASCII letter in its two cases. */
  lemma FoldCharSpec(a: char, b: char)
    ensures FoldChar(a) == FoldChar(b) <==>
      a == b || ('A' <= a <= 'Z' && b as int == a as int + 32) || ('A' <= b <= 'Z' && a as int == b as int + 32)
    ensures !('A' <= FoldChar(a) <= 'Z')
  {
  }

  /** Folding is idempotent. */
  lemma FoldIdempotent(s: string)
    ensures Fold(Fold(s)) == Fold(s)
  {
    forall i | 0 <= i < |s|
      ensures Fold(Fold(s))[i] == Fold(s)[i]
    {
      FoldCharSpec(s[i], s[i]);
    }
  }

  /** Folding commutes with slicing, so a folded occurrence is the fold of an occurrence. */
  lemma FoldSlice(s: string, i: int, j: int)
    requires 0 <= i <= j <= |s|
    ensures Fold(s[i..j]) == Fold(s)[i..j]
  {
    forall k | 0 <= k < j - i
      ensures Fold(s[i..j])[k] == Fold(s)[i..j][k]
    {
      assert s[i..j][k] == s[i + k];
    }
  }

  /** `a.Equals(b, StringComparison.OrdinalIgnoreCase)`. */
  predicate EqualsIgnoreCase(a: string, b: string)
  {
    Fold(a) == Fold(b)
  }

  /** `sub` occurs in `s` at position `i`. */
  ghost predicate Occurs(s: string, sub: string, i: int)
  {
    0 <= i && i + |sub| <= |s| && s[i..i + |sub|] == sub
  }

  /** An occurrence in `s` past its first character is an occurrence in `s[1..]`, one position earlier. */
  lemma OccursShift(s: string, sub: string)
    requires |s| > 0
    ensures forall j :: 1 <= j ==> (Occurs(s, sub, j) <==> Occurs(s[1..], sub, j - 1))
  {
    forall j | 1 <= j
      ensures Occurs(s, sub, j) <==> Occurs(s[1..], sub, j - 1)
    {
      if j + |sub| <= |s| {
        assert s[1..][j - 1..j - 1 + |sub|] == s[j..j + |sub|];
      }
    }
  }

  /** `s.IndexOf(sub, StringComparison.Ordinal)`: the first position at which `sub` occurs. */
  function IndexOf(s: string, sub: string): (r: Option<nat>)
    ensures r.Some? ==> Occurs(s, sub, r.value)
    ensures r.Some? ==> forall j :: 0 <= j < r.value ==> !Occurs(s, sub, j)
    ensures r.None? ==> forall j :: !Occurs(s, sub, j)
    decreases |s|
  {
    if |s| < |sub| then None
    else if s[..|sub|] == sub then Some(0)
    else
      OccursShift(s, sub);
      match IndexOf(s[1..], sub)
      case None => None
      case Some(i) => Some(i + 1)
  }

  /** `s.Contains(sub)`, ordinal. The empty string is contained in every string. */
  function Contains(s: string, sub: string): (b: bool)
    ensures b <==> exists i :: Occurs(s, sub, i)
  {
    IndexOf(s, sub).Some?
  }

  /** `s.Contains(sub, StringComparison.OrdinalIgnoreCase)`. */
  predicate ContainsIgnoreCase(s: string, sub: string)
  {
    Contains(Fold(s), Fold(sub))
  }

  /** Every ordinal match is also an ignore-case match. */
  lemma ContainsImpliesContainsIgnoreCase(s: string, sub: string)
    requires Contains(s, sub)
    ensures ContainsIgnoreCase(s, sub)
  {
    var i :| Occurs(s, sub, i);
    assert Fold(s)[i..i + |sub|] == Fold(sub) by {
      forall k | 0 <= k < |sub|
        ensures Fold(s)[i..i + |sub|][k] == Fold(sub)[k]
      {
        assert s[i..i + |sub|][k] == sub[k] && s[i..i + |sub|][k] == s[i + k];
        assert Fold(s)[i..i + |sub|][k] == Fold(s)[i + k] == FoldChar(s[i + k]);
      }
    }
    assert Occurs(Fold(s), Fold(sub), i);
  }

  /** Containment is transitive: an occurrence inside an occurrence is an occurrence. */
  lemma ContainsTransitive(a: string, b: string, c: string)
    requires Contains(a, b) && Contains(b, c)
    ensures Contains(a, c)
  {
    var i :| Occurs(a, b, i);
    var j :| Occurs(b, c, j);
    assert a[i + j..i + j + |c|] == c by {
      forall k | 0 <= k < |c|
        ensures a[i + j..i + j + |c|][k] == c[k]
      {
        assert b[j..j + |c|][k] == c[k] && b[j..j + |c|][k] == b[j + k];
        assert a[i..i + |b|][j + k] == b[j + k];
      }
    }
    assert Occurs(a, c, i + j);
  }

  /** A string that ordinally contains `b` contains, ignoring case, whatever `b` contains ignoring case. */
  lemma ContainsIgnoreCaseThrough(a: string, b: string, c: string)
    requires Contains(a, b) && ContainsIgnoreCase(b, c)
    ensures ContainsIgnoreCase(a, c)
  {
    ContainsImpliesContainsIgnoreCase(a, b);
    ContainsTransitive(Fold(a), Fold(b), Fold(c));
  }

  /**
   * `s.Replace(oldValue, newValue)`: every occurrence of `oldValue`, found
   * left to right without overlapping, is replaced by `newValue`. .NET throws
   * on an empty `oldValue`, so the model requires a non-empty one.
   */
  function Replace(s: string, oldValue: string, newValue: string): (r: string)
    requires oldValue != []
    decreases |s|
  {
    match IndexOf(s, oldValue)
    case None => s
    case Some(i) => s[..i] + newValue + Replace(s[i + |oldValue|..], oldValue, newValue)
  }

  /** Replacing a string by itself changes nothing. */
  lemma {:induction false} ReplaceBySelf(s: string, value: string)
    requires value != []
    ensures Replace(s, value, value) == s
    decreases |s|
  {
    match IndexOf(s, value)
    case None =>
    case Some(i) =>
      ReplaceBySelf(s[i + |value|..], value);
      assert s[..i] + value + s[i + |value|..] == s;
  }

  /** A string in which `oldValue` does not occur comes back from `Replace` unchanged. */
  lemma ReplaceAbsent(s: string, oldValue: string, newValue: string)
    requires oldValue != [] && !Contains(s, oldValue)
    ensures Replace(s, oldValue, newValue) == s
  {
  }

  /** Replacing by a value no longer (no shorter) than the old one never lengthens (shortens) the string. */
  lemma {:induction false} ReplaceLength(s: string, oldValue: string, newValue: string)
    requires oldValue != []
    ensures |newValue| <= |oldValue| ==> |Replace(s, oldValue, newValue)| <= |s|
    ensures |newValue| >= |oldValue| ==> |Replace(s, oldValue, newValue)| >= |s|
    decreases |s|
  {
    match IndexOf(s, oldValue)
    case None =>
    case Some(i) =>
      var tail := s[i + |oldValue|..];
      ReplaceLength(tail, oldValue, newValue);
      var rest := Replace(tail, oldValue, newValue);
      assert Replace(s, oldValue, newValue) == s[..i] + newValue + rest;
      assert |s| == i + |oldValue| + |tail|;
  }

  /** When `oldValue` occurs ordinally and the replacement differs from it, `Replace` changes the string. */
  lemma ReplaceChanges(s: string, oldValue: string, newValue: string)
    requires oldValue != [] && newValue != oldValue
    requires Contains(s, oldValue)
    ensures Replace(s, oldValue, newValue) != s
  {
    var i := IndexOf(s, oldValue).value;
    var tail := s[i + |oldValue|..];
    var rest := Replace(tail, oldValue, newValue);
    var r := Replace(s, oldValue, newValue);
    assert r == s[..i] + newValue + rest;
    assert |s| == i + |oldValue| + |tail|;
    ReplaceLength(tail, oldValue, newValue);
    if |newValue| == |oldValue| {
      assert r[i..i + |newValue|] == newValue;
      assert Occurs(s, oldValue, i);
    } else {
      assert |r| == i + |newValue| + |rest|;
      assert |r| != |s|;
    }
  }

  /** When `oldValue` occurs, the result of `Replace` contains `newValue` (where the first occurrence was). */
  lemma ReplaceInsertsNew(s: string, oldValue: string, newValue: string)
    requires oldValue != [] && Contains(s, oldValue)
    ensures Contains(Replace(s, oldValue, newValue), newValue)
  {
    var i := IndexOf(s, oldValue).value;
    var rest := Replace(s[i + |oldValue|..], oldValue, newValue);
    var r := Replace(s, oldValue, newValue);
    assert r == s[..i] + newValue + rest;
    assert r[i..i + |newValue|] == newValue;
    assert Occurs(r, newValue, i);
  }

  /** `s.TrimEnd(c)`: `s` without its trailing run of `c`. */
  function TrimEnd(s: string, c: char): string
    decreases |s|
  {
    if |s| > 0 && s[|s| - 1] == c then TrimEnd(s[..|s| - 1], c) else s
  }

  /** `TrimEnd` keeps a prefix that does not end in `c`, and drops only `c`s. */
  lemma {:induction false} TrimEndSpec(s: string, c: char)
    ensures TrimEnd(s, c) <= s
    ensures TrimEnd(s, c) == [] || TrimEnd(s, c)[|TrimEnd(s, c)| - 1] != c
    ensures forall i :: |TrimEnd(s, c)| <= i < |s| ==> s[i] == c
    decreases |s|
  {
    if |s| > 0 && s[|s| - 1] == c {
      TrimEndSpec(s[..|s| - 1], c);
    }
  }

  /** `s.TrimStart(c)`: `s` without its leading run of `c`. */
  function TrimStart(s: string, c: char): string
    decreases |s|
  {
    if |s| > 0 && s[0] == c then TrimStart(s[1..], c) else s
  }

  /** `TrimStart` keeps a suffix that does not start with `c`, and drops only `c`s. */
  lemma {:induction false} TrimStartSpec(s: string, c: char)
    ensures |TrimStart(s, c)| <= |s| && TrimStart(s, c) == s[|s| - |TrimStart(s, c)|..]
    ensures TrimStart(s, c) == [] || TrimStart(s, c)[0] != c
    ensures forall i :: 0 <= i < |s| - |TrimStart(s, c)| ==> s[i] == c
    decreases |s|
  {
    if |s| > 0 && s[0] == c {
      TrimStartSpec(s[1..], c);
    }
  }

  /** `$"{baseUrl.TrimEnd('/')}/{path.TrimStart('/')}"`, the catalog URL expression. */
  function UrlJoin(baseUrl: string, path: string): string
  {
    TrimEnd(baseUrl, '/') + "/" + TrimStart(path, '/')
  }

  /** A base URL that does not end in a separator and a path that does not start with one are joined by exactly one. */
  lemma UrlJoinPlain(baseUrl: string, path: string)
    requires baseUrl == [] || baseUrl[|baseUrl| - 1] != '/'
    requires path == [] || path[0] != '/'
    ensures UrlJoin(baseUrl, path) == baseUrl + "/" + path
  {
  }

  /** A trailing separator on the base URL makes no difference to the join. */
  lemma UrlJoinTrailingSlash(baseUrl: string, path: string)
    ensures UrlJoin(baseUrl + "/", path) == UrlJoin(baseUrl, path)
  {
    assert (baseUrl + "/")[..|baseUrl|] == baseUrl;
  }

  /** A leading separator on the path makes no difference to the join. */
  lemma UrlJoinLeadingSlash(baseUrl: string, path: string)
    ensures UrlJoin(baseUrl, "/" + path) == UrlJoin(baseUrl, path)
  {
    assert ("/" + path)[1..] == path;
  }
}
