/** Character-level helpers for reading OBJ lines: `str.strip` / `String.trim`,
    `split` on a separator, and the empty-token filters both implementations apply. */
module Text {

  /** The characters Python's `str.strip()` removes (those for which `str.isspace` holds):
      the ASCII controls `\t` to `\r` and `\x1c` to `\x1f`, the space, `\x85`, the no-break
      spaces and the Unicode space separators and line and paragraph separators. */
  predicate PySpace(c: char) {
    || ('\t' <= c <= '\r') || ('\U{1C}' <= c <= '\U{20}') || c == '\U{85}' || c == '\U{A0}'
    || c == '\U{1680}' || ('\U{2000}' <= c <= '\U{200A}') || c == '\U{2028}' || c == '\U{2029}'
    || c == '\U{202F}' || c == '\U{205F}' || c == '\U{3000}'
  }

  /** The characters JavaScript's `String.prototype.trim` removes and `\s` matches: the
      WhiteSpace and LineTerminator code points of ECMAScript (`\t` to `\r`, the space,
      the no-break spaces, the byte-order mark and the Unicode space separators). */
  predicate JsSpace(c: char) {
    || ('\t' <= c <= '\r') || c == ' ' || c == '\U{A0}' || c == '\U{FEFF}'
    || c == '\U{1680}' || ('\U{2000}' <= c <= '\U{200A}') || c == '\U{2028}' || c == '\U{2029}'
    || c == '\U{202F}' || c == '\U{205F}' || c == '\U{3000}'
  }

  /** The separator test for a one-character separator. */
  function IsChar(sep: char): char -> bool {
    c => c == sep
  }

  /** `s.split(sep)` where `isSep` says which characters separate: the pieces between
      separators, in order, empty pieces included. */
  function SplitWhere(s: string, isSep: char -> bool): (pieces: seq<string>)
    ensures |pieces| >= 1
  {
    if |s| == 0 then [""]
    else
      var rest := SplitWhere(s[1..], isSep);
      if isSep(s[0]) then [""] + rest else [[s[0]] + rest[0]] + rest[1..]
  }

  /** Number of characters of `s` that `isSep` accepts. */
  function CountWhere(s: string, isSep: char -> bool): nat {
    if |s| == 0 then 0 else (if isSep(s[0]) then 1 else 0) + CountWhere(s[1..], isSep)
  }

  /** `sep.join(pieces)`. */
  function JoinWith(pieces: seq<string>, sep: char): string {
    if |pieces| == 0 then ""
    else if |pieces| == 1 then pieces[0]
    else pieces[0] + [sep] + JoinWith(pieces[1..], sep)
  }

  /** Splitting gives one more piece than there are separators, and no piece contains a
      separator. */
  lemma {:induction false} SplitPieces(s: string, isSep: char -> bool)
    ensures |SplitWhere(s, isSep)| == CountWhere(s, isSep) + 1
    ensures forall i, j :: 0 <= i < |SplitWhere(s, isSep)| && 0 <= j < |SplitWhere(s, isSep)[i]| ==>
              !isSep(SplitWhere(s, isSep)[i][j])
  {
    if |s| > 0 {
      SplitPieces(s[1..], isSep);
      var rest := SplitWhere(s[1..], isSep);
      var pieces := SplitWhere(s, isSep);
      if !isSep(s[0]) {
        forall i, j | 0 <= i < |pieces| && 0 <= j < |pieces[i]|
          ensures !isSep(pieces[i][j])
        {
          if i == 0 && j > 0 {
            assert pieces[0][j] == rest[0][j - 1];
          } else if i > 0 {
            assert pieces[i] == rest[i];
          }
        }
      } else {
        forall i, j | 0 <= i < |pieces| && 0 <= j < |pieces[i]|
          ensures !isSep(pieces[i][j])
        {
          assert pieces[i] == rest[i - 1];
        }
      }
    }
  }

  /** Joining the pieces of a split with the same separator gives back the string. */
  lemma {:induction false} SplitThenJoin(s: string, sep: char)
    ensures JoinWith(SplitWhere(s, IsChar(sep)), sep) == s
  {
    if |s| > 0 {
      SplitThenJoin(s[1..], sep);
      var rest := SplitWhere(s[1..], IsChar(sep));
      if s[0] == sep {
        assert SplitWhere(s, IsChar(sep)) == [""] + rest;
        assert s == [sep] + s[1..];
      } else {
        var pieces := SplitWhere(s, IsChar(sep));
        assert pieces == [[s[0]] + rest[0]] + rest[1..];
        if |rest| == 1 {
          assert s == [s[0]] + rest[0];
        } else {
          assert JoinWith(rest, sep) == rest[0] + [sep] + JoinWith(rest[1..], sep);
          assert pieces[1..] == rest[1..];
          assert s == [s[0]] + s[1..];
        }
      }
    }
  }

  /** Two separator tests that agree on every character of `s` split it alike. */
  lemma {:induction false} SplitSameSeparators(s: string, p: char -> bool, q: char -> bool)
    requires forall i :: 0 <= i < |s| ==> (p(s[i]) <==> q(s[i]))
    ensures SplitWhere(s, p) == SplitWhere(s, q)
  {
    if |s| > 0 {
      SplitSameSeparators(s[1..], p, q);
      assert p(s[0]) <==> q(s[0]);
    }
  }

  /** The text before the first `sep` (all of `s` when there is none): the first piece of
      the split. */
  lemma {:induction false} FirstPiece(s: string, isSep: char -> bool)
    ensures var r := SplitWhere(s, isSep)[0];
      && |r| <= |s| && r == s[..|r|]
      && (forall j :: 0 <= j < |r| ==> !isSep(r[j]))
      && (|r| < |s| ==> isSep(s[|r|]))
  {
    if |s| > 0 {
      FirstPiece(s[1..], isSep);
    }
  }

  /** The filter `token != ''` / `token !== ""`: keeps the non-empty tokens, in order. */
  function NonEmpty(tokens: seq<string>): (r: seq<string>)
    ensures |r| <= |tokens|
    ensures forall i :: 0 <= i < |r| ==> r[i] != ""
  {
    if |tokens| == 0 then []
    else (if tokens[0] == "" then [] else [tokens[0]]) + NonEmpty(tokens[1..])
  }

  /** The filter keeps exactly the non-empty tokens. */
  lemma {:induction false} NonEmptyMembers(tokens: seq<string>, t: string)
    ensures t in NonEmpty(tokens) <==> t in tokens && t != ""
  {
    if |tokens| > 0 {
      NonEmptyMembers(tokens[1..], t);
      assert tokens == [tokens[0]] + tokens[1..];
    }
  }

  /** Filtering distributes over concatenation. */
  lemma {:induction false} NonEmptyAppend(a: seq<string>, b: seq<string>)
    ensures NonEmpty(a + b) == NonEmpty(a) + NonEmpty(b)
  {
    if |a| > 0 {
      NonEmptyAppend(a[1..], b);
      assert (a + b)[1..] == a[1..] + b;
    } else {
      assert a + b == b;
    }
  }

  /** The non-empty tokens of `s` when `isSep` separates them. */
  function Tokens(s: string, isSep: char -> bool): seq<string> {
    NonEmpty(SplitWhere(s, isSep))
  }

  /** A token is a non-empty run of non-separators. */
  lemma TokensAreWords(s: string, isSep: char -> bool)
    ensures forall i :: 0 <= i < |Tokens(s, isSep)| ==> Tokens(s, isSep)[i] != ""
    ensures forall i, j :: 0 <= i < |Tokens(s, isSep)| && 0 <= j < |Tokens(s, isSep)[i]| ==>
              !isSep(Tokens(s, isSep)[i][j])
  {
    SplitPieces(s, isSep);
    var pieces := SplitWhere(s, isSep);
    forall i, j | 0 <= i < |Tokens(s, isSep)| && 0 <= j < |Tokens(s, isSep)[i]|
      ensures !isSep(Tokens(s, isSep)[i][j])
    {
      var t := Tokens(s, isSep)[i];
      NonEmptyMembers(pieces, t);
      var k :| 0 <= k < |pieces| && pieces[k] == t;
      assert !isSep(pieces[k][j]);
    }
  }

  /** A trailing separator adds only an empty piece, so it adds no token. */
  lemma {:induction false} SplitTrailingSeparator(s: string, c: char, isSep: char -> bool)
    requires isSep(c)
    ensures SplitWhere(s + [c], isSep) == SplitWhere(s, isSep) + [""]
  {
    if |s| == 0 {
      assert [c][1..] == "";
    } else {
      SplitTrailingSeparator(s[1..], c, isSep);
      assert (s + [c])[1..] == s[1..] + [c];
    }
  }

  /** A leading or trailing separator changes no token. */
  lemma TokensIgnoreOuterSeparator(s: string, c: char, isSep: char -> bool)
    requires isSep(c)
    ensures Tokens([c] + s, isSep) == Tokens(s, isSep)
    ensures Tokens(s + [c], isSep) == Tokens(s, isSep)
  {
    assert ([c] + s)[1..] == s;
    SplitTrailingSeparator(s, c, isSep);
    NonEmptyAppend(SplitWhere(s, isSep), [""]);
  }

  /** The number of whitespace characters `s` starts with. */
  function LeadingSpaces(s: string, isSpace: char -> bool): (n: nat)
    ensures n <= |s|
    ensures forall i :: 0 <= i < n ==> isSpace(s[i])
    ensures n < |s| ==> !isSpace(s[n])
  {
    if |s| > 0 && isSpace(s[0]) then 1 + LeadingSpaces(s[1..], isSpace) else 0
  }

  /** The number of whitespace characters `s` ends with. */
  function TrailingSpaces(s: string, isSpace: char -> bool): (n: nat)
    ensures n <= |s|
    ensures forall i :: |s| - n <= i < |s| ==> isSpace(s[i])
    ensures n < |s| ==> !isSpace(s[|s| - n - 1])
  {
    if |s| > 0 && isSpace(s[|s| - 1]) then 1 + TrailingSpaces(s[..|s| - 1], isSpace) else 0
  }

  /** `lstrip`: drops leading whitespace. */
  function StripStart(s: string, isSpace: char -> bool): (r: string)
    ensures |r| <= |s| && r == s[|s| - |r|..]
    ensures forall i :: 0 <= i < |s| - |r| ==> isSpace(s[i])
    ensures |r| > 0 ==> !isSpace(r[0])
  {
    s[LeadingSpaces(s, isSpace)..]
  }

  /** `rstrip`: drops trailing whitespace. */
  function StripEnd(s: string, isSpace: char -> bool): (r: string)
    ensures |r| <= |s| && r == s[..|r|]
    ensures forall i :: |r| <= i < |s| ==> isSpace(s[i])
    ensures |r| > 0 ==> !isSpace(r[|r| - 1])
  {
    s[..|s| - TrailingSpaces(s, isSpace)]
  }

  /** `str.strip()` / `String.trim()`: the slice of `s` between its leading and trailing
      whitespace, where `isSpace` says what each language counts as whitespace. */
  function Strip(s: string, isSpace: char -> bool): (r: string)
    ensures var k := LeadingSpaces(s, isSpace);
      && k + |r| <= |s| && r == s[k..k + |r|]
      && (forall i :: 0 <= i < k ==> isSpace(s[i]))
      && (forall i :: k + |r| <= i < |s| ==> isSpace(s[i]))
    ensures |r| > 0 ==> !isSpace(r[0]) && !isSpace(r[|r| - 1])
  {
    var k := LeadingSpaces(s, isSpace);
    var t := s[k..];
    var e := TrailingSpaces(t, isSpace);
    forall i | k + (|t| - e) <= i < |s|
      ensures isSpace(s[i])
    {
      assert s[i] == t[i - k];
    }
    t[..|t| - e]
  }

  /** Stripping depends only on how `isSpace` classifies the characters of `s`. */
  lemma {:induction false} LeadingSpacesAgree(s: string, p: char -> bool, q: char -> bool)
    requires forall i :: 0 <= i < |s| ==> (p(s[i]) <==> q(s[i]))
    ensures LeadingSpaces(s, p) == LeadingSpaces(s, q)
  {
    if |s| > 0 && p(s[0]) {
      LeadingSpacesAgree(s[1..], p, q);
    }
  }

  lemma {:induction false} TrailingSpacesAgree(s: string, p: char -> bool, q: char -> bool)
    requires forall i :: 0 <= i < |s| ==> (p(s[i]) <==> q(s[i]))
    ensures TrailingSpaces(s, p) == TrailingSpaces(s, q)
  {
    if |s| > 0 && p(s[|s| - 1]) {
      TrailingSpacesAgree(s[..|s| - 1], p, q);
    }
  }

  lemma StripAgrees(s: string, p: char -> bool, q: char -> bool)
    requires forall i :: 0 <= i < |s| ==> (p(s[i]) <==> q(s[i]))
    ensures Strip(s, p) == Strip(s, q)
  {
    LeadingSpacesAgree(s, p, q);
    var t := s[LeadingSpaces(s, p)..];
    TrailingSpacesAgree(t, p, q);
  }

  /** Stripping before splitting on whitespace changes no token: `trim` is redundant in
      front of a whitespace split. */
  lemma {:induction false} TokensOfStripStart(s: string, isSpace: char -> bool, isSep: char -> bool)
    requires forall c :: isSpace(c) ==> isSep(c)
    ensures Tokens(StripStart(s, isSpace), isSep) == Tokens(s, isSep)
  {
    if |s| > 0 && isSpace(s[0]) {
      var c, rest := s[0], s[1..];
      assert isSep(c);
      assert LeadingSpaces(s, isSpace) == 1 + LeadingSpaces(rest, isSpace);
      assert StripStart(s, isSpace) == StripStart(rest, isSpace);
      TokensOfStripStart(rest, isSpace, isSep);
      TokensIgnoreOuterSeparator(rest, c, isSep);
      assert [c] + rest == s;
    }
  }

  lemma {:induction false} TokensOfStripEnd(s: string, isSpace: char -> bool, isSep: char -> bool)
    requires forall c :: isSpace(c) ==> isSep(c)
    ensures Tokens(StripEnd(s, isSpace), isSep) == Tokens(s, isSep)
  {
    if |s| > 0 && isSpace(s[|s| - 1]) {
      var init := s[..|s| - 1];
      var c := s[|s| - 1];
      assert isSep(c);
      assert TrailingSpaces(s, isSpace) == 1 + TrailingSpaces(init, isSpace);
      assert StripEnd(s, isSpace) == StripEnd(init, isSpace);
      TokensOfStripEnd(init, isSpace, isSep);
      TokensIgnoreOuterSeparator(init, c, isSep);
      assert init + [c] == s;
    } else {
      assert s[..|s|] == s;
    }
  }

  lemma TokensOfStrip(s: string, isSpace: char -> bool, isSep: char -> bool)
    requires forall c :: isSpace(c) ==> isSep(c)
    ensures Tokens(Strip(s, isSpace), isSep) == Tokens(s, isSep)
  {
    TokensOfStripStart(s, isSpace, isSep);
    TokensOfStripEnd(StripStart(s, isSpace), isSpace, isSep);
    assert Strip(s, isSpace) == StripEnd(StripStart(s, isSpace), isSpace);
  }
}
