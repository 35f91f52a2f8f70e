/** The wildcard matcher of the log filter, against the language a pattern denotes. */
module Wildcard {

  /** What one pattern character stands for. */
  ghost predicate Fits(piece: string, c: char) {
    if c == '*' then true else if c == '?' then |piece| == 1 else piece == [c]
  }

  ghost function Joined(pieces: seq<string>): string {
    if pieces == [] then [] else pieces[0] + Joined(pieces[1..])
  }

  /** `s` can be cut into one piece per pattern character, each piece fitting its character. */
  ghost predicate Cuts(s: string, p: string, pieces: seq<string>) {
    && |pieces| == |p|
    && Joined(pieces) == s
    && forall i | 0 <= i < |p| :: Fits(pieces[i], p[i])
  }

  ghost predicate InLanguage(s: string, p: string) {
    exists pieces :: Cuts(s, p, pieces)
  }

  lemma InLanguageEmpty(s: string)
    ensures InLanguage(s, []) <==> s == []
  {
    assert Cuts([], [], []);
  }

  /** Cutting off the piece for the first pattern character. */
  lemma FirstPiece(s: string, p: string, k: nat)
    requires p != [] && k <= |s| && Fits(s[..k], p[0]) && InLanguage(s[k..], p[1..])
    ensures InLanguage(s, p)
  {
    var rest :| Cuts(s[k..], p[1..], rest);
    var pieces := [s[..k]] + rest;
    assert pieces[1..] == rest;
    forall i | 0 <= i < |p| ensures Fits(pieces[i], p[i]) {
      if i > 0 {
        assert Fits(rest[i - 1], p[1..][i - 1]);
      }
    }
    assert Cuts(s, p, pieces);
  }

  lemma CutFirst(s: string, p: string) returns (k: nat)
    requires p != [] && InLanguage(s, p)
    ensures k <= |s| && Fits(s[..k], p[0]) && InLanguage(s[k..], p[1..])
  {
    var pieces :| Cuts(s, p, pieces);
    k := |pieces[0]|;
    assert s == pieces[0] + Joined(pieces[1..]);
    assert s[..k] == pieces[0] && s[k..] == Joined(pieces[1..]);
    assert Cuts(s[k..], p[1..], pieces[1..]);
  }

  lemma QuestionMark(s: string, p: string)
    requires p != [] && p[0] == '?'
    ensures InLanguage(s, p) <==> s != [] && InLanguage(s[1..], p[1..])
  {
    if InLanguage(s, p) {
      var k := CutFirst(s, p);
    }
    if s != [] && InLanguage(s[1..], p[1..]) {
      FirstPiece(s, p, 1);
    }
  }

  lemma Literal(s: string, p: string)
    requires p != [] && p[0] != '?' && p[0] != '*'
    ensures InLanguage(s, p) <==> s != [] && s[0] == p[0] && InLanguage(s[1..], p[1..])
  {
    if InLanguage(s, p) {
      var k := CutFirst(s, p);
      assert s[..k][0] == p[0];
    }
    if s != [] && s[0] == p[0] && InLanguage(s[1..], p[1..]) {
      assert s[..1] == [p[0]];
      FirstPiece(s, p, 1);
    }
  }

  /** A star matches nothing, or one character and then a star again. */
  lemma Star(s: string, p: string)
    requires p != [] && p[0] == '*'
    ensures InLanguage(s, p) <==> InLanguage(s, p[1..]) || (s != [] && InLanguage(s[1..], p))
  {
    if InLanguage(s, p) {
      var k := CutFirst(s, p);
      if k == 0 {
        assert s[0..] == s;
      } else {
        assert s[1..][k - 1..] == s[k..];
        FirstPiece(s[1..], p, k - 1);
      }
    }
    if InLanguage(s, p[1..]) {
      assert s[0..] == s;
      FirstPiece(s, p, 0);
    }
    if s != [] && InLanguage(s[1..], p) {
      var k := CutFirst(s[1..], p);
      assert s[1..][k..] == s[k + 1..];
      FirstPiece(s, p, k + 1);
    }
  }

  /** The matcher terminates on every string and pattern and decides the language of the pattern. */
  method WildCardMatch(str: string, pattern: string) returns (matched: bool)
    ensures matched <==> InLanguage(str, pattern)
    decreases |str| + |pattern|
  {
    var s, p := str, pattern;
    while p != []
      invariant |s| + |p| <= |str| + |pattern|
      invariant InLanguage(str, pattern) <==> InLanguage(s, p)
      decreases |p|
    {
      if p[0] == '?' {
        QuestionMark(s, p);
        if s == [] {
          return false;
        }
        s, p := s[1..], p[1..];
      } else if p[0] == '*' {
        Star(s, p);
        var skip := WildCardMatch(s, p[1..]);
        if skip {
          return true;
        }
        if s != [] {
          var more := WildCardMatch(s[1..], p);
          if more {
            return true;
          }
        }
        return false;
      } else {
        Literal(s, p);
        if s == [] || s[0] != p[0] {
          return false;
        }
        s, p := s[1..], p[1..];
      }
    }
    InLanguageEmpty(s);
    return s == [];
  }
}
