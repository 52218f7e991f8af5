/**
 * The file-name cleaner both image scripts use: the characters a file system may reject are
 * dropped, then every space becomes an underscore.
 */
module FileNames {
  import opened Seqs

  /** The characters of the pattern `[<>:"/\\|?*]`. */
  const Forbidden: set<char> := {'<', '>', ':', '\"', '/', '\\', '|', '?', '*'}

  /** The characters a cleaned name keeps. */
  predicate Allowed(c: char) {
    c !in Forbidden
  }

  /** `s.replace(' ', '_')`. */
  function Underscore(s: string): (r: string)
    ensures |r| == |s|
    ensures forall i :: 0 <= i < |s| ==> r[i] == if s[i] == ' ' then '_' else s[i]
  {
    if s == [] then [] else [if s[0] == ' ' then '_' else s[0]] + Underscore(s[1..])
  }

  /** `sanitize_filename`: the forbidden characters go, then the spaces become underscores. */
  function Sanitize(name: string): (r: string)
    ensures |r| <= |name|
    ensures forall i :: 0 <= i < |r| ==> r[i] !in Forbidden && r[i] != ' '
  {
    Underscore(Filter(name, Allowed))
  }

  /** A name that is already clean comes back unchanged. */
  lemma {:induction false} CleanNameUnchanged(name: string)
    requires forall i :: 0 <= i < |name| ==> name[i] !in Forbidden && name[i] != ' '
    ensures Sanitize(name) == name
    decreases |name|
  {
    if name != [] {
      CleanNameUnchanged(name[1..]);
      assert Filter(name, Allowed) == [name[0]] + Filter(name[1..], Allowed);
    }
  }

  /** Cleaning twice is cleaning once. */
  lemma SanitizeIdempotent(name: string)
    ensures Sanitize(Sanitize(name)) == Sanitize(name)
  {
    CleanNameUnchanged(Sanitize(name));
  }

  /** How many characters of `s` lie in `cs`. */
  function CountIn(s: string, cs: set<char>): nat {
    if s == [] then 0 else (if s[0] in cs then 1 else 0) + CountIn(s[1..], cs)
  }

  /** Exactly the forbidden characters are lost: spaces are replaced, not removed. */
  lemma {:induction false} SanitizeLength(name: string)
    ensures |Sanitize(name)| == |name| - CountIn(name, Forbidden)
    decreases |name|
  {
    if name != [] {
      SanitizeLength(name[1..]);
      if Allowed(name[0]) {
        assert Filter(name, Allowed) == [name[0]] + Filter(name[1..], Allowed);
      } else {
        assert Filter(name, Allowed) == Filter(name[1..], Allowed);
      }
    }
  }

  /** Replacing spaces one character at a time. */
  lemma UnderscoreCons(c: char, x: string)
    ensures Underscore([c] + x) == [if c == ' ' then '_' else c] + Underscore(x)
  {
    assert ([c] + x)[1..] == x;
  }

  /** Cleaning one character at a time. */
  lemma FilterCons(c: char, x: string)
    ensures Filter([c] + x, Allowed) == if Allowed(c) then [c] + Filter(x, Allowed) else Filter(x, Allowed)
  {
    assert ([c] + x)[0] == c && ([c] + x)[1..] == x;
  }

  /** Replacing spaces and dropping forbidden characters commute: neither touches the other's characters. */
  lemma {:induction false} UnderscoreFilterCommute(s: string)
    ensures Underscore(Filter(s, Allowed)) == Filter(Underscore(s), Allowed)
    decreases |s|
  {
    if s != [] {
      var c := if s[0] == ' ' then '_' else s[0];
      var rest := s[1..];
      assert s == [s[0]] + rest;
      assert Allowed(c) <==> Allowed(s[0]);
      UnderscoreFilterCommute(rest);
      UnderscoreCons(s[0], rest);
      FilterCons(s[0], rest);
      FilterCons(c, Underscore(rest));
      var lhs := Underscore(Filter(s, Allowed));
      var rhs := Filter(Underscore(s), Allowed);
      assert rhs == Filter([c] + Underscore(rest), Allowed);
      if Allowed(s[0]) {
        UnderscoreCons(s[0], Filter(rest, Allowed));
        assert lhs == [c] + Underscore(Filter(rest, Allowed));
        assert rhs == [c] + Filter(Underscore(rest), Allowed);
      } else {
        assert lhs == Underscore(Filter(rest, Allowed));
        assert rhs == Filter(Underscore(rest), Allowed);
      }
    }
  }

  /** The cleaned name keeps the order of what it keeps: it is a subsequence of the name with underscores for spaces. */
  lemma SanitizeKeepsOrder(name: string)
    ensures IsSubsequence(Sanitize(name), Underscore(name))
  {
    UnderscoreFilterCommute(name);
    FilterIsSubsequence(Underscore(name), Allowed);
  }

  /** A name without forbidden characters only has its spaces replaced. */
  lemma NothingForbidden(name: string)
    requires forall i :: 0 <= i < |name| ==> name[i] !in Forbidden
    ensures Sanitize(name) == Underscore(name)
  {
    FilterKeepsAll(name, Allowed);
  }

  /** The space of "a b" becomes an underscore. */
  lemma UnderscoreOfSpaced()
    ensures Underscore("a b") == "a_b"
  {
    assert Underscore("b") == "b";
    assert " b" == [' '] + "b";
    UnderscoreCons(' ', "b");
    assert "a b" == ['a'] + " b";
    UnderscoreCons('a', " b");
  }

  /** Different names can share a file: a space and an underscore clean alike. */
  lemma SpaceAndUnderscoreCollide()
    ensures Sanitize("a b") == Sanitize("a_b") == "a_b"
  {
    CleanNameUnchanged("a_b");
    NothingForbidden("a b");
    UnderscoreOfSpaced();
  }

  /** Different names can share a file: a forbidden character vanishes. */
  lemma ForbiddenCharVanishes()
    ensures Sanitize("a?b") == Sanitize("ab") == "ab"
  {
    CleanNameUnchanged("ab");
    var f := Filter("a?b", Allowed);
    assert f == ['a'] + Filter("?b", Allowed) by { assert "a?b"[1..] == "?b"; }
    assert Filter("?b", Allowed) == Filter("b", Allowed) by { assert "?b"[1..] == "b"; }
    assert Filter("b", Allowed) == "b" by { assert "b"[1..] == []; }
    assert Underscore("ab") == "ab";
  }
}
