/**
 * The login derivation of backend/seedAllDepartments.js:29-38: a department's
 * display name becomes the stem of its seeded email address and password by
 * blanking every character outside [a-zA-Z0-9], splitting on single spaces,
 * dropping empty pieces, joining and lower-casing.
 */
module Seed {
  import opened Text

  const EMAIL_DOMAIN: string := "@gmail.com"
  const PASSWORD_SUFFIX: string := "@123"

  predicate IsAlnum(c: char) {
    ('a' <= c <= 'z') || ('A' <= c <= 'Z') || ('0' <= c <= '9')
  }

  predicate AllAlnum(s: string) {
    forall i :: 0 <= i < |s| ==> IsAlnum(s[i])
  }

  predicate IsLowerAlnum(c: char) {
    ('a' <= c <= 'z') || ('0' <= c <= '9')
  }

  /** name.replace(/[^a-zA-Z0-9]/g, " ") */
  function BlankNonAlnum(s: string): (r: string)
    ensures |r| == |s| && forall i :: 0 <= i < |s| ==> r[i] == if IsAlnum(s[i]) then s[i] else ' '
  {
    seq(|s|, i requires 0 <= i < |s| => if IsAlnum(s[i]) then s[i] else ' ')
  }

  /** .split(" "): the pieces between single spaces, empty ones included. */
  function SplitOnSpace(s: string): (parts: seq<string>)
    ensures |parts| >= 1
    ensures forall k :: 0 <= k < |parts| ==> ' ' !in parts[k]
  {
    if s == [] then [""]
    else
      var rest := SplitOnSpace(s[1..]);
      if s[0] == ' ' then [""] + rest else [[s[0]] + rest[0]] + rest[1..]
  }

  /** .filter(Boolean): exactly the non-empty pieces, in order. */
  function NonEmpty(parts: seq<string>): (kept: seq<string>)
    ensures |kept| <= |parts|
    ensures forall p :: p in kept <==> p in parts && p != ""
  {
    if parts == [] then [] else (if parts[0] == "" then [] else [parts[0]]) + NonEmpty(parts[1..])
  }

  /** .join(""): pieces without a space join into a string without a space. */
  function Join(parts: seq<string>): (s: string)
    ensures (forall k :: 0 <= k < |parts| ==> ' ' !in parts[k]) ==> ' ' !in s
  {
    if parts == [] then "" else parts[0] + Join(parts[1..])
  }

  /**
   * The part the email and the password share: only lower-case letters and
   * digits, never longer than the name.
   */
  function Stem(name: string): (stem: string)
    ensures |stem| <= |name|
    ensures forall i :: 0 <= i < |stem| ==> IsLowerAlnum(stem[i])
  {
    SplitJoinDropsSpaces(BlankNonAlnum(name));
    DropSpacesOfBlanked(name);
    Lower(Join(NonEmpty(SplitOnSpace(BlankNonAlnum(name)))))
  }

  /** makeEmailFromName: the stem, then the one '@' of the address. */
  function MakeEmailFromName(name: string): (email: string)
    ensures |email| == |Stem(name)| + |EMAIL_DOMAIN|
    ensures forall i :: 0 <= i < |email| ==> (email[i] == '@' <==> i == |Stem(name)|)
  {
    Stem(name) + EMAIL_DOMAIN
  }

  /** makePasswordFromName: the stem, then the one '@' of the suffix. */
  function MakePasswordFromName(name: string): (password: string)
    ensures |password| == |Stem(name)| + |PASSWORD_SUFFIX|
    ensures forall i :: 0 <= i < |password| ==> (password[i] == '@' <==> i == |Stem(name)|)
  {
    Stem(name) + PASSWORD_SUFFIX
  }

  /** The reference reading: keep the ASCII letters and digits, drop everything else. */
  function KeepAlnum(s: string): (r: string)
    ensures |r| <= |s| && AllAlnum(r)
  {
    if s == [] then "" else (if IsAlnum(s[0]) then [s[0]] else "") + KeepAlnum(s[1..])
  }

  function DropSpaces(s: string): string {
    if s == [] then "" else (if s[0] == ' ' then "" else [s[0]]) + DropSpaces(s[1..])
  }

  /** Splitting on spaces, dropping the empty pieces and joining just removes the spaces. */
  lemma {:induction false} SplitJoinDropsSpaces(s: string)
    ensures Join(NonEmpty(SplitOnSpace(s))) == DropSpaces(s)
  {
    if s != [] {
      var rest := SplitOnSpace(s[1..]);
      SplitJoinDropsSpaces(s[1..]);
      JoinNonEmptyHead(rest);
      if s[0] == ' ' {
        var parts := [""] + rest;
        assert SplitOnSpace(s) == parts;
        assert parts[1..] == rest;
        assert NonEmpty(parts) == NonEmpty(rest);
      } else {
        var head := [s[0]] + rest[0];
        var parts := [head] + rest[1..];
        assert SplitOnSpace(s) == parts;
        assert parts[1..] == rest[1..];
        assert NonEmpty(parts) == [head] + NonEmpty(rest[1..]);
        assert ([head] + NonEmpty(rest[1..]))[1..] == NonEmpty(rest[1..]);
      }
    }
  }

  /** Joining the non-empty pieces: the first piece, then the rest. */
  lemma {:induction false} JoinNonEmptyHead(parts: seq<string>)
    requires parts != []
    ensures Join(NonEmpty(parts)) == parts[0] + Join(NonEmpty(parts[1..]))
  {
    var tail := NonEmpty(parts[1..]);
    if parts[0] == "" {
      assert NonEmpty(parts) == tail;
    } else {
      assert NonEmpty(parts) == [parts[0]] + tail;
      assert ([parts[0]] + tail)[1..] == tail;
      assert Join([parts[0]] + tail) == parts[0] + Join(tail);
    }
  }

  lemma {:induction false} DropSpacesOfBlanked(s: string)
    ensures DropSpaces(BlankNonAlnum(s)) == KeepAlnum(s)
  {
    if s != [] {
      assert BlankNonAlnum(s)[1..] == BlankNonAlnum(s[1..]);
      DropSpacesOfBlanked(s[1..]);
    }
  }

  /** The stem is the lower-cased letters and digits of the name, in order. */
  lemma StemIsLowerAlnum(name: string)
    ensures Stem(name) == Lower(KeepAlnum(name))
  {
    SplitJoinDropsSpaces(BlankNonAlnum(name));
    DropSpacesOfBlanked(name);
  }

  /** A stem is its own stem, so deriving twice changes nothing. */
  lemma StemIdempotent(name: string)
    ensures Stem(Stem(name)) == Stem(name)
  {
    var s := Stem(name);
    StemIsLowerAlnum(name);
    StemIsLowerAlnum(s);
    KeepAlnumOfLetters(s);
  }

  /** The email and the password differ only in what follows the shared stem. */
  lemma EmailAndPasswordShareStem(name: string)
    ensures StartsWith(MakeEmailFromName(name), Stem(name)) && StartsWith(MakePasswordFromName(name), Stem(name))
    ensures forall i :: 0 <= i < |Stem(name)| ==> IsLowerAlnum(MakeEmailFromName(name)[i])
  {
    StemIsLowerAlnum(name);
    assert MakeEmailFromName(name)[..|Stem(name)|] == Stem(name);
    assert MakePasswordFromName(name)[..|Stem(name)|] == Stem(name);
  }

  lemma {:induction false} KeepAlnumOfLetters(s: string)
    requires AllAlnum(s)
    ensures KeepAlnum(s) == s
  {
    if s != [] {
      KeepAlnumOfLetters(s[1..]);
    }
  }

  lemma {:induction false} KeepAlnumConcat(a: string, b: string)
    ensures KeepAlnum(a + b) == KeepAlnum(a) + KeepAlnum(b)
  {
    if a == [] {
      assert a + b == b;
    } else {
      var ab := a + b;
      assert ab[0] == a[0];
      assert ab[1..] == a[1..] + b;
      KeepAlnumConcat(a[1..], b);
      assert KeepAlnum(ab) == (if IsAlnum(a[0]) then [a[0]] else "") + KeepAlnum(a[1..] + b);
    }
  }

  /** Two words of letters around a separator with no letters or digits keep just the words. */
  lemma KeepAlnumAroundSeparator(a: string, sep: string, b: string)
    requires AllAlnum(a) && AllAlnum(b)
    requires KeepAlnum(sep) == ""
    ensures KeepAlnum(a + sep + b) == a + b
  {
    var tail := sep + b;
    assert a + sep + b == a + tail;
    KeepAlnumConcat(sep, b);
    KeepAlnumOfLetters(b);
    assert KeepAlnum(tail) == b;
    KeepAlnumConcat(a, tail);
    KeepAlnumOfLetters(a);
    assert KeepAlnum(a + tail) == a + b;
  }

  lemma KeepAlnumRoads(name: string)
    requires name == "Roads & Infrastructure"
    ensures KeepAlnum(name) == "RoadsInfrastructure"
  {
    RoadsPieces(name);
    var roads, sep, infra := name[..5], name[5..8], name[8..];
    assert name == roads + sep + infra;
    WordIsAlnum(roads);
    WordIsAlnum(infra);
    KeepAlnumOfSeparator(sep);
    KeepAlnumAroundSeparator(roads, sep, infra);
    JoinedWords(roads, infra);
  }

  /** The three pieces of "Roads & Infrastructure". */
  lemma RoadsPieces(name: string)
    requires name == "Roads & Infrastructure"
    ensures name[..5] == "Roads" && name[5..8] == " & " && name[8..] == "Infrastructure"
  {
  }

  lemma JoinedWords(roads: string, infra: string)
    requires roads == "Roads" && infra == "Infrastructure"
    ensures roads + infra == "RoadsInfrastructure"
  {
  }

  lemma WordIsAlnum(w: string)
    requires w == "Roads" || w == "Infrastructure"
    ensures AllAlnum(w)
  {
  }

  lemma KeepAlnumOfSeparator(sep: string)
    requires sep == " & "
    ensures KeepAlnum(sep) == ""
  {
    assert !IsAlnum(sep[0]) && !IsAlnum(sep[1]) && !IsAlnum(sep[2]);
    assert KeepAlnum(sep[2..]) == KeepAlnum(sep[3..]);
    assert KeepAlnum(sep[1..]) == KeepAlnum(sep[2..]);
    assert KeepAlnum(sep) == KeepAlnum(sep[1..]);
  }

  /** "Roads & Infrastructure" logs in as roadsinfrastructure@gmail.com with password roadsinfrastructure@123. */
  lemma RoadsCredentials(name: string)
    requires name == "Roads & Infrastructure"
    ensures MakeEmailFromName(name) == "roadsinfrastructure@gmail.com"
    ensures MakePasswordFromName(name) == "roadsinfrastructure@123"
  {
    StemIsLowerAlnum(name);
    KeepAlnumRoads(name);
    assert Lower("RoadsInfrastructure") == "roadsinfrastructure";
  }
}
