/** The suggested download filename: `VideoProcessor._get_filename_from_url`. */
module Filename {

  const EXTENSION := ".mp4"
  /** The title used when the extractor's record has no title. */
  const DEFAULT_TITLE := "video"
  /** The filename returned when the title lookup raises. */
  const FALLBACK_FILENAME := "downloaded_video.mp4"

  /**
   * What the title lookup produced: it raised (any exception, caught by the bare `except`),
   * or it returned a record without a title, or with the given title.
   */
  datatype TitleLookup = LookupRaised | TitleAbsent | Title(title: string)

  /**
   * The characters the sanitiser keeps. `isAlnum` stands for Python's Unicode-aware
   * `str.isalnum`; the model holds for every such character class.
   */
  predicate Kept(isAlnum: char -> bool, c: char)
  {
    isAlnum(c) || c == ' ' || c == '-' || c == '_'
  }

  predicate AllKept(isAlnum: char -> bool, s: string)
  {
    forall i :: 0 <= i < |s| ==> Kept(isAlnum, s[i])
  }

  /** The comprehension: the characters of `s` that are kept, in order. */
  function KeepSafe(isAlnum: char -> bool, s: string): string
  {
    if s == [] then []
    else (if Kept(isAlnum, s[0]) then [s[0]] else []) + KeepSafe(isAlnum, s[1..])
  }

  /**
   * `rstrip()`: drops trailing spaces. A space is the only whitespace the filter lets through,
   * since no alphanumeric character is whitespace.
   */
  function RStrip(s: string): (r: string)
    ensures |r| <= |s| && r == s[..|r|]
    ensures r == [] || r[|r| - 1] != ' '
    ensures forall i :: |r| <= i < |s| ==> s[i] == ' '
  {
    if s != [] && s[|s| - 1] == ' ' then RStrip(s[..|s| - 1]) else s
  }

  /** The sanitised stem of a title. */
  function SafeTitle(isAlnum: char -> bool, title: string): string
  {
    RStrip(KeepSafe(isAlnum, title))
  }

  /** The filename suggested for a download, given what the title lookup produced. It never raises. */
  function FilenameFromLookup(isAlnum: char -> bool, lookup: TitleLookup): (r: string)
    ensures |r| >= |EXTENSION| && r[|r| - |EXTENSION|..] == EXTENSION
    ensures lookup.LookupRaised? ==> r == FALLBACK_FILENAME
    ensures lookup.Title? ==> r[..|r| - |EXTENSION|] == SafeTitle(isAlnum, lookup.title)
  {
    match lookup
    case LookupRaised => FALLBACK_FILENAME
    case TitleAbsent => SafeTitle(isAlnum, DEFAULT_TITLE) + EXTENSION
    case Title(t) => SafeTitle(isAlnum, t) + EXTENSION
  }

  /** `a` can be obtained from `b` by deleting characters. */
  ghost predicate IsSubsequence(a: string, b: string)
    decreases |b|
  {
    a == [] || (b != [] && ((a[0] == b[0] && IsSubsequence(a[1..], b[1..])) || IsSubsequence(a, b[1..])))
  }

  /** ASCII letters and digits, on which Python's `str.isalnum` is true; used by the worked examples. */
  predicate AsciiAlnum(c: char)
  {
    'a' <= c <= 'z' || 'A' <= c <= 'Z' || '0' <= c <= '9'
  }

  // ----- Properties -----

  /** The filter keeps only kept characters. */
  lemma {:induction false} KeepSafeKept(isAlnum: char -> bool, s: string)
    ensures AllKept(isAlnum, KeepSafe(isAlnum, s)) && |KeepSafe(isAlnum, s)| <= |s|
  {
    if s != [] {
      KeepSafeKept(isAlnum, s[1..]);
    }
  }

  /** The stem holds only kept characters and never ends with a space. */
  lemma SafeTitleCharacters(isAlnum: char -> bool, title: string)
    ensures AllKept(isAlnum, SafeTitle(isAlnum, title))
    ensures SafeTitle(isAlnum, title) == [] || SafeTitle(isAlnum, title)[|SafeTitle(isAlnum, title)| - 1] != ' '
  {
    var k := KeepSafe(isAlnum, title);
    var r := RStrip(k);
    KeepSafeKept(isAlnum, title);
    forall i | 0 <= i < |r| ensures Kept(isAlnum, r[i]) {
      assert r[i] == k[i];
    }
  }

  /**
   * The stem is the kept characters with the trailing spaces removed: what the filter keeps
   * is the stem followed by spaces only.
   */
  lemma SafeTitleShape(isAlnum: char -> bool, title: string)
    ensures var k, r := KeepSafe(isAlnum, title), SafeTitle(isAlnum, title);
      |r| <= |k| && k == r + k[|r|..] && forall i :: |r| <= i < |k| ==> k[i] == ' '
  {
  }

  lemma {:induction false} KeepSafeSubsequence(isAlnum: char -> bool, s: string)
    ensures IsSubsequence(KeepSafe(isAlnum, s), s)
  {
    if s != [] {
      KeepSafeSubsequence(isAlnum, s[1..]);
      var rest := KeepSafe(isAlnum, s[1..]);
      if Kept(isAlnum, s[0]) {
        var k := KeepSafe(isAlnum, s);
        assert k == [s[0]] + rest;
        assert k[1..] == rest;
      } else {
        assert KeepSafe(isAlnum, s) == rest;
      }
    }
  }

  lemma {:induction false} PrefixSubsequence(a: string, n: nat, b: string)
    requires IsSubsequence(a, b) && n <= |a|
    ensures IsSubsequence(a[..n], b)
    decreases |b|
  {
    if n > 0 {
      if a[0] == b[0] && IsSubsequence(a[1..], b[1..]) {
        PrefixSubsequence(a[1..], n - 1, b[1..]);
        assert a[..n][1..] == a[1..][..n - 1];
      } else {
        PrefixSubsequence(a, n, b[1..]);
      }
    }
  }

  /** The stem is obtained from the title by deleting characters. */
  lemma SafeTitleSubsequence(isAlnum: char -> bool, title: string)
    ensures IsSubsequence(SafeTitle(isAlnum, title), title)
  {
    var k := KeepSafe(isAlnum, title);
    KeepSafeSubsequence(isAlnum, title);
    PrefixSubsequence(k, |RStrip(k)|, title);
  }

  lemma {:induction false} KeepSafeOfKept(isAlnum: char -> bool, s: string)
    requires AllKept(isAlnum, s)
    ensures KeepSafe(isAlnum, s) == s
  {
    if s != [] {
      KeepSafeOfKept(isAlnum, s[1..]);
      assert [s[0]] + s[1..] == s;
    }
  }

  /** Sanitising an already sanitised stem leaves it unchanged. */
  lemma SafeTitleIdempotent(isAlnum: char -> bool, title: string)
    ensures SafeTitle(isAlnum, SafeTitle(isAlnum, title)) == SafeTitle(isAlnum, title)
  {
    var r := SafeTitle(isAlnum, title);
    SafeTitleCharacters(isAlnum, title);
    KeepSafeOfKept(isAlnum, r);
  }

  /**
   * The stem of the name given for a title holds only kept characters, is a subsequence of
   * the title and does not end in a space.
   */
  lemma FilenameStem(isAlnum: char -> bool, title: string)
    ensures var r := FilenameFromLookup(isAlnum, Title(title));
      var stem := r[..|r| - |EXTENSION|];
      AllKept(isAlnum, stem) && IsSubsequence(stem, title) && (stem == [] || stem[|stem| - 1] != ' ')
  {
    SafeTitleCharacters(isAlnum, title);
    SafeTitleSubsequence(isAlnum, title);
  }

  /** A video without a title is saved as "video.mp4" (all of "video" survives the filter). */
  lemma FilenameDefaultTitle(isAlnum: char -> bool)
    requires AllKept(isAlnum, DEFAULT_TITLE)
    ensures FilenameFromLookup(isAlnum, TitleAbsent) == "video.mp4"
  {
    KeepSafeOfKept(isAlnum, DEFAULT_TITLE);
  }

  /**
   * Punctuation other than space, hyphen and underscore is dropped: the title
   * "Cool Video! #1 (Official)" gives "Cool Video 1 Official.mp4". The title is written as
   * five pieces of at most five characters, because the solver evaluates the filter on a
   * string literal character by character and a long literal exceeds its budget; each
   * piece is evaluated in a lemma of its own and the pieces are joined by `KeepSafeConcat`.
   */
  lemma FilenameExample()
    ensures FilenameFromLookup(AsciiAlnum, Title("Cool " + "Video" + "! #1 " + "(Offi" + "cial)"))
         == "Cool " + "Video" + " 1 " + "Offi" + "cial" + ".mp4"
  {
    ExampleKept("Cool ", "Video", "! #1 ", "(Offi", "cial)");
  }

  lemma ExampleKept(a: string, b: string, c: string, d: string, e: string)
    requires a == "Cool " && b == "Video" && c == "! #1 " && d == "(Offi" && e == "cial)"
    ensures KeepSafe(AsciiAlnum, a + b + c + d + e) == "Cool " + "Video" + " 1 " + "Offi" + "cial"
  {
    KeepSafeConcat(AsciiAlnum, a + b + c + d, e);
    KeepSafeConcat(AsciiAlnum, a + b + c, d);
    KeepSafeConcat(AsciiAlnum, a + b, c);
    KeepSafeConcat(AsciiAlnum, a, b);
    PieceCool();
    PieceVideo();
    PieceOne();
    PieceOffi();
    PieceCial();
  }

  // The pieces are evaluated one per lemma, which keeps each evaluation small.
  lemma PieceCool() ensures KeepSafe(AsciiAlnum, "Cool ") == "Cool " {}
  lemma PieceVideo() ensures KeepSafe(AsciiAlnum, "Video") == "Video" {}
  lemma PieceOne() ensures KeepSafe(AsciiAlnum, "! #1 ") == " 1 " {}
  lemma PieceOffi() ensures KeepSafe(AsciiAlnum, "(Offi") == "Offi" {}
  lemma PieceCial() ensures KeepSafe(AsciiAlnum, "cial)") == "cial" {}

  /** A title with no kept character gives the bare extension, not a fallback name. */
  lemma FilenameEdgeExample()
    ensures FilenameFromLookup(AsciiAlnum, Title("!!!")) == ".mp4"
  {
    assert KeepSafe(AsciiAlnum, "!!!") == "";
  }

  lemma {:induction false} KeepSafeConcat(isAlnum: char -> bool, a: string, b: string)
    ensures KeepSafe(isAlnum, a + b) == KeepSafe(isAlnum, a) + KeepSafe(isAlnum, b)
  {
    if a == [] {
      assert a + b == b;
    } else {
      var head := if Kept(isAlnum, a[0]) then [a[0]] else [];
      assert (a + b)[0] == a[0] && (a + b)[1..] == a[1..] + b;
      assert KeepSafe(isAlnum, a + b) == head + KeepSafe(isAlnum, a[1..] + b);
      KeepSafeConcat(isAlnum, a[1..], b);
      assert KeepSafe(isAlnum, a) == head + KeepSafe(isAlnum, a[1..]);
    }
  }
}
