/**
 The two pure helpers of the folder watcher: the file-name filter
 (the case-insensitive regular expression `\.pdf$`) and the step that makes a
 normalised folder path end in the platform's path separator.
 */
module FilePattern {

  /** ASCII upper-to-lower case mapping; every other character is kept. */
  function LowerAscii(c: char): char
  {
    if 'A' <= c <= 'Z' then (c as int + 32) as char else c
  }

  /** Lower-cases a string character by character. */
  function Lower(s: string): string
  {
    seq(|s|, i requires 0 <= i < |s| => LowerAscii(s[i]))
  }

  /**
   The filter `/\.pdf$/i`: the name ends in a dot followed by p, d, f in
   either case. The regular expression has no `u` flag, so case folding is
   the ASCII one: no other character folds onto p, d or f, and `$` (without
   the `m` flag) anchors at the very end of the name.
   */
  predicate IsPdfName(name: string)
  {
    && |name| >= 4
    && name[|name| - 4] == '.'
    && (name[|name| - 3] == 'p' || name[|name| - 3] == 'P')
    && (name[|name| - 2] == 'd' || name[|name| - 2] == 'D')
    && (name[|name| - 1] == 'f' || name[|name| - 1] == 'F')
  }

  /** The filter agrees with a case-insensitive comparison of the last four characters with ".pdf". */
  lemma PdfNameIsCaseInsensitiveSuffix(name: string)
    ensures IsPdfName(name) <==> |name| >= 4 && Lower(name[|name| - 4..]) == ".pdf"
  {
    if |name| >= 4 {
      var low := Lower(name[|name| - 4..]);
      assert |low| == 4;
      assert forall i :: 0 <= i < 4 ==> low[i] == LowerAscii(name[|name| - 4 + i]);
      if low == ".pdf" {
        assert low[0] == '.' && low[1] == 'p' && low[2] == 'd' && low[3] == 'f';
      }
      if IsPdfName(name) {
        assert low == ".pdf";
      }
    }
  }

  /** Only the last four characters decide: whatever precedes them is irrelevant. */
  lemma OnlyExtensionMatters(stem: string, ext: string)
    requires |ext| == 4
    ensures IsPdfName(stem + ext) <==> IsPdfName(ext)
  {
  }

  /** Names from the folder-watching scenarios, decided by the filter. */
  lemma FilterExamples()
    ensures IsPdfName("new.pdf") && IsPdfName("Scan.PDF") && IsPdfName(".pdf")
    ensures !IsPdfName("notes.txt") && !IsPdfName("a.pdf.txt") && !IsPdfName("pdf") && !IsPdfName("xpdf")
  {
  }

  predicate EndsWithSep(path: string, sep: char)
  {
    |path| > 0 && path[|path| - 1] == sep
  }

  /**
   The directory-like form of an already normalised path: it is returned
   unchanged when it ends in the separator, otherwise the separator is
   appended (joining a normalised path with the separator does just that).
   */
  function WithTrailingSep(path: string, sep: char): (r: string)
    ensures EndsWithSep(r, sep)
    ensures |path| <= |r| <= |path| + 1 && r[..|path|] == path
    ensures EndsWithSep(path, sep) ==> r == path
  {
    if EndsWithSep(path, sep) then path else path + [sep]
  }

  /** Normalising twice is normalising once. */
  lemma WithTrailingSepIdempotent(path: string, sep: char)
    ensures WithTrailingSep(WithTrailingSep(path, sep), sep) == WithTrailingSep(path, sep)
  {
  }
}
