/**
 * Chapter numbers as the page handles them: the clamping done by the
 * chapter-number input's change handler, and the title and file name a
 * chapter number is given.
 */
module Chapters {
  import opened Wrappers
  import opened Lines

  const TitlePrefix: string := "Chương "
  const FileExtension: string := ".docx"

  /** The heading text of chapter `n`: `Chương ${n}`. */
  function ChapterTitle(n: nat): string
  {
    TitlePrefix + NatToString(n)
  }

  /** The file name of chapter `n`: `Chương ${n}.docx`. */
  function ChapterFileName(n: nat): string
  {
    ChapterTitle(n) + FileExtension
  }

  /**
   * Reads a chapter number back out of a file name of the form
   * `Chương <digits>.docx` with no leading zero.
   */
  function ParseChapterFileName(name: string): Option<nat>
  {
    var p, e := |TitlePrefix|, |FileExtension|;
    if |name| <= p + e || name[..p] != TitlePrefix || name[|name| - e..] != FileExtension then None
    else
      var digits := name[p..|name| - e];
      if !IsDigits(digits) || (|digits| > 1 && digits[0] == '0') then None
      else Some(ParseDigits(digits))
  }

  /** The chapter number can be read back from the file name it was given. */
  lemma ParseChapterFileNameRoundTrip(n: nat)
    ensures ParseChapterFileName(ChapterFileName(n)) == Some(n)
  {
    var name := ChapterFileName(n);
    var p, e := |TitlePrefix|, |FileExtension|;
    assert name[..p] == TitlePrefix;
    assert name[p..|name| - e] == NatToString(n);
    ParseNatToString(n);
  }

  /** Two different chapter numbers never share a file name. */
  lemma ChapterFileNameInjective(n: nat, m: nat)
    ensures ChapterFileName(n) == ChapterFileName(m) <==> n == m
  {
    ParseChapterFileNameRoundTrip(n);
    ParseChapterFileNameRoundTrip(m);
  }

  /**
   * The chapter-number input's change handler: an unparsable entry (`NaN`,
   * here `None`) or a number below 1 becomes 1; any other number is kept.
   */
  function ClampChapterInput(parsed: Option<int>): (n: int)
    ensures n >= 1
    ensures parsed.Some? && parsed.value >= 1 ==> n == parsed.value
    ensures parsed.None? || parsed.value < 1 ==> n == 1
  {
    match parsed
    case None => 1
    case Some(v) => if v < 1 then 1 else v
  }

  /** Entering a value the handler produced leaves it as it is. */
  lemma ClampChapterInputIdempotent(parsed: Option<int>)
    ensures ClampChapterInput(Some(ClampChapterInput(parsed))) == ClampChapterInput(parsed)
  {
  }
}
