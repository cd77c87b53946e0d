/**
 * The page's module-level state and the handlers that change it: the
 * current chapter number, the list of generated files, and the three page
 * elements the handlers write (the chapter-number input, the "next chapter"
 * label and the content text area).
 */
module ChapterTool {
  import opened Wrappers
  import opened Lines
  import opened DocxLayout
  import opened Chapters
  import opened FileList

  /** What `processChapter` reports through its toast. */
  datatype ProcessOutcome = EmptyContent | Created(docName: string)

  /** A file as `processChapter` builds it: named, titled and numbered after its chapter. */
  ghost predicate FileFitsChapter(f: GeneratedFile)
  {
    && f.chapterNum >= 1
    && f.name == ChapterFileName(f.chapterNum)
    && WellFormed(f.doc)
    && TitleOf(f.doc) == ChapterTitle(f.chapterNum)
  }

  /** The file `processChapter` appends for chapter `n`, content `text` and id `id`. */
  function NewFile(id: int, n: nat, text: string): GeneratedFile
  {
    GeneratedFile(id, ChapterFileName(n), Layout(text, ChapterTitle(n)), n)
  }

  /** A file built by `processChapter` fits its chapter. */
  lemma NewFileFits(id: int, n: nat, text: string)
    requires n >= 1
    ensures FileFitsChapter(NewFile(id, n, text))
  {
    LayoutRoundTrip(text, ChapterTitle(n));
  }

  class Session {
    var currentChapterNumber: int
    var generatedFiles: seq<GeneratedFile>
    /** The value shown in the chapter-number input. */
    var chapterInputValue: int
    /** The number shown in the "next chapter" label. */
    var nextChapterLabel: int
    /** The text in the content text area. */
    var contentInput: string

    /**
     * The chapter number is at least 1, both displays agree with it, and
     * every generated file carries the name and title of its own chapter.
     */
    ghost predicate Valid()
      reads this
    {
      && currentChapterNumber >= 1
      && chapterInputValue == currentChapterNumber
      && nextChapterLabel == currentChapterNumber + 1
      && forall k :: 0 <= k < |generatedFiles| ==> FileFitsChapter(generatedFiles[k])
    }

    /** Page load: chapter 1, no files, and the displays brought up to date. */
    constructor (initialContent: string)
      ensures Valid()
      ensures currentChapterNumber == 1 && generatedFiles == [] && contentInput == initialContent
    {
      currentChapterNumber := 1;
      generatedFiles := [];
      contentInput := initialContent;
      new;
      UpdateUIState();
    }

    /** `updateUIState`: shows the current number and, as the next chapter, one more. */
    method UpdateUIState()
      modifies this`chapterInputValue, this`nextChapterLabel
      ensures chapterInputValue == currentChapterNumber
      ensures nextChapterLabel == currentChapterNumber + 1
    {
      chapterInputValue := currentChapterNumber;
      nextChapterLabel := currentChapterNumber + 1;
    }

    /** The user edits the content text area. */
    method EditContent(text: string)
      requires Valid()
      modifies this`contentInput
      ensures Valid() && contentInput == text
    {
      contentInput := text;
    }

    /**
     * The chapter-number input's change handler; `parsed` is what
     * `parseInt` made of the entry (`None` for `NaN`).
     */
    method ChangeChapterInput(parsed: Option<int>)
      requires Valid()
      modifies this
      ensures Valid()
      ensures currentChapterNumber == ClampChapterInput(parsed)
      ensures generatedFiles == old(generatedFiles) && contentInput == old(contentInput)
    {
      var val := ClampChapterInput(parsed);
      currentChapterNumber := val;
      UpdateUIState();
    }

    /**
     * `processChapter(clearAfter)`. Blank content is refused and nothing
     * changes. Otherwise one file for the current chapter is appended, with
     * `id` standing for the `Date.now()` reading, the chapter number moves
     * on by one, and the text area is emptied when `clearAfter` is set.
     */
    method ProcessChapter(clearAfter: bool, id: int) returns (outcome: ProcessOutcome)
      requires Valid()
      modifies this
      ensures Valid()
      ensures IsBlank(old(contentInput)) ==> outcome == EmptyContent
      ensures IsBlank(old(contentInput)) ==>
                && currentChapterNumber == old(currentChapterNumber)
                && generatedFiles == old(generatedFiles)
                && contentInput == old(contentInput)
      ensures !IsBlank(old(contentInput)) ==>
                && outcome == Created(ChapterFileName(old(currentChapterNumber)))
                && generatedFiles == old(generatedFiles) + [NewFile(id, old(currentChapterNumber), old(contentInput))]
                && currentChapterNumber == old(currentChapterNumber) + 1
                && contentInput == (if clearAfter then [] else old(contentInput))
    {
      var text := contentInput;
      // `!text.trim()`, which TrimEmptyIffBlank shows is IsBlank(text)
      if IsBlank(text) {
        return EmptyContent;
      }
      var n := currentChapterNumber;
      var docName := ChapterFileName(n);
      var file := GeneratedFile(id, docName, Layout(text, ChapterTitle(n)), n);
      NewFileFits(id, n, text);
      generatedFiles := generatedFiles + [file];
      currentChapterNumber := currentChapterNumber + 1;
      UpdateUIState();
      if clearAfter {
        contentInput := [];
      }
      outcome := Created(docName);
    }

    /**
     * `resetChapterNumber`; `confirmed` is the answer to the confirmation
     * dialog. Generated files are kept either way.
     */
    method ResetChapterNumber(confirmed: bool)
      requires Valid()
      modifies this
      ensures Valid()
      ensures generatedFiles == old(generatedFiles) && contentInput == old(contentInput)
      ensures currentChapterNumber == if confirmed then 1 else old(currentChapterNumber)
    {
      if confirmed {
        currentChapterNumber := 1;
        UpdateUIState();
      }
    }
  }

  /**
   * Two chapters processed, the number reset, and one more processed: the
   * list keeps all three files, and the first and third share the name
   * `Chương 1.docx`.
   */
  method ResetKeepsFiles(first: string, second: string, third: string) returns (names: seq<string>)
    requires !IsBlank(first) && !IsBlank(second) && !IsBlank(third)
    ensures names == [ChapterFileName(1), ChapterFileName(2), ChapterFileName(1)]
    ensures names[0] == names[2] != names[1]
  {
    var page := new Session(first);
    var o1 := page.ProcessChapter(false, 1);
    page.EditContent(second);
    var o2 := page.ProcessChapter(false, 2);
    page.ResetChapterNumber(true);
    page.EditContent(third);
    var o3 := page.ProcessChapter(true, 3);
    names := [page.generatedFiles[0].name, page.generatedFiles[1].name, page.generatedFiles[2].name];
    ChapterFileNameInjective(1, 2);
  }
}
