/** The batch processor: one object holding the discovered documents and the
    slide counter they share, with the browser given as an oracle. */
module Processor {
  import opened Naming
  import opened Scan
  import opened Protocol

  class SlideCaptureBatchProcessor {
    const sourceDir: string
    const outputBaseDir: string
    /** The documents found by the last scan, sorted by name. */
    var htmlFiles: seq<string>
    /** The number of the last slide attempted in the current batch. */
    var globalSlideCounter: nat

    /** The counter values of the images saved so far, in the order they
        were written; the image of value n is the file FileName(n). */
    ghost var saved: seq<nat>
    /** Pages opened by `new_page` and not yet closed; always the count
        the page log gives (PagesTracked). */
    ghost var openPages: nat
    /** Every `new_page` and `page.close()`, in order. */
    ghost var pageLog: seq<PageEvent>
    /** Whether the output directory has been created. */
    ghost var outputDirCreated: bool

    constructor (sourceDir: string, outputBaseDir: string)
      ensures this.sourceDir == sourceDir && this.outputBaseDir == outputBaseDir
      ensures htmlFiles == [] && globalSlideCounter == 0
      ensures saved == [] && openPages == 0 && pageLog == [] && !outputDirCreated
      ensures PagesTracked()
    {
      this.sourceDir := sourceDir;
      this.outputBaseDir := outputBaseDir;
      htmlFiles := [];
      globalSlideCounter := 0;
      saved := [];
      openPages := 0;
      pageLog := [];
      outputDirCreated := false;
    }

    /** The open-page count agrees with the opens and closes in the log. */
    ghost predicate PagesTracked()
      reads this
    {
      openPages == OpenPages(pageLog)
    }

    /** The names of the images saved so far, in the order they were written:
        the k-th is the file name of the k-th saved counter value. */
    ghost function Written(): (r: seq<string>)
      reads this
      ensures |r| == |saved|
      ensures forall k :: 0 <= k < |r| ==> r[k] == FileName(saved[k])
    {
      NamesEach(saved);
      Names(saved)
    }

    /** Replaces the document list with the sorted "*.html" entries of the
        source directory's listing; reports whether there are any. */
    method ScanHtmlFiles(listing: seq<string>) returns (found: bool)
      modifies this`htmlFiles
      ensures htmlFiles == SortNames(HtmlOnly(listing))
      ensures found <==> htmlFiles != []
      ensures found <==> exists i :: 0 <= i < |listing| && IsHtml(listing[i])
    {
      htmlFiles := SortNames(HtmlOnly(listing));
      ScanFindsHtml(listing);
      if htmlFiles == [] {
        return false;
      }
      return true;
    }

    /** Opens a page for the document, numbers its slides from the shared
        counter and saves one image per slide until a screenshot raises
        (SaveSlides), then closes the page on every path. Returns the images
        saved. */
    method CaptureSlidesFromFile(htmlFile: string, browser: Browser) returns (slidesCaptured: nat)
      requires PagesTracked()
      modifies this`globalSlideCounter, this`saved, this`openPages, this`pageLog
      ensures PagesTracked()
      ensures slidesCaptured == Captured(browser(htmlFile))
      ensures globalSlideCounter == old(globalSlideCounter) + Consumed(browser(htmlFile))
      ensures saved == old(saved) + Range(old(globalSlideCounter) + 1, slidesCaptured)
      ensures pageLog == old(pageLog) + [Opened(htmlFile), Closed(htmlFile)]
      ensures openPages == old(openPages)
    {
      // browser.new_page(...)
      ghost var log0 := pageLog;
      openPages := openPages + 1;
      pageLog := pageLog + [Opened(htmlFile)];
      slidesCaptured := 0;

      // goto, wait_for_timeout and locator(".slide").all()
      match browser(htmlFile) {
        case LoadFailed =>
          // the exception is caught; nothing was numbered
        case Loaded(slides) =>
          if |slides| == 0 {
            // `return 0`: the page is still closed below
          } else {
            slidesCaptured := SaveSlides(slides);
          }
      }

      // finally: page.close()
      openPages := openPages - 1;
      pageLog := pageLog + [Closed(htmlFile)];
      OpenThenClose(log0, htmlFile);
    }

    /** The slide loop: numbers each slide from the shared counter and saves
        its image, until a screenshot raises; that slide's number is spent
        and the remaining slides are abandoned. Returns the images saved. */
    method SaveSlides(slides: seq<Shot>) returns (slidesCaptured: nat)
      modifies this`globalSlideCounter, this`saved
      ensures slidesCaptured == LeadingSaved(slides)
      ensures globalSlideCounter == old(globalSlideCounter) + Consumed(Loaded(slides))
      ensures saved == old(saved) + Range(old(globalSlideCounter) + 1, slidesCaptured)
    {
      slidesCaptured := 0;
      var i := 0;
      var raised := false;
      while i < |slides| && !raised
        invariant i <= |slides|
        invariant forall k :: 0 <= k < i ==> slides[k] == Saved
        invariant raised ==> i < |slides| && slides[i] == Raised
        invariant slidesCaptured == i
        invariant globalSlideCounter == old(globalSlideCounter) + i + (if raised then 1 else 0)
        invariant saved == old(saved) + Range(old(globalSlideCounter) + 1, i)
        decreases |slides| - i - (if raised then 1 else 0)
      {
        globalSlideCounter := globalSlideCounter + 1;
        if slides[i] == Raised {
          // the screenshot raises: this number is spent, the rest of the
          // document is abandoned
          raised := true;
        } else {
          // slide.screenshot(path = outputBaseDir / FileName(globalSlideCounter))
          saved := saved + [globalSlideCounter];
          slidesCaptured := slidesCaptured + 1;
          i := i + 1;
        }
      }
      LeadingSavedAt(slides, i);
    }

    /** Scans the listing; when it holds documents, creates the output
        directory and captures every document with a fresh counter. */
    method ProcessAll(listing: seq<string>, browser: Browser)
      requires PagesTracked()
      modifies this`htmlFiles, this`globalSlideCounter, this`saved, this`openPages,
        this`pageLog, this`outputDirCreated
      ensures PagesTracked()
      ensures htmlFiles == SortNames(HtmlOnly(listing))
      ensures openPages == old(openPages)
      ensures htmlFiles == [] ==>
        globalSlideCounter == old(globalSlideCounter) && saved == old(saved) &&
        pageLog == old(pageLog) && outputDirCreated == old(outputDirCreated)
      ensures htmlFiles != [] ==>
        outputDirCreated &&
        globalSlideCounter == Total(htmlFiles, browser) &&
        saved == old(saved) + Numbers(htmlFiles, browser) &&
        pageLog == old(pageLog) + PageLog(htmlFiles)
    {
      var found := ScanHtmlFiles(listing);
      if !found {
        return;
      }
      // mkdir(parents=True, exist_ok=True)
      outputDirCreated := true;
      CaptureEach(browser);
    }

    /** Resets the counter and captures the documents in list order, all in
        one browser, so that their slides are numbered consecutively across
        the batch. The batch total reported is the final counter. */
    method CaptureEach(browser: Browser)
      requires PagesTracked()
      modifies this`globalSlideCounter, this`saved, this`openPages, this`pageLog
      ensures PagesTracked()
      ensures globalSlideCounter == Total(htmlFiles, browser)
      ensures saved == old(saved) + Numbers(htmlFiles, browser)
      ensures pageLog == old(pageLog) + PageLog(htmlFiles)
      ensures openPages == old(openPages)
    {
      globalSlideCounter := 0;
      ghost var saved0, log0 := saved, pageLog;
      assert htmlFiles[..0] == [];
      for i := 0 to |htmlFiles|
        invariant globalSlideCounter == Total(htmlFiles[..i], browser)
        invariant saved == saved0 + Numbers(htmlFiles[..i], browser)
        invariant pageLog == log0 + PageLog(htmlFiles[..i])
        invariant openPages == old(openPages)
        invariant PagesTracked()
        modifies this`globalSlideCounter, this`saved, this`openPages, this`pageLog
      {
        ghost var savedBefore, logBefore := saved, pageLog;
        var _ := CaptureSlidesFromFile(htmlFiles[i], browser);
        FoldStep(htmlFiles, i, browser);
        BatchStep(htmlFiles, i, browser, saved0, savedBefore, saved, log0, logBefore, pageLog);
      }
      assert htmlFiles[..|htmlFiles|] == htmlFiles;
    }
  }

  /** One more document extends each fold by that document's share. */
  lemma FoldStep(files: seq<string>, i: nat, browser: Browser)
    requires i < |files|
    ensures Total(files[..i + 1], browser) == Total(files[..i], browser) + Consumed(browser(files[i]))
    ensures Numbers(files[..i + 1], browser) ==
      Numbers(files[..i], browser) + Range(Total(files[..i], browser) + 1, Captured(browser(files[i])))
    ensures PageLog(files[..i + 1]) == PageLog(files[..i]) + [Opened(files[i]), Closed(files[i])]
  {
    var next := files[..i + 1];
    assert next[..|next| - 1] == files[..i] && next[|next| - 1] == files[i];
  }

  /** Processing document i extends the images and the page log recorded for
      the documents before it by that document's share. */
  lemma BatchStep(files: seq<string>, i: nat, browser: Browser,
                  saved0: seq<nat>, savedBefore: seq<nat>, savedAfter: seq<nat>,
                  log0: seq<PageEvent>, logBefore: seq<PageEvent>, logAfter: seq<PageEvent>)
    requires i < |files|
    requires savedBefore == saved0 + Numbers(files[..i], browser)
    requires savedAfter == savedBefore + Range(Total(files[..i], browser) + 1, Captured(browser(files[i])))
    requires logBefore == log0 + PageLog(files[..i])
    requires logAfter == logBefore + [Opened(files[i]), Closed(files[i])]
    ensures savedAfter == saved0 + Numbers(files[..i + 1], browser)
    ensures logAfter == log0 + PageLog(files[..i + 1])
  {
    FoldStep(files, i, browser);
  }
}
