/** The numbering protocol of a batch, as functions of what the browser does
    with each document: how many numbers a document consumes, which of them
    end up as images, and the pages it opens and closes. */
module Protocol {
  import opened Naming

  /** What `slide.screenshot(path=...)` does for one located slide. */
  datatype Shot = Saved | Raised

  /** What the browser makes of one document: either loading it, waiting for
      it to render or querying its `.slide` elements raises, or the query
      yields the slides in locator order, each with its screenshot outcome. */
  datatype DocumentOutcome = LoadFailed | Loaded(slides: seq<Shot>)

  /** The browser as an oracle: the outcome for each document name. */
  type Browser = string -> DocumentOutcome

  datatype PageEvent = Opened(file: string) | Closed(file: string)

  /** The number of slides saved before the first screenshot that raises. */
  function LeadingSaved(slides: seq<Shot>): (k: nat)
    ensures k <= |slides|
    ensures forall i :: 0 <= i < k ==> slides[i] == Saved
    ensures k < |slides| ==> slides[k] == Raised
  {
    if slides == [] || slides[0] == Raised then 0
    else
      var rest := slides[1..];
      var k := 1 + LeadingSaved(rest);
      assert slides[0] == Saved;
      assert forall i :: 1 <= i < |slides| ==> slides[i] == rest[i - 1];
      k
  }

  /** LeadingSaved is the index of the first slide whose screenshot raises,
      or the number of slides when none does. */
  lemma LeadingSavedAt(slides: seq<Shot>, i: nat)
    requires i <= |slides|
    requires forall k :: 0 <= k < i ==> slides[k] == Saved
    requires i == |slides| || slides[i] == Raised
    ensures LeadingSaved(slides) == i
  {
  }

  /** `slide_count`: the slides the locator found (none when loading failed). */
  function Found(doc: DocumentOutcome): nat {
    match doc
    case LoadFailed => 0
    case Loaded(slides) => |slides|
  }

  /** The value `capture_slides_from_file` returns: screenshots that succeeded. */
  function Captured(doc: DocumentOutcome): nat {
    match doc
    case LoadFailed => 0
    case Loaded(slides) => LeadingSaved(slides)
  }

  /** How far the document advances the shared counter: one number for every
      slide attempted, the one whose screenshot raised included. */
  function Consumed(doc: DocumentOutcome): nat {
    match doc
    case LoadFailed => 0
    case Loaded(slides) =>
      if LeadingSaved(slides) < |slides| then LeadingSaved(slides) + 1 else |slides|
  }

  /** No screenshot of the document raises. */
  predicate ShotsSucceed(doc: DocumentOutcome) {
    doc.Loaded? ==> Raised !in doc.slides
  }

  /** Per-document counts: what is captured never exceeds what is consumed,
      which never exceeds what is found; they differ by exactly the one
      number of the screenshot that raised, and only when one did. */
  lemma FileCounts(doc: DocumentOutcome)
    ensures Captured(doc) <= Consumed(doc) <= Found(doc)
    ensures Consumed(doc) == Captured(doc) <==> ShotsSucceed(doc)
    ensures !ShotsSucceed(doc) ==> Consumed(doc) == Captured(doc) + 1
    ensures doc.Loaded? ==> (Captured(doc) == Found(doc) <==> ShotsSucceed(doc))
    ensures Found(doc) == 0 ==> Consumed(doc) == 0
  {
  }

  /** The k consecutive numbers starting at first. */
  function Range(first: nat, k: nat): (r: seq<nat>)
    ensures |r| == k
    ensures forall i :: 0 <= i < k ==> r[i] == first + i
  {
    if k == 0 then [] else Range(first, k - 1) + [first + k - 1]
  }

  /** The file names of a sequence of counter values. */
  function Names(numbers: seq<nat>): (r: seq<string>)
    ensures |r| == |numbers|
  {
    if numbers == [] then []
    else Names(numbers[..|numbers| - 1]) + [FileName(numbers[|numbers| - 1])]
  }

  /** The i-th name is the file name of the i-th number. */
  lemma {:induction false} NamesAt(numbers: seq<nat>, i: nat)
    requires i < |numbers|
    ensures Names(numbers)[i] == FileName(numbers[i])
    decreases |numbers|
  {
    if i < |numbers| - 1 {
      NamesAt(numbers[..|numbers| - 1], i);
    }
  }

  /** Every name is the file name of the number at the same position. */
  lemma NamesEach(numbers: seq<nat>)
    ensures forall i :: 0 <= i < |numbers| ==> Names(numbers)[i] == FileName(numbers[i])
  {
    forall i | 0 <= i < |numbers| ensures Names(numbers)[i] == FileName(numbers[i]) {
      NamesAt(numbers, i);
    }
  }

  /** Appending numbers appends their names: the images written by a later
      document follow those written before it. */
  lemma {:induction false} NamesAppend(a: seq<nat>, b: seq<nat>)
    ensures Names(a + b) == Names(a) + Names(b)
    decreases |b|
  {
    if b == [] {
      assert a + b == a;
    } else {
      var b' := b[..|b| - 1];
      assert (a + b)[..|a + b| - 1] == a + b';
      NamesAppend(a, b');
    }
  }

  /** The counter after processing the files, in order, from zero. */
  function Total(files: seq<string>, browser: Browser): nat {
    if files == [] then 0
    else Total(files[..|files| - 1], browser) + Consumed(browser(files[|files| - 1]))
  }

  /** The counter values whose screenshots were saved, in capture order. */
  function Numbers(files: seq<string>, browser: Browser): seq<nat> {
    if files == [] then []
    else
      var init := files[..|files| - 1];
      Numbers(init, browser) + Range(Total(init, browser) + 1, Captured(browser(files[|files| - 1])))
  }

  /** The pages opened and closed while processing the files. */
  function PageLog(files: seq<string>): seq<PageEvent> {
    if files == [] then []
    else PageLog(files[..|files| - 1]) + [Opened(files[|files| - 1]), Closed(files[|files| - 1])]
  }

  predicate NoShotRaises(files: seq<string>, browser: Browser) {
    forall i :: 0 <= i < |files| ==> ShotsSucceed(browser(files[i]))
  }

  predicate Increasing(ns: seq<nat>) {
    forall i, j :: 0 <= i < j < |ns| ==> ns[i] < ns[j]
  }

  predicate Between(ns: seq<nat>, lo: nat, hi: nat) {
    forall i :: 0 <= i < |ns| ==> lo <= ns[i] <= hi
  }

  /** Earlier captures get lower numbers: the saved numbers strictly increase
      and lie between 1 and the final counter. */
  lemma {:induction false} NumbersIncreasing(files: seq<string>, browser: Browser)
    ensures Increasing(Numbers(files, browser))
    ensures Between(Numbers(files, browser), 1, Total(files, browser))
  {
    if files != [] {
      var init := files[..|files| - 1];
      var doc := browser(files[|files| - 1]);
      NumbersIncreasing(init, browser);
      FileCounts(doc);
      var a, b := Numbers(init, browser), Range(Total(init, browser) + 1, Captured(doc));
      var ns := Numbers(files, browser);
      assert ns == a + b;
      assert Total(files, browser) == Total(init, browser) + Consumed(doc);
      forall i, j | 0 <= i < j < |ns| ensures ns[i] < ns[j] {
        if j < |a| {
          assert ns[i] == a[i] && ns[j] == a[j];
        } else if i < |a| {
          assert ns[i] == a[i] && ns[j] == b[j - |a|];
        } else {
          assert ns[i] == b[i - |a|] && ns[j] == b[j - |a|];
        }
      }
      forall i | 0 <= i < |ns| ensures 1 <= ns[i] <= Total(files, browser) {
        if i < |a| {
          assert ns[i] == a[i];
        } else {
          assert ns[i] == b[i - |a|];
        }
      }
    }
  }

  /** No two images of a batch get the same file name. */
  lemma {:induction false} NamesDistinct(files: seq<string>, browser: Browser)
    ensures var names := Names(Numbers(files, browser));
      forall i, j :: 0 <= i < j < |names| ==> names[i] != names[j]
  {
    var ns := Numbers(files, browser);
    NumbersIncreasing(files, browser);
    var names := Names(ns);
    forall i, j | 0 <= i < j < |names| ensures names[i] != names[j] {
      NamesAt(ns, i);
      NamesAt(ns, j);
      FileNameInjective(ns[i], ns[j]);
    }
  }

  /** The reported total counts consumed numbers, not images: it is never
      smaller than the number of images, and equal exactly when no
      screenshot raised. */
  lemma {:induction false} ImagesAtMostTotal(files: seq<string>, browser: Browser)
    ensures |Numbers(files, browser)| <= Total(files, browser)
    ensures |Numbers(files, browser)| == Total(files, browser) <==> NoShotRaises(files, browser)
  {
    if files != [] {
      var init := files[..|files| - 1];
      var doc := browser(files[|files| - 1]);
      ImagesAtMostTotal(init, browser);
      FileCounts(doc);
      if NoShotRaises(files, browser) {
        assert NoShotRaises(init, browser) by {
          forall i | 0 <= i < |init| ensures ShotsSucceed(browser(init[i])) {
            assert init[i] == files[i];
          }
        }
      }
      if |Numbers(files, browser)| == Total(files, browser) {
        forall i | 0 <= i < |files| ensures ShotsSucceed(browser(files[i])) {
          if i < |init| {
            assert init[i] == files[i];
          }
        }
      }
    }
  }

  /** Gaps come only from screenshots that raise: the saved numbers are
      exactly 1 .. total if and only if no screenshot raised. */
  lemma {:induction false} NoGapsUnlessShotRaises(files: seq<string>, browser: Browser)
    ensures Numbers(files, browser) == Range(1, Total(files, browser)) <==> NoShotRaises(files, browser)
  {
    ImagesAtMostTotal(files, browser);
    if NoShotRaises(files, browser) && files != [] {
      var init := files[..|files| - 1];
      var doc := browser(files[|files| - 1]);
      assert NoShotRaises(init, browser) by {
        forall i | 0 <= i < |init| ensures ShotsSucceed(browser(init[i])) {
          assert init[i] == files[i];
        }
      }
      NoGapsUnlessShotRaises(init, browser);
      assert ShotsSucceed(doc);
      FileCounts(doc);
    }
  }

  /** Every document opens exactly one page, closed before the next opens. */
  lemma {:induction false} PageLogShape(files: seq<string>)
    ensures |PageLog(files)| == 2 * |files|
    ensures forall i :: 0 <= i < |files| ==>
      PageLog(files)[2 * i] == Opened(files[i]) && PageLog(files)[2 * i + 1] == Closed(files[i])
  {
    if files != [] {
      var init := files[..|files| - 1];
      PageLogShape(init);
      forall i | 0 <= i < |init| ensures init[i] == files[i] { }
    }
  }

  /** Pages open and not yet closed after the events of a log. */
  function OpenPages(log: seq<PageEvent>): int {
    if log == [] then 0
    else OpenPages(log[..|log| - 1]) + (if log[|log| - 1].Opened? then 1 else -1)
  }

  /** One more event opens or closes one more page. */
  lemma OpenPagesSnoc(log: seq<PageEvent>, e: PageEvent)
    ensures OpenPages(log + [e]) == OpenPages(log) + (if e.Opened? then 1 else -1)
  {
    assert (log + [e])[..|log|] == log;
  }

  /** Opening and then closing a page leaves the open-page count as it was. */
  lemma OpenThenClose(log: seq<PageEvent>, file: string)
    ensures OpenPages(log + [Opened(file), Closed(file)]) == OpenPages(log)
  {
    OpenPagesSnoc(log, Opened(file));
    OpenPagesSnoc(log + [Opened(file)], Closed(file));
    assert log + [Opened(file)] + [Closed(file)] == log + [Opened(file), Closed(file)];
  }

  /** At most one page is open at any point of a batch, and none is left
      open at its end. */
  lemma {:induction false} PagesBalanced(files: seq<string>)
    ensures OpenPages(PageLog(files)) == 0
    ensures forall k :: 0 <= k <= |PageLog(files)| ==> 0 <= OpenPages(PageLog(files)[..k]) <= 1
  {
    if files != [] {
      var init := files[..|files| - 1];
      var f := files[|files| - 1];
      var log, old_log := PageLog(files), PageLog(init);
      PagesBalanced(init);
      assert log == old_log + [Opened(f), Closed(f)];
      assert log[..|old_log| + 1] == old_log + [Opened(f)];
      assert (old_log + [Opened(f)])[..|old_log|] == old_log;
      assert log[..|log| - 1] == old_log + [Opened(f)];
      forall k | 0 <= k <= |log| ensures 0 <= OpenPages(log[..k]) <= 1 {
        if k <= |old_log| {
          assert log[..k] == old_log[..k];
        } else if k == |old_log| + 1 {
        } else {
          assert log[..k] == log;
        }
      }
    }
  }

  /** Example: three slides in a.html, two in b.html, numbered
      01 .. 05 in file order, with total 5. */
  lemma TwoDecksExample(browser: Browser)
    requires browser("a.html") == Loaded([Saved, Saved, Saved])
    requires browser("b.html") == Loaded([Saved, Saved])
    ensures Total(["a.html", "b.html"], browser) == 5
    ensures Names(Numbers(["a.html", "b.html"], browser)) ==
      ["01.png", "02.png", "03.png", "04.png", "05.png"]
  {
    TwoDecksNumbers(browser);
    FirstFiveNames();
  }

  lemma TwoDecksNumbers(browser: Browser)
    requires browser("a.html") == Loaded([Saved, Saved, Saved])
    requires browser("b.html") == Loaded([Saved, Saved])
    ensures Total(["a.html", "b.html"], browser) == 5
    ensures Numbers(["a.html", "b.html"], browser) == [1, 2, 3, 4, 5]
  {
    var files := ["a.html", "b.html"];
    var first := files[..1];
    assert first == ["a.html"] && first[..0] == [];
    LeadingSavedAt([Saved, Saved, Saved], 3);
    LeadingSavedAt([Saved, Saved], 2);
    assert Captured(browser("a.html")) == 3 && Consumed(browser("a.html")) == 3;
    assert Captured(browser("b.html")) == 2 && Consumed(browser("b.html")) == 2;
    assert Total(first, browser) == 3;
    assert Numbers(first, browser) == Range(1, 3);
    assert Numbers(files, browser) == Range(1, 3) + Range(4, 2);
    ShortRanges();
  }

  lemma ShortRanges()
    ensures Range(1, 3) == [1, 2, 3] && Range(4, 2) == [4, 5]
  {
    assert Range(1, 0) == [] && Range(4, 0) == [];
    assert Range(1, 1) == [1] && Range(4, 1) == [4];
    assert Range(1, 2) == [1, 2];
  }

  lemma FirstFiveNames()
    ensures Names([1, 2, 3, 4, 5]) == ["01.png", "02.png", "03.png", "04.png", "05.png"]
  {
    var ns: seq<nat> := [1, 2, 3, 4, 5];
    var names := Names(ns);
    forall i | 0 <= i < 5 ensures names[i] == FileName(i + 1) {
      NamesAt(ns, i);
    }
    SingleDigitFileName(1);
    SingleDigitFileName(2);
    SingleDigitFileName(3);
    SingleDigitFileName(4);
    SingleDigitFileName(5);
  }

  /** A screenshot that raises leaves a gap that the next document does not
      fill: with a.html's second screenshot raising, its third slide is not
      attempted, b.html's slide gets number 3 and the total is 3 for two
      images. */
  lemma GapExample(browser: Browser)
    requires browser("a.html") == Loaded([Saved, Raised, Saved])
    requires browser("b.html") == Loaded([Saved])
    ensures Numbers(["a.html", "b.html"], browser) == [1, 3]
    ensures Total(["a.html", "b.html"], browser) == 3
  {
    var files := ["a.html", "b.html"];
    assert files[..1] == ["a.html"] && ["a.html"][..0] == [];
    LeadingSavedAt([Saved, Raised, Saved], 1);
    LeadingSavedAt([Saved], 1);
    assert Total(files[..1], browser) == 2;
    assert Numbers(files, browser) == Range(1, 1) + Range(3, 1);
  }
}
