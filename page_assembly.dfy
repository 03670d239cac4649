/** The page bookkeeping of the "PDF Editor" tab: one opened document whose
    pages are kept or deleted, followed by pages added from other documents,
    written out in that order on save. */
module PageAssembly {
  import opened Common

  /** Identity of an opened PDF file (the reader object the tab holds). */
  type DocId = nat

  /** An opened document: its identity and the length of its page list. */
  datatype Document = Document(id: DocId, pageCount: nat)

  /** Page `index` of document `doc`. The page object itself belongs to the
      PDF library; the model only refers to it. */
  datatype PageRef = PageRef(doc: DocId, index: nat)

  /** Why saving fails. */
  datatype SaveError = NoPdfLoaded

  /** What a press of "Save PDF" does: fail, stop at a cancelled file
      dialog, or write the listed pages. */
  datatype SaveOutcome = SaveFailed(error: SaveError) | SaveCancelled | Saved(pages: seq<PageRef>)

  /** `list(range(n))`. */
  function Range(n: nat): (r: seq<nat>)
    ensures |r| == n
    ensures forall i :: 0 <= i < n ==> r[i] == i
  {
    if n == 0 then [] else Range(n - 1) + [n - 1]
  }

  predicate StrictlyIncreasing(s: seq<nat>) {
    forall i, j :: 0 <= i < j < |s| ==> s[i] < s[j]
  }

  predicate AllBelow(s: seq<nat>, n: nat) {
    forall k :: 0 <= k < |s| ==> s[k] < n
  }

  /** `reader.pages` of an opened document. */
  function DocPages(d: Document): seq<PageRef>
  {
    seq(d.pageCount, i requires 0 <= i < d.pageCount => PageRef(d.id, i))
  }

  /** The entries of `keep` that are not selected rows:
      `[i for i in keep if i not in selection]`. A deletion never lengthens
      the list, and whatever survives was kept and not selected. */
  function Remaining(keep: seq<nat>, selection: set<nat>): (r: seq<nat>)
    ensures |r| <= |keep|
    ensures forall x :: x in r ==> x in keep && x !in selection
    decreases |keep|
  {
    if keep == [] then []
    else
      var last := keep[|keep| - 1];
      assert forall x :: x in keep[..|keep| - 1] ==> x in keep;
      Remaining(keep[..|keep| - 1], selection) + (if last in selection then [] else [last])
  }

  /** The pages of the listed documents, document after document, each in
      its natural page order; as many as their page counts add up to. */
  function PagesOf(docs: seq<Document>): (r: seq<PageRef>)
    ensures |r| == TotalPages(docs)
    decreases |docs|
  {
    if docs == [] then [] else DocPages(docs[0]) + PagesOf(docs[1..])
  }

  function TotalPages(docs: seq<Document>): nat
    decreases |docs|
  {
    if docs == [] then 0 else docs[0].pageCount + TotalPages(docs[1..])
  }

  /** The documents of a multiple-file selection that open before the first
      one that fails to open (`None`), in selection order; never more than
      were chosen. */
  function LoadedBeforeFailure(chosen: seq<Option<Document>>): (r: seq<Document>)
    ensures |r| <= |chosen|
    decreases |chosen|
  {
    if chosen == [] || chosen[0].None? then []
    else [chosen[0].value] + LoadedBeforeFailure(chosen[1..])
  }

  /** The pages `reader.pages[i]` for `i` in `keep`, in that order. */
  function KeptPages(doc: DocId, keep: seq<nat>): seq<PageRef>
    decreases |keep|
  {
    if keep == [] then [] else KeptPages(doc, keep[..|keep| - 1]) + [PageRef(doc, keep[|keep| - 1])]
  }

  /** The page list that "Save PDF" writes: the kept pages of the opened
      document, `reader.pages[keep[k]]` at position `k`, then the added pages
      in order. */
  function Written(doc: DocId, keep: seq<nat>, added: seq<PageRef>): (r: seq<PageRef>)
    ensures |r| == |keep| + |added|
    ensures forall k :: 0 <= k < |keep| ==> r[k] == PageRef(doc, keep[k])
    ensures forall k :: 0 <= k < |added| ==> r[|keep| + k] == added[k]
  {
    KeptPagesIndex(doc, keep);
    KeptPages(doc, keep) + added
  }

  // ---------------------------------------------------------------------
  // Deleting pages

  /** A page survives a deletion exactly when it was kept before and its
      number is not a selected row. */
  lemma {:induction false} RemainingMembership(keep: seq<nat>, selection: set<nat>, x: nat)
    ensures x in Remaining(keep, selection) <==> x in keep && x !in selection
  {
    if keep != [] {
      var init := keep[..|keep| - 1];
      RemainingMembership(init, selection, x);
      assert keep == init + [keep[|keep| - 1]];
    }
  }

  /** Deleting keeps the page list sorted and free of duplicates. */
  lemma {:induction false} RemainingIncreasing(keep: seq<nat>, selection: set<nat>)
    requires StrictlyIncreasing(keep)
    ensures StrictlyIncreasing(Remaining(keep, selection))
  {
    if keep != [] {
      var init, last := keep[..|keep| - 1], keep[|keep| - 1];
      assert StrictlyIncreasing(init);
      RemainingIncreasing(init, selection);
      var r := Remaining(init, selection);
      forall k | 0 <= k < |r|
        ensures r[k] < last
      {
        RemainingMembership(init, selection, r[k]);
        var m :| 0 <= m < |init| && init[m] == r[k];
        assert keep[m] == init[m];
      }
    }
  }

  /** Deleting keeps every page number below the document's page count. */
  lemma {:induction false} RemainingBelow(keep: seq<nat>, selection: set<nat>, n: nat)
    requires AllBelow(keep, n)
    ensures AllBelow(Remaining(keep, selection), n)
  {
    var r := Remaining(keep, selection);
    forall k | 0 <= k < |r|
      ensures r[k] < n
    {
      RemainingMembership(keep, selection, r[k]);
    }
  }

  /** Deleting with nothing selected keeps every page. */
  lemma {:induction false} RemainingNothingSelected(keep: seq<nat>)
    ensures Remaining(keep, {}) == keep
  {
    if keep != [] {
      RemainingNothingSelected(keep[..|keep| - 1]);
      assert keep[..|keep| - 1] + [keep[|keep| - 1]] == keep;
    }
  }

  /** One deletion after another is one deletion of both selections. */
  lemma {:induction false} RemainingCompose(keep: seq<nat>, first: set<nat>, second: set<nat>)
    ensures Remaining(Remaining(keep, first), second) == Remaining(keep, first + second)
  {
    if keep != [] {
      var init, last := keep[..|keep| - 1], keep[|keep| - 1];
      RemainingCompose(init, first, second);
      var r := Remaining(init, first);
      if last in first {
        assert Remaining(keep, first) == r;
        assert Remaining(keep, first + second) == Remaining(init, first + second);
      } else {
        assert Remaining(keep, first) == r + [last];
        assert (r + [last])[..|r|] == r;
        assert Remaining(r + [last], second)
            == Remaining(r, second) + (if last in second then [] else [last]);
      }
    }
  }

  /** Deleting the same selection twice is deleting it once. */
  lemma RemainingIdempotent(keep: seq<nat>, selection: set<nat>)
    ensures Remaining(Remaining(keep, selection), selection) == Remaining(keep, selection)
  {
    RemainingCompose(keep, selection, selection);
    assert selection + selection == selection;
  }

  /** Only the selected rows numbered below the document's page count
      matter: a selected row at or beyond it matches no kept page number. */
  lemma {:induction false} RemainingIgnoresRowsBeyond(keep: seq<nat>, selection: set<nat>, n: nat)
    requires AllBelow(keep, n)
    ensures Remaining(keep, selection) == Remaining(keep, set r | r in selection && r < n)
  {
    if keep != [] {
      var init := keep[..|keep| - 1];
      assert AllBelow(init, n);
      RemainingIgnoresRowsBeyond(init, selection, n);
    }
  }

  /** Two sorted duplicate-free page lists with the same pages are equal,
      so membership and order fix the result of a deletion completely. */
  lemma {:induction false} IncreasingUnique(a: seq<nat>, b: seq<nat>)
    requires StrictlyIncreasing(a) && StrictlyIncreasing(b)
    requires forall x :: x in a <==> x in b
    ensures a == b
  {
    assert a != [] ==> a[0] in b;
    assert b != [] ==> b[0] in a;
    if a != [] && b != [] {
      HeadIsLeast(a, b[0]);
      HeadIsLeast(b, a[0]);
      forall x
        ensures x in a[1..] <==> x in b[1..]
      {
        TailMember(a, b, x);
        TailMember(b, a, x);
      }
      IncreasingUnique(a[1..], b[1..]);
    }
  }

  lemma HeadIsLeast(s: seq<nat>, x: nat)
    requires StrictlyIncreasing(s) && x in s
    ensures s[0] <= x
  {
    var i :| 0 <= i < |s| && s[i] == x;
    assert i == 0 || s[0] < s[i];
  }

  lemma TailMember(a: seq<nat>, b: seq<nat>, x: nat)
    requires StrictlyIncreasing(a) && StrictlyIncreasing(b)
    requires a != [] && b != [] && a[0] == b[0]
    requires forall y :: y in a <==> y in b
    ensures x in a[1..] ==> x in b[1..]
  {
    if x in a[1..] {
      var j :| 0 <= j < |a[1..]| && a[1..][j] == x;
      assert a[j + 1] == x && a[0] < x;
      assert x in b;
      var i :| 0 <= i < |b| && b[i] == x;
      assert i != 0;
      assert b[1..][i - 1] == x;
    }
  }

  /** After opening a document with `n` pages and deleting `selection`, the
      kept pages are the unselected page numbers below `n`, ascending. */
  lemma DeletedFromOpened(n: nat, selection: set<nat>, x: nat)
    ensures StrictlyIncreasing(Remaining(Range(n), selection))
    ensures x in Remaining(Range(n), selection) <==> x < n && x !in selection
  {
    RemainingIncreasing(Range(n), selection);
    RemainingMembership(Range(n), selection, x);
    if x < n {
      assert Range(n)[x] == x;
    }
  }

  // ---------------------------------------------------------------------
  // Adding pages and saving

  lemma {:induction false} PagesOfAppend(a: seq<Document>, b: seq<Document>)
    ensures PagesOf(a + b) == PagesOf(a) + PagesOf(b)
  {
    if a != [] {
      assert (a + b)[0] == a[0];
      assert (a + b)[1..] == a[1..] + b;
      PagesOfAppend(a[1..], b);
      assert PagesOf(a + b) == DocPages(a[0]) + PagesOf(a[1..] + b);
    } else {
      assert a + b == b;
    }
  }

  /** Page `k` of a document in the chosen list shows up at its offset in
      the added pages: every page of every document is added, in order. */
  lemma {:induction false} PagesOfIndex(docs: seq<Document>, j: nat, k: nat)
    requires j < |docs| && k < docs[j].pageCount
    ensures TotalPages(docs[..j]) + k < |PagesOf(docs)|
    ensures PagesOf(docs)[TotalPages(docs[..j]) + k] == PageRef(docs[j].id, k)
  {
    if j > 0 {
      assert docs[..j][1..] == docs[1..][..j - 1];
      PagesOfIndex(docs[1..], j - 1, k);
    }
  }

  /** One step of the loading loop: a file that opens contributes its pages
      ahead of those of the files after it. */
  lemma LoadedStep(chosen: seq<Option<Document>>, i: nat, added: seq<PageRef>)
    requires i < |chosen| && chosen[i].Some?
    requires PagesOf(LoadedBeforeFailure(chosen)) == added + PagesOf(LoadedBeforeFailure(chosen[i..]))
    ensures PagesOf(LoadedBeforeFailure(chosen))
         == (added + DocPages(chosen[i].value)) + PagesOf(LoadedBeforeFailure(chosen[i + 1..]))
  {
    assert chosen[i..][1..] == chosen[i + 1..];
    assert PagesOf(LoadedBeforeFailure(chosen[i..]))
        == DocPages(chosen[i].value) + PagesOf(LoadedBeforeFailure(chosen[i + 1..]));
  }

  /** The loading loop stops at a file that fails to open: nothing from
      there on is added. */
  lemma LoadedStop(chosen: seq<Option<Document>>, i: nat, added: seq<PageRef>)
    requires i < |chosen| && chosen[i].None?
    requires PagesOf(LoadedBeforeFailure(chosen)) == added + PagesOf(LoadedBeforeFailure(chosen[i..]))
    ensures PagesOf(LoadedBeforeFailure(chosen)) == added
  {
    assert PagesOf(LoadedBeforeFailure(chosen[i..])) == [];
    assert added + [] == added;
  }

  /** The loaded documents are the selection's files up to, not including,
      the first that fails to open: a prefix of the selection that stops only
      at its end or at a failure. */
  lemma {:induction false} LoadedPrefix(chosen: seq<Option<Document>>)
    ensures forall i :: 0 <= i < |LoadedBeforeFailure(chosen)| ==>
      chosen[i] == Some(LoadedBeforeFailure(chosen)[i])
    ensures |LoadedBeforeFailure(chosen)| < |chosen| ==> chosen[|LoadedBeforeFailure(chosen)|].None?
  {
    if chosen != [] && chosen[0].Some? {
      LoadedPrefix(chosen[1..]);
    }
  }

  /** When every chosen file opens, all of them are loaded. */
  lemma {:induction false} LoadedAll(chosen: seq<Option<Document>>)
    requires forall i :: 0 <= i < |chosen| ==> chosen[i].Some?
    ensures |LoadedBeforeFailure(chosen)| == |chosen|
    ensures forall i :: 0 <= i < |chosen| ==> LoadedBeforeFailure(chosen)[i] == chosen[i].value
  {
    if chosen != [] {
      LoadedAll(chosen[1..]);
    }
  }

  /** Every page written comes from the kept pages, in order, and then from
      the added pages, in order. */
  lemma {:induction false} KeptPagesIndex(doc: DocId, keep: seq<nat>)
    ensures |KeptPages(doc, keep)| == |keep|
    ensures forall k :: 0 <= k < |keep| ==> KeptPages(doc, keep)[k] == PageRef(doc, keep[k])
  {
    if keep != [] {
      KeptPagesIndex(doc, keep[..|keep| - 1]);
    }
  }

  /** Saving right after opening `d` and adding `docs` writes every page of
      `d` and then every page of each added document, in order. */
  lemma OpenedThenAdded(d: Document, docs: seq<Document>)
    ensures Written(d.id, Range(d.pageCount), PagesOf(docs)) == PagesOf([d] + docs)
  {
    var keep := Range(d.pageCount);
    KeptPagesIndex(d.id, keep);
    assert KeptPages(d.id, keep) == DocPages(d);
    assert ([d] + docs)[1..] == docs;
  }

  // ---------------------------------------------------------------------
  // The tab's state

  /** The "PDF Editor" tab: the opened document (`reader`), the numbers of
      its pages still kept (`pages_to_keep`), and the pages added from other
      documents (`additional_pages`). */
  class PageEditor {
    var reader: Option<Document>
    var pagesToKeep: seq<nat>
    var additionalPages: seq<PageRef>

    /** The kept page numbers are ascending, distinct and pages of the
        opened document; nothing is kept before a document is opened. */
    ghost predicate Valid()
      reads this
    {
      && StrictlyIncreasing(pagesToKeep)
      && match reader
         case None => pagesToKeep == []
         case Some(d) => AllBelow(pagesToKeep, d.pageCount)
    }

    constructor ()
      ensures Valid()
      ensures reader == None && pagesToKeep == [] && additionalPages == []
    {
      reader := None;
      pagesToKeep := [];
      additionalPages := [];
    }

    /** "Open PDF": `picked` is the chosen document, `None` when the dialog
        is cancelled. The added pages are left as they were. */
    method OpenPdf(picked: Option<Document>)
      requires Valid()
      modifies this`reader, this`pagesToKeep
      ensures Valid()
      ensures picked.None? ==> reader == old(reader) && pagesToKeep == old(pagesToKeep)
      ensures picked.Some? ==> reader == picked && pagesToKeep == Range(picked.value.pageCount)
      ensures additionalPages == old(additionalPages)
    {
      if picked.Some? {
        reader := picked;
        pagesToKeep := Range(picked.value.pageCount);
      }
    }

    /** "Delete Selected Pages": `selection` holds the selected listbox row
        positions. Returns whether anything was marked for deletion; with no
        selection nothing changes. */
    method DeletePages(selection: set<nat>) returns (deleted: bool)
      requires Valid()
      modifies this`pagesToKeep
      ensures Valid()
      ensures deleted <==> selection != {}
      ensures pagesToKeep == Remaining(old(pagesToKeep), selection)
      ensures reader == old(reader) && additionalPages == old(additionalPages)
    {
      if selection == {} {
        RemainingNothingSelected(pagesToKeep);
        return false;
      }
      var keep := pagesToKeep;
      var kept: seq<nat> := [];
      var i := 0;
      while i < |keep|
        invariant 0 <= i <= |keep|
        invariant kept == Remaining(keep[..i], selection)
      {
        assert keep[..i + 1][..i] == keep[..i];
        if keep[i] !in selection {
          kept := kept + [keep[i]];
        }
        i := i + 1;
      }
      assert keep[..|keep|] == keep;
      RemainingIncreasing(keep, selection);
      if reader.Some? {
        RemainingBelow(keep, selection, reader.value.pageCount);
      }
      pagesToKeep := kept;
      deleted := true;
    }

    /** "Add Pages from Other PDFs": `chosen` lists the selected files in
        selection order, `None` for one that fails to open; an empty list is
        a cancelled dialog. The added pages are replaced, not accumulated;
        a file that fails to open stops the loading, leaving the pages of the
        files before it. Returns whether every file was loaded. */
    method AddPages(chosen: seq<Option<Document>>) returns (loaded: bool)
      requires Valid()
      modifies this`additionalPages
      ensures Valid()
      ensures chosen == [] ==> additionalPages == old(additionalPages)
      ensures chosen != [] ==> additionalPages == PagesOf(LoadedBeforeFailure(chosen))
      ensures loaded <==> chosen != [] && forall i :: 0 <= i < |chosen| ==> chosen[i].Some?
      ensures reader == old(reader) && pagesToKeep == old(pagesToKeep)
    {
      loaded := false;
      if chosen == [] {
        return;
      }
      additionalPages := [];
      var i := 0;
      assert chosen[0..] == chosen;
      assert PagesOf(LoadedBeforeFailure(chosen)) == [] + PagesOf(LoadedBeforeFailure(chosen[0..]));
      while i < |chosen|
        invariant 0 <= i <= |chosen|
        invariant forall j :: 0 <= j < i ==> chosen[j].Some?
        invariant PagesOf(LoadedBeforeFailure(chosen)) == additionalPages + PagesOf(LoadedBeforeFailure(chosen[i..]))
      {
        match chosen[i]
        case None =>
          LoadedStop(chosen, i, additionalPages);
          assert !(forall j :: 0 <= j < |chosen| ==> chosen[j].Some?) by { assert chosen[i].None?; }
          return;
        case Some(d) =>
          LoadedStep(chosen, i, additionalPages);
          additionalPages := additionalPages + DocPages(d);
        i := i + 1;
      }
      assert chosen[i..] == [];
      assert additionalPages + [] == additionalPages;
      loaded := true;
    }

    /** The pages the writer receives on save: `reader.pages[i]` for each
        kept `i`, in order, then every added page, in order; `None` (the
        raised exception) when no document is open. */
    method SaveList() returns (pages: Option<seq<PageRef>>)
      requires Valid()
      ensures pages.None? <==> reader.None?
      ensures reader.Some? ==> pages == Some(Written(reader.value.id, pagesToKeep, additionalPages))
      ensures pages.Some? ==> |pages.value| == |pagesToKeep| + |additionalPages|
    {
      if reader.None? {
        return None;
      }
      var doc := reader.value;
      var all := DocPages(doc);
      var written: seq<PageRef> := [];
      var k := 0;
      while k < |pagesToKeep|
        invariant 0 <= k <= |pagesToKeep|
        invariant written == KeptPages(doc.id, pagesToKeep[..k])
      {
        assert pagesToKeep[..k + 1][..k] == pagesToKeep[..k];
        written := written + [all[pagesToKeep[k]]];
        k := k + 1;
      }
      assert pagesToKeep[..k] == pagesToKeep;
      var j := 0;
      while j < |additionalPages|
        invariant 0 <= j <= |additionalPages|
        invariant written == KeptPages(doc.id, pagesToKeep) + additionalPages[..j]
      {
        assert additionalPages[..j + 1] == additionalPages[..j] + [additionalPages[j]];
        written := written + [additionalPages[j]];
        j := j + 1;
      }
      assert additionalPages[..j] == additionalPages;
      pages := Some(written);
    }

    /** "Save PDF": the page list is built first; `destinationChosen` is
        false when the save dialog is cancelled. The tab's state is kept as
        it is after saving. */
    method SavePdf(destinationChosen: bool) returns (outcome: SaveOutcome)
      requires Valid()
      ensures reader.None? ==> outcome == SaveFailed(NoPdfLoaded)
      ensures reader.Some? && !destinationChosen ==> outcome == SaveCancelled
      ensures reader.Some? && destinationChosen ==>
        outcome == Saved(Written(reader.value.id, pagesToKeep, additionalPages))
    {
      var pages := SaveList();
      if pages.None? {
        return SaveFailed(NoPdfLoaded);
      }
      if !destinationChosen {
        return SaveCancelled;
      }
      outcome := Saved(pages.value);
    }
  }
}
