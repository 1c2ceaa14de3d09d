/** Exporting one note with its attachments linked, and with those that fit inlined. */
module NoteExport {
  import opened Base
  import opened Sorting
  import opened Strings
  import opened CodeRanges
  import opened Hunks
  import Base64

  datatype ReferenceKind = Image | Link | EmbedRef | WikilinkRef | Html

  /** A reference as one of the patterns found it. */
  datatype Reference = Reference(start: nat, end: nat, kind: ReferenceKind, target: string)

  // ----- which references count -----

  function SortReferences(found: seq<Reference>): seq<Reference> {
    Sort((a: Reference, b: Reference) => a.start < b.start || (a.start == b.start && a.end <= b.end), found)
  }

  lemma ReferenceOrder()
    ensures IsOrder((a: Reference, b: Reference) => a.start < b.start || (a.start == b.start && a.end <= b.end))
  {
  }

  ghost predicate Separate(refs: seq<Reference>) {
    forall i, j :: 0 <= i < j < |refs| ==> refs[i].end <= refs[j].start
  }

  /** Some kept reference covers where this one starts. */
  ghost predicate Overlapped(f: Reference, kept: seq<Reference>) {
    exists i :: 0 <= i < |kept| && kept[i].start <= f.start < kept[i].end
  }

  /** The reference counts, or starts in code, or starts within one that counts. */
  ghost predicate Settled(f: Reference, skipped: seq<Range>, kept: seq<Reference>) {
    f in kept || IsInside(f.start, skipped) || Overlapped(f, kept)
  }

  /** The references that count, among those in sorted order before the i-th. */
  ghost predicate KeptFrom(sorted: seq<Reference>, i: nat, skipped: seq<Range>, kept: seq<Reference>, cursor: int)
    requires i <= |sorted|
  {
    && Separate(kept)
    && (forall k :: 0 <= k < |kept| ==>
          kept[k] in sorted && !IsInside(kept[k].start, skipped) && kept[k].end <= cursor
          && forall j :: i <= j < |sorted| ==> kept[k].start <= sorted[j].start)
    && (if kept == [] then cursor == -1 else cursor == kept[|kept| - 1].end)
    && forall k :: 0 <= k < i ==> Settled(sorted[k], skipped, kept)
  }

  lemma SettledMore(f: Reference, skipped: seq<Range>, kept: seq<Reference>, more: Reference)
    requires Settled(f, skipped, kept)
    ensures Settled(f, skipped, kept + [more])
  {
    if Overlapped(f, kept) {
      var i :| 0 <= i < |kept| && kept[i].start <= f.start < kept[i].end;
      assert (kept + [more])[i] == kept[i];
    }
  }

  lemma KeepsNext(sorted: seq<Reference>, i: nat, skipped: seq<Range>, kept: seq<Reference>, cursor: int)
    requires i < |sorted| && KeptFrom(sorted, i, skipped, kept, cursor)
    requires cursor <= sorted[i].start < sorted[i].end && !IsInside(sorted[i].start, skipped)
    requires forall j :: i < j < |sorted| ==> sorted[i].start <= sorted[j].start
    ensures KeptFrom(sorted, i + 1, skipped, kept + [sorted[i]], sorted[i].end)
  {
    var more := kept + [sorted[i]];
    assert more[|kept|] == sorted[i];
    forall k | 0 <= k <= i
      ensures Settled(sorted[k], skipped, more)
    {
      if k < i {
        SettledMore(sorted[k], skipped, kept, sorted[i]);
      }
    }
  }

  lemma SkipsNext(sorted: seq<Reference>, i: nat, skipped: seq<Range>, kept: seq<Reference>, cursor: int)
    requires i < |sorted| && KeptFrom(sorted, i, skipped, kept, cursor)
    requires sorted[i].start < cursor || IsInside(sorted[i].start, skipped)
    ensures KeptFrom(sorted, i + 1, skipped, kept, cursor)
  {
    if sorted[i].start < cursor {
      assert kept[|kept| - 1].start <= sorted[i].start < kept[|kept| - 1].end;
      assert Overlapped(sorted[i], kept);
    }
  }

  lemma SortedReferences(found: seq<Reference>)
    ensures var sorted := SortReferences(found);
      && (forall f :: f in sorted <==> f in found)
      && forall i, j :: 0 <= i < j < |sorted| ==> sorted[i].start <= sorted[j].start
  {
    var atMost := (a: Reference, b: Reference) => a.start < b.start || (a.start == b.start && a.end <= b.end);
    ReferenceOrder();
    SortOrders(atMost, found);
    SortKeepsAll(atMost, found);
  }

  /**
    The references that count come one behind the other and outside code; one that was found is missing
    only if it starts in code or within a reference that counts.
  */
  method KeepReferences(found: seq<Reference>, skipped: seq<Range>) returns (kept: seq<Reference>)
    requires forall f :: f in found ==> f.start < f.end
    ensures Separate(kept) && forall i :: 0 <= i < |kept| ==> kept[i] in found && !IsInside(kept[i].start, skipped)
    ensures forall f :: f in found ==> Settled(f, skipped, kept)
  {
    var sorted := SortReferences(found);
    SortedReferences(found);
    kept := [];
    var cursor: int := -1;
    for i := 0 to |sorted|
      invariant KeptFrom(sorted, i, skipped, kept, cursor)
    {
      assert sorted[i] in sorted;
      if sorted[i].start < cursor || IsInside(sorted[i].start, skipped) {
        SkipsNext(sorted, i, skipped, kept, cursor);
      } else {
        KeepsNext(sorted, i, skipped, kept, cursor);
        kept := kept + [sorted[i]];
        cursor := sorted[i].end;
      }
    }
    forall f | f in found
      ensures Settled(f, skipped, kept)
    {
      var k :| 0 <= k < |sorted| && sorted[k] == f;
    }
  }

  // ----- inlining -----

  /** What is known of an attachment; `data` once it is inlined. */
  datatype Attachment = Attachment(size: nat, data: Option<Bytes>)

  /** The vault as one export sees it: sizes from the listing, contents where they can be read. */
  datatype Source = Source(listing: map<Path, nat>, contents: map<Path, Bytes>)

  datatype Limits = Limits(perFile: nat, total: nat)

  type Resolver = Reference -> Option<Path>

  type Renderer = (Reference, string) -> string

  /** The listing gives every readable file's true size. */
  ghost predicate TrueSizes(source: Source) {
    forall p :: p in source.listing && p in source.contents ==> source.listing[p] == |source.contents[p]|
  }

  predicate ShouldInline(attachment: Attachment, inlinedBytes: nat, limits: Limits) {
    attachment.data.Some? || (attachment.size <= limits.perFile && inlinedBytes + attachment.size <= limits.total)
  }

  function DataUri(mime: Path -> string, path: Path, payload: Bytes): string {
    "data:" + mime(path) + ";base64," + Base64.Encode(payload)
  }

  /** The data URI starts with the type, and the text behind `base64,` decodes to the bytes. */
  lemma DataUriShape(mime: Path -> string, path: Path, payload: Bytes)
    ensures exists text: string ::
      DataUri(mime, path, payload) == "data:" + mime(path) + ";base64," + text && Base64.Decode(text) == Some(payload)
  {
    Base64.RoundTrip(payload);
    assert DataUri(mime, path, payload) == "data:" + mime(path) + ";base64," + Base64.Encode(payload);
  }

  /** Bytes of the inlined files, each once. */
  function InlinedSum(order: seq<Path>, table: map<Path, Attachment>): nat
    requires forall p :: p in order ==> p in table
  {
    if order == [] then 0
    else
      var path := order[|order| - 1];
      InlinedSum(order[..|order| - 1], table) + if table[path].data.Some? then |table[path].data.value| else 0
  }

  lemma {:induction false} SumKept(order: seq<Path>, table: map<Path, Attachment>, path: Path, attachment: Attachment)
    requires (forall p :: p in order ==> p in table) && path !in order
    ensures InlinedSum(order, table[path := attachment]) == InlinedSum(order, table)
  {
    if order != [] {
      assert order[|order| - 1] in order;
      SumKept(order[..|order| - 1], table, path, attachment);
    }
  }

  lemma SumMore(order: seq<Path>, table: map<Path, Attachment>, path: Path, attachment: Attachment)
    requires (forall p :: p in order ==> p in table) && path !in order
    ensures InlinedSum(order + [path], table[path := attachment]) ==
      InlinedSum(order, table) + if attachment.data.Some? then |attachment.data.value| else 0
  {
    SumKept(order, table, path, attachment);
    assert (order + [path])[..|order|] == order;
  }

  /** The state of one export. */
  datatype Progress = Progress(
    edits: seq<Edit>, order: seq<Path>, table: map<Path, Attachment>, inlinedBytes: nat, truncated: bool)

  /** A file that is listed but not inlined was refused for its size, or turned out too large. */
  ghost predicate Refused(source: Source, limits: Limits, path: Path, inlinedBytes: nat) {
    path in source.listing &&
    (source.listing[path] > limits.perFile || inlinedBytes + source.listing[path] > limits.total
     || (path in source.contents && |source.contents[path]| > limits.perFile))
  }

  /** Attachments are listed once each in order of appearance; inlined ones hold the file's bytes, within the limits. */
  ghost predicate Holds(p: Progress, source: Source, limits: Limits) {
    && NoRepeats(p.order) && (forall path :: path in p.order <==> path in p.table)
    && p.inlinedBytes == InlinedSum(p.order, p.table)
    && (TrueSizes(source) ==> p.inlinedBytes <= limits.total)
    && forall path :: path in p.table ==>
         && path in source.listing && p.table[path].size == source.listing[path]
         && (p.table[path].data.Some? ==>
               path in source.contents && p.table[path].data.value == source.contents[path]
                 && |source.contents[path]| <= limits.perFile)
         && (p.table[path].data.None? ==> Refused(source, limits, path, p.inlinedBytes))
  }

  /** The edits replace references among the first i, one behind the other, by their two forms. */
  ghost predicate EditsHold(
    edits: seq<Edit>, refs: seq<Reference>, i: nat, table: map<Path, Attachment>, resolve: Resolver, render: Renderer,
    url: Path -> string, mime: Path -> string)
  {
    && (forall k :: 0 <= k < |edits| ==> EditOf(edits[k], refs, i, table, resolve, render, url, mime))
    && forall a, b :: 0 <= a < b < |edits| ==> edits[a].end <= edits[b].start
  }

  ghost predicate EditOf(
    edit: Edit, refs: seq<Reference>, i: nat, table: map<Path, Attachment>, resolve: Resolver, render: Renderer,
    url: Path -> string, mime: Path -> string)
  {
    exists k :: 0 <= k < i && k < |refs| && IsEditOf(edit, refs[k], table, resolve, render, url, mime)
  }

  ghost predicate IsEditOf(
    edit: Edit, reference: Reference, table: map<Path, Attachment>, resolve: Resolver, render: Renderer,
    url: Path -> string, mime: Path -> string)
  {
    var path := resolve(reference);
    && path.Some? && path.value in table && table[path.value].data.Some?
    && edit.start == reference.start && edit.end == reference.end
    && edit.urlForm == render(reference, url(path.value))
    && edit.inlineForm == render(reference, DataUri(mime, path.value, table[path.value].data.value))
  }

  /** Adds a path, or finds it; reads it when it fits. Answers the attachment when it is inlined. */
  method Inline(p: Progress, source: Source, limits: Limits, path: Path) returns (next: Progress, inlined: bool)
    requires Holds(p, source, limits) && path in source.listing
    ensures Holds(next, source, limits) && next.edits == p.edits
    ensures forall q :: q in p.table ==> q in next.table && next.table[q] == p.table[q]
    ensures forall q :: q in next.table ==> q in p.table || q == path
    ensures inlined <==> path in next.table && next.table[path].data.Some?
    ensures path in next.table || path !in source.contents
    ensures next.truncated == (p.truncated || (!inlined && (path in next.table)))
  {
    var known := path in p.table;
    var attachment := if known then p.table[path] else Attachment(source.listing[path], None);
    if !ShouldInline(attachment, p.inlinedBytes, limits) {
      inlined := false;
      next := if known then p.(truncated := true) else WithNew(p, path, attachment).(truncated := true);
      if !known {
        AddRefused(p, source, limits, path);
      }
    } else if attachment.data.Some? {
      next, inlined := p, true;
    } else if path !in source.contents {
      assert !known;
      next, inlined := p, false;
    } else if |source.contents[path]| > limits.perFile {
      inlined := false;
      next := if known then p.(truncated := true) else WithNew(p, path, attachment).(truncated := true);
      if !known {
        AddRefused(p, source, limits, path);
      }
    } else {
      assert !known;
      inlined := true;
      AddInlined(p, source, limits, path);
      next := WithNew(p, path, attachment.(data := Some(source.contents[path])));
      next := next.(inlinedBytes := p.inlinedBytes + |source.contents[path]|);
    }
  }

  function WithNew(p: Progress, path: Path, attachment: Attachment): Progress {
    p.(order := p.order + [path], table := p.table[path := attachment])
  }

  lemma AddRefused(p: Progress, source: Source, limits: Limits, path: Path)
    requires Holds(p, source, limits) && path !in p.table && path in source.listing
    requires Refused(source, limits, path, p.inlinedBytes)
    ensures Holds(WithNew(p, path, Attachment(source.listing[path], None)).(truncated := true), source, limits)
  {
    hide InlinedSum, Refused;
    SumMore(p.order, p.table, path, Attachment(source.listing[path], None));
  }

  lemma AddInlined(p: Progress, source: Source, limits: Limits, path: Path)
    requires Holds(p, source, limits) && path !in p.table && path in source.listing && path in source.contents
    requires |source.contents[path]| <= limits.perFile
    requires TrueSizes(source) ==> p.inlinedBytes + |source.contents[path]| <= limits.total
    ensures Holds(
      WithNew(p, path, Attachment(source.listing[path], Some(source.contents[path])))
        .(inlinedBytes := p.inlinedBytes + |source.contents[path]|), source, limits)
  {
    hide InlinedSum;
    SumMore(p.order, p.table, path, Attachment(source.listing[path], Some(source.contents[path])));
  }

  lemma EditKept(
    edit: Edit, refs: seq<Reference>, i: nat, j: nat, table: map<Path, Attachment>, table': map<Path, Attachment>,
    resolve: Resolver, render: Renderer, url: Path -> string, mime: Path -> string)
    requires EditOf(edit, refs, i, table, resolve, render, url, mime) && i <= j
    requires forall q :: q in table && table[q].data.Some? ==> q in table' && table'[q] == table[q]
    ensures EditOf(edit, refs, j, table', resolve, render, url, mime)
  {
    var k :| 0 <= k < i && k < |refs| && IsEditOf(edit, refs[k], table, resolve, render, url, mime);
    assert IsEditOf(edit, refs[k], table', resolve, render, url, mime);
  }

  /** Edits of earlier references stay as they are, and end before the next reference. */
  lemma EditsKept(
    edits: seq<Edit>, refs: seq<Reference>, i: nat, table: map<Path, Attachment>, table': map<Path, Attachment>,
    resolve: Resolver, render: Renderer, url: Path -> string, mime: Path -> string)
    requires EditsHold(edits, refs, i, table, resolve, render, url, mime) && i < |refs| && Separate(refs)
    requires forall q :: q in table && table[q].data.Some? ==> q in table' && table'[q] == table[q]
    ensures EditsHold(edits, refs, i + 1, table', resolve, render, url, mime)
    ensures forall k :: 0 <= k < |edits| ==> edits[k].end <= refs[i].start
  {
    forall k | 0 <= k < |edits|
      ensures EditOf(edits[k], refs, i + 1, table', resolve, render, url, mime) && edits[k].end <= refs[i].start
    {
      EditKept(edits[k], refs, i, i + 1, table, table', resolve, render, url, mime);
      var r :| 0 <= r < i && r < |refs| && IsEditOf(edits[k], refs[r], table, resolve, render, url, mime);
    }
  }

  lemma EditsMore(
    edits: seq<Edit>, refs: seq<Reference>, i: nat, table: map<Path, Attachment>, edit: Edit,
    resolve: Resolver, render: Renderer, url: Path -> string, mime: Path -> string)
    requires EditsHold(edits, refs, i + 1, table, resolve, render, url, mime) && i < |refs|
    requires forall k :: 0 <= k < |edits| ==> edits[k].end <= refs[i].start
    requires IsEditOf(edit, refs[i], table, resolve, render, url, mime)
    ensures EditsHold(edits + [edit], refs, i + 1, table, resolve, render, url, mime)
  {
    assert EditOf(edit, refs, i + 1, table, resolve, render, url, mime);
  }

  ghost predicate HasEdit(edits: seq<Edit>, reference: Reference) {
    exists k :: 0 <= k < |edits| && edits[k].start == reference.start && edits[k].end == reference.end
  }

  /** A handled reference: its file is an attachment unless it cannot be read, and has an edit when inlined. */
  ghost predicate Accounted(p: Progress, f: Reference, source: Source, resolve: Resolver) {
    resolve(f).Some? ==>
      var path := resolve(f).value;
      && (path in p.table || path !in source.contents)
      && (path in p.table && p.table[path].data.Some? ==> HasEdit(p.edits, f))
  }

  /** The reference's file is an attachment that was not inlined. */
  ghost predicate LeftOut(p: Progress, f: Reference, resolve: Resolver) {
    resolve(f).Some? && resolve(f).value in p.table && p.table[resolve(f).value].data.None?
  }

  /** The first i references are handled; the export is truncated exactly when one of their files was left out. */
  ghost predicate AllAccounted(p: Progress, refs: seq<Reference>, i: nat, source: Source, resolve: Resolver)
    requires i <= |refs|
  {
    && (forall k :: 0 <= k < i ==> Accounted(p, refs[k], source, resolve))
    && (p.truncated <==> exists k :: 0 <= k < i && LeftOut(p, refs[k], resolve))
  }

  /** Entries stay, only the reference's own file may join them, and edits stay. */
  ghost predicate Extends(p: Progress, next: Progress, path: Option<Path>) {
    && (forall q :: q in p.table ==> q in next.table && next.table[q] == p.table[q])
    && (forall q :: q in next.table ==> q in p.table || path == Some(q))
    && forall f :: HasEdit(p.edits, f) ==> HasEdit(next.edits, f)
  }

  lemma AccountedKept(
    p: Progress, next: Progress, path: Option<Path>, f: Reference, source: Source, limits: Limits, resolve: Resolver)
    requires Extends(p, next, path) && Accounted(p, f, source, resolve) && Holds(next, source, limits)
    ensures Accounted(next, f, source, resolve)
    ensures LeftOut(p, f, resolve) ==> LeftOut(next, f, resolve)
    ensures LeftOut(next, f, resolve) ==> LeftOut(p, f, resolve) || path == resolve(f)
  {
  }

  lemma AccountedNext(
    p: Progress, next: Progress, refs: seq<Reference>, i: nat, source: Source, limits: Limits, resolve: Resolver)
    requires i < |refs| && AllAccounted(p, refs, i, source, resolve) && Holds(next, source, limits)
    requires Extends(p, next, resolve(refs[i])) && Accounted(next, refs[i], source, resolve)
    requires next.truncated == (p.truncated || LeftOut(next, refs[i], resolve))
    ensures AllAccounted(next, refs, i + 1, source, resolve)
  {
    forall k | 0 <= k < i
      ensures Accounted(next, refs[k], source, resolve)
      ensures LeftOut(p, refs[k], resolve) ==> LeftOut(next, refs[k], resolve)
      ensures LeftOut(next, refs[k], resolve) ==> LeftOut(p, refs[k], resolve) || resolve(refs[i]) == resolve(refs[k])
    {
      AccountedKept(p, next, resolve(refs[i]), refs[k], source, limits, resolve);
    }
  }

  /** Handles one reference: none of the vault's files, or an attachment that is inlined or left alone. */
  method HandleReference(
    p: Progress, refs: seq<Reference>, i: nat, source: Source, limits: Limits, resolve: Resolver, render: Renderer,
    url: Path -> string, mime: Path -> string)
    returns (next: Progress)
    requires i < |refs| && Separate(refs) && Holds(p, source, limits)
    requires EditsHold(p.edits, refs, i, p.table, resolve, render, url, mime)
    requires forall f :: resolve(f).Some? ==> resolve(f).value in source.listing
    requires AllAccounted(p, refs, i, source, resolve)
    ensures Holds(next, source, limits) && EditsHold(next.edits, refs, i + 1, next.table, resolve, render, url, mime)
    ensures AllAccounted(next, refs, i + 1, source, resolve)
  {
    hide Holds, EditsHold, IsEditOf, Separate, AllAccounted, HasEdit;
    var path := resolve(refs[i]);
    if path.None? {
      KeepEdits(p, refs, i, resolve, render, url, mime);
      next := p;
    } else {
      var inlined;
      next, inlined := Inline(p, source, limits, path.value);
      EditsKept(p.edits, refs, i, p.table, next.table, resolve, render, url, mime);
      if inlined {
        next := WithEdit(next, refs, i, source, limits, path.value, resolve, render, url, mime);
      }
    }
    AccountedNext(p, next, refs, i, source, limits, resolve);
  }

  lemma KeepEdits(
    p: Progress, refs: seq<Reference>, i: nat, resolve: Resolver, render: Renderer, url: Path -> string,
      mime: Path -> string)
    requires i < |refs| && Separate(refs) && EditsHold(p.edits, refs, i, p.table, resolve, render, url, mime)
    ensures EditsHold(p.edits, refs, i + 1, p.table, resolve, render, url, mime)
  {
    EditsKept(p.edits, refs, i, p.table, p.table, resolve, render, url, mime);
  }

  /** Adds the edit of an inlined reference. */
  method WithEdit(
    p: Progress, refs: seq<Reference>, i: nat, ghost source: Source, ghost limits: Limits, path: Path,
    resolve: Resolver, render: Renderer, url: Path -> string, mime: Path -> string)
    returns (next: Progress)
    requires i < |refs| && Holds(p, source, limits) && path in p.table && p.table[path].data.Some?
    requires resolve(refs[i]) == Some(path) && EditsHold(p.edits, refs, i + 1, p.table, resolve, render, url, mime)
    requires forall k :: 0 <= k < |p.edits| ==> p.edits[k].end <= refs[i].start
    ensures Holds(next, source, limits) && EditsHold(next.edits, refs, i + 1, next.table, resolve, render, url, mime)
    ensures next.table == p.table && next.truncated == p.truncated && HasEdit(next.edits, refs[i])
    ensures forall f :: HasEdit(p.edits, f) ==> HasEdit(next.edits, f)
  {
    var edit := Edit(
      refs[i].start, refs[i].end, render(refs[i], url(path)),
      render(refs[i], DataUri(mime, path, p.table[path].data.value)));
    EditsMore(p.edits, refs, i, p.table, edit, resolve, render, url, mime);
    next := p.(edits := p.edits + [edit]);
    assert next.edits[|p.edits|] == edit;
    forall f | HasEdit(p.edits, f)
      ensures HasEdit(next.edits, f)
    {
      var k :| 0 <= k < |p.edits| && p.edits[k].start == f.start && p.edits[k].end == f.end;
      assert next.edits[k] == p.edits[k];
    }
  }

  datatype Export = Export(markdown: string, inlinedMarkdown: string, progress: Progress)

  lemma EditsFit(
    edits: seq<Edit>, refs: seq<Reference>, table: map<Path, Attachment>, resolve: Resolver, render: Renderer,
    url: Path -> string, mime: Path -> string, length: nat)
    requires EditsHold(edits, refs, |refs|, table, resolve, render, url, mime)
    requires forall k :: 0 <= k < |refs| ==> refs[k].start <= refs[k].end <= length
    ensures InSequence(edits, length)
  {
    forall i | 0 <= i < |edits|
      ensures edits[i].start <= edits[i].end <= length
    {
      assert EditOf(edits[i], refs, |refs|, table, resolve, render, url, mime);
    }
  }

  /**
    Both outputs are the note with the same spans replaced: those of references outside code, one behind
    the other, whose file was inlined. Each inlined file is counted once, with true sizes the count stays
    within the limit, and the export is truncated exactly when the file of some reference was left out.
  */
  method Prepare(
    text: string, found: seq<Reference>, source: Source, limits: Limits, resolve: Resolver, render: Renderer,
    url: Path -> string, mime: Path -> string)
    returns (result: Export, ghost refs: seq<Reference>, ghost skipped: seq<Range>)
    requires forall f :: f in found ==> f.start < f.end <= |text|
    requires forall f :: resolve(f).Some? ==> resolve(f).value in source.listing
    ensures CoversUpTo(skipped, SplitLines(text), |SplitLines(text)|)
    ensures Separate(refs) && forall i :: 0 <= i < |refs| ==> refs[i] in found && !IsInside(refs[i].start, skipped)
    ensures forall f :: f in found ==> Settled(f, skipped, refs)
    ensures Holds(result.progress, source, limits) && AllAccounted(result.progress, refs, |refs|, source, resolve)
    ensures EditsHold(result.progress.edits, refs, |refs|, result.progress.table, resolve, render, url, mime)
    ensures InSequence(result.progress.edits, |text|)
    ensures
      var urls, inlines := AsHunks(text, result.progress.edits, false), AsHunks(text, result.progress.edits, true);
      && InOrder(urls) && InOrder(inlines) && AllMatch(text, urls) && AllMatch(text, inlines)
      && result.markdown == Splice(text, urls) && result.inlinedMarkdown == Splice(text, inlines)
  {
    hide Holds, EditsHold, InSequence, Separate, AllAccounted, Settled, CoversUpTo;
    var ranges := FindRanges(text);
    var kept := KeepReferences(found, ranges);
    refs, skipped := kept, ranges;
    var p := Progress([], [], map[], 0, false);
    NothingYet(refs, source, limits, resolve, render, url, mime);
    for i := 0 to |kept|
      invariant Holds(p, source, limits) && EditsHold(p.edits, refs, i, p.table, resolve, render, url, mime)
      invariant AllAccounted(p, refs, i, source, resolve)
    {
      p := HandleReference(p, kept, i, source, limits, resolve, render, url, mime);
    }
    EditsFit(p.edits, refs, p.table, resolve, render, url, mime, |text|);
    var markdown := ApplyEdits(text, p.edits, false);
    var inlined := ApplyEdits(text, p.edits, true);
    result := Export(markdown, inlined, p);
  }

  lemma NothingYet(
    refs: seq<Reference>, source: Source, limits: Limits, resolve: Resolver, render: Renderer,
    url: Path -> string, mime: Path -> string)
    ensures Holds(Progress([], [], map[], 0, false), source, limits)
    ensures EditsHold([], refs, 0, map[], resolve, render, url, mime)
    ensures AllAccounted(Progress([], [], map[], 0, false), refs, 0, source, resolve)
  {
  }
}
