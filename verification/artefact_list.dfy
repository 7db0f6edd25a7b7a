/** The artefact list handler: the statistics over the organisation's
    documents, the file-type label (content type first, extension second) and
    the defaults used when a document is formatted for display.

    The documents the query returns are the parameter `docs`. Byte counts are
    kept as numbers: their human-readable rendering and the rendering of
    timestamps in the client's time zone are not part of this model. */
module ArtefactList {
  import opened Common
  import opened Text
  import opened FileTypes

  /** One row of the documents query, with its category and uploader joined in. */
  datatype DocumentRow = DocumentRow(
    id: int, name: string, contentType: Option<string>, fileSize: Option<int>, status: string,
    updatedAt: Option<string>, description: Option<string>, summarized: JsValue,
    summary: Option<string>, documentLink: Option<string>, categoryName: Option<string>,
    uploadedByName: Option<string>)

  const Processed := "processed"
  const Uncategorized := "Uncategorized"
  const NoDescription := "No description provided"
  const UnknownUser := "Unknown User"

  predicate IsProcessed(doc: DocumentRow)
  {
    doc.status == Processed
  }

  /** `doc.category_name || 'Uncategorized'`. */
  function CategoryOf(doc: DocumentRow): string
  {
    OrElse(doc.categoryName, Uncategorized)
  }

  /** `doc.file_size || 0`. */
  function SizeOf(doc: DocumentRow): int
  {
    if doc.fileSize.Some? then doc.fileSize.value else 0
  }

  /** The distinct category names, as the `Set` built over the documents. */
  function Categories(docs: seq<DocumentRow>): (r: set<string>)
    ensures |r| <= |docs|
    ensures forall c :: c in r <==> exists i :: 0 <= i < |docs| && CategoryOf(docs[i]) == c
  {
    if docs == [] then {}
    else
      var rest := Categories(docs[1..]);
      assert forall i :: 1 <= i < |docs| ==> docs[i] == docs[1..][i - 1];
      {CategoryOf(docs[0])} + rest
  }

  datatype Stats = Stats(totalArtefacts: nat, processedArtefacts: nat, totalCategories: nat, totalSizeBytes: int)

  /** The statistics block: counts of documents, of processed documents and of
      distinct categories, and the byte total with missing sizes counted as 0. */
  function ComputeStats(docs: seq<DocumentRow>): (s: Stats)
    ensures s.totalArtefacts == |docs|
    ensures s.processedArtefacts <= s.totalArtefacts
    ensures s.processedArtefacts == |set i | 0 <= i < |docs| && docs[i].status == Processed|
    ensures s.totalCategories <= s.totalArtefacts
    ensures s.totalCategories == 0 <==> docs == []
  {
    assert docs != [] ==> CategoryOf(docs[0]) in Categories(docs);
    CountIfPositions(docs, IsProcessed, 0);
    assert docs[0..] == docs;
    assert Positions(docs, IsProcessed, 0) == set i | 0 <= i < |docs| && docs[i].status == Processed;
    Stats(|docs|, CountIf(docs, IsProcessed), |Categories(docs)|, SumOf(docs, SizeOf))
  }

  /** Every category is counted, and nothing else is. */
  lemma CategoriesCounted(docs: seq<DocumentRow>)
    ensures ComputeStats(docs).totalCategories == |set i | 0 <= i < |docs| :: CategoryOf(docs[i])|
  {
    var s := set i | 0 <= i < |docs| :: CategoryOf(docs[i]);
    assert Categories(docs) == s;
  }

  /** With no negative sizes the byte total is not negative, and it is at least
      the size of each document. */
  lemma {:induction false} SizeBounds(docs: seq<DocumentRow>)
    requires forall i :: 0 <= i < |docs| ==> SizeOf(docs[i]) >= 0
    ensures ComputeStats(docs).totalSizeBytes >= 0
    ensures forall i :: 0 <= i < |docs| ==> ComputeStats(docs).totalSizeBytes >= SizeOf(docs[i])
  {
    if docs != [] {
      SizeBounds(docs[1..]);
      forall i | 1 <= i < |docs| ensures SizeOf(docs[1..][i - 1]) == SizeOf(docs[i]) {
        assert docs[1..][i - 1] == docs[i];
      }
    }
  }

  /** A row whose `file_size` is set. */
  predicate HasSize(doc: DocumentRow)
  {
    doc.fileSize.Some?
  }

  /** The byte total is the sum of the sizes of the rows that have one: a row
      without a size adds nothing. */
  lemma {:induction false} SizesAddUp(docs: seq<DocumentRow>)
    ensures forall i :: 0 <= i < |docs| && HasSize(docs[i]) ==> SizeOf(docs[i]) == docs[i].fileSize.value
    ensures ComputeStats(docs).totalSizeBytes == SumOf(Filter(docs, HasSize), SizeOf)
  {
    if docs != [] {
      SizesAddUp(docs[1..]);
      var head := if HasSize(docs[0]) then [docs[0]] else [];
      SumOfConcat(head, Filter(docs[1..], HasSize), SizeOf);
    }
  }

  function ProcessedWeight(doc: DocumentRow): int
  {
    if IsProcessed(doc) then 1 else 0
  }

  lemma {:induction false} ProcessedAsSum(docs: seq<DocumentRow>)
    ensures CountIf(docs, IsProcessed) == SumOf(docs, ProcessedWeight)
  {
    if docs != [] {
      ProcessedAsSum(docs[1..]);
    }
  }

  /** The statistics do not depend on the order the rows come back in. */
  lemma StatsIgnoreOrder(a: seq<DocumentRow>, b: seq<DocumentRow>)
    requires multiset(a) == multiset(b)
    ensures ComputeStats(a) == ComputeStats(b)
  {
    assert |a| == |multiset(a)| == |b|;
    ProcessedAsSum(a);
    ProcessedAsSum(b);
    SumOfPermutation(a, b, ProcessedWeight);
    SumOfPermutation(a, b, SizeOf);
    forall c ensures c in Categories(a) <==> c in Categories(b) {
      if c in Categories(a) {
        var i :| 0 <= i < |a| && CategoryOf(a[i]) == c;
        assert a[i] in multiset(b);
        var j :| 0 <= j < |b| && b[j] == a[i];
      }
      if c in Categories(b) {
        var j :| 0 <= j < |b| && CategoryOf(b[j]) == c;
        assert b[j] in multiset(a);
        var i :| 0 <= i < |a| && a[i] == b[j];
      }
    }
    assert Categories(a) == Categories(b);
  }

  /** The content-type test of `getFileType`, in its priority order; `None`
      when no keyword matches. */
  function TypeByContentType(contentType: string): (r: Option<string>)
    ensures r == Some("PDF") <==> Contains(contentType, "pdf")
    ensures r == Some("Word") <==>
      !Contains(contentType, "pdf") && (Contains(contentType, "word") || Contains(contentType, "document"))
    ensures r.None? <==>
      !Contains(contentType, "pdf") && !Contains(contentType, "word") && !Contains(contentType, "document")
      && !Contains(contentType, "text/plain") && !Contains(contentType, "text/csv")
      && !Contains(contentType, "text/markdown") && !Contains(contentType, "image")
    ensures r == Some("TXT") <==>
      !Contains(contentType, "pdf") && !Contains(contentType, "word") && !Contains(contentType, "document")
      && Contains(contentType, "text/plain")
    ensures r == Some("CSV") <==>
      !Contains(contentType, "pdf") && !Contains(contentType, "word") && !Contains(contentType, "document")
      && !Contains(contentType, "text/plain") && Contains(contentType, "text/csv")
    ensures r == Some("Markdown") <==>
      !Contains(contentType, "pdf") && !Contains(contentType, "word") && !Contains(contentType, "document")
      && !Contains(contentType, "text/plain") && !Contains(contentType, "text/csv")
      && Contains(contentType, "text/markdown")
    ensures r == Some("Image") <==>
      !Contains(contentType, "pdf") && !Contains(contentType, "word") && !Contains(contentType, "document")
      && !Contains(contentType, "text/plain") && !Contains(contentType, "text/csv")
      && !Contains(contentType, "text/markdown") && Contains(contentType, "image")
  {
    if Contains(contentType, "pdf") then Some("PDF")
    else if Contains(contentType, "word") || Contains(contentType, "document") then Some("Word")
    else if Contains(contentType, "text/plain") then Some("TXT")
    else if Contains(contentType, "text/csv") then Some("CSV")
    else if Contains(contentType, "text/markdown") then Some("Markdown")
    else if Contains(contentType, "image") then Some("Image")
    else None
  }

  /** The list handler's `getFileType`: a matching content type decides, and
      only otherwise does the extension of the name. */
  function GetFileType(contentType: Option<string>, fileName: string): (r: string)
    ensures IsLabel(r)
    ensures Present(contentType) && TypeByContentType(contentType.value).Some? ==> r == TypeByContentType(contentType.value).value
    ensures !Present(contentType) || TypeByContentType(contentType.value).None? ==> r == TypeByExtension(fileName)
  {
    if Present(contentType) && TypeByContentType(contentType.value).Some? then TypeByContentType(contentType.value).value
    else TypeByExtension(fileName)
  }

  /** `lastUpdated`: the rendering of a timestamp is left abstract. */
  datatype LastUpdated = UnknownTime | At(timestamp: string)

  /** One document as the frontend receives it. */
  datatype Formatted = Formatted(
    id: int, name: string, description: string, category: string, fileType: string,
    sizeBytes: int, status: string, uploadedBy: string, lastUpdated: LastUpdated,
    artefact: string, publicUrl: Option<string>, summarized: string, summary: Option<string>,
    contentType: Option<string>, fileSize: Option<int>, updatedAt: Option<string>)

  /** The per-document formatting: a present value is shown as it is, a missing
      or empty one gets its default, so no shown text is ever empty, and
      `summarized` is `Yes` exactly when the stored flag is truthy. */
  function Format(doc: DocumentRow): (f: Formatted)
    ensures f.id == doc.id && f.name == doc.name && f.artefact == doc.name && f.status == doc.status
    ensures f.description != "" && f.category != "" && f.uploadedBy != ""
    ensures Present(doc.description) ==> f.description == doc.description.value
    ensures !Present(doc.description) ==> f.description == NoDescription
    ensures Present(doc.categoryName) ==> f.category == doc.categoryName.value
    ensures !Present(doc.categoryName) ==> f.category == Uncategorized
    ensures Present(doc.uploadedByName) ==> f.uploadedBy == doc.uploadedByName.value
    ensures !Present(doc.uploadedByName) ==> f.uploadedBy == UnknownUser
    ensures f.summarized == "Yes" <==> Truthy(doc.summarized)
    ensures f.summarized == "No" <==> !Truthy(doc.summarized)
    ensures f.lastUpdated.UnknownTime? <==> !Present(doc.updatedAt)
    ensures Present(doc.updatedAt) ==> f.lastUpdated == At(doc.updatedAt.value)
    ensures IsLabel(f.fileType) && f.fileType == GetFileType(doc.contentType, doc.name)
    ensures f.sizeBytes == SizeOf(doc) && (HasSize(doc) ==> f.sizeBytes == doc.fileSize.value)
    ensures f.publicUrl == doc.documentLink && f.summary == doc.summary
    ensures f.contentType == doc.contentType && f.fileSize == doc.fileSize && f.updatedAt == doc.updatedAt
  {
    Formatted(
      doc.id, doc.name, OrElse(doc.description, NoDescription), CategoryOf(doc),
      GetFileType(doc.contentType, doc.name), SizeOf(doc), doc.status,
      OrElse(doc.uploadedByName, UnknownUser),
      if Present(doc.updatedAt) then At(doc.updatedAt.value) else UnknownTime,
      doc.name, doc.documentLink, if Truthy(doc.summarized) then "Yes" else "No", doc.summary,
      doc.contentType, doc.fileSize, doc.updatedAt)
  }

  datatype Listing = Listing(artefacts: seq<Formatted>, stats: Stats, message: string)

  const NoneFound := "No artefacts found"

  /** The handler's answer: one formatted document per row, in the query's
      order, the statistics, and a message that says whether any were found. */
  function ListArtefacts(docs: seq<DocumentRow>): (r: Listing)
    ensures |r.artefacts| == |docs|
    ensures forall i :: 0 <= i < |docs| ==> r.artefacts[i] == Format(docs[i])
    ensures r.stats == ComputeStats(docs)
    ensures r.message == NoneFound <==> docs == []
  {
    var artefacts := seq(|docs|, i requires 0 <= i < |docs| => Format(docs[i]));
    Listing(artefacts, ComputeStats(docs),
            if |artefacts| > 0 then "Artefacts fetched successfully" else NoneFound)
  }
}
