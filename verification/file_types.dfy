/** The file-type label shown for an artefact, read off the file name's
    extension. The upload and list handlers each carry an identical copy of
    the table; it is defined once here. */
module FileTypes {
  import opened Common
  import opened Text

  /** The table of lower-case extensions and their labels; `None` for an
      extension the table does not list. */
  function ExtensionLabel(ext: string): Option<string>
  {
    if ext == "pdf" then Some("PDF")
    else if ext == "doc" || ext == "docx" then Some("Word")
    else if ext == "txt" then Some("TXT")
    else if ext == "csv" then Some("CSV")
    else if ext == "md" then Some("Markdown")
    else if ext == "png" || ext == "jpg" || ext == "jpeg" then Some("Image")
    else None
  }

  const Unknown := "Unknown"

  /** The labels a file can get. */
  predicate IsLabel(s: string)
  {
    s == "PDF" || s == "Word" || s == "TXT" || s == "CSV" || s == "Markdown" || s == "Image" || s == Unknown
  }

  /** `name.split('.').pop()`: the longest suffix free of `.`, which is the
      whole name when it has no `.`. */
  function Extension(name: string): (r: string)
    ensures |r| <= |name| && r == name[|name| - |r|..]
    ensures forall i :: 0 <= i < |r| ==> r[i] != '.'
    ensures |r| < |name| ==> name[|name| - |r| - 1] == '.'
  {
    if name == [] || name[|name| - 1] == '.' then []
    else Extension(name[..|name| - 1]) + [name[|name| - 1]]
  }

  /** The text after the last `.` is the extension. */
  lemma {:induction false} ExtensionAfterDot(base: string, ext: string)
    requires forall i :: 0 <= i < |ext| ==> ext[i] != '.'
    ensures Extension(base + "." + ext) == ext
  {
    var name := base + "." + ext;
    if ext != [] {
      var front := ext[..|ext| - 1];
      assert name[..|name| - 1] == base + "." + front;
      ExtensionAfterDot(base, front);
      assert ext == front + [ext[|ext| - 1]];
    }
  }

  /** A name without `.` is looked up whole. */
  lemma NoDotIsExtension(name: string)
    requires forall i :: 0 <= i < |name| ==> name[i] != '.'
    ensures Extension(name) == name
  {
  }

  /** `typeMap[extension || ''] || 'Unknown'`, the extension lower-cased first. */
  function TypeByExtension(fileName: string): (r: string)
    ensures IsLabel(r)
    ensures r == Unknown <==> ExtensionLabel(ToLower(Extension(fileName))).None?
    ensures r != Unknown ==> Some(r) == ExtensionLabel(ToLower(Extension(fileName)))
  {
    var found := ExtensionLabel(ToLower(Extension(fileName)));
    if found.Some? then found.value else Unknown
  }

  /** A name `base.ext` gets the label of `ext` whatever its case, and so does
      a bare `ext`. */
  lemma TypeOfExtension(base: string, ext: string)
    requires forall i :: 0 <= i < |ext| ==> ext[i] != '.'
    ensures TypeByExtension(base + "." + ext) == TypeByExtension(ext)
    ensures ExtensionLabel(ToLower(ext)).Some? ==> TypeByExtension(ext) == ExtensionLabel(ToLower(ext)).value
  {
    ExtensionAfterDot(base, ext);
    NoDotIsExtension(ext);
  }

  /** `pdf` on its own is a PDF. */
  lemma BarePdf()
    ensures TypeByExtension("pdf") == "PDF"
  {
    NoDotIsExtension("pdf");
    assert ToLower("pdf") == "pdf";
  }

  /** `Report.DOCX` is a Word file. */
  lemma UpperCaseDocx()
    ensures TypeByExtension("Report.DOCX") == "Word"
  {
    ExtensionAfterDot("Report", "DOCX");
    assert "Report" + "." + "DOCX" == "Report.DOCX";
    assert ToLower("DOCX") == "docx";
  }
}
