/** The artefact upload handler: the checks a submitted form must pass, the
    name and storage key the file is stored under, and whether the upload
    replaces an existing document of the organisation or adds one.

    The parsed form, the organisation's name, the storage folder and the
    organisation's documents are parameters; the object store, reading the
    temporary file and the document processing that follows are not part of
    this model. The documents are tracked through the columns the existence
    check reads, so that the two handlers can be related. */
module Upload {
  import opened Common
  import opened Text
  import opened FileTypes
  import CheckExists

  /** 20 MiB. */
  const MaxFileSize := 20 * 1024 * 1024

  /** The parts of a parsed file the handler reads. */
  datatype UploadedFile = UploadedFile(originalFilename: Option<string>, size: int, mimetype: Option<string>)

  /** `files.file` as the form parser hands it over: absent, one file, or a list. */
  datatype FileField = NoFile | OneFile(file: UploadedFile) | ManyFiles(files: seq<UploadedFile>)

  /** The four 400 answers, in the order they are checked. */
  datatype UploadError = NoFileUploaded | InvalidFile | CategoryRequired | TooLarge(fileName: string)

  function ErrorMessage(e: UploadError): string
  {
    match e
    case NoFileUploaded => "No file uploaded"
    case InvalidFile => "Invalid file uploaded"
    case CategoryRequired => "Category is required"
    case TooLarge(name) => "The file \"" + name + "\" exceeds 20MB size limit."
  }

  /** An upload that passed the checks, with the name it is stored under. */
  datatype Accepted = Accepted(fileName: string, originalFilename: string, category: string, description: string, size: int)

  /** `Array.isArray(files.file) ? files.file[0] : files.file`; an empty list has no first file. */
  function FirstFile(field: FileField): Option<UploadedFile>
  {
    match field
    case NoFile => None
    case OneFile(f) => Some(f)
    case ManyFiles(fs) => if fs == [] then None else Some(fs[0])
  }

  /** The form passes the two file checks. */
  predicate HasNamedFile(field: FileField)
  {
    FirstFile(field).Some? && Present(FirstFile(field).value.originalFilename)
  }

  /** The checks of the handler, in order; the first one that fails decides the
      answer. On success the stored name is the original name with every run
      of whitespace replaced by one `_`, and the category is not empty. */
  function ValidateUpload(field: FileField, category: Option<string>, description: Option<string>): (r: Result<Accepted, UploadError>)
    ensures r == Err(NoFileUploaded) <==> field.NoFile?
    ensures r == Err(InvalidFile) <==> !field.NoFile? && !HasNamedFile(field)
    ensures r == Err(CategoryRequired) <==> HasNamedFile(field) && !Present(category)
    ensures (r.Err? && r.error.TooLarge?) <==>
      HasNamedFile(field) && Present(category) && FirstFile(field).value.size > MaxFileSize
    ensures r.Ok? ==>
      && HasNamedFile(field)
      && r.value.originalFilename == FirstFile(field).value.originalFilename.value
      && r.value.fileName == ReplaceWhitespaceRuns(r.value.originalFilename)
      && r.value.category != "" && Some(r.value.category) == category
      && r.value.size <= MaxFileSize
  {
    if field.NoFile? then Err(NoFileUploaded)
    else if !HasNamedFile(field) then Err(InvalidFile)
    else
      var file := FirstFile(field).value;
      var cat := OrElse(category, "");
      if cat == "" then Err(CategoryRequired)
      else if file.size > MaxFileSize then Err(TooLarge(file.originalFilename.value))
      else
        var original := file.originalFilename.value;
        Ok(Accepted(ReplaceWhitespaceRuns(original), original, cat, OrElse(description, ""), file.size))
  }

  /** `s.replace(/ /g, '_')`: only the space character is replaced. */
  function ReplaceSpaces(s: string): string
  {
    seq(|s|, i requires 0 <= i < |s| => if s[i] == ' ' then '_' else s[i])
  }

  /** `org_name.toLowerCase().replace(/ /g, '_')`: each space becomes `_`,
      upper-case ASCII letters are lowered, and nothing else changes. */
  function CompanyName(orgName: string): (r: string)
    ensures |r| == |orgName|
    ensures forall i :: 0 <= i < |r| ==> r[i] != ' ' && !('A' <= r[i] <= 'Z')
    ensures forall i :: 0 <= i < |r| && orgName[i] == ' ' ==> r[i] == '_'
    ensures forall i :: 0 <= i < |r| && orgName[i] != ' ' ==> r[i] == LowerChar(orgName[i])
  {
    ReplaceSpaces(ToLower(orgName))
  }

  /** The folder under which an organisation's files are stored. */
  function Prefix(folder: string, orgName: string): string
  {
    folder + "/" + CompanyName(orgName) + "/files/"
  }

  /** The key a file is stored under: the prefix followed by the stored name. */
  function DestinationKey(folder: string, orgName: string, originalFilename: string): (r: string)
    ensures StartsWith(r, Prefix(folder, orgName))
    ensures NoWhitespace(r[|Prefix(folder, orgName)|..])
  {
    var p := Prefix(folder, orgName);
    var key := p + ReplaceWhitespaceRuns(originalFilename);
    assert key[|p|..] == ReplaceWhitespaceRuns(originalFilename);
    key
  }

  /** Within one organisation two uploads share a storage key exactly when
      their names clean to the same stored name. */
  lemma SameKeySameName(folder: string, orgName: string, a: string, b: string)
    ensures DestinationKey(folder, orgName, a) == DestinationKey(folder, orgName, b)
      <==> ReplaceWhitespaceRuns(a) == ReplaceWhitespaceRuns(b)
  {
    var p := Prefix(folder, orgName);
    if DestinationKey(folder, orgName, a) == DestinationKey(folder, orgName, b) {
      assert DestinationKey(folder, orgName, a)[|p|..] == ReplaceWhitespaceRuns(a);
      assert DestinationKey(folder, orgName, b)[|p|..] == ReplaceWhitespaceRuns(b);
    }
  }

  /** Whether the upload replaced a document or added one. */
  datatype Written = Updated | Inserted

  function SuccessMessage(w: Written): string
  {
    match w
    case Updated => "Artefact updated successfully"
    case Inserted => "Artefact uploaded successfully"
  }

  /** The first document carrying `name`: the `existingFile` of the handler. */
  function FirstNamed(table: seq<CheckExists.DocumentRow>, name: string): (r: Option<nat>)
    ensures r.Some? ==> (r.value < |table| && table[r.value].name == name
      && forall j :: 0 <= j < r.value ==> table[j].name != name)
    ensures r.None? <==> forall j :: 0 <= j < |table| ==> table[j].name != name
  {
    if table == [] then None
    else if table[0].name == name then Some(0)
    else
      var rest := FirstNamed(table[1..], name);
      if rest.Some? then Some(rest.value + 1) else None
  }

  /** The category name a stored document ends up joined with: none for
      `Uncategorized`, whose category id is left null, and otherwise the
      category of that name, found or created. */
  function CategoryColumn(category: string): Option<string>
  {
    if category == "Uncategorized" then None else Some(category)
  }

  /** The organisation's documents after the upload is recorded. An existing
      document of the same name (the first one) is updated in place and no
      other changes; otherwise one row with the fresh id is appended. */
  function Write(table: seq<CheckExists.DocumentRow>, u: Accepted, newId: int, now: string)
    : (r: (seq<CheckExists.DocumentRow>, Written))
    ensures r.1 == Updated <==> exists j :: 0 <= j < |table| && table[j].name == u.fileName
    ensures r.1 == Updated ==>
      var i := FirstNamed(table, u.fileName).value;
      && |r.0| == |table|
      && r.0[i] == table[i].(categoryName := CategoryColumn(u.category), updatedAt := now)
      && forall j :: 0 <= j < |table| && j != i ==> r.0[j] == table[j]
    ensures r.1 == Inserted ==>
      r.0 == table + [CheckExists.DocumentRow(newId, u.fileName, CategoryColumn(u.category), now)]
  {
    var existing := FirstNamed(table, u.fileName);
    if existing.Some? then
      var i := existing.value;
      (table[i := table[i].(categoryName := CategoryColumn(u.category), updatedAt := now)], Updated)
    else
      (table + [CheckExists.DocumentRow(newId, u.fileName, CategoryColumn(u.category), now)], Inserted)
  }

  /** The upload handler from the parsed form on: the checks, then the key and
      the recorded documents. */
  datatype Stored = Stored(documents: seq<CheckExists.DocumentRow>, key: string, written: Written, fileType: string, description: string)

  function HandleUpload(folder: string, orgName: string, field: FileField, category: Option<string>,
                        description: Option<string>, table: seq<CheckExists.DocumentRow>, newId: int, now: string)
    : (r: Result<Stored, UploadError>)
    ensures r.Err? <==> ValidateUpload(field, category, description).Err?
    ensures r.Err? ==> r.error == ValidateUpload(field, category, description).error
    ensures r.Ok? ==>
      var u := ValidateUpload(field, category, description).value;
      && r.value.key == Prefix(folder, orgName) + u.fileName
      && r.value.fileType == TypeByExtension(u.fileName)
      && (r.value.written == Updated <==> exists j :: 0 <= j < |table| && table[j].name == u.fileName)
      && r.value.documents == Write(table, u, newId, now).0
      && (r.value.description == "-" <==> u.description == "" || u.description == "-")
      && (u.description != "" ==> r.value.description == u.description)
  {
    var v := ValidateUpload(field, category, description);
    if v.Err? then Err(v.error)
    else
      var u := v.value;
      var w := Write(table, u, newId, now);
      Ok(Stored(w.0, DestinationKey(folder, orgName, u.originalFilename), w.1, TypeByExtension(u.fileName),
                if u.description == "" then "-" else u.description))
  }

  /** After the write, the first document carrying the stored name is the one
      the upload wrote. */
  lemma WrittenFirst(table: seq<CheckExists.DocumentRow>, u: Accepted, newId: int, now: string)
    ensures var after := Write(table, u, newId, now).0;
      && FirstNamed(after, u.fileName).Some?
      && var i := FirstNamed(after, u.fileName).value;
        && after[i].categoryName == CategoryColumn(u.category)
        && after[i].updatedAt == now
  {
    var w := Write(table, u, newId, now);
    var i := if w.1 == Updated then FirstNamed(table, u.fileName).value else |table|;
    assert w.0[i].name == u.fileName;
    assert forall j :: 0 <= j < i ==> w.0[j].name != u.fileName;
  }

  /** An accepted upload is found at once by the existence check asked about
      the same original name: it reports the stored name, the category the
      upload gave (`Uncategorized` included) and the time of the upload. */
  lemma UploadThenCheck(field: FileField, category: Option<string>, description: Option<string>,
                        table: seq<CheckExists.DocumentRow>, newId: int, now: string, fileNames: Option<seq<string>>)
    requires ValidateUpload(field, category, description).Ok?
    ensures var u := ValidateUpload(field, category, description).value;
      var r := CheckExists.Check(Some(u.originalFilename), fileNames, Write(table, u, newId, now).0);
      && r == CheckExists.Single(true, r.fileInfo)
      && r.fileInfo.Some?
      && r.fileInfo.value.name == u.fileName
      && r.fileInfo.value.category == u.category
      && r.fileInfo.value.lastUpdated == now
  {
    var u := ValidateUpload(field, category, description).value;
    var after := Write(table, u, newId, now).0;
    WrittenFirst(table, u, newId, now);
    var i := FirstNamed(after, u.fileName).value;
    CheckExists.SingleAnswer(u.originalFilename, fileNames, after);
    var r := CheckExists.Check(Some(u.originalFilename), fileNames, after);
    var j :| 0 <= j < |after| && after[j].name == u.fileName && r.fileInfo.value == CheckExists.InfoOf(after[j])
      && forall j' :: 0 <= j' < j ==> after[j'].name != u.fileName;
    assert j == i;
  }

  /** Uploading the same file again updates the document the first upload
      left, so the organisation keeps one document for it. */
  lemma UploadTwice(table: seq<CheckExists.DocumentRow>, u: Accepted, newId: int, newId': int, now: string, now': string)
    ensures var once := Write(table, u, newId, now).0;
      && Write(once, u, newId', now').1 == Updated
      && |Write(once, u, newId', now').0| == |once|
  {
    var w := Write(table, u, newId, now);
    if w.1 == Updated {
      var i := FirstNamed(table, u.fileName).value;
      assert w.0[i].name == u.fileName;
    } else {
      assert w.0[|table|].name == u.fileName;
    }
  }
}
