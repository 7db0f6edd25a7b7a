/** The existence check run before an upload: which of the names a client
    sends already name a document of the caller's organisation, after the
    same whitespace cleaning the upload applies.

    The organisation's documents, joined with their category names, are the
    parameter `table`; the two queries of the handler become selections from
    it that keep the table's order. Authentication and the organisation lookup
    are not part of this model. */
module CheckExists {
  import opened Common
  import opened Text

  /** One row of the organisation's documents joined with its category. */
  datatype DocumentRow = DocumentRow(id: int, name: string, categoryName: Option<string>, updatedAt: string)

  /** What the response reports about a document that exists. */
  datatype FileInfo = FileInfo(id: int, name: string, category: string, lastUpdated: string)

  /** One element of the bulk answer. */
  datatype Entry = Entry(originalFileName: string, cleanedFileName: string, fileExists: bool, fileInfo: Option<FileInfo>)

  /** The handler's answers: the 400 for an empty request, the single-file
      answer and the bulk answer. */
  datatype Response =
    | NamesRequired
    | Single(fileExists: bool, fileInfo: Option<FileInfo>)
    | Bulk(results: seq<Entry>)

  const Uncategorized := "Uncategorized"

  /** `fileName ? [fileName] : (fileNames || [])`: the single name wins when it
      is a non-empty string; an absent list counts as an empty one. */
  function FilesToCheck(fileName: Option<string>, fileNames: Option<seq<string>>): (r: seq<string>)
    ensures r == [] <==> !Present(fileName) && (fileNames.None? || fileNames.value == [])
    ensures Present(fileName) ==> r == [fileName.value]
  {
    if Present(fileName) then [fileName.value]
    else if fileNames.Some? then fileNames.value
    else []
  }

  /** `name.replace(/\s+/g, '_')` applied to every name. */
  function CleanAll(names: seq<string>): (r: seq<string>)
    ensures |r| == |names|
    ensures forall i :: 0 <= i < |names| ==> r[i] == ReplaceWhitespaceRuns(names[i])
  {
    seq(|names|, i requires 0 <= i < |names| => ReplaceWhitespaceRuns(names[i]))
  }

  /** `name && name.trim().length > 0`. */
  predicate IsValidName(name: string)
  {
    name != [] && Trim(name) != []
  }

  /** A cleaned name holds no whitespace, so it is blank exactly when the
      original name was empty: a name made only of spaces cleans to `_`. */
  lemma CleanedBlank(name: string)
    ensures IsValidName(ReplaceWhitespaceRuns(name)) <==> name != []
  {
    var r := ReplaceWhitespaceRuns(name);
    TrimEmpty(r);
    if r != [] {
      assert !IsWhitespace(r[0]);
    }
  }

  /** The valid names among the cleaned ones, in order (`filter`). */
  function ValidNames(cleaned: seq<string>): (r: seq<string>)
    ensures forall i :: 0 <= i < |r| ==> r[i] in cleaned && IsValidName(r[i])
    ensures forall i :: 0 <= i < |cleaned| && IsValidName(cleaned[i]) ==> cleaned[i] in r
  {
    Filter(cleaned, IsValidName)
  }

  /** No cleaned name is valid exactly when every name sent was empty. */
  lemma {:induction false} NoValidNames(names: seq<string>)
    ensures ValidNames(CleanAll(names)) == [] <==> forall i :: 0 <= i < |names| ==> names[i] == []
  {
    var cleaned := CleanAll(names);
    if ValidNames(cleaned) == [] {
      forall i | 0 <= i < |names| ensures names[i] == [] {
        CleanedBlank(names[i]);
        assert cleaned[i] !in ValidNames(cleaned);
      }
    } else {
      var v := ValidNames(cleaned)[0];
      assert v in cleaned;
      var i :| 0 <= i < |cleaned| && cleaned[i] == v;
      CleanedBlank(names[i]);
    }
  }

  /** The placeholder of the `k`-th valid name: `$` followed by `k + 2`. */
  function Placeholder(k: nat): string
  {
    "$" + NatToString(k + 2)
  }

  /** `validFileNames.map((_, index) => `$${index + 2}`)`. */
  function Placeholders(n: nat): (r: seq<string>)
    ensures |r| == n
  {
    seq(n, k requires 0 <= k < n => Placeholder(k))
  }

  /** The text spliced into the `IN (...)` list. */
  function PlaceholderList(n: nat): string
  {
    Join(Placeholders(n), ", ")
  }

  /** `[org_id, ...validFileNames]`. */
  function Parameters(orgId: int, valid: seq<string>): (r: seq<JsValue>)
    ensures |r| == |valid| + 1
  {
    [JsNum(orgId)] + seq(|valid|, k requires 0 <= k < |valid| => JsStr(valid[k]))
  }

  /** The placeholders are numbered consecutively from `$2`, so the `k`-th one
      reads back as parameter number `k + 2`, which holds the `k`-th valid
      name; parameter `$1` is the organisation. */
  lemma PlaceholdersBind(orgId: int, valid: seq<string>)
    ensures Parameters(orgId, valid)[0] == JsNum(orgId)
    ensures forall k :: 0 <= k < |valid| ==>
      && Placeholders(|valid|)[k][0] == '$'
      && DecimalValue(Placeholders(|valid|)[k][1..]) == k + 2
      && Parameters(orgId, valid)[k + 1] == JsStr(valid[k])
  {
    forall k | 0 <= k < |valid|
      ensures DecimalValue(Placeholders(|valid|)[k][1..]) == k + 2
    {
      assert Placeholders(|valid|)[k][1..] == NatToString(k + 2);
      NatToStringRoundTrip(k + 2);
    }
  }

  /** The rows of `rows` whose name is one of `names`, in order: the `WHERE
      od.name IN (...)` of the bulk query and the `od.name = $2` of the single
      one. */
  function Select(rows: seq<DocumentRow>, names: seq<string>): (r: seq<DocumentRow>)
    ensures forall j :: 0 <= j < |r| ==> r[j].name in names
    ensures r == [] <==> forall j :: 0 <= j < |rows| ==> rows[j].name !in names
  {
    if rows == [] then []
    else
      var last := rows[|rows| - 1];
      Select(rows[..|rows| - 1], names) + (if last.name in names then [last] else [])
  }

  /** The last row carrying `name`. */
  function LastNamed(rows: seq<DocumentRow>, name: string): (r: Option<DocumentRow>)
    ensures r.Some? ==> r.value in rows && r.value.name == name
    ensures r.None? <==> forall j :: 0 <= j < |rows| ==> rows[j].name != name
  {
    if rows == [] then None
    else if rows[|rows| - 1].name == name then Some(rows[|rows| - 1])
    else LastNamed(rows[..|rows| - 1], name)
  }

  /** No row after the one `LastNamed` picks carries the name. */
  lemma {:induction false} LastNamedIsLast(rows: seq<DocumentRow>, name: string)
    requires LastNamed(rows, name).Some?
    ensures exists j :: (0 <= j < |rows| && rows[j] == LastNamed(rows, name).value
      && forall j' :: j < j' < |rows| ==> rows[j'].name != name)
  {
    var last := |rows| - 1;
    if rows[last].name != name {
      var front := rows[..last];
      LastNamedIsLast(front, name);
      var j :| 0 <= j < |front| && front[j] == LastNamed(front, name).value
        && forall j' :: j < j' < |front| ==> front[j'].name != name;
      assert rows[j] == front[j];
      forall j' | j < j' < |rows| ensures rows[j'].name != name {
        if j' < last {
          assert rows[j'] == front[j'];
        }
      }
    }
  }

  /** Selecting by a list holding `name` keeps the last row carrying it. */
  lemma {:induction false} SelectLast(rows: seq<DocumentRow>, names: seq<string>, name: string)
    requires name in names
    ensures LastNamed(Select(rows, names), name) == LastNamed(rows, name)
  {
    if rows != [] {
      var front := rows[..|rows| - 1];
      var last := rows[|rows| - 1];
      SelectLast(front, names, name);
      var s := Select(front, names);
      if last.name in names {
        assert Select(rows, names) == s + [last];
        assert (s + [last])[..|s|] == s;
      } else {
        assert Select(rows, names) == s;
        assert last.name != name;
      }
    }
  }

  /** The first row of a selection by one name is the first row carrying it. */
  lemma {:induction false} SelectFirst(rows: seq<DocumentRow>, name: string)
    requires Select(rows, [name]) != []
    ensures exists j :: (0 <= j < |rows| && rows[j] == Select(rows, [name])[0] && rows[j].name == name
      && forall j' :: 0 <= j' < j ==> rows[j'].name != name)
  {
    var front := rows[..|rows| - 1];
    var s := Select(front, [name]);
    if s != [] {
      SelectFirst(front, name);
      var j :| 0 <= j < |front| && front[j] == s[0] && front[j].name == name
        && forall j' :: 0 <= j' < j ==> front[j'].name != name;
      SelectFirstExtend(rows, name, j);
      forall j' | 0 <= j' < j ensures rows[j'].name != name {
        assert rows[j'] == front[j'];
      }
    } else {
      SelectFirstIsLast(rows, name);
    }
  }

  /** The first match found in all rows but the last stays the first match. */
  lemma SelectFirstExtend(rows: seq<DocumentRow>, name: string, j: nat)
    requires rows != [] && Select(rows[..|rows| - 1], [name]) != []
    requires j < |rows| - 1 && rows[j] == Select(rows[..|rows| - 1], [name])[0] && rows[j].name == name
    ensures rows[j] == Select(rows, [name])[0]
  {
    var front := rows[..|rows| - 1];
    assert Select(rows, [name])[0] == Select(front, [name])[0];
  }

  /** When only the last row matches, it is the first match. */
  lemma SelectFirstIsLast(rows: seq<DocumentRow>, name: string)
    requires Select(rows, [name]) != [] && Select(rows[..|rows| - 1], [name]) == []
    ensures rows[|rows| - 1] == Select(rows, [name])[0] && rows[|rows| - 1].name == name
    ensures forall j' :: 0 <= j' < |rows| - 1 ==> rows[j'].name != name
  {
    var front := rows[..|rows| - 1];
    var last := rows[|rows| - 1];
    assert Select(rows, [name]) == Select(front, [name]) + (if last.name in [name] then [last] else []);
    assert last.name in [name];
    forall j' | 0 <= j' < |front| ensures rows[j'].name != name {
      assert front[j'].name !in [name];
    }
  }

  /** The reported details of a row; a missing category name reads as `Uncategorized`. */
  function InfoOf(row: DocumentRow): FileInfo
  {
    FileInfo(row.id, row.name, OrElse(row.categoryName, Uncategorized), row.updatedAt)
  }

  /** `existingFilesMap` after `forEach` has set one entry per row, in order:
      a later row with the same name overwrites an earlier one. */
  function ExistingMap(rows: seq<DocumentRow>): map<string, FileInfo>
  {
    if rows == [] then map[]
    else
      var last := rows[|rows| - 1];
      ExistingMap(rows[..|rows| - 1])[last.name := InfoOf(last)]
  }

  /** The map holds exactly the names some row carries, each with the details
      of the last such row. */
  lemma {:induction false} ExistingMapLast(rows: seq<DocumentRow>, name: string)
    ensures name in ExistingMap(rows) <==> LastNamed(rows, name).Some?
    ensures name in ExistingMap(rows) ==> ExistingMap(rows)[name] == InfoOf(LastNamed(rows, name).value)
  {
    if rows != [] {
      ExistingMapLast(rows[..|rows| - 1], name);
    }
  }

  /** The bulk entry of one name sent. */
  function EntryFor(original: string, found: map<string, FileInfo>): Entry
  {
    var cleaned := ReplaceWhitespaceRuns(original);
    Entry(original, cleaned, cleaned in found, if cleaned in found then Some(found[cleaned]) else None)
  }

  /** The handler from the request body on. The branch for an empty cleaned
      list is left out: the names cannot be empty once the 400 has been ruled out. */
  function Check(fileName: Option<string>, fileNames: Option<seq<string>>, table: seq<DocumentRow>): (r: Response)
    ensures r.NamesRequired? <==> !Present(fileName) && (fileNames.None? || fileNames.value == [])
    ensures r.Single? <==> Present(fileName)
    ensures r.Bulk? ==> |r.results| == |FilesToCheck(fileName, fileNames)|
  {
    var files := FilesToCheck(fileName, fileNames);
    if files == [] then NamesRequired
    else
      var cleaned := CleanAll(files);
      if Present(fileName) then
        var rows := Select(table, [cleaned[0]]);
        var matched := |rows| > 0;
        Single(matched, if matched then Some(InfoOf(rows[0])) else None)
      else
        var valid := ValidNames(cleaned);
        if |valid| == 0 then
          Bulk(seq(|files|, i requires 0 <= i < |files| => Entry(files[i], ReplaceWhitespaceRuns(files[i]), false, None)))
        else
          var found := ExistingMap(Select(table, valid));
          Bulk(seq(|files|, i requires 0 <= i < |files| => EntryFor(files[i], found)))
  }

  /** Single-file mode: the file exists exactly when a document carries the
      cleaned name; the details are those of the first such document, with
      the category defaulting to `Uncategorized`. */
  lemma SingleAnswer(fileName: string, fileNames: Option<seq<string>>, table: seq<DocumentRow>)
    requires fileName != []
    ensures var cleaned := ReplaceWhitespaceRuns(fileName);
      var r := Check(Some(fileName), fileNames, table);
      && r.Single?
      && (r.fileExists <==> exists j :: 0 <= j < |table| && table[j].name == cleaned)
      && (r.fileInfo.Some? <==> r.fileExists)
      && (r.fileInfo.Some? ==> exists j :: (0 <= j < |table| && table[j].name == cleaned
            && r.fileInfo.value == InfoOf(table[j])
            && r.fileInfo.value.category == OrElse(table[j].categoryName, Uncategorized)
            && forall j' :: 0 <= j' < j ==> table[j'].name != cleaned))
  {
    var cleaned := ReplaceWhitespaceRuns(fileName);
    assert CleanAll([fileName])[0] == cleaned;
    var rows := Select(table, [cleaned]);
    if rows != [] {
      SelectFirst(table, cleaned);
    } else {
      forall j | 0 <= j < |table| ensures table[j].name != cleaned {
        assert table[j].name !in [cleaned];
      }
    }
  }

  /** Bulk mode: one entry per name sent, in order, keeping the name as sent
      and its cleaned form. An entry exists exactly when the name sent was not
      empty and a document carries its cleaned name; its details are then
      those of the last such document. */
  lemma BulkAnswer(fileNames: seq<string>, table: seq<DocumentRow>)
    requires fileNames != []
    ensures var r := Check(None, Some(fileNames), table);
      && r.Bulk?
      && |r.results| == |fileNames|
      && forall i :: 0 <= i < |fileNames| ==>
        var cleaned := ReplaceWhitespaceRuns(fileNames[i]);
        && r.results[i].originalFileName == fileNames[i]
        && r.results[i].cleanedFileName == cleaned
        && (r.results[i].fileExists <==> fileNames[i] != [] && exists j :: 0 <= j < |table| && table[j].name == cleaned)
        && (r.results[i].fileInfo.Some? <==> r.results[i].fileExists)
        && (r.results[i].fileExists ==> r.results[i].fileInfo == Some(InfoOf(LastNamed(table, cleaned).value)))
  {
    var r := Check(None, Some(fileNames), table);
    var cleaned := CleanAll(fileNames);
    var valid := ValidNames(cleaned);
    NoValidNames(fileNames);
    if |valid| != 0 {
      var rows := Select(table, valid);
      var found := ExistingMap(rows);
      forall i | 0 <= i < |fileNames|
        ensures var c := ReplaceWhitespaceRuns(fileNames[i]);
          && (r.results[i].fileExists <==> fileNames[i] != [] && exists j :: 0 <= j < |table| && table[j].name == c)
          && (r.results[i].fileExists ==> r.results[i].fileInfo == Some(InfoOf(LastNamed(table, c).value)))
      {
        var c := cleaned[i];
        assert r.results[i] == EntryFor(fileNames[i], found);
        ExistingMapLast(rows, c);
        CleanedBlank(fileNames[i]);
        if fileNames[i] != [] {
          assert c in valid;
          SelectLast(table, valid, c);
        } else {
          assert c == [];
          assert LastNamed(rows, c).None? by {
            forall j | 0 <= j < |rows| ensures rows[j].name != c {
              assert rows[j].name in valid;
            }
          }
        }
      }
    }
  }
}
