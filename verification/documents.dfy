/**
 * The documents router: upload with its extension allow-list and generated file name, the
 * caller-scoped get, download, delete and rescan, and the listing. The uploads directory is a
 * map from path to file bytes; the background text extraction is only recorded as a queued task.
 */
module Documents {
  import opened Wrappers
  import opened Text
  import opened Sequences
  import opened Tables
  import opened Keyed

  const DocNotFound: HttpError := HttpError(404, "Document not found")
  const FileNotOnDisk: HttpError := HttpError(404, "File not found on disk")
  const TypeNotAllowed: HttpError := HttpError(400, "File type not allowed. Use: .pdf, .docx, .txt")

  const AllowedExt: set<string> := {".pdf", ".docx", ".txt"}
  const UploadDir: string := "uploads"

  /** The columns list_documents and upload_document select: no text, no embedding. */
  const ListDocColumns: set<string> :=
    {"id", "user_id", "filename", "original_name", "file_url", "summary", "file_size", "created_at"}

  // -----------------------------------------------------------------------------------------
  // File names

  /** The position of the last occurrence of c (str.rfind). */
  function LastIndex(s: string, c: char): (r: Option<nat>)
    ensures r.Some? ==> r.value < |s| && s[r.value] == c && forall k :: r.value < k < |s| ==> s[k] != c
    ensures r.None? ==> c !in s
    decreases |s|
  {
    if |s| == 0 then None
    else if s[|s| - 1] == c then Some(|s| - 1)
    else
      assert forall k :: 0 <= k < |s| - 1 ==> s[k] == s[..|s| - 1][k];
      LastIndex(s[..|s| - 1], c)
  }

  /** The last path component: everything after the last '/'. */
  function BaseName(path: string): (r: string)
    ensures '/' !in r
    ensures |r| <= |path| && r == path[|path| - |r|..]
  {
    match LastIndex(path, '/')
    case None => path
    case Some(j) => path[j + 1..]
  }

  predicate AllDots(s: string) {
    forall k :: 0 <= k < |s| ==> s[k] == '.'
  }

  /**
   * os.path.splitext(path)[1] with '/' as the separator: from the last dot of the last path
   * component on, unless every character before that dot in the component is a dot (a hidden
   * file such as ".txt" has no extension).
   */
  function Extension(path: string): (r: string)
    ensures r == "" || (r[0] == '.' && '.' !in r[1..])
    ensures '/' !in r
    ensures |r| <= |path| && r == path[|path| - |r|..]
  {
    var base := BaseName(path);
    match LastIndex(base, '.')
    case None => ""
    case Some(d) =>
      if AllDots(base[..d]) then ""
      else
        SuffixFacts(path, base, d);
        base[d..]
  }

  lemma SuffixFacts(path: string, base: string, d: nat)
    requires |base| <= |path| && base == path[|path| - |base|..] && '/' !in base
    requires d < |base| && base[d] == '.' && forall k :: d < k < |base| ==> base[k] != '.'
    ensures var r := base[d..]; r[0] == '.' && '.' !in r[1..] && '/' !in r
    ensures var r := base[d..]; |r| <= |path| && r == path[|path| - |r|..]
  {
    var r := base[d..];
    forall k | 0 <= k < |r[1..]| ensures r[1..][k] != '.' {
      assert r[1..][k] == base[d + 1 + k];
    }
    forall k | 0 <= k < |r| ensures r[k] != '/' {
      assert r[k] == base[d + k];
    }
  }

  /** The check upload_document makes before anything is written. */
  predicate AllowedName(filename: string) {
    LowerStr(Extension(filename)) in AllowedExt
  }

  /** The stored name: the uuid's hex digits followed by the lowercased extension. */
  function StoredName(hex: string, filename: string): string {
    hex + LowerStr(Extension(filename))
  }

  /** os.path.join(UPLOAD_DIR, name): an absolute name replaces the directory. */
  function UploadPath(name: string): (r: string)
    ensures |name| > 0 && name[0] == '/' ==> r == name
    ensures !(|name| > 0 && name[0] == '/') ==> r == UploadDir + "/" + name
  {
    if |name| > 0 && name[0] == '/' then name else UploadDir + "/" + name
  }

  function FileUrl(name: string): string {
    "/uploads/" + name
  }

  /** A stem that is not all dots followed by a dot and a name without dots splits at that dot. */
  lemma ExtensionOfSuffix(stem: string, ext: string)
    requires |stem| > 0 && !AllDots(stem) && '/' !in stem
    requires |ext| > 0 && ext[0] == '.' && '.' !in ext[1..] && '/' !in ext
    ensures Extension(stem + ext) == ext
  {
    var p := stem + ext;
    var d := |stem|;
    forall k | 0 <= k < |p| ensures p[k] != '/' {
      if k < d { assert p[k] == stem[k]; } else { assert p[k] == ext[k - d]; }
    }
    LastIndexNone(p, '/');
    assert BaseName(p) == p;
    forall k | d < k < |p| ensures p[k] != '.' {
      assert p[k] == ext[1..][k - d - 1];
    }
    LastIndexAt(p, '.', d);
    assert p[..d] == stem;
    assert p[d..] == ext;
  }

  lemma LastIndexNone(s: string, c: char)
    requires forall k :: 0 <= k < |s| ==> s[k] != c
    ensures LastIndex(s, c) == None
  {
  }

  lemma LastIndexAt(s: string, c: char, d: nat)
    requires d < |s| && s[d] == c && forall k :: d < k < |s| ==> s[k] != c
    ensures LastIndex(s, c) == Some(d)
  {
  }

  /**
   * A dot and a name without dots or slashes, such as ".txt", is a hidden file: it has no
   * extension, so it is refused whatever follows the dot.
   */
  lemma HiddenFileRefused(ext: string)
    requires |ext| > 0 && ext[0] == '.' && '.' !in ext[1..] && '/' !in ext
    ensures Extension(ext) == ""
    ensures !AllowedName(ext)
  {
    LastIndexNone(ext, '/');
    assert BaseName(ext) == ext;
    forall k | 0 < k < |ext| ensures ext[k] != '.' {
      assert ext[k] == ext[1..][k - 1];
    }
    LastIndexAt(ext, '.', 0);
    assert AllDots(ext[..0]);
    assert LowerStr("") == "";
  }

  lemma LowerStrKeepsOut(s: string, c: char)
    requires c !in s && !('a' <= c <= 'z') && !('A' <= c <= 'Z')
    ensures c !in LowerStr(s)
  {
    forall k | 0 <= k < |s| ensures LowerStr(s)[k] != c {
      assert LowerStr(s)[k] == Lower(s[k]);
    }
  }

  lemma LowerStrHead(s: string)
    requires |s| > 0
    ensures |LowerStr(s)| == |s| && LowerStr(s)[0] == Lower(s[0]) && LowerStr(s)[1..] == LowerStr(s[1..])
  {
    var l := LowerStr(s);
    assert |l[1..]| == |LowerStr(s[1..])|;
    forall k | 0 <= k < |l[1..]| ensures l[1..][k] == LowerStr(s[1..])[k] {
      assert l[1..][k] == l[k + 1] == Lower(s[k + 1]);
    }
  }

  /**
   * The stored file keeps the extension that was checked: splitting the generated name gives
   * back the lowercased extension of the uploaded name, whatever the hex part (as long as it
   * holds no dot or slash, as uuid4().hex never does).
   */
  lemma StoredNameExtension(hex: string, filename: string)
    requires |hex| > 0 && '.' !in hex && '/' !in hex
    requires AllowedName(filename)
    ensures Extension(StoredName(hex, filename)) == LowerStr(Extension(filename))
    ensures AllowedName(StoredName(hex, filename))
  {
    var ext := Extension(filename);
    var low := LowerStr(ext);
    assert low != "";
    LowerStrHead(ext);
    LowerStrKeepsOut(ext, '/');
    LowerStrKeepsOut(ext[1..], '.');
    assert !AllDots(hex) by { assert hex[0] in hex; }
    ExtensionOfSuffix(hex, low);
    LowerIdempotent(ext);
  }

  /**
   * The allow-list judges the last extension, case-insensitively: a name whose last component
   * is not all dots, followed by a dotted suffix, is accepted exactly when the lowercased
   * suffix is allowed ("report.PDF" is, "notes.txt.exe" is not).
   */
  lemma AllowedNameSuffix(stem: string, ext: string)
    requires |stem| > 0 && !AllDots(stem) && '/' !in stem
    requires |ext| > 0 && ext[0] == '.' && '.' !in ext[1..] && '/' !in ext
    ensures AllowedName(stem + ext) <==> LowerStr(ext) in AllowedExt
  {
    ExtensionOfSuffix(stem, ext);
  }

  // -----------------------------------------------------------------------------------------
  // Row dictionaries

  /** doc_to_dict: the selected columns without the embedding and the extracted text. */
  function DocToDict(d: DocRow, cols: set<string>): (r: Dict)
    ensures r.Keys == cols - {"embedding", "extracted_text"}
    ensures forall c :: c in r ==> r[c] == DocColumn(d, c)
  {
    SelectDoc(d, cols) - {"embedding"} - {"extracted_text"}
  }

  /** get_document: every column except the embedding; the extracted text stays. */
  function DetailDict(d: DocRow): (r: Dict)
    ensures r.Keys == DocColumns - {"embedding"}
    ensures "extracted_text" in r && r["extracted_text"] == OptStr(d.extractedText)
    ensures forall c :: c in r ==> r[c] == DocColumn(d, c)
  {
    SelectDoc(d, DocColumns) - {"embedding"}
  }

  /** The values of the listing columns in a listed row. */
  lemma ListDictFields(d: DocRow)
    ensures var m := DocToDict(d, ListDocColumns);
      && m.Keys == ListDocColumns
      && m["user_id"] == Int(d.userId) && m["created_at"] == Int(d.createdAt)
      && m["file_size"] == Int(d.fileSize) && m["file_url"] == Str(d.fileUrl)
      && m["original_name"] == Str(d.originalName) && m["summary"] == OptStr(d.summary)
  {
    var m := DocToDict(d, ListDocColumns);
    assert "user_id" in m && "created_at" in m && "file_size" in m;
    assert "file_url" in m && "original_name" in m && "summary" in m;
  }

  /** The caller's documents in table order. */
  function OwnedDocs(rows: seq<DocRow>, userId: nat): seq<DocRow> {
    Filter(rows, (d: DocRow) => d.userId == userId)
  }

  /** ORDER BY created_at DESC over the caller's documents. */
  function ListDocOrder(rows: seq<DocRow>, userId: nat): seq<DocRow> {
    SortDesc(OwnedDocs(rows, userId), DocCreated)
  }

  /** list_documents lists exactly the caller's documents, newest first. */
  lemma ListDocOrderSpec(rows: seq<DocRow>, userId: nat)
    ensures multiset(ListDocOrder(rows, userId)) == multiset(OwnedDocs(rows, userId))
    ensures forall d :: d in ListDocOrder(rows, userId) <==> d in rows && d.userId == userId
    ensures NonIncreasing(ListDocOrder(rows, userId), DocCreated)
  {
    SortDescNonIncreasing(OwnedDocs(rows, userId), DocCreated);
    forall d ensures d in ListDocOrder(rows, userId) <==> d in OwnedDocs(rows, userId) {
      assert d in ListDocOrder(rows, userId) <==> d in multiset(ListDocOrder(rows, userId));
      assert d in OwnedDocs(rows, userId) <==> d in multiset(OwnedDocs(rows, userId));
    }
  }

  /** list_documents: doc_to_dict of each listed row. */
  function Listing(rows: seq<DocRow>, userId: nat): (r: seq<Dict>)
    ensures |r| == |ListDocOrder(rows, userId)|
    ensures forall i :: 0 <= i < |r| ==> r[i] == DocToDict(ListDocOrder(rows, userId)[i], ListDocColumns)
  {
    var ordered := ListDocOrder(rows, userId);
    seq(|ordered|, i requires 0 <= i < |ordered| => DocToDict(ordered[i], ListDocColumns))
  }

  /** Every listed row is one of the caller's, shown without text or embedding. */
  lemma ListingOwned(rows: seq<DocRow>, userId: nat)
    ensures |Listing(rows, userId)| == |OwnedDocs(rows, userId)|
    ensures var r := Listing(rows, userId);
      forall i :: 0 <= i < |r| ==>
        "user_id" in r[i] && r[i]["user_id"] == Int(userId) && "embedding" !in r[i] && "extracted_text" !in r[i]
  {
    var ordered := ListDocOrder(rows, userId);
    ListDocOrderSpec(rows, userId);
    assert |multiset(ordered)| == |multiset(OwnedDocs(rows, userId))|;
    forall i | 0 <= i < |ordered| ensures ordered[i].userId == userId {
      assert ordered[i] in ordered;
    }
    forall i | 0 <= i < |ordered| {
      ListDictFields(ordered[i]);
    }
  }

  /** The listing is newest first. */
  lemma ListingNewestFirst(rows: seq<DocRow>, userId: nat)
    ensures var r := Listing(rows, userId);
      forall i, j :: 0 <= i < j < |r| ==>
        && "created_at" in r[i] && "created_at" in r[j]
        && r[i]["created_at"].Int? && r[j]["created_at"].Int?
        && r[i]["created_at"].i >= r[j]["created_at"].i
  {
    var ordered := ListDocOrder(rows, userId);
    ListDocOrderSpec(rows, userId);
    forall i | 0 <= i < |ordered| {
      ListDictFields(ordered[i]);
    }
  }

  /** The row upload_document inserts: no text, summary or embedding yet. */
  function NewDoc(id: nat, userId: nat, filename: string, size: nat, hex: string, now: nat): DocRow {
    var name := StoredName(hex, filename);
    DocRow(id, userId, name, filename, FileUrl(name), None, None, None, size, now)
  }

  /**
   * What upload_document answers: the listing columns of the new row, with the byte length of
   * the content, the URL of the generated name and the uploaded name.
   */
  lemma UploadResponse(id: nat, userId: nat, filename: string, content: seq<bv8>, hex: string, now: nat)
    ensures var m := DocToDict(NewDoc(id, userId, filename, |content|, hex, now), ListDocColumns);
      && m.Keys == ListDocColumns
      && m["file_size"] == Int(|content|)
      && m["file_url"] == Str("/uploads/" + hex + LowerStr(Extension(filename)))
      && m["original_name"] == Str(filename)
      && m["summary"] == Null
      && m["user_id"] == Int(userId)
  {
    var d := NewDoc(id, userId, filename, |content|, hex, now);
    ListDictFields(d);
    assert d.fileUrl == "/uploads/" + hex + LowerStr(Extension(filename));
  }

  /** What process_document_bg is queued with: the row, the file and the declared mime type. */
  datatype BgTask = BgTask(docId: nat, path: string, mimetype: string)

  /** file.content_type or "" */
  function MimeOrEmpty(contentType: Option<string>): string {
    match contentType
    case None => ""
    case Some(t) => t
  }

  /** The file a download answers with. */
  datatype FileResponse = FileResponse(path: string, filename: string, mediaType: string)

  /**
   * The documents table, the files under the uploads directory and the background tasks queued
   * so far. Ids come from a SERIAL column: unique, and below the next one handed out.
   */
  class DocumentStore {
    var rows: seq<DocRow>
    var nextId: nat
    var files: map<string, seq<bv8>>
    var pending: seq<BgTask>

    ghost predicate Valid()
      reads this
    {
      DistinctKeys(rows, DocId) && KeysBelow(rows, DocId, nextId) && nextId >= 1
    }

    constructor ()
      ensures Valid() && rows == [] && nextId == 1 && files == map[] && pending == []
    {
      rows := [];
      nextId := 1;
      files := map[];
      pending := [];
    }

    /** The caller's document with this id (WHERE id = ? AND user_id = ?). */
    function Find(id: nat, userId: nat): (r: Option<nat>)
      reads this
      ensures r.Some? ==> r.value < |rows| && rows[r.value].id == id && rows[r.value].userId == userId
      ensures r.None? <==> forall k :: 0 <= k < |rows| ==> !(rows[k].id == id && rows[k].userId == userId)
    {
      FindFirst(rows, (d: DocRow) => d.id == id && d.userId == userId)
    }

    /** GET /documents: the caller's documents, newest first, without text or embedding. */
    function ListDocuments(userId: nat): (r: seq<Dict>)
      reads this
      ensures |r| == |OwnedDocs(rows, userId)|
      ensures forall i :: 0 <= i < |r| ==>
        "user_id" in r[i] && r[i]["user_id"] == Int(userId) && "embedding" !in r[i] && "extracted_text" !in r[i]
      ensures forall i, j :: 0 <= i < j < |r| ==>
        && "created_at" in r[i] && "created_at" in r[j]
        && r[i]["created_at"].Int? && r[j]["created_at"].Int?
        && r[i]["created_at"].i >= r[j]["created_at"].i
    {
      ListingOwned(rows, userId);
      ListingNewestFirst(rows, userId);
      Listing(rows, userId)
    }

    /**
     * POST /documents/upload: refuses a name whose lowercased extension is not allowed with
     * 400 and changes nothing; otherwise writes the file under its generated name, inserts the
     * row, queues the text extraction and answers with the new row's dictionary.
     */
    method UploadDocument(userId: nat, filename: string, contentType: Option<string>, content: seq<bv8>, hex: string, now: nat)
      returns (r: Result<Dict>)
      requires Valid()
      modifies this
      ensures Valid()
      ensures !AllowedName(filename) ==>
        r == Err(TypeNotAllowed) && rows == old(rows) && nextId == old(nextId) && files == old(files) && pending == old(pending)
      ensures AllowedName(filename) ==>
        var row := NewDoc(old(nextId), userId, filename, |content|, hex, now);
        && rows == old(rows) + [row]
        && nextId == old(nextId) + 1
        && files == old(files)[UploadPath(row.filename) := content]
        && pending == old(pending) + [BgTask(old(nextId), UploadPath(row.filename), MimeOrEmpty(contentType))]
        && r == Ok(DocToDict(row, ListDocColumns))
    {
      var ext := LowerStr(Extension(filename));
      if ext !in AllowedExt {
        return Err(TypeNotAllowed);
      }
      var name := hex + ext;
      var path := UploadPath(name);
      var size := |content|;
      files := files[path := content];
      var url := "/uploads/" + name;
      var row := DocRow(nextId, userId, name, filename, url, None, None, None, size, now);
      assert row == NewDoc(nextId, userId, filename, |content|, hex, now);
      AppendKeeps(rows, DocId, nextId, row);
      rows := rows + [row];
      pending := pending + [BgTask(nextId, path, MimeOrEmpty(contentType))];
      nextId := nextId + 1;
      r := Ok(DocToDict(row, ListDocColumns));
    }

    /** GET /documents/{id}: the caller's document with its extracted text, or 404. */
    function GetDocument(id: nat, userId: nat): (r: Result<Dict>)
      reads this
      ensures r.Err? <==> Find(id, userId).None?
      ensures r.Err? ==> r.error == DocNotFound
      ensures r.Ok? ==> r.value.Keys == DocColumns - {"embedding"}
      ensures r.Ok? ==> r.value["id"] == Int(id) && r.value["user_id"] == Int(userId)
    {
      match Find(id, userId)
      case None => Err(DocNotFound)
      case Some(i) => Ok(DetailDict(rows[i]))
    }

    /**
     * GET /documents/{id}/download: 404 for a missing or foreign row, 404 again when the row
     * exists but its file is not on disk, else the file under its original name.
     */
    function DownloadDocument(id: nat, userId: nat): (r: Result<FileResponse>)
      reads this
      ensures Find(id, userId).None? ==> r == Err(DocNotFound)
      ensures Find(id, userId).Some? ==>
        var d := rows[Find(id, userId).value];
        && (UploadPath(d.filename) !in files ==> r == Err(FileNotOnDisk))
        && (UploadPath(d.filename) in files ==>
              r == Ok(FileResponse(UploadPath(d.filename), d.originalName, "application/octet-stream")))
    {
      match Find(id, userId)
      case None => Err(DocNotFound)
      case Some(i) =>
        var path := UploadPath(rows[i].filename);
        if path !in files then Err(FileNotOnDisk)
        else Ok(FileResponse(path, rows[i].originalName, "application/octet-stream"))
    }

    /**
     * DELETE /documents/{id}: 404 changing nothing, or removes the file when it exists and
     * the row in any case.
     */
    method DeleteDocument(id: nat, userId: nat) returns (r: Result<string>)
      requires Valid()
      modifies this
      ensures Valid() && nextId == old(nextId) && pending == old(pending)
      ensures old(Find(id, userId)).None? ==> r == Err(DocNotFound) && rows == old(rows) && files == old(files)
      ensures old(Find(id, userId)).Some? ==>
        var i := old(Find(id, userId)).value;
        && r == Ok("Document deleted")
        && rows == old(rows)[..i] + old(rows)[i + 1..]
        && files == old(files) - {UploadPath(old(rows)[i].filename)}
    {
      var found := Find(id, userId);
      if found.None? {
        return Err(DocNotFound);
      }
      var path := UploadPath(rows[found.value].filename);
      RemoveKeyAt(rows, DocId, found.value);
      RemoveKeeps(rows, DocId, nextId, found.value);
      var remaining := RemoveKey(rows, DocId, id);
      var kept := if path in files then files - {path} else files;
      rows, files := remaining, kept;
      return Ok("Document deleted");
    }

    /** POST /documents/{id}/rescan: 404 changing nothing, or queues the extraction again. */
    method RescanDocument(id: nat, userId: nat) returns (r: Result<string>)
      modifies this
      ensures rows == old(rows) && nextId == old(nextId) && files == old(files)
      ensures Find(id, userId).None? ==> r == Err(DocNotFound) && pending == old(pending)
      ensures Find(id, userId).Some? ==>
        && r == Ok("Processing started")
        && pending == old(pending) + [BgTask(id, UploadPath(rows[Find(id, userId).value].filename), "")]
    {
      var found := Find(id, userId);
      if found.None? {
        return Err(DocNotFound);
      }
      pending := pending + [BgTask(id, UploadPath(rows[found.value].filename), "")];
      return Ok("Processing started");
    }
  }
}
