/**
 * The rows of the three database tables (users, notes, documents) and the dictionaries the
 * request handlers turn rows into. A column the handlers never read as NULL is a plain value;
 * the nullable text columns are Options.
 */
module Tables {
  import opened Wrappers
  import opened Text

  /**
   * The notes.tags column. The handlers always write json.dumps of a list of strings; any other
   * text in the column is one json.loads rejects.
   */
  datatype TagsCell = Encoded(tags: seq<string>) | Unparseable(raw: string)

  /** Every character is printable ASCII, space through tilde. */
  predicate PrintableAscii(s: string) {
    forall k :: 0 <= k < |s| ==> ' ' <= s[k] <= '~'
  }

  /** The characters json.dumps writes unchanged inside a string literal. */
  predicate PlainJsonChar(c: char) {
    ' ' <= c <= '~' && c != '"' && c != '\\'
  }

  /** A lower-case hexadecimal digit. */
  function HexDigit(d: nat): (r: char)
    requires d < 16
    ensures '0' <= r <= '9' || 'a' <= r <= 'f'
  {
    if d < 10 then ('0' as int + d) as char else ('a' as int + d - 10) as char
  }

  /** The four hexadecimal digits of a \\uXXXX escape. */
  function Hex4(n: nat): (r: string)
    requires n < 0x1_0000
    ensures |r| == 4 && PrintableAscii(r)
  {
    [HexDigit(n / 0x1000), HexDigit(n / 0x100 % 0x10), HexDigit(n / 0x10 % 0x10), HexDigit(n % 0x10)]
  }

  /**
   * One character as json.dumps writes it with ensure_ascii: printable ASCII other than the
   * quote and the backslash as itself, the two-character escapes for '"', '\\', backspace,
   * form feed, newline, carriage return and tab, and \\uXXXX (a surrogate pair above U+FFFF)
   * for everything else.
   */
  function EscapeChar(c: char): (r: string)
    ensures r == [c] <==> PlainJsonChar(c)
    ensures |r| >= 1 && PrintableAscii(r)
  {
    if PlainJsonChar(c) then [c]
    else if c == '"' then "\\\""
    else if c == '\\' then "\\\\"
    else if c == '\U{8}' then "\\b"
    else if c == '\U{C}' then "\\f"
    else if c == '\n' then "\\n"
    else if c == '\r' then "\\r"
    else if c == '\t' then "\\t"
    else if c as int < 0x1_0000 then "\\u" + Hex4(c as int)
    else
      var v := c as int - 0x1_0000;
      "\\u" + Hex4(0xD800 + v / 0x400) + "\\u" + Hex4(0xDC00 + v % 0x400)
  }

  /**
   * The body of a JSON string literal for t. It is printable ASCII, never shorter than t, and
   * equal to t exactly when every character of t is written unchanged.
   */
  function Escaped(t: string): (r: string)
    ensures PrintableAscii(r) && |r| >= |t|
    ensures r == t <==> forall k :: 0 <= k < |t| ==> PlainJsonChar(t[k])
    decreases |t|
  {
    if |t| == 0 then ""
    else
      var r := EscapeChar(t[0]) + Escaped(t[1..]);
      assert r == t <== (forall k :: 0 <= k < |t| ==> PlainJsonChar(t[k])) by {
        if forall k :: 0 <= k < |t| ==> PlainJsonChar(t[k]) {
          assert forall k :: 0 <= k < |t[1..]| ==> PlainJsonChar(t[1..][k]);
          assert t == [t[0]] + t[1..];
        }
      }
      assert r == t ==> (forall k :: 0 <= k < |t| ==> PlainJsonChar(t[k])) by {
        if r == t {
          assert |EscapeChar(t[0])| == 1;
          assert EscapeChar(t[0]) == [r[0]] == [t[0]];
          assert r[1..] == Escaped(t[1..]);
          assert forall k :: 0 <= k < |t[1..]| ==> PlainJsonChar(t[1..][k]);
          forall k | 0 <= k < |t| ensures PlainJsonChar(t[k]) {
            if k > 0 { assert t[k] == t[1..][k - 1]; }
          }
        }
      }
      r
  }

  function Quoted(t: string): (r: string)
    ensures PrintableAscii(r)
  {
    "\"" + Escaped(t) + "\""
  }

  function QuotedItems(ts: seq<string>): (r: string)
    ensures PrintableAscii(r)
    decreases |ts|
  {
    if |ts| == 0 then ""
    else if |ts| == 1 then Quoted(ts[0])
    else Quoted(ts[0]) + ", " + QuotedItems(ts[1..])
  }

  /** The column's text: json.dumps writes ["a", "b"], escaping as EscapeChar does. */
  function TagsText(c: TagsCell): (r: string)
    ensures c.Encoded? ==> PrintableAscii(r)
  {
    match c
    case Encoded(ts) => "[" + QuotedItems(ts) + "]"
    case Unparseable(raw) => raw
  }

  /** json.loads on the column: the list, or None where it raises. */
  function Loads(c: TagsCell): Option<seq<string>> {
    match c
    case Encoded(ts) => Some(ts)
    case Unparseable(_) => None
  }

  /** json.loads(tags or "[]"): a NULL or empty column reads as the empty list. */
  function TagsOrEmpty(c: TagsCell): Option<seq<string>> {
    if c == Unparseable("") then Some([]) else Loads(c)
  }

  datatype UserRow = UserRow(id: nat, name: string, email: string, hashedPassword: string, createdAt: nat)

  datatype NoteRow = NoteRow(
    id: nat, userId: nat, title: string, encryptedContent: string, tags: TagsCell,
    embedding: Option<string>, isPinned: int, createdAt: nat, updatedAt: nat)

  datatype DocRow = DocRow(
    id: nat, userId: nat, filename: string, originalName: string, fileUrl: string,
    extractedText: Option<string>, summary: Option<string>, embedding: Option<string>,
    fileSize: nat, createdAt: nat)

  /** A value of a row dictionary as the handlers build it and FastAPI serialises it. */
  datatype Value = Int(i: int) | Str(s: string) | Bool(b: bool) | List(items: seq<string>) | Null

  type Dict = map<string, Value>

  function OptStr(o: Option<string>): Value {
    match o
    case None => Null
    case Some(s) => Str(s)
  }

  /** Every column of the notes table (SELECT *). */
  const NoteColumns: set<string> :=
    {"id", "user_id", "title", "encrypted_content", "tags", "embedding", "is_pinned", "created_at", "updated_at"}

  /** Every column of the documents table (SELECT *). */
  const DocColumns: set<string> :=
    {"id", "user_id", "filename", "original_name", "file_url", "extracted_text", "summary", "embedding",
     "file_size", "created_at"}

  function NoteColumn(n: NoteRow, col: string): Value {
    match col
    case "id" => Int(n.id)
    case "user_id" => Int(n.userId)
    case "title" => Str(n.title)
    case "encrypted_content" => Str(n.encryptedContent)
    case "tags" => Str(TagsText(n.tags))
    case "embedding" => OptStr(n.embedding)
    case "is_pinned" => Int(n.isPinned)
    case "created_at" => Int(n.createdAt)
    case "updated_at" => Int(n.updatedAt)
    case _ => Null
  }

  function DocColumn(d: DocRow, col: string): Value {
    match col
    case "id" => Int(d.id)
    case "user_id" => Int(d.userId)
    case "filename" => Str(d.filename)
    case "original_name" => Str(d.originalName)
    case "file_url" => Str(d.fileUrl)
    case "extracted_text" => OptStr(d.extractedText)
    case "summary" => OptStr(d.summary)
    case "embedding" => OptStr(d.embedding)
    case "file_size" => Int(d.fileSize)
    case "created_at" => Int(d.createdAt)
    case _ => Null
  }

  /** dict(row) for a SELECT of the given columns. */
  function SelectNote(n: NoteRow, cols: set<string>): Dict {
    map c | c in cols :: NoteColumn(n, c)
  }

  function SelectDoc(d: DocRow, cols: set<string>): Dict {
    map c | c in cols :: DocColumn(d, c)
  }

  /** The SERIAL primary keys. */
  function NoteId(n: NoteRow): nat { n.id }
  function DocId(d: DocRow): nat { d.id }
  function UserId(u: UserRow): nat { u.id }

  /** Timestamps as the model sees them: the creation and update times as sort keys. */
  function NoteUpdated(n: NoteRow): real { n.updatedAt as real }
  function NotePinned(n: NoteRow): real { n.isPinned as real }
  function DocCreated(d: DocRow): real { d.createdAt as real }
}
