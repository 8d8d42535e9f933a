/**
 * The notes router: the notes table as an object whose rows the handlers insert, update and
 * delete, the row-to-dictionary projection, the partial update, and the related-notes ranking.
 * Encryption is a parameter `encrypt`; decryption is `decrypt`, which answers None where the
 * cipher raises.
 */
module Notes {
  import opened Wrappers
  import opened Text
  import opened Sequences
  import opened Tables
  import opened Keyed
  import opened AiService

  const NoteNotFound: HttpError := HttpError(404, "Note not found")

  /** The columns list_notes and create_note select (everything but the ciphertext and embedding). */
  const ListColumns: set<string> := {"id", "user_id", "title", "tags", "is_pinned", "created_at", "updated_at"}

  /** The keys note_to_dict always removes. */
  const HiddenKeys: set<string> := {"encrypted_content", "embedding"}

  /** Python truthiness of a dictionary value. */
  predicate Truthy(v: Value) {
    match v
    case Int(i) => i != 0
    case Str(s) => s != ""
    case Bool(b) => b
    case List(items) => items != []
    case Null => false
  }

  /** The plaintext shown for a ciphertext: a decryption failure shows as "". */
  function Plaintext(decrypt: string -> Option<string>, ct: string): string {
    match decrypt(ct)
    case None => ""
    case Some(p) => p
  }

  /** json.loads(d.get("tags", "[]")): the parsed list, or None where json.loads raises. */
  function DictTags(n: NoteRow, cols: set<string>): Option<seq<string>> {
    if "tags" in cols then Loads(n.tags) else Some([])
  }

  /** Whether note_to_dict adds a "content" key. */
  predicate ShowsContent(n: NoteRow, cols: set<string>, decrypt: Option<string -> Option<string>>) {
    decrypt.Some? && "encrypted_content" in cols && n.encryptedContent != ""
  }

  /**
   * note_to_dict(row, decrypt): the selected columns minus the ciphertext and the embedding,
   * tags parsed, is_pinned as a bool, and the plaintext when decryption is asked for. A tags
   * column json.loads rejects makes the handler fail with a 500.
   */
  function NoteDict(n: NoteRow, cols: set<string>, decrypt: Option<string -> Option<string>>): (r: Result<Dict>)
    ensures r.Err? <==> DictTags(n, cols).None?
    ensures r.Err? ==> r.error == ServerError
    ensures r.Ok? ==> "encrypted_content" !in r.value && "embedding" !in r.value
    ensures r.Ok? ==>
      r.value.Keys == cols - HiddenKeys + {"tags", "is_pinned"} + (if ShowsContent(n, cols, decrypt) then {"content"} else {})
    ensures r.Ok? ==> r.value["tags"] == List(DictTags(n, cols).value)
    ensures r.Ok? ==> r.value["is_pinned"] == Bool("is_pinned" in cols && n.isPinned != 0)
    ensures r.Ok? && ShowsContent(n, cols, decrypt) ==>
      r.value["content"] == Str(Plaintext(decrypt.value, n.encryptedContent))
    ensures r.Ok? ==> forall k :: k in cols && k !in HiddenKeys && k !in {"tags", "is_pinned", "content"} ==>
      r.value[k] == NoteColumn(n, k)
  {
    match DictTags(n, cols)
    case None => Err(ServerError)
    case Some(tags) =>
      var d := SelectNote(n, cols)["tags" := List(tags)]["is_pinned" := Bool("is_pinned" in cols && n.isPinned != 0)];
      var withContent := if ShowsContent(n, cols, decrypt) then
        d["content" := Str(Plaintext(decrypt.value, n.encryptedContent))] else d;
      Ok(withContent - {"encrypted_content"} - {"embedding"})
  }

  /** note_to_dict step by step on the row's dictionary. */
  method NoteToDict(n: NoteRow, cols: set<string>, decrypt: Option<string -> Option<string>>) returns (r: Result<Dict>)
    ensures r == NoteDict(n, cols, decrypt)
  {
    var d := SelectNote(n, cols);
    var tags := if "tags" in d then Loads(n.tags) else Some([]);
    if tags.None? {
      return Err(ServerError);
    }
    d := d["tags" := List(tags.value)];
    var pinned := "is_pinned" in d && Truthy(d["is_pinned"]);
    assert pinned == ("is_pinned" in cols && n.isPinned != 0);
    d := d["is_pinned" := Bool(pinned)];
    var hasCiphertext := "encrypted_content" in d && Truthy(d["encrypted_content"]);
    assert hasCiphertext ==> d["encrypted_content"] == Str(n.encryptedContent);
    assert hasCiphertext == ("encrypted_content" in cols && n.encryptedContent != "");
    if decrypt.Some? && hasCiphertext {
      d := d["content" := Str(Plaintext(decrypt.value, d["encrypted_content"].s))];
    }
    d := d - {"encrypted_content"};
    d := d - {"embedding"};
    return Ok(d);
  }

  /** A ciphertext that decrypts back to the plaintext shows that plaintext. */
  lemma ContentRoundTrip(n: NoteRow, content: string, encrypt: string -> string, decrypt: string -> Option<string>)
    requires n.encryptedContent == encrypt(content) && encrypt(content) != ""
    requires decrypt(encrypt(content)) == Some(content)
    requires Loads(n.tags).Some?
    ensures NoteDict(n, NoteColumns, Some(decrypt)).Ok?
    ensures NoteDict(n, NoteColumns, Some(decrypt)).value["content"] == Str(content)
  {
    assert ShowsContent(n, NoteColumns, Some(decrypt));
  }

  /** The row with this id that belongs to this user (WHERE id = ? AND user_id = ?). */
  function Find(rows: seq<NoteRow>, id: nat, userId: nat): (r: Option<nat>)
    ensures r.Some? ==> r.value < |rows| && rows[r.value].id == id && rows[r.value].userId == userId
    ensures r.None? <==> forall k :: 0 <= k < |rows| ==> !(rows[k].id == id && rows[k].userId == userId)
  {
    FindFirst(rows, (n: NoteRow) => n.id == id && n.userId == userId)
  }

  /** The caller's rows in table order. */
  function Owned(rows: seq<NoteRow>, userId: nat): seq<NoteRow> {
    Filter(rows, (n: NoteRow) => n.userId == userId)
  }

  /** ORDER BY is_pinned DESC, updated_at DESC over the caller's rows. */
  function ListOrder(rows: seq<NoteRow>, userId: nat): seq<NoteRow> {
    SortDesc(SortDesc(Owned(rows, userId), NoteUpdated), NotePinned)
  }

  /** list_notes returns exactly the caller's notes, pinned first, then most recently updated. */
  lemma ListOrderSpec(rows: seq<NoteRow>, userId: nat)
    ensures multiset(ListOrder(rows, userId)) == multiset(Owned(rows, userId))
    ensures forall n :: n in ListOrder(rows, userId) <==> n in rows && n.userId == userId
    ensures LexNonIncreasing(ListOrder(rows, userId), NotePinned, NoteUpdated)
  {
    var byUpdated := SortDesc(Owned(rows, userId), NoteUpdated);
    SortDescNonIncreasing(Owned(rows, userId), NoteUpdated);
    SortDescLex(byUpdated, NotePinned, NoteUpdated);
    forall n ensures n in ListOrder(rows, userId) <==> n in Owned(rows, userId) {
      assert n in ListOrder(rows, userId) <==> n in multiset(ListOrder(rows, userId));
      assert n in Owned(rows, userId) <==> n in multiset(Owned(rows, userId));
    }
  }

  lemma ListOrderOwned(rows: seq<NoteRow>, userId: nat)
    ensures |ListOrder(rows, userId)| == |Owned(rows, userId)|
    ensures forall i :: 0 <= i < |ListOrder(rows, userId)| ==> ListOrder(rows, userId)[i].userId == userId
  {
    var ordered := ListOrder(rows, userId);
    ListOrderSpec(rows, userId);
    assert |multiset(ordered)| == |multiset(Owned(rows, userId))|;
    forall i | 0 <= i < |ordered| ensures ordered[i].userId == userId {
      assert ordered[i] in ordered;
    }
  }

  /** The projection of a summary-column row: its owner, and neither content nor ciphertext. */
  lemma ListDict(n: NoteRow)
    ensures NoteDict(n, ListColumns, None).Ok? ==>
      var d := NoteDict(n, ListColumns, None).value;
      "user_id" in d && d["user_id"] == Int(n.userId) && "content" !in d && "encrypted_content" !in d
  {
    assert !ShowsContent(n, ListColumns, None);
    assert "user_id" in ListColumns - HiddenKeys;
  }

  lemma ListDicts(ns: seq<NoteRow>, userId: nat)
    requires forall i :: 0 <= i < |ns| ==> ns[i].userId == userId
    ensures Dicts(ns, ListColumns, None).Ok? ==> forall i :: 0 <= i < |ns| ==>
      var d := Dicts(ns, ListColumns, None).value[i];
      "user_id" in d && d["user_id"] == Int(userId) && "content" !in d && "encrypted_content" !in d
  {
    forall i | 0 <= i < |ns| {
      ListDict(ns[i]);
    }
  }

  /** [note_to_dict(n) for n in notes]: fails if any row fails. */
  function Dicts(ns: seq<NoteRow>, cols: set<string>, decrypt: Option<string -> Option<string>>): (r: Result<seq<Dict>>)
    ensures r.Ok? <==> forall i :: 0 <= i < |ns| ==> NoteDict(ns[i], cols, decrypt).Ok?
    ensures r.Err? ==> r.error == ServerError
    ensures r.Ok? ==> |r.value| == |ns| && forall i :: 0 <= i < |ns| ==> r.value[i] == NoteDict(ns[i], cols, decrypt).value
    decreases |ns|
  {
    if |ns| == 0 then Ok([])
    else
      var first := NoteDict(ns[0], cols, decrypt);
      var rest := Dicts(ns[1..], cols, decrypt);
      assert forall i :: 1 <= i < |ns| ==> ns[i] == ns[1..][i - 1];
      if first.Err? then Err(first.error)
      else if rest.Err? then Err(rest.error)
      else Ok([first.value] + rest.value)
  }

  /** The fields a PUT may carry; None means "not supplied". */
  datatype NoteUpdate = NoteUpdate(
    title: Option<string>, content: Option<string>, tags: Option<seq<string>>, isPinned: Option<bool>)

  /** One "column = value" item of the UPDATE's SET list. */
  datatype Assignment =
    | SetTitle(title: string)
    | SetCiphertext(ciphertext: string)
    | SetTags(tags: TagsCell)
    | SetPinned(pinned: int)
    | Touch

  function Assign(n: NoteRow, a: Assignment, now: nat): NoteRow {
    match a
    case SetTitle(t) => n.(title := t)
    case SetCiphertext(c) => n.(encryptedContent := c)
    case SetTags(c) => n.(tags := c)
    case SetPinned(p) => n.(isPinned := p)
    case Touch => n.(updatedAt := now)
  }

  function AssignAll(n: NoteRow, items: seq<Assignment>, now: nat): NoteRow
    decreases |items|
  {
    if |items| == 0 then n else AssignAll(Assign(n, items[0], now), items[1..], now)
  }

  lemma {:induction false} AssignAllAppend(n: NoteRow, items: seq<Assignment>, a: Assignment, now: nat)
    ensures AssignAll(n, items + [a], now) == Assign(AssignAll(n, items, now), a, now)
    decreases |items|
  {
    if |items| > 0 {
      assert (items + [a])[1..] == items[1..] + [a];
      AssignAllAppend(Assign(n, items[0], now), items[1..], a, now);
    }
  }

  lemma AssignAllOpt(n: NoteRow, items: seq<Assignment>, c: bool, a: Assignment, now: nat)
    ensures AssignAll(n, items + (if c then [a] else []), now)
         == if c then Assign(AssignAll(n, items, now), a, now) else AssignAll(n, items, now)
  {
    if c {
      AssignAllAppend(n, items, a, now);
    } else {
      assert items + [] == items;
    }
  }

  /** The SET items update_note collects, in its order, before updated_at. */
  function SetList(u: NoteUpdate, encrypt: string -> string): seq<Assignment> {
    (if u.title.Some? then [SetTitle(u.title.value)] else [])
    + (if u.content.Some? then [SetCiphertext(encrypt(u.content.value))] else [])
    + (if u.tags.Some? then [SetTags(Encoded(u.tags.value))] else [])
    + (if u.isPinned.Some? then [SetPinned(if u.isPinned.value then 1 else 0)] else [])
  }

  /** Running the collected SET list plus "updated_at = now" yields the updated row. */
  lemma SetListApplied(n: NoteRow, u: NoteUpdate, encrypt: string -> string, now: nat)
    ensures SetList(u, encrypt) != [] <==> Supplies(u)
    ensures !Supplies(u) ==> Updated(n, u, encrypt, now) == n
    ensures Supplies(u) ==> AssignAll(n, SetList(u, encrypt) + [Touch], now) == Updated(n, u, encrypt, now)
  {
    SetListLength(u, encrypt);
    if Supplies(u) {
      SetListRun(n, u, encrypt, now);
    }
  }

  lemma SetListLength(u: NoteUpdate, encrypt: string -> string)
    ensures |SetList(u, encrypt)| ==
      (if u.title.Some? then 1 else 0) + (if u.content.Some? then 1 else 0)
      + (if u.tags.Some? then 1 else 0) + (if u.isPinned.Some? then 1 else 0)
  {
  }

  /** The row after the supplied fields' SET items, before updated_at. */
  function Staged(n: NoteRow, u: NoteUpdate, encrypt: string -> string): NoteRow {
    var r1 := if u.title.Some? then n.(title := u.title.value) else n;
    var r2 := if u.content.Some? then r1.(encryptedContent := encrypt(u.content.value)) else r1;
    var r3 := if u.tags.Some? then r2.(tags := Encoded(u.tags.value)) else r2;
    if u.isPinned.Some? then r3.(isPinned := if u.isPinned.value then 1 else 0) else r3
  }

  lemma SetListStaged(n: NoteRow, u: NoteUpdate, encrypt: string -> string, now: nat)
    ensures AssignAll(n, SetList(u, encrypt), now) == Staged(n, u, encrypt)
  {
    var t := if u.title.Some? then [SetTitle(u.title.value)] else [];
    var c := if u.content.Some? then [SetCiphertext(encrypt(u.content.value))] else [];
    var g := if u.tags.Some? then [SetTags(Encoded(u.tags.value))] else [];
    var p := if u.isPinned.Some? then [SetPinned(if u.isPinned.value then 1 else 0)] else [];
    assert SetList(u, encrypt) == t + c + g + p;
    var r1 := if u.title.Some? then n.(title := u.title.value) else n;
    var r2 := if u.content.Some? then r1.(encryptedContent := encrypt(u.content.value)) else r1;
    var r3 := if u.tags.Some? then r2.(tags := Encoded(u.tags.value)) else r2;
    AssignAllOpt(n, [], u.title.Some?, SetTitle(OrElse(u.title, "")), now);
    assert [] + t == t;
    assert AssignAll(n, t, now) == r1;
    AssignAllOpt(n, t, u.content.Some?, SetCiphertext(encrypt(OrElse(u.content, ""))), now);
    assert AssignAll(n, t + c, now) == r2;
    AssignAllOpt(n, t + c, u.tags.Some?, SetTags(Encoded(OrElse(u.tags, []))), now);
    assert AssignAll(n, t + c + g, now) == r3;
    AssignAllOpt(n, t + c + g, u.isPinned.Some?, SetPinned(if OrElse(u.isPinned, false) then 1 else 0), now);
    var r4 := AssignAll(n, t + c + g + p, now);
    assert r4 == if u.isPinned.Some? then r3.(isPinned := if u.isPinned.value then 1 else 0) else r3;
    assert r4 == Staged(n, u, encrypt);
  }

  lemma StagedTouched(n: NoteRow, u: NoteUpdate, encrypt: string -> string, now: nat)
    requires Supplies(u)
    ensures Staged(n, u, encrypt).(updatedAt := now) == Updated(n, u, encrypt, now)
  {
  }

  lemma SetListRun(n: NoteRow, u: NoteUpdate, encrypt: string -> string, now: nat)
    requires Supplies(u)
    ensures AssignAll(n, SetList(u, encrypt) + [Touch], now) == Updated(n, u, encrypt, now)
  {
    SetListStaged(n, u, encrypt, now);
    AssignAllAppend(n, SetList(u, encrypt), Touch, now);
    StagedTouched(n, u, encrypt, now);
  }

  predicate Supplies(u: NoteUpdate) {
    u.title.Some? || u.content.Some? || u.tags.Some? || u.isPinned.Some?
  }

  function OrElse<T>(o: Option<T>, d: T): T {
    match o
    case None => d
    case Some(v) => v
  }

  /**
   * The row after a PUT, field by field: each supplied field replaced (the content encrypted,
   * the tags as json.dumps, the pin as 1 or 0), updated_at set to now iff anything was supplied.
   */
  function Updated(n: NoteRow, u: NoteUpdate, encrypt: string -> string, now: nat): NoteRow {
    NoteRow(
      n.id, n.userId,
      OrElse(u.title, n.title),
      if u.content.Some? then encrypt(u.content.value) else n.encryptedContent,
      if u.tags.Some? then Encoded(u.tags.value) else n.tags,
      n.embedding,
      if u.isPinned.Some? then (if u.isPinned.value then 1 else 0) else n.isPinned,
      n.createdAt,
      if Supplies(u) then now else n.updatedAt)
  }

  /** A PUT with no fields leaves the row exactly as it was, updated_at included. */
  lemma EmptyUpdateIsNoop(n: NoteRow, u: NoteUpdate, encrypt: string -> string, now: nat)
    requires !Supplies(u)
    ensures Updated(n, u, encrypt, now) == n
  {
  }

  /** Repeating the same PUT at the same time changes nothing more. */
  lemma UpdateIdempotent(n: NoteRow, u: NoteUpdate, encrypt: string -> string, now: nat)
    ensures Updated(Updated(n, u, encrypt, now), u, encrypt, now) == Updated(n, u, encrypt, now)
  {
  }

  /** Whatever is supplied, a PUT never changes the id, the owner, the creation time or the embedding. */
  lemma UpdateKeepsIdentity(n: NoteRow, u: NoteUpdate, encrypt: string -> string, now: nat)
    ensures var m := Updated(n, u, encrypt, now);
      m.id == n.id && m.userId == n.userId && m.createdAt == n.createdAt && m.embedding == n.embedding
    ensures var m := Updated(n, u, encrypt, now);
      m.isPinned == 0 || m.isPinned == 1 || m.isPinned == n.isPinned
  {
  }

  // -----------------------------------------------------------------------------------------
  // Related notes

  datatype RelatedNote = RelatedNote(id: nat, title: string, tags: seq<string>, updatedAt: nat, similarity: real)

  function RelatedSim(h: RelatedNote): real { h.similarity }

  const RelatedLimit: nat := 5

  /** set(t.lower() for t in tags) */
  function LowerSet(tags: seq<string>): set<string> {
    set t | t in tags :: LowerStr(t)
  }

  /** The number of tags the two lists share, ignoring case. */
  function Overlap(a: seq<string>, b: seq<string>): nat {
    |LowerSet(a) * LowerSet(b)|
  }

  function Max(a: nat, b: nat): nat { if a >= b then a else b }

  /** overlap / max(len(a), len(b)): a ratio of list lengths, not set sizes. */
  function Similarity(a: seq<string>, b: seq<string>): real
    requires a != [] || b != []
  {
    Overlap(a, b) as real / Max(|a|, |b|) as real
  }

  lemma MulAbove(q: real, b: real)
    requires q > 1.0 && b > 0.0
    ensures q * b > b
  {
    assert (q - 1.0) * b > 0.0;
  }

  lemma RatioAtMostOne(x: real, y: real)
    requires 0.0 <= x <= y && y > 0.0
    ensures x / y <= 1.0
  {
    var q := x / y;
    assert q * y == x;
    if q > 1.0 {
      MulAbove(q, y);
    }
  }

  /** Two tag lists that share a tag have a similarity in (0, 1]. */
  lemma SimilarityBounds(a: seq<string>, b: seq<string>)
    requires a != [] && Overlap(a, b) > 0
    ensures 0.0 < Similarity(a, b) <= 1.0
  {
    forall y | y in LowerSet(a) ensures exists x :: x in a && LowerStr(x) == y {
      var x :| x in a && LowerStr(x) == y;
    }
    ImageCard(a, LowerStr, LowerSet(a));
    var common := LowerSet(a) * LowerSet(b);
    assert common <= LowerSet(a);
    SubsetCard(common, LowerSet(a));
    assert |LowerSet(a)| <= |a|;
    assert |common| <= |LowerSet(a)|;
    assert Overlap(a, b) == |common|;
    RatioAtMostOne(Overlap(a, b) as real, Max(|a|, |b|) as real);
  }

  lemma {:induction false} SubsetCard<T>(a: set<T>, b: set<T>)
    requires a <= b
    ensures |a| <= |b|
    decreases |b|
  {
    if a != {} {
      var x :| x in a;
      SubsetCard(a - {x}, b - {x});
    }
  }

  /** The entry the scan appends for another note whose parsed tags are t. */
  function HitFor(noteTags: seq<string>, n: NoteRow, t: seq<string>): RelatedNote
    requires t != []
  {
    RelatedNote(n.id, n.title, t, n.updatedAt, Similarity(noteTags, t))
  }

  /** h is the entry for note n: n has a non-empty tag list sharing a tag with the note's. */
  predicate RelatedHitOf(h: RelatedNote, n: NoteRow, noteTags: seq<string>) {
    && TagsOrEmpty(n.tags) == Some(h.tags) && h.tags != [] && Overlap(noteTags, h.tags) > 0
    && h == HitFor(noteTags, n, h.tags)
  }

  /** The hits of the caller's other notes, in table order; an unparseable tags column raises. */
  function RelatedOf(noteTags: seq<string>, others: seq<NoteRow>): (r: Result<seq<RelatedNote>>)
    requires noteTags != []
    ensures r.Err? ==> r.error == ServerError && exists n :: n in others && TagsOrEmpty(n.tags).None?
    ensures r.Ok? ==> forall h :: h in r.value ==>
      && 0.0 < h.similarity <= 1.0
      && exists n :: n in others && RelatedHitOf(h, n, noteTags)
    decreases |others|
  {
    if |others| == 0 then Ok([])
    else
      var n := others[0];
      assert forall m :: m in others[1..] ==> m in others;
      match TagsOrEmpty(n.tags)
      case None => Err(ServerError)
      case Some(otherTags) =>
        var rest := RelatedOf(noteTags, others[1..]);
        if otherTags != [] && Overlap(noteTags, otherTags) > 0 then
          SimilarityBounds(noteTags, otherTags);
          assert RelatedHitOf(HitFor(noteTags, n, otherTags), n, noteTags);
          Prepend([HitFor(noteTags, n, otherTags)], rest)
        else rest
  }

  /** Every other note whose tags parse, are non-empty and share a tag with the note's is a hit. */
  lemma {:induction false} RelatedOfComplete(noteTags: seq<string>, others: seq<NoteRow>, n: NoteRow, t: seq<string>)
    requires noteTags != [] && RelatedOf(noteTags, others).Ok?
    requires n in others && TagsOrEmpty(n.tags) == Some(t) && t != [] && Overlap(noteTags, t) > 0
    ensures HitFor(noteTags, n, t) in RelatedOf(noteTags, others).value
    decreases |others|
  {
    var m := others[0];
    var rest := RelatedOf(noteTags, others[1..]);
    assert TagsOrEmpty(m.tags).Some?;
    assert rest.Ok?;
    if m != n {
      RelatedOfComplete(noteTags, others[1..], n, t);
    }
  }

  /** The caller's notes other than the given one, in table order. */
  function Others(rows: seq<NoteRow>, userId: nat, id: nat): seq<NoteRow> {
    Filter(rows, (n: NoteRow) => n.userId == userId && n.id != id)
  }

  /** The scan in GET /notes/{id}/related: one pass over the other notes, keeping each hit. */
  method CollectRelated(noteTags: seq<string>, others: seq<NoteRow>) returns (r: Result<seq<RelatedNote>>)
    requires noteTags != []
    ensures r == RelatedOf(noteTags, others)
  {
    var results: seq<RelatedNote> := [];
    var k := 0;
    assert others[0..] == others;
    assert RelatedOf(noteTags, others).Ok? ==> [] + RelatedOf(noteTags, others).value == RelatedOf(noteTags, others).value;
    while k < |others|
      invariant 0 <= k <= |others|
      invariant RelatedOf(noteTags, others) == Prepend(results, RelatedOf(noteTags, others[k..]))
    {
      var n := others[k];
      assert others[k..][1..] == others[k + 1..];
      var otherTags := TagsOrEmpty(n.tags);
      if otherTags.None? {
        return Err(ServerError);
      }
      if otherTags.value != [] {
        var overlap := Overlap(noteTags, otherTags.value);
        if overlap > 0 {
          var h := HitFor(noteTags, n, otherTags.value);
          var rest := RelatedOf(noteTags, others[k + 1..]);
          assert rest.Ok? ==> results + ([h] + rest.value) == (results + [h]) + rest.value;
          results := results + [h];
        }
      }
      k := k + 1;
    }
    assert results + [] == results;
    r := Ok(results);
  }

  /** get_related_notes: the five most similar of the caller's other notes. */
  function RelatedSpec(rows: seq<NoteRow>, id: nat, userId: nat): (r: Result<seq<RelatedNote>>)
    ensures r == Err(NoteNotFound) <==> Find(rows, id, userId).None?
    ensures r.Err? && r != Err(NoteNotFound) ==> r.error == ServerError
    ensures r.Ok? ==> |r.value| <= RelatedLimit && NonIncreasing(r.value, RelatedSim)
    ensures r.Ok? ==> forall h :: h in r.value ==>
      && h.id != id && 0.0 < h.similarity <= 1.0 && h.tags != []
      && exists n :: n in rows && n.userId == userId && n.id == h.id
    ensures Find(rows, id, userId).Some? && TagsOrEmpty(rows[Find(rows, id, userId).value].tags) == Some([]) ==>
      r == Ok([])
  {
    match Find(rows, id, userId)
    case None => Err(NoteNotFound)
    case Some(i) =>
      match TagsOrEmpty(rows[i].tags)
      case None => Err(ServerError)
      case Some(noteTags) =>
        if noteTags == [] then Ok([])
        else
          var others := Others(rows, userId, id);
          match RelatedOf(noteTags, others)
          case Err(e) => Err(e)
          case Ok(hits) =>
            var sorted := SortDesc(hits, RelatedSim);
            SortDescNonIncreasing(hits, RelatedSim);
            assert forall h :: h in sorted ==> h in hits by {
              forall h | h in sorted ensures h in hits {
                assert h in multiset(sorted);
              }
            }
            Ok(Take(sorted, RelatedLimit))
  }

  /** Each related note shown is the entry of another of the caller's notes that shares a tag. */
  lemma RelatedSpecSound(rows: seq<NoteRow>, id: nat, userId: nat, noteTags: seq<string>, h: RelatedNote)
    requires Find(rows, id, userId).Some?
    requires TagsOrEmpty(rows[Find(rows, id, userId).value].tags) == Some(noteTags)
    requires RelatedSpec(rows, id, userId).Ok? && h in RelatedSpec(rows, id, userId).value
    ensures exists n :: n in rows && n.userId == userId && n.id != id && RelatedHitOf(h, n, noteTags)
  {
    var others := Others(rows, userId, id);
    var hits := RelatedOf(noteTags, others).value;
    TopOfSorted(hits, RelatedSim, RelatedLimit);
    var n :| n in others && RelatedHitOf(h, n, noteTags);
  }

  /**
   * Every other note of the caller that shares a tag is shown, unless five are shown and each
   * of them is at least as similar.
   */
  lemma RelatedSpecTop(rows: seq<NoteRow>, id: nat, userId: nat, noteTags: seq<string>, n: NoteRow, t: seq<string>)
    requires Find(rows, id, userId).Some?
    requires TagsOrEmpty(rows[Find(rows, id, userId).value].tags) == Some(noteTags) && noteTags != []
    requires RelatedSpec(rows, id, userId).Ok?
    requires n in rows && n.userId == userId && n.id != id
    requires TagsOrEmpty(n.tags) == Some(t) && t != [] && Overlap(noteTags, t) > 0
    ensures var r := RelatedSpec(rows, id, userId).value;
      || HitFor(noteTags, n, t) in r
      || (|r| == RelatedLimit && forall f :: f in r ==> HitFor(noteTags, n, t).similarity <= f.similarity)
  {
    var others := Others(rows, userId, id);
    var hits := RelatedOf(noteTags, others).value;
    var h := HitFor(noteTags, n, t);
    RelatedOfComplete(noteTags, others, n, t);
    var sorted := SortDesc(hits, RelatedSim);
    var r := Take(sorted, RelatedLimit);
    assert RelatedSpec(rows, id, userId).value == r;
    if h !in r {
      assert h in multiset(sorted);
      assert |r| == RelatedLimit;
      forall f | f in r ensures h.similarity <= f.similarity {
        LeftOutOfSorted(hits, RelatedSim, RelatedLimit, h, f);
      }
    }
  }

  /** update_note's SET list, one supplied field at a time. */
  method CollectAssignments(u: NoteUpdate, encrypt: string -> string) returns (updates: seq<Assignment>)
    ensures updates == SetList(u, encrypt)
  {
    updates := [];
    if u.title.Some? {
      updates := updates + [SetTitle(u.title.value)];
    }
    if u.content.Some? {
      updates := updates + [SetCiphertext(encrypt(u.content.value))];
    }
    if u.tags.Some? {
      updates := updates + [SetTags(Encoded(u.tags.value))];
    }
    if u.isPinned.Some? {
      updates := updates + [SetPinned(if u.isPinned.value then 1 else 0)];
    }
  }

  /** What create_note returns for the row it inserted. */
  lemma NewRowDict(n: NoteRow, tags: seq<string>)
    requires n.tags == Encoded(tags) && n.isPinned == 0
    ensures NoteDict(n, ListColumns, None).Ok?
    ensures var d := NoteDict(n, ListColumns, None).value;
      d.Keys == ListColumns && d["id"] == Int(n.id) && d["tags"] == List(tags) && d["is_pinned"] == Bool(false)
  {
    assert !ShowsContent(n, ListColumns, None);
  }

  /** The notes table. Ids come from a SERIAL column: unique, and below the next one handed out. */
  class NotesTable {
    var rows: seq<NoteRow>
    var nextId: nat

    ghost predicate Valid()
      reads this
    {
      DistinctKeys(rows, NoteId) && KeysBelow(rows, NoteId, nextId) && nextId >= 1
    }

    constructor ()
      ensures Valid() && rows == [] && nextId == 1
    {
      rows := [];
      nextId := 1;
    }

    /** GET /notes: the caller's notes without content, pinned first, then newest update. */
    function ListNotes(userId: nat): (r: Result<seq<Dict>>)
      reads this
      ensures r.Err? ==> r.error == ServerError
      ensures r.Ok? ==> |r.value| == |ListOrder(rows, userId)| == |Owned(rows, userId)|
      ensures r.Ok? ==> forall i :: 0 <= i < |r.value| ==>
        "user_id" in r.value[i] && r.value[i]["user_id"] == Int(userId)
        && "content" !in r.value[i] && "encrypted_content" !in r.value[i]
      ensures r.Ok? ==> forall i :: 0 <= i < |r.value| ==>
        Ok(r.value[i]) == NoteDict(ListOrder(rows, userId)[i], ListColumns, None)
    {
      ListOrderOwned(rows, userId);
      ListDicts(ListOrder(rows, userId), userId);
      Dicts(ListOrder(rows, userId), ListColumns, None)
    }

    /** POST /notes: inserts a row with the encrypted content and json.dumps of the tags. */
    method CreateNote(userId: nat, title: string, content: string, tags: seq<string>, encrypt: string -> string, now: nat)
      returns (r: Dict)
      requires Valid()
      modifies this
      ensures Valid()
      ensures rows == old(rows) + [NoteRow(old(nextId), userId, title, encrypt(content), Encoded(tags), None, 0, now, now)]
      ensures nextId == old(nextId) + 1
      ensures Ok(r) == NoteDict(rows[|rows| - 1], ListColumns, None)
      ensures r.Keys == ListColumns && r["id"] == Int(old(nextId)) && r["tags"] == List(tags) && r["is_pinned"] == Bool(false)
    {
      var n := NoteRow(nextId, userId, title, encrypt(content), Encoded(tags), None, 0, now, now);
      NewRowDict(n, tags);
      AppendKeeps(rows, NoteId, nextId, n);
      rows := rows + [n];
      nextId := nextId + 1;
      var d := NoteToDict(n, ListColumns, None);
      r := d.value;
    }

    /** GET /notes/{id}: the caller's note with its decrypted content, or 404. */
    function GetNote(id: nat, userId: nat, decrypt: string -> Option<string>): (r: Result<Dict>)
      reads this
      ensures r == Err(NoteNotFound) <==> Find(rows, id, userId).None?
      ensures r.Ok? ==> "id" in r.value && "user_id" in r.value && r.value["id"] == Int(id) && r.value["user_id"] == Int(userId)
      ensures r.Ok? ==> "encrypted_content" !in r.value && "embedding" !in r.value
      ensures Find(rows, id, userId).Some? ==> r == NoteDict(rows[Find(rows, id, userId).value], NoteColumns, Some(decrypt))
    {
      match Find(rows, id, userId)
      case None => Err(NoteNotFound)
      case Some(i) =>
        var d := NoteDict(rows[i], NoteColumns, Some(decrypt));
        assert d.Ok? ==> "id" in d.value && "user_id" in d.value;
        d
    }

    /** PUT /notes/{id}: SETs only the supplied fields, plus updated_at when any was supplied. */
    method UpdateNote(id: nat, userId: nat, u: NoteUpdate, encrypt: string -> string, decrypt: string -> Option<string>, now: nat)
      returns (r: Result<Dict>)
      requires Valid()
      modifies this
      ensures Valid() && nextId == old(nextId)
      ensures Find(old(rows), id, userId).None? ==> r == Err(NoteNotFound) && rows == old(rows)
      ensures Find(old(rows), id, userId).Some? ==>
        var i := Find(old(rows), id, userId).value;
        && rows == old(rows)[i := Updated(old(rows)[i], u, encrypt, now)]
        && r == NoteDict(rows[i], NoteColumns, Some(decrypt))
    {
      var found := Find(rows, id, userId);
      if found.None? {
        return Err(NoteNotFound);
      }
      var i := found.value;
      var n := rows[i];
      var updates := CollectAssignments(u, encrypt);
      SetListApplied(n, u, encrypt, now);
      if updates != [] {
        updates := updates + [Touch];
        ReplaceKeeps(rows, NoteId, nextId, i, AssignAll(n, updates, now));
        rows := rows[i := AssignAll(n, updates, now)];
      }
      r := NoteToDict(rows[i], NoteColumns, Some(decrypt));
    }

    /** DELETE /notes/{id}: removes the caller's note, or answers 404 and changes nothing. */
    method DeleteNote(id: nat, userId: nat) returns (r: Result<string>)
      requires Valid()
      modifies this
      ensures Valid() && nextId == old(nextId)
      ensures Find(old(rows), id, userId).None? ==> r == Err(NoteNotFound) && rows == old(rows)
      ensures Find(old(rows), id, userId).Some? ==>
        var i := Find(old(rows), id, userId).value;
        r == Ok("Note deleted") && rows == old(rows)[..i] + old(rows)[i + 1..]
    {
      var found := Find(rows, id, userId);
      if found.None? {
        return Err(NoteNotFound);
      }
      RemoveKeyAt(rows, NoteId, found.value);
      RemoveKeeps(rows, NoteId, nextId, found.value);
      rows := RemoveKey(rows, NoteId, id);
      return Ok("Note deleted");
    }

    /** GET /notes/{id}/related: the scan over the caller's other notes, then sort and top five. */
    method RelatedNotes(id: nat, userId: nat) returns (r: Result<seq<RelatedNote>>)
      ensures r == RelatedSpec(rows, id, userId)
    {
      var found := Find(rows, id, userId);
      if found.None? {
        return Err(NoteNotFound);
      }
      var noteTags := TagsOrEmpty(rows[found.value].tags);
      if noteTags.None? {
        return Err(ServerError);
      }
      if noteTags.value == [] {
        return Ok([]);
      }
      var hits := CollectRelated(noteTags.value, Others(rows, userId, id));
      if hits.Err? {
        return Err(hits.error);
      }
      var results := SortDesc(hits.value, RelatedSim);
      r := Ok(Take(results, RelatedLimit));
    }

    /** POST /notes/{id}/summarize: 404 first, then the summary of the decrypted content. */
    function SummarizeNote(id: nat, userId: nat, decrypt: string -> Option<string>, model: string -> Option<string>)
      : (r: Result<string>)
      reads this
      ensures r == Err(NoteNotFound) <==> Find(rows, id, userId).None?
      ensures r.Err? && r != Err(NoteNotFound) ==> r.error == ServerError
      ensures Find(rows, id, userId).Some? ==>
        var content := decrypt(rows[Find(rows, id, userId).value].encryptedContent);
        && (content.None? ==> r == Err(ServerError))
        && (content.Some? && SummaryInput(content.value).Immediate? ==> r == Ok(SummaryInput(content.value).summary))
        && (content.Some? && SummaryInput(content.value).AskModel? ==>
              (r.Ok? <==> model(SummaryInput(content.value).docText).Some?))
    {
      match Find(rows, id, userId)
      case None => Err(NoteNotFound)
      case Some(i) =>
        match decrypt(rows[i].encryptedContent)
        case None => Err(ServerError)
        case Some(content) =>
          match SummaryInput(content)
          case Immediate(s) => Ok(s)
          case AskModel(docText) =>
            match model(docText)
            case None => Err(ServerError)
            case Some(s) => Ok(s)
    }
  }
}
