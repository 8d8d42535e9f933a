/**
 * The dashboard statistics: per-user counts, the recent items, the tag distribution counted
 * with a Counter over the parsed tag lists, and the eight-week activity chart. Week keys,
 * week labels and the date cut-off are inputs: the calendar arithmetic is not modelled.
 */
module Dashboard {
  import opened Wrappers
  import opened Sequences
  import opened Tables
  import Notes
  import Documents

  // -----------------------------------------------------------------------------------------
  // The tag counter

  /** One entry of a collections.Counter: a tag and how often it was seen. */
  datatype TagCount = TagCount(tag: string, count: nat)

  function TagOf(e: TagCount): string { e.tag }
  function CountKey(e: TagCount): real { e.count as real }

  /** The tags the Counter has an entry for. */
  function Tags(c: seq<TagCount>): set<string>
    decreases |c|
  {
    if |c| == 0 then {} else {c[0].tag} + Tags(c[1..])
  }

  /** The Counter's entries are distinct tags, each seen at least once. */
  predicate WellFormed(c: seq<TagCount>)
    decreases |c|
  {
    |c| == 0 || (c[0].count >= 1 && c[0].tag !in Tags(c[1..]) && WellFormed(c[1..]))
  }

  /** counter[t]: the count of t, 0 for a tag never seen. */
  function CountOf(c: seq<TagCount>, t: string): (n: nat)
    ensures t !in Tags(c) ==> n == 0
    decreases |c|
  {
    if |c| == 0 then 0 else if c[0].tag == t then c[0].count else CountOf(c[1..], t)
  }

  lemma {:induction false} TagsAt(c: seq<TagCount>, k: nat)
    requires k < |c|
    ensures c[k].tag in Tags(c)
    decreases |c|
  {
    if k > 0 {
      assert c[1..][k - 1] == c[k];
      TagsAt(c[1..], k - 1);
    }
  }

  /** Counting one more occurrence of t: its entry goes up by one, or a new entry is appended. */
  function Bump(c: seq<TagCount>, t: string): (r: seq<TagCount>)
    decreases |c|
  {
    if |c| == 0 then [TagCount(t, 1)]
    else if c[0].tag == t then [TagCount(t, c[0].count + 1)] + c[1..]
    else [c[0]] + Bump(c[1..], t)
  }

  lemma {:induction false} BumpTags(c: seq<TagCount>, t: string)
    ensures Tags(Bump(c, t)) == Tags(c) + {t}
    decreases |c|
  {
    var r := Bump(c, t);
    if |c| == 0 {
      assert r[1..] == [];
    } else if c[0].tag == t {
      assert r[1..] == c[1..];
    } else {
      BumpTags(c[1..], t);
      assert r[1..] == Bump(c[1..], t);
    }
  }

  /** Bump keeps the Counter well formed, adds one to t's count and leaves the others alone. */
  lemma {:induction false} BumpSpec(c: seq<TagCount>, t: string)
    requires WellFormed(c)
    ensures WellFormed(Bump(c, t))
    ensures CountOf(Bump(c, t), t) == CountOf(c, t) + 1
    ensures forall u :: u != t ==> CountOf(Bump(c, t), u) == CountOf(c, u)
    decreases |c|
  {
    var r := Bump(c, t);
    if |c| == 0 {
      assert r[1..] == [];
    } else if c[0].tag == t {
      assert r[1..] == c[1..];
    } else {
      BumpSpec(c[1..], t);
      BumpTags(c[1..], t);
      assert r[1..] == Bump(c[1..], t);
    }
  }

  /** tag_counter.update(tags): one Bump per element, in order. */
  function AddAll(c: seq<TagCount>, tags: seq<string>): seq<TagCount>
    decreases |tags|
  {
    if |tags| == 0 then c else AddAll(Bump(c, tags[0]), tags[1..])
  }

  /** After update, every tag's count went up by its number of occurrences in the list. */
  lemma {:induction false} AddAllSpec(c: seq<TagCount>, tags: seq<string>)
    requires WellFormed(c)
    ensures WellFormed(AddAll(c, tags))
    ensures forall u :: CountOf(AddAll(c, tags), u) == CountOf(c, u) + multiset(tags)[u]
    decreases |tags|
  {
    if |tags| > 0 {
      BumpSpec(c, tags[0]);
      AddAllSpec(Bump(c, tags[0]), tags[1..]);
      assert tags == [tags[0]] + tags[1..];
      assert multiset(tags) == multiset{tags[0]} + multiset(tags[1..]);
    }
  }

  /** The tags json.loads yields for a row; a row it rejects contributes none. */
  function ParsedTags(n: NoteRow): seq<string> {
    match Loads(n.tags)
    case None => []
    case Some(ts) => ts
  }

  /** Every parsed tag of the rows, row after row. */
  function AllTags(rows: seq<NoteRow>): seq<string>
    decreases |rows|
  {
    if |rows| == 0 then [] else ParsedTags(rows[0]) + AllTags(rows[1..])
  }

  /** The loop over the rows, from a counter that has already seen some. */
  function Counted(c: seq<TagCount>, rows: seq<NoteRow>): seq<TagCount>
    decreases |rows|
  {
    if |rows| == 0 then c
    else
      var next := match Loads(rows[0].tags) case None => c case Some(ts) => AddAll(c, ts);
      Counted(next, rows[1..])
  }

  lemma {:induction false} CountedSpec(c: seq<TagCount>, rows: seq<NoteRow>)
    requires WellFormed(c)
    ensures WellFormed(Counted(c, rows))
    ensures forall u :: CountOf(Counted(c, rows), u) == CountOf(c, u) + multiset(AllTags(rows))[u]
    decreases |rows|
  {
    if |rows| > 0 {
      var next := match Loads(rows[0].tags) case None => c case Some(ts) => AddAll(c, ts);
      AddAllSpec(c, ParsedTags(rows[0]));
      assert forall u :: CountOf(next, u) == CountOf(c, u) + multiset(ParsedTags(rows[0]))[u];
      CountedSpec(next, rows[1..]);
    }
  }

  /**
   * The loop of get_stats over the tag rows: json.loads each row's tags and update the
   * Counter; a row whose tags do not parse is skipped.
   */
  method CountTags(rows: seq<NoteRow>) returns (counter: seq<TagCount>)
    ensures counter == Counted([], rows)
    ensures WellFormed(counter) && DistinctKeys(counter, TagOf)
    ensures forall u :: CountOf(counter, u) == multiset(AllTags(rows))[u]
  {
    counter := [];
    var i := 0;
    while i < |rows|
      invariant 0 <= i <= |rows|
      invariant Counted(counter, rows[i..]) == Counted([], rows)
    {
      match Loads(rows[i].tags) {
        case None =>
        case Some(tags) =>
          counter := AddAll(counter, tags);
      }
      assert rows[i..][1..] == rows[i + 1..];
      i := i + 1;
    }
    CountedSpec([], rows);
    CountOfEmpty();
    WellFormedDistinct(counter);
  }

  lemma CountOfEmpty()
    ensures forall u :: CountOf([], u) == 0
  {
  }

  /** Rows whose tags do not parse change no count. */
  lemma {:induction false} UnparseableIgnored(rows: seq<NoteRow>)
    ensures AllTags(Filter(rows, (n: NoteRow) => Loads(n.tags).Some?)) == AllTags(rows)
    decreases |rows|
  {
    if |rows| > 0 {
      UnparseableIgnored(rows[1..]);
      var p := (n: NoteRow) => Loads(n.tags).Some?;
      var f := Filter(rows, p);
      if p(rows[0]) {
        assert f == [rows[0]] + Filter(rows[1..], p);
        assert f[1..] == Filter(rows[1..], p);
      } else {
        assert f == Filter(rows[1..], p);
      }
    }
  }

  const TopTagCount: nat := 8

  /** tag_counter.most_common(8): the counts in descending order, ties in first-seen order. */
  function TopTags(c: seq<TagCount>): seq<TagCount> {
    Take(SortDesc(c, CountKey), TopTagCount)
  }

  /**
   * most_common(8) keeps at most eight entries of the counter, in non-increasing order of
   * count, each with the count the counter holds for its tag.
   */
  lemma TopTagsSpec(c: seq<TagCount>)
    requires WellFormed(c)
    ensures |TopTags(c)| <= TopTagCount
    ensures |TopTags(c)| == TopTagCount || |TopTags(c)| == |c|
    ensures NonIncreasing(TopTags(c), CountKey)
    ensures forall e :: e in TopTags(c) ==> e in c && e.count == CountOf(c, e.tag)
  {
    var sorted := SortDesc(c, CountKey);
    var top := TopTags(c);
    SortDescNonIncreasing(c, CountKey);
    forall e | e in top ensures e in c && e.count == CountOf(c, e.tag) {
      assert e in multiset(sorted);
      var k :| 0 <= k < |c| && c[k] == e;
      CountOfAt(c, k);
    }
  }

  /** No entry left out of most_common(8) has a larger count than an entry kept. */
  lemma TopTagsAreTop(c: seq<TagCount>, e: TagCount, f: TagCount)
    requires e in c && e !in TopTags(c) && f in TopTags(c)
    ensures e.count <= f.count
  {
    var sorted := SortDesc(c, CountKey);
    var top := TopTags(c);
    SortDescNonIncreasing(c, CountKey);
    assert e in multiset(sorted);
    var j :| 0 <= j < |sorted| && sorted[j] == e;
    var i :| 0 <= i < |top| && top[i] == f;
    assert top[i] == sorted[i];
    assert forall m :: 0 <= m < |top| ==> top[m] == sorted[m] && top[m] != e;
    assert j >= |top|;
    assert CountKey(sorted[i]) >= CountKey(sorted[j]);
  }

  /** A tag seen at least once has an entry holding its count. */
  lemma {:induction false} EntryOf(c: seq<TagCount>, u: string)
    requires CountOf(c, u) > 0
    ensures TagCount(u, CountOf(c, u)) in c
    decreases |c|
  {
    if c[0].tag != u {
      EntryOf(c[1..], u);
    }
  }

  /**
   * A tag the counter has seen that most_common(8) does not list means eight are listed, each
   * seen at least as often.
   */
  lemma TopTagsComplete(c: seq<TagCount>, u: string)
    requires CountOf(c, u) > 0
    requires forall e :: e in TopTags(c) ==> e.tag != u
    ensures |TopTags(c)| == TopTagCount
    ensures forall f :: f in TopTags(c) ==> CountOf(c, u) <= f.count
  {
    var e := TagCount(u, CountOf(c, u));
    EntryOf(c, u);
    assert e !in TopTags(c);
    var sorted := SortDesc(c, CountKey);
    assert e in multiset(sorted);
    assert |TopTags(c)| == TopTagCount;
    forall f | f in TopTags(c) ensures CountOf(c, u) <= f.count {
      LeftOutOfSorted(c, CountKey, TopTagCount, e, f);
    }
  }

  /**
   * The counter over a list of tag rows: a tag that occurs in them and is not in
   * most_common(8) means eight tags are listed, each occurring at least as often.
   */
  lemma MostCommonOfRows(rows: seq<NoteRow>, u: string)
    requires multiset(AllTags(rows))[u] > 0
    requires forall e :: e in TopTags(Counted([], rows)) ==> e.tag != u
    ensures |TopTags(Counted([], rows))| == TopTagCount
    ensures forall f :: f in TopTags(Counted([], rows)) ==> multiset(AllTags(rows))[u] <= f.count
  {
    CountedSpec([], rows);
    CountOfEmpty();
    TopTagsComplete(Counted([], rows), u);
  }

  /** The count stored in an entry is the counter's count for its tag. */
  lemma {:induction false} CountOfAt(c: seq<TagCount>, k: nat)
    requires WellFormed(c) && k < |c|
    ensures CountOf(c, c[k].tag) == c[k].count
    decreases |c|
  {
    if k > 0 {
      assert c[1..][k - 1] == c[k];
      TagsAt(c[1..], k - 1);
      CountOfAt(c[1..], k - 1);
    }
  }

  /** A well-formed Counter has one entry per tag, each with a positive count. */
  lemma {:induction false} WellFormedDistinct(c: seq<TagCount>)
    requires WellFormed(c)
    ensures DistinctKeys(c, TagOf)
    ensures forall k :: 0 <= k < |c| ==> c[k].count >= 1
    decreases |c|
  {
    if |c| > 0 {
      WellFormedDistinct(c[1..]);
      forall i, j | 0 <= i < j < |c| ensures c[i].tag != c[j].tag {
        assert c[1..][j - 1] == c[j];
        if i == 0 {
          TagsAt(c[1..], j - 1);
        } else {
          assert c[1..][i - 1] == c[i];
        }
      }
      forall k | 0 <= k < |c| ensures c[k].count >= 1 {
        if k > 0 { assert c[1..][k - 1] == c[k]; }
      }
    }
  }

  // -----------------------------------------------------------------------------------------
  // The weekly activity chart

  /** One bar of the chart: the week's label and what was created in it. */
  datatype WeekActivity = WeekActivity(week: string, notes: nat, documents: nat)

  const Weeks: nat := 8

  /** dict.get(key, 0) */
  function GetOrZero(m: map<string, nat>, key: string): nat {
    if key in m then m[key] else 0
  }

  /**
   * The chart entry for the week `ago` weeks back: its label and the counts filed under its
   * key, 0 when the query returned no row for it.
   */
  function Slot(notesByWeek: map<string, nat>, docsByWeek: map<string, nat>,
                weekKey: nat -> string, weekLabel: nat -> string, ago: nat): WeekActivity
  {
    WeekActivity(weekLabel(ago), GetOrZero(notesByWeek, weekKey(ago)), GetOrZero(docsByWeek, weekKey(ago)))
  }

  /**
   * The loop for i in range(7, -1, -1): the week i weeks back, oldest first. weekKey(i) is
   * the strftime("%Y-%W") key of that day and weekLabel(i) the "%b %d" of its Monday.
   */
  method BuildActivity(notesByWeek: map<string, nat>, docsByWeek: map<string, nat>,
                       weekKey: nat -> string, weekLabel: nat -> string)
    returns (activity: seq<WeekActivity>)
    ensures |activity| == Weeks
    ensures forall j :: 0 <= j < Weeks ==>
      activity[j] == Slot(notesByWeek, docsByWeek, weekKey, weekLabel, Weeks - 1 - j)
  {
    activity := [];
    var i: int := Weeks - 1;
    while i >= 0
      invariant -1 <= i <= Weeks - 1
      invariant |activity| == Weeks - 1 - i
      invariant forall j :: 0 <= j < |activity| ==>
        activity[j] == Slot(notesByWeek, docsByWeek, weekKey, weekLabel, Weeks - 1 - j)
    {
      var key := weekKey(i);
      var week := weekLabel(i);
      activity := activity + [WeekActivity(week, GetOrZero(notesByWeek, key), GetOrZero(docsByWeek, key))];
      i := i - 1;
    }
  }

  /** A week without a row in either query shows zero notes and zero documents. */
  lemma EmptyWeekIsZero(notesByWeek: map<string, nat>, docsByWeek: map<string, nat>,
                        weekKey: nat -> string, weekLabel: nat -> string, ago: nat)
    requires weekKey(ago) !in notesByWeek && weekKey(ago) !in docsByWeek
    ensures Slot(notesByWeek, docsByWeek, weekKey, weekLabel, ago).notes == 0
    ensures Slot(notesByWeek, docsByWeek, weekKey, weekLabel, ago).documents == 0
  {
  }

  /**
   * The GROUP BY week query: for each week key of the caller's rows created at or after the
   * cut-off, the number of such rows.
   */
  function ByWeek(created: seq<nat>, weekOf: nat -> string, cutoff: nat): (m: map<string, nat>)
    ensures forall w :: w in m ==> m[w] >= 1
  {
    map w | w in (set t | t in created && t >= cutoff :: weekOf(t)) :: WeekCount(created, weekOf, cutoff, w)
  }

  /** How many of the creation times at or after the cut-off fall in week w. */
  function WeekCount(created: seq<nat>, weekOf: nat -> string, cutoff: nat, w: string): (n: nat)
    ensures n >= 1 <==> exists t :: t in created && t >= cutoff && weekOf(t) == w
    decreases |created|
  {
    if |created| == 0 then 0
    else
      var rest := WeekCount(created[1..], weekOf, cutoff, w);
      assert forall t :: t in created <==> t == created[0] || t in created[1..];
      (if created[0] >= cutoff && weekOf(created[0]) == w then 1 else 0) + rest
  }

  /** The chart's count for a week is the number of rows created in it since the cut-off. */
  lemma ByWeekCount(created: seq<nat>, weekOf: nat -> string, cutoff: nat, w: string)
    ensures GetOrZero(ByWeek(created, weekOf, cutoff), w) == WeekCount(created, weekOf, cutoff, w)
  {
    var weeks := set t | t in created && t >= cutoff :: weekOf(t);
    if WeekCount(created, weekOf, cutoff, w) >= 1 {
      var t :| t in created && t >= cutoff && weekOf(t) == w;
      assert w in weeks;
    }
  }

  // -----------------------------------------------------------------------------------------
  // get_stats

  datatype RecentNote = RecentNote(id: nat, title: string, updatedAt: nat)
  datatype RecentDoc = RecentDoc(id: nat, originalName: string, createdAt: nat)

  const RecentLimit: nat := 5

  function RecentNoteOf(n: NoteRow): RecentNote { RecentNote(n.id, n.title, n.updatedAt) }
  function RecentDocOf(d: DocRow): RecentDoc { RecentDoc(d.id, d.originalName, d.createdAt) }

  /** The rows of ORDER BY updated_at DESC LIMIT 5 over the caller's notes. */
  function RecentNoteRows(rows: seq<NoteRow>, userId: nat): seq<NoteRow> {
    Take(SortDesc(Notes.Owned(rows, userId), NoteUpdated), RecentLimit)
  }

  /** SELECT id, title, updated_at ... ORDER BY updated_at DESC LIMIT 5 */
  function RecentNotes(rows: seq<NoteRow>, userId: nat): seq<RecentNote> {
    var top := RecentNoteRows(rows, userId);
    seq(|top|, i requires 0 <= i < |top| => RecentNoteOf(top[i]))
  }

  /** SELECT id, original_name, created_at ... ORDER BY created_at DESC LIMIT 5 */
  function RecentDocs(rows: seq<DocRow>, userId: nat): seq<RecentDoc> {
    var top := Take(Documents.ListDocOrder(rows, userId), RecentLimit);
    seq(|top|, i requires 0 <= i < |top| => RecentDocOf(top[i]))
  }

  /** The recent notes are the five most recently updated of the caller's notes, or all when fewer. */
  lemma RecentNotesSpec(notes: seq<NoteRow>, userId: nat)
    ensures |RecentNotes(notes, userId)| == if |Notes.Owned(notes, userId)| < RecentLimit then |Notes.Owned(notes, userId)| else RecentLimit
    ensures var r := RecentNotes(notes, userId); forall i, j :: 0 <= i < j < |r| ==> r[i].updatedAt >= r[j].updatedAt
  {
    SortDescNonIncreasing(Notes.Owned(notes, userId), NoteUpdated);
  }

  /** Each recent note is one of the caller's notes. */
  lemma RecentNotesOwned(notes: seq<NoteRow>, userId: nat)
    ensures forall x :: x in RecentNotes(notes, userId) ==> exists n :: n in notes && n.userId == userId && x == RecentNoteOf(n)
  {
    var top := RecentNoteRows(notes, userId);
    TopOfSorted(Notes.Owned(notes, userId), NoteUpdated, RecentLimit);
    forall x | x in RecentNotes(notes, userId) ensures exists n :: n in notes && n.userId == userId && x == RecentNoteOf(n) {
      var i :| 0 <= i < |top| && RecentNotes(notes, userId)[i] == x;
      assert top[i] in top;
    }
  }

  /** A note of the caller's that is not listed means five are listed, none updated earlier. */
  lemma RecentNotesTop(notes: seq<NoteRow>, userId: nat, n: NoteRow)
    requires n in notes && n.userId == userId && RecentNoteOf(n) !in RecentNotes(notes, userId)
    ensures |RecentNotes(notes, userId)| == RecentLimit
    ensures forall x :: x in RecentNotes(notes, userId) ==> n.updatedAt <= x.updatedAt
  {
    var own := Notes.Owned(notes, userId);
    var top := RecentNoteRows(notes, userId);
    var r := RecentNotes(notes, userId);
    assert n in own;
    forall i | 0 <= i < |top| ensures top[i] != n {
      assert r[i] == RecentNoteOf(top[i]) && r[i] in r;
    }
    assert n in multiset(SortDesc(own, NoteUpdated));
    forall x | x in r ensures n.updatedAt <= x.updatedAt {
      var i :| 0 <= i < |r| && r[i] == x;
      assert top[i] in top;
      LeftOutOfSorted(own, NoteUpdated, RecentLimit, n, top[i]);
    }
  }

  /** The recent documents are the five newest of the caller's uploads, or all when fewer. */
  lemma RecentDocsSpec(docs: seq<DocRow>, userId: nat)
    ensures |RecentDocs(docs, userId)| == if |Documents.OwnedDocs(docs, userId)| < RecentLimit then |Documents.OwnedDocs(docs, userId)| else RecentLimit
    ensures var r := RecentDocs(docs, userId); forall i, j :: 0 <= i < j < |r| ==> r[i].createdAt >= r[j].createdAt
  {
    Documents.ListDocOrderSpec(docs, userId);
  }

  /** Each recent document is one of the caller's uploads. */
  lemma RecentDocsOwned(docs: seq<DocRow>, userId: nat)
    ensures forall x :: x in RecentDocs(docs, userId) ==> exists d :: d in docs && d.userId == userId && x == RecentDocOf(d)
  {
    var top := Take(Documents.ListDocOrder(docs, userId), RecentLimit);
    Documents.ListDocOrderSpec(docs, userId);
    forall x | x in RecentDocs(docs, userId) ensures exists d :: d in docs && d.userId == userId && x == RecentDocOf(d) {
      var i :| 0 <= i < |top| && RecentDocs(docs, userId)[i] == x;
      assert top[i] in top;
    }
  }

  /** A document of the caller's that is not listed means five are listed, none created earlier. */
  lemma RecentDocsTop(docs: seq<DocRow>, userId: nat, d: DocRow)
    requires d in docs && d.userId == userId && RecentDocOf(d) !in RecentDocs(docs, userId)
    ensures |RecentDocs(docs, userId)| == RecentLimit
    ensures forall x :: x in RecentDocs(docs, userId) ==> d.createdAt <= x.createdAt
  {
    var own := Documents.OwnedDocs(docs, userId);
    var top := Take(SortDesc(own, DocCreated), RecentLimit);
    var r := RecentDocs(docs, userId);
    assert d in own;
    forall i | 0 <= i < |top| ensures top[i] != d {
      assert r[i] == RecentDocOf(top[i]) && r[i] in r;
    }
    assert d in multiset(SortDesc(own, DocCreated));
    forall x | x in r ensures d.createdAt <= x.createdAt {
      var i :| 0 <= i < |r| && r[i] == x;
      assert top[i] in top;
      LeftOutOfSorted(own, DocCreated, RecentLimit, d, top[i]);
    }
  }

  /** The caller's documents with a non-empty summary. */
  predicate Summarised(d: DocRow) {
    d.summary.Some? && d.summary.value != ""
  }

  /** SUM(file_size) ... or 0 */
  function TotalSize(docs: seq<DocRow>): nat
    decreases |docs|
  {
    if |docs| == 0 then 0 else docs[0].fileSize + TotalSize(docs[1..])
  }

  /**
   * The rows with tags != '[]'. SQL would also drop a NULL cell, but the column defaults to
   * '[]' and every write stores a list, so no NULL occurs; Unparseable("") is the empty text.
   */
  function TagRows(rows: seq<NoteRow>, userId: nat): seq<NoteRow> {
    Filter(rows, (n: NoteRow) => n.userId == userId && TagsText(n.tags) != "[]")
  }

  /** The response of GET /dashboard/stats (storage in bytes; see the README for storage_mb). */
  datatype Stats = Stats(
    totalNotes: nat, totalDocuments: nat, aiSummaries: nat, storageBytes: nat, notesWithTags: nat,
    topTags: seq<TagCount>, recentNotes: seq<RecentNote>, recentDocuments: seq<RecentDoc>,
    weeklyActivity: seq<WeekActivity>)

  /**
   * GET /dashboard/stats for the caller. weekOf is strftime('%Y-%W') of a creation time, cutoff
   * is date('now', '-56 days'), and weekKey/weekLabel name the eight weeks before today.
   */
  method GetStats(notes: seq<NoteRow>, docs: seq<DocRow>, userId: nat,
                  weekOf: nat -> string, cutoff: nat, weekKey: nat -> string, weekLabel: nat -> string)
    returns (s: Stats)
    ensures s.totalNotes == |Notes.Owned(notes, userId)|
    ensures s.totalDocuments == |Documents.OwnedDocs(docs, userId)|
    ensures s.aiSummaries == |Filter(Documents.OwnedDocs(docs, userId), Summarised)|
    ensures s.storageBytes == TotalSize(Documents.OwnedDocs(docs, userId))
    ensures s.notesWithTags == |TagRows(notes, userId)|
    ensures |s.topTags| <= TopTagCount && NonIncreasing(s.topTags, CountKey)
    ensures forall e :: e in s.topTags ==> e.count == multiset(AllTags(TagRows(notes, userId)))[e.tag]
    ensures s.topTags == TopTags(Counted([], TagRows(notes, userId)))
    ensures s.recentNotes == RecentNotes(notes, userId) && s.recentDocuments == RecentDocs(docs, userId)
    ensures |s.weeklyActivity| == Weeks
    ensures forall j :: 0 <= j < Weeks ==>
      var ago := Weeks - 1 - j;
      var ownNotes := Notes.Owned(notes, userId);
      var ownDocs := Documents.OwnedDocs(docs, userId);
      && s.weeklyActivity[j].week == weekLabel(ago)
      && s.weeklyActivity[j].notes == WeekCount(CreatedTimes(ownNotes), weekOf, cutoff, weekKey(ago))
      && s.weeklyActivity[j].documents == WeekCount(DocCreatedTimes(ownDocs), weekOf, cutoff, weekKey(ago))
  {
    var ownNotes := Notes.Owned(notes, userId);
    var ownDocs := Documents.OwnedDocs(docs, userId);
    var tagRows := TagRows(notes, userId);
    var counter := CountTags(tagRows);
    TopTagsSpec(counter);
    var notesByWeek := ByWeek(CreatedTimes(ownNotes), weekOf, cutoff);
    var docsByWeek := ByWeek(DocCreatedTimes(ownDocs), weekOf, cutoff);
    var activity := BuildActivity(notesByWeek, docsByWeek, weekKey, weekLabel);
    forall j | 0 <= j < Weeks
      ensures activity[j].notes == WeekCount(CreatedTimes(ownNotes), weekOf, cutoff, weekKey(Weeks - 1 - j))
      ensures activity[j].documents == WeekCount(DocCreatedTimes(ownDocs), weekOf, cutoff, weekKey(Weeks - 1 - j))
    {
      ByWeekCount(CreatedTimes(ownNotes), weekOf, cutoff, weekKey(Weeks - 1 - j));
      ByWeekCount(DocCreatedTimes(ownDocs), weekOf, cutoff, weekKey(Weeks - 1 - j));
    }
    s := Stats(|ownNotes|, |ownDocs|, |Filter(ownDocs, Summarised)|, TotalSize(ownDocs), |tagRows|,
               TopTags(counter), RecentNotes(notes, userId), RecentDocs(docs, userId), activity);
  }

  function CreatedTimes(ns: seq<NoteRow>): seq<nat> {
    seq(|ns|, i requires 0 <= i < |ns| => ns[i].createdAt)
  }

  function DocCreatedTimes(ds: seq<DocRow>): seq<nat> {
    seq(|ds|, i requires 0 <= i < |ds| => ds[i].createdAt)
  }
}
