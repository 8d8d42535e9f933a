/**
 * The smart search endpoint: the search terms that select candidate rows, the token-overlap
 * score of each candidate against the original query, and the composition of the result
 * (owner's rows only, each id once, positive scores only, best first, the total and the
 * expanded terms).
 */
module Search {
  import opened Wrappers
  import opened Text
  import opened Sequences
  import opened Tables
  import opened AiService

  /** set(re.findall(r'\w+', text.lower())) */
  function Tokenize(text: string): (r: set<string>)
    ensures forall w :: w in r ==> w != "" && forall k :: 0 <= k < |w| ==> IsWordChar(w[k])
    ensures text == "" ==> r == {}
  {
    set w | w in Runs(LowerStr(text), IsWordChar)
  }

  /** How many query tokens the text contains. */
  function Hits(q: set<string>, text: string): nat {
    |q * Tokenize(text)|
  }

  lemma MulBelow(x: real, b: real)
    requires x < 1.0 && b > 0.0
    ensures x * b < b
  {
    assert (1.0 - x) * b > 0.0;
  }

  lemma RatioSign(a: real, b: real)
    requires a >= 0.0 && b > 0.0
    ensures a / b >= 0.0
    ensures a / b > 0.0 <==> a > 0.0
    ensures a >= b ==> a / b >= 1.0
  {
    var x := a / b;
    assert x * b == a;
    if x < 1.0 {
      MulBelow(x, b);
    }
  }

  /**
   * score_match: title hits count three times, tag hits twice and summary hits once, out of
   * three per query token, capped at 1.
   */
  function ScoreMatch(q: set<string>, title: string, tags: string, summary: string): (r: real)
    ensures 0.0 <= r <= 1.0
    ensures q == {} ==> r == 0.0
    ensures r > 0.0 <==> Hits(q, title) + Hits(q, tags) + Hits(q, summary) > 0
    ensures q != {} && q <= Tokenize(title) ==> r == 1.0
  {
    if q == {} then 0.0
    else
      var weighted := 3 * Hits(q, title) + 2 * Hits(q, tags) + Hits(q, summary);
      var ratio := weighted as real / (3 * |q|) as real;
      RatioSign(weighted as real, (3 * |q|) as real);
      assert q <= Tokenize(title) ==> q * Tokenize(title) == q && weighted >= 3 * |q|;
      if ratio < 1.0 then ratio else 1.0
  }

  /**
   * The terms that select candidate rows: with the boost off, the query and its whitespace-split
   * words, each once; with the boost on, whatever the query expansion returns (which falls back
   * to just the query).
   */
  function SearchTerms(query: string, aiBoost: bool, reply: ModelReply, decode: string -> Option<JsonValue>): (r: seq<string>)
    ensures query in r && NoDuplicates(r)
    ensures !aiBoost ==> forall t :: t in r <==> t == query || t in SplitWhitespace(query)
    ensures aiBoost ==> r == ExpandSearchQuery(query, reply, decode)
  {
    if aiBoost then ExpandSearchQuery(query, reply, decode) else Dedup([query] + SplitWhitespace(query))
  }

  /** field ILIKE '%term%' */
  predicate ILike(field: string, term: string) {
    Contains(LowerStr(field), LowerStr(term))
  }

  /** The WHERE clause of the notes query. */
  predicate NoteMatches(n: NoteRow, userId: nat, terms: seq<string>) {
    n.userId == userId && exists t :: t in terms && (ILike(n.title, t) || ILike(TagsText(n.tags), t))
  }

  /** The WHERE clause of the documents query (a NULL summary matches no pattern). */
  predicate DocMatches(d: DocRow, userId: nat, terms: seq<string>) {
    d.userId == userId
    && exists t :: t in terms && (ILike(d.originalName, t) || (d.summary.Some? && ILike(d.summary.value, t)))
  }

  const NoteLimit: nat := 20
  const DocLimit: nat := 10

  /** The rows the notes query fetches: ORDER BY updated_at DESC LIMIT 20. */
  function NoteCandidates(notes: seq<NoteRow>, userId: nat, terms: seq<string>): (r: seq<NoteRow>)
    ensures |r| <= NoteLimit
    ensures forall n :: n in r ==> n in notes && NoteMatches(n, userId, terms)
    ensures NonIncreasing(r, NoteUpdated)
    ensures |r| == NoteLimit || forall n :: n in notes && NoteMatches(n, userId, terms) ==> n in r
  {
    var matching := Filter(notes, n => NoteMatches(n, userId, terms));
    var sorted := SortDesc(matching, NoteUpdated);
    assert forall n :: n in sorted <==> n in multiset(matching);
    SortDescNonIncreasing(matching, NoteUpdated);
    Take(sorted, NoteLimit)
  }

  /** The rows the documents query fetches: ORDER BY created_at DESC LIMIT 10. */
  function DocCandidates(docs: seq<DocRow>, userId: nat, terms: seq<string>): (r: seq<DocRow>)
    ensures |r| <= DocLimit
    ensures forall d :: d in r ==> d in docs && DocMatches(d, userId, terms)
    ensures NonIncreasing(r, DocCreated)
    ensures |r| == DocLimit || forall d :: d in docs && DocMatches(d, userId, terms) ==> d in r
  {
    var matching := Filter(docs, d => DocMatches(d, userId, terms));
    var sorted := SortDesc(matching, DocCreated);
    assert forall d :: d in sorted <==> d in multiset(matching);
    SortDescNonIncreasing(matching, DocCreated);
    Take(sorted, DocLimit)
  }

  datatype NoteHit = NoteHit(id: nat, title: string, tags: seq<string>, updatedAt: nat, similarity: real)

  datatype DocHit = DocHit(id: nat, name: string, summary: string, createdAt: nat, similarity: real)

  function NoteSim(h: NoteHit): real { h.similarity }
  function DocSim(h: DocHit): real { h.similarity }
  function NoteHitId(h: NoteHit): nat { h.id }
  function DocHitId(h: DocHit): nat { h.id }

  /** A hit reports its row's fields and the row's positive score against the query tokens. */
  predicate NoteHitOf(h: NoteHit, n: NoteRow, score: NoteRow -> real) {
    && h.id == n.id && h.title == n.title && TagsOrEmpty(n.tags) == Some(h.tags) && h.updatedAt == n.updatedAt
    && h.similarity == score(n) && h.similarity > 0.0
  }

  /** d["summary"] or "" */
  function SummaryOf(d: DocRow): string {
    match d.summary
    case None => ""
    case Some(s) => s
  }

  /** summary[:200] + ("…" if len(summary) > 200 else "") */
  function TruncateSummary(s: string): (r: string)
    ensures |s| <= 200 ==> r == s
    ensures |s| > 200 ==> |r| == 201 && r[..200] == s[..200] && r[200] == '…'
  {
    Take(s, 200) + (if |s| > 200 then "…" else "")
  }

  predicate DocHitOf(h: DocHit, d: DocRow, score: DocRow -> real) {
    && h.id == d.id && h.name == d.originalName && h.summary == TruncateSummary(SummaryOf(d))
    && h.createdAt == d.createdAt
    && h.similarity == score(d) && h.similarity > 0.0
  }

  /** score_match applied to a note row (summary ""), and to a document row (tags ""). */
  function NoteScore(qt: set<string>): NoteRow -> real {
    (n: NoteRow) => ScoreMatch(qt, n.title, TagsText(n.tags), "")
  }

  function DocScore(qt: set<string>): DocRow -> real {
    (d: DocRow) => ScoreMatch(qt, d.originalName, "", SummaryOf(d))
  }

  /** rows[i] is the first row with its id and that id was not seen before: the loop scores it. */
  predicate FirstWithId<T>(rows: seq<T>, i: nat, seen: set<nat>, id: T -> nat)
    requires i < |rows|
  {
    id(rows[i]) !in seen && forall j :: 0 <= j < i ==> id(rows[j]) != id(rows[i])
  }

  /**
   * The note hits of the fetched rows, skipping ids already seen: a row whose tags json.loads
   * rejects raises, which the endpoint turns into a 500.
   */
  function NoteHits(rows: seq<NoteRow>, score: NoteRow -> real, seen: set<nat>): (r: Result<seq<NoteHit>>)
    ensures r.Err? ==> r.error == ServerError && exists n :: n in rows && TagsOrEmpty(n.tags).None?
    decreases |rows|
  {
    if |rows| == 0 then Ok([])
    else
      var n := rows[0];
      assert forall m :: m in rows[1..] ==> m in rows;
      if n.id in seen then NoteHits(rows[1..], score, seen)
      else
        match TagsOrEmpty(n.tags)
        case None => Err(ServerError)
        case Some(tags) =>
          var sc := score(n);
          var rest := NoteHits(rows[1..], score, seen + {n.id});
          if rest.Err? then rest
          else if sc > 0.0 then Ok([NoteHit(n.id, n.title, tags, n.updatedAt, sc)] + rest.value)
          else rest
  }

  /** Every note hit comes from a fetched row with an unseen id, and no id is reported twice. */
  lemma {:induction false} NoteHitsSound(rows: seq<NoteRow>, score: NoteRow -> real, seen: set<nat>)
    ensures var r := NoteHits(rows, score, seen);
      r.Ok? ==>
        (forall h :: h in r.value ==> exists n :: n in rows && n.id !in seen && NoteHitOf(h, n, score))
        && DistinctKeys(r.value, NoteHitId)
    decreases |rows|
  {
    if |rows| > 0 {
      var n := rows[0];
      assert forall m :: m in rows[1..] ==> m in rows;
      if n.id in seen {
        NoteHitsSound(rows[1..], score, seen);
      } else {
        NoteHitsSound(rows[1..], score, seen + {n.id});
        var rest := NoteHits(rows[1..], score, seen + {n.id});
        if rest.Ok? && TagsOrEmpty(n.tags).Some? {
          var hs := rest.value;
          assert forall e :: e in hs ==> e.id != n.id;
          var sc := score(n);
          if sc > 0.0 {
            var h := NoteHit(n.id, n.title, TagsOrEmpty(n.tags).value, n.updatedAt, sc);
            assert NoteHitOf(h, n, score);
            assert NoteHits(rows, score, seen).value == [h] + hs;
            ConsDistinct(h, hs, NoteHitId);
          }
        }
      }
    }
  }

  /** A note whose tags cell is NULL or empty reads as having no tags and is still a hit. */
  lemma EmptyTagsCellHit(n: NoteRow, score: NoteRow -> real)
    requires n.tags == Unparseable("") && score(n) > 0.0
    ensures NoteHits([n], score, {}) == Ok([NoteHit(n.id, n.title, [], n.updatedAt, score(n))])
  {
    var h := NoteHit(n.id, n.title, [], n.updatedAt, score(n));
    assert TagsOrEmpty(n.tags) == Some([]);
    assert [n][1..] == [];
    assert NoteHits([n][1..], score, {} + {n.id}) == Ok([]);
    assert [h] + [] == [h];
  }

  /** Every fetched row that is the first with its id and scores above zero is reported. */
  lemma {:induction false} NoteHitsComplete(rows: seq<NoteRow>, score: NoteRow -> real, seen: set<nat>, i: nat)
    requires i < |rows| && FirstWithId(rows, i, seen, NoteId)
    requires score(rows[i]) > 0.0
    ensures NoteHits(rows, score, seen).Ok? ==> exists h :: h in NoteHits(rows, score, seen).value && h.id == rows[i].id
    decreases |rows|
  {
    var n := rows[0];
    if i > 0 {
      assert rows[1..][i - 1] == rows[i];
      assert n.id != rows[i].id;
      if n.id in seen {
        NoteHitsComplete(rows[1..], score, seen, i - 1);
      } else {
        assert FirstWithId(rows[1..], i - 1, seen + {n.id}, NoteId) by {
          forall j | 0 <= j < i - 1 ensures rows[1..][j].id != rows[i].id {
            assert rows[1..][j] == rows[j + 1];
          }
        }
        NoteHitsComplete(rows[1..], score, seen + {n.id}, i - 1);
      }
    }
  }

  /** Rows that all score zero yield no note hits. */
  lemma {:induction false} NoteHitsZeroScore(rows: seq<NoteRow>, score: NoteRow -> real, seen: set<nat>)
    requires forall n :: n in rows ==> score(n) <= 0.0
    ensures NoteHits(rows, score, seen).Ok? ==> NoteHits(rows, score, seen).value == []
    decreases |rows|
  {
    if |rows| > 0 {
      assert forall m :: m in rows[1..] ==> m in rows;
      NoteHitsZeroScore(rows[1..], score, seen);
      NoteHitsZeroScore(rows[1..], score, seen + {rows[0].id});
    }
  }

  /** The document hits of the fetched rows, skipping ids already seen. */
  function DocHits(rows: seq<DocRow>, score: DocRow -> real, seen: set<nat>): seq<DocHit>
    decreases |rows|
  {
    if |rows| == 0 then []
    else
      var d := rows[0];
      if d.id in seen then DocHits(rows[1..], score, seen)
      else
        var summary := SummaryOf(d);
        var sc := score(d);
        var rest := DocHits(rows[1..], score, seen + {d.id});
        if sc > 0.0 then [DocHit(d.id, d.originalName, TruncateSummary(summary), d.createdAt, sc)] + rest
        else rest
  }

  /** Every document hit comes from a fetched row with an unseen id, and no id is reported twice. */
  lemma {:induction false} DocHitsSound(rows: seq<DocRow>, score: DocRow -> real, seen: set<nat>)
    ensures var r := DocHits(rows, score, seen);
      (forall h :: h in r ==> exists d :: d in rows && d.id !in seen && DocHitOf(h, d, score)) && DistinctKeys(r, DocHitId)
    decreases |rows|
  {
    if |rows| > 0 {
      var d := rows[0];
      assert forall m :: m in rows[1..] ==> m in rows;
      if d.id in seen {
        DocHitsSound(rows[1..], score, seen);
      } else {
        DocHitsSound(rows[1..], score, seen + {d.id});
        var hs := DocHits(rows[1..], score, seen + {d.id});
        assert forall e :: e in hs ==> e.id != d.id;
        var sc := score(d);
        var h := DocHit(d.id, d.originalName, TruncateSummary(SummaryOf(d)), d.createdAt, sc);
        var r := DocHits(rows, score, seen);
        assert r == if sc > 0.0 then [h] + hs else hs;
        forall e | e in r ensures exists d' :: d' in rows && d'.id !in seen && DocHitOf(e, d', score) {
          if e in hs {
            var d' :| d' in rows[1..] && d'.id !in seen + {d.id} && DocHitOf(e, d', score);
          } else {
            assert e == h && DocHitOf(h, d, score);
          }
        }
        if sc > 0.0 {
          ConsDistinct(h, hs, DocHitId);
        }
      }
    }
  }

  /** Every fetched row that is the first with its id and scores above zero is reported. */
  lemma {:induction false} DocHitsComplete(rows: seq<DocRow>, score: DocRow -> real, seen: set<nat>, i: nat)
    requires i < |rows| && FirstWithId(rows, i, seen, DocId)
    requires score(rows[i]) > 0.0
    ensures exists h :: h in DocHits(rows, score, seen) && h.id == rows[i].id
    decreases |rows|
  {
    var d := rows[0];
    if i > 0 {
      assert rows[1..][i - 1] == rows[i];
      assert d.id != rows[i].id;
      if d.id in seen {
        DocHitsComplete(rows[1..], score, seen, i - 1);
      } else {
        assert FirstWithId(rows[1..], i - 1, seen + {d.id}, DocId) by {
          forall j | 0 <= j < i - 1 ensures rows[1..][j].id != rows[i].id {
            assert rows[1..][j] == rows[j + 1];
          }
        }
        DocHitsComplete(rows[1..], score, seen + {d.id}, i - 1);
      }
    } else {
      var h := DocHit(d.id, d.originalName, TruncateSummary(SummaryOf(d)), d.createdAt, score(d));
      assert DocHits(rows, score, seen) == [h] + DocHits(rows[1..], score, seen + {d.id});
    }
  }

  /** Rows that all score zero yield no document hits. */
  lemma {:induction false} DocHitsZeroScore(rows: seq<DocRow>, score: DocRow -> real, seen: set<nat>)
    requires forall d :: d in rows ==> score(d) <= 0.0
    ensures DocHits(rows, score, seen) == []
    decreases |rows|
  {
    if |rows| > 0 {
      assert forall m :: m in rows[1..] ==> m in rows;
      DocHitsZeroScore(rows[1..], score, seen);
      DocHitsZeroScore(rows[1..], score, seen + {rows[0].id});
    }
  }

  /** The loop over the fetched note rows, with its seen_ids set; score is score_match against the query tokens. */
  method CollectNoteHits(rows: seq<NoteRow>, score: NoteRow -> real) returns (r: Result<seq<NoteHit>>)
    ensures r == NoteHits(rows, score, {})
  {
    var hits: seq<NoteHit> := [];
    var seen: set<nat> := {};
    var i := 0;
    assert rows[0..] == rows;
    ghost var spec := NoteHits(rows, score, {});
    assert spec.Ok? ==> [] + spec.value == spec.value;
    while i < |rows|
      invariant 0 <= i <= |rows|
      invariant spec == Prepend(hits, NoteHits(rows[i..], score, seen))
    {
      var n := rows[i];
      assert rows[i..][0] == n && rows[i..][1..] == rows[i + 1..];
      if n.id !in seen {
        ghost var before := NoteHits(rows[i..], score, seen);
        ghost var rest := NoteHits(rows[i + 1..], score, seen + {n.id});
        seen := seen + {n.id};
        var tags := TagsOrEmpty(n.tags);
        if tags.None? {
          assert before == Err(ServerError);
          return Err(ServerError);
        }
        var sc := score(n);
        if sc > 0.0 {
          var h := NoteHit(n.id, n.title, tags.value, n.updatedAt, sc);
          assert rest.Ok? ==> hits + ([h] + rest.value) == (hits + [h]) + rest.value;
          hits := hits + [h];
        }
      }
      i := i + 1;
    }
    assert rows[i..] == [] && hits + [] == hits;
    r := Ok(hits);
  }

  /** The loop over the fetched document rows, with its seen_ids set; score is score_match against the query tokens. */
  method CollectDocHits(rows: seq<DocRow>, score: DocRow -> real) returns (r: seq<DocHit>)
    ensures r == DocHits(rows, score, {})
  {
    r := [];
    var seen: set<nat> := {};
    var i := 0;
    assert rows[0..] == rows;
    while i < |rows|
      invariant 0 <= i <= |rows|
      invariant DocHits(rows, score, {}) == r + DocHits(rows[i..], score, seen)
    {
      var d := rows[i];
      assert rows[i..][0] == d && rows[i..][1..] == rows[i + 1..];
      if d.id !in seen {
        seen := seen + {d.id};
        var summary := SummaryOf(d);
        var sc := score(d);
        if sc > 0.0 {
          r := r + [DocHit(d.id, d.originalName, TruncateSummary(summary), d.createdAt, sc)];
        }
      }
      i := i + 1;
    }
    assert rows[i..] == [];
  }

  datatype SearchResult = SearchResult(
    notes: seq<NoteHit>, documents: seq<DocHit>, query: string, aiBoost: bool, total: nat,
    expandedTerms: seq<string>)

  /** FastAPI's rejection of a q shorter than its min_length of 1. */
  const QueryTooShort: HttpError := HttpError(422, "String should have at least 1 character")

  /** The note half of the result: the hits of the caller's matching notes, best first. */
  function RankedNotes(notes: seq<NoteRow>, userId: nat, terms: seq<string>, score: NoteRow -> real): (r: Result<seq<NoteHit>>)
    ensures r.Err? ==> r.error == ServerError
    ensures r.Ok? ==> NonIncreasing(r.value, NoteSim) && DistinctKeys(r.value, NoteHitId)
    ensures r.Ok? ==> forall h :: h in r.value ==>
      exists n :: n in notes && NoteMatches(n, userId, terms) && NoteHitOf(h, n, score)
  {
    var rows := NoteCandidates(notes, userId, terms);
    var res := NoteHits(rows, score, {});
    if res.Err? then Err(res.error)
    else
      var hits := res.value;
      NoteHitsSound(rows, score, {});
      SortDescNonIncreasing(hits, NoteSim);
      SortDescDistinct(hits, NoteSim, NoteHitId);
      var sorted := SortDesc(hits, NoteSim);
      assert forall h :: h in sorted ==> exists n :: n in notes && NoteMatches(n, userId, terms) && NoteHitOf(h, n, score) by {
        forall h | h in sorted ensures exists n :: n in notes && NoteMatches(n, userId, terms) && NoteHitOf(h, n, score) {
          assert h in multiset(hits);
          assert h in hits;
          var n :| n in rows && n.id !in {} && NoteHitOf(h, n, score);
        }
      }
      Ok(sorted)
  }

  /** Every fetched note row that is the first with its id and scores above zero is in the result. */
  lemma RankedNotesComplete(notes: seq<NoteRow>, userId: nat, terms: seq<string>, score: NoteRow -> real, i: nat)
    requires i < |NoteCandidates(notes, userId, terms)|
    requires FirstWithId(NoteCandidates(notes, userId, terms), i, {}, NoteId)
    requires score(NoteCandidates(notes, userId, terms)[i]) > 0.0
    ensures RankedNotes(notes, userId, terms, score).Ok? ==>
      exists h :: h in RankedNotes(notes, userId, terms, score).value && h.id == NoteCandidates(notes, userId, terms)[i].id
  {
    var rows := NoteCandidates(notes, userId, terms);
    NoteHitsComplete(rows, score, {}, i);
    var hits := NoteHits(rows, score, {});
    if hits.Ok? {
      var h :| h in hits.value && h.id == rows[i].id;
      assert h in multiset(SortDesc(hits.value, NoteSim));
    }
  }

  /** The document half of the result: the hits of the caller's matching documents, best first. */
  function RankedDocs(docs: seq<DocRow>, userId: nat, terms: seq<string>, score: DocRow -> real): (r: seq<DocHit>)
    ensures NonIncreasing(r, DocSim) && DistinctKeys(r, DocHitId)
    ensures forall h :: h in r ==> exists d :: d in docs && DocMatches(d, userId, terms) && DocHitOf(h, d, score)
  {
    var rows := DocCandidates(docs, userId, terms);
    var hits := DocHits(rows, score, {});
    DocHitsSound(rows, score, {});
    SortDescNonIncreasing(hits, DocSim);
    SortDescDistinct(hits, DocSim, DocHitId);
    var sorted := SortDesc(hits, DocSim);
    assert forall h :: h in sorted ==> exists d :: d in docs && DocMatches(d, userId, terms) && DocHitOf(h, d, score) by {
      forall h | h in sorted ensures exists d :: d in docs && DocMatches(d, userId, terms) && DocHitOf(h, d, score) {
        assert h in multiset(hits);
        assert h in hits;
        var d :| d in rows && d.id !in {} && DocHitOf(h, d, score);
      }
    }
    sorted
  }

  /** Every fetched document row that is the first with its id and scores above zero is in the result. */
  lemma RankedDocsComplete(docs: seq<DocRow>, userId: nat, terms: seq<string>, score: DocRow -> real, i: nat)
    requires i < |DocCandidates(docs, userId, terms)|
    requires FirstWithId(DocCandidates(docs, userId, terms), i, {}, DocId)
    requires score(DocCandidates(docs, userId, terms)[i]) > 0.0
    ensures exists h :: h in RankedDocs(docs, userId, terms, score) && h.id == DocCandidates(docs, userId, terms)[i].id
  {
    var rows := DocCandidates(docs, userId, terms);
    DocHitsComplete(rows, score, {}, i);
    var hits := DocHits(rows, score, {});
    var h :| h in hits && h.id == rows[i].id;
    assert h in multiset(SortDesc(hits, DocSim));
  }

  /**
   * smart_search as a function of the request, the caller, the two tables and the model's
   * reply: scores use only the tokens of the stripped query, the terms only select candidates.
   */
  function SearchSpec(
    q: string, includeNotes: bool, includeDocs: bool, aiBoost: bool, userId: nat,
    notes: seq<NoteRow>, docs: seq<DocRow>, reply: ModelReply, decode: string -> Option<JsonValue>): (r: Result<SearchResult>)
    ensures q == "" <==> r == Err(QueryTooShort)
    ensures r.Err? && q != "" ==> r.error == ServerError && includeNotes
    ensures r.Ok? ==> r.value.query == Strip(q) && r.value.aiBoost == aiBoost
    ensures r.Ok? ==> r.value.total == |r.value.notes| + |r.value.documents|
    ensures r.Ok? ==> r.value.expandedTerms == (if aiBoost then SearchTerms(Strip(q), aiBoost, reply, decode) else [])
    ensures r.Ok? && !includeNotes ==> r.value.notes == []
    ensures r.Ok? && !includeDocs ==> r.value.documents == []
    ensures r.Ok? ==> NonIncreasing(r.value.notes, NoteSim) && NonIncreasing(r.value.documents, DocSim)
    ensures r.Ok? ==> DistinctKeys(r.value.notes, NoteHitId) && DistinctKeys(r.value.documents, DocHitId)
    ensures r.Ok? ==> forall h :: h in r.value.notes ==>
      exists n :: n in notes && n.userId == userId && NoteHitOf(h, n, NoteScore(Tokenize(Strip(q))))
    ensures r.Ok? ==> forall h :: h in r.value.documents ==>
      exists d :: d in docs && d.userId == userId && DocHitOf(h, d, DocScore(Tokenize(Strip(q))))
  {
    if q == "" then Err(QueryTooShort)
    else
      var query := Strip(q);
      var terms := SearchTerms(query, aiBoost, reply, decode);
      var qt := Tokenize(query);
      var noteHits := if includeNotes then RankedNotes(notes, userId, terms, NoteScore(qt)) else Ok([]);
      var docHits := if includeDocs then RankedDocs(docs, userId, terms, DocScore(qt)) else [];
      match noteHits
      case Err(e) => Err(e)
      case Ok(ns) =>
        Ok(SearchResult(ns, docHits, query, aiBoost, |ns| + |docHits|, if aiBoost then terms else []))
  }

  /** smart_search: fetch, score and collect each kind, then sort each list by similarity. */
  method SmartSearch(
    q: string, includeNotes: bool, includeDocs: bool, aiBoost: bool, userId: nat,
    notes: seq<NoteRow>, docs: seq<DocRow>, reply: ModelReply, decode: string -> Option<JsonValue>)
    returns (r: Result<SearchResult>)
    ensures r == SearchSpec(q, includeNotes, includeDocs, aiBoost, userId, notes, docs, reply, decode)
  {
    if q == "" {
      return Err(QueryTooShort);
    }
    var query := Strip(q);
    var terms := SearchTerms(query, aiBoost, reply, decode);
    var qt := Tokenize(query);
    var noteHits: seq<NoteHit> := [];
    var docHits: seq<DocHit> := [];
    if includeNotes {
      var collected := CollectNoteHits(NoteCandidates(notes, userId, terms), NoteScore(qt));
      if collected.Err? {
        assert RankedNotes(notes, userId, terms, NoteScore(qt)) == Err(collected.error);
        assert SearchSpec(q, includeNotes, includeDocs, aiBoost, userId, notes, docs, reply, decode) == Err(collected.error);
        return Err(collected.error);
      }
      noteHits := collected.value;
    }
    if includeDocs {
      docHits := CollectDocHits(DocCandidates(docs, userId, terms), DocScore(qt));
    }
    noteHits := SortDesc(noteHits, NoteSim);
    docHits := SortDesc(docHits, DocSim);
    assert includeNotes ==> RankedNotes(notes, userId, terms, NoteScore(qt)) == Ok(noteHits);
    assert includeDocs ==> RankedDocs(docs, userId, terms, DocScore(qt)) == docHits;
    var expanded := if aiBoost then terms else [];
    ghost var spec := SearchSpec(q, includeNotes, includeDocs, aiBoost, userId, notes, docs, reply, decode);
    assert spec.Ok?;
    assert spec.value.notes == noteHits;
    assert spec.value.documents == docHits;
    assert spec.value.query == query;
    assert spec.value.expandedTerms == expanded;
    assert spec.value.aiBoost == aiBoost;
    assert spec.value.total == |noteHits| + |docHits|;
    assert spec.value == SearchResult(noteHits, docHits, query, aiBoost, |noteHits| + |docHits|, expanded);
    r := Ok(SearchResult(noteHits, docHits, query, aiBoost, |noteHits| + |docHits|, expanded));
  }

  // ---------------------------------------------------------------------------------------
  // Properties relating several calls

  /** A query with no word characters (such as "  " or "?!") finds nothing of either kind. */
  lemma BlankQueryFindsNothing(
    q: string, includeNotes: bool, includeDocs: bool, aiBoost: bool, userId: nat,
    notes: seq<NoteRow>, docs: seq<DocRow>, reply: ModelReply, decode: string -> Option<JsonValue>)
    requires Tokenize(Strip(q)) == {}
    ensures var r := SearchSpec(q, includeNotes, includeDocs, aiBoost, userId, notes, docs, reply, decode);
      r.Ok? ==> r.value.notes == [] && r.value.documents == [] && r.value.total == 0
  {
    var r := SearchSpec(q, includeNotes, includeDocs, aiBoost, userId, notes, docs, reply, decode);
    BlankQueryFindsNoNotes(q, includeNotes, includeDocs, aiBoost, userId, notes, docs, reply, decode);
    BlankQueryFindsNoDocuments(q, includeNotes, includeDocs, aiBoost, userId, notes, docs, reply, decode);
    assert r.Ok? ==> r.value.total == |r.value.notes| + |r.value.documents|;
  }

  /** The notes half of BlankQueryFindsNothing. */
  lemma BlankQueryFindsNoNotes(
    q: string, includeNotes: bool, includeDocs: bool, aiBoost: bool, userId: nat,
    notes: seq<NoteRow>, docs: seq<DocRow>, reply: ModelReply, decode: string -> Option<JsonValue>)
    requires Tokenize(Strip(q)) == {}
    ensures var r := SearchSpec(q, includeNotes, includeDocs, aiBoost, userId, notes, docs, reply, decode);
      r.Ok? ==> r.value.notes == []
  {
    var r := SearchSpec(q, includeNotes, includeDocs, aiBoost, userId, notes, docs, reply, decode);
    if q != "" && r.Ok? && includeNotes {
      var terms := SearchTerms(Strip(q), aiBoost, reply, decode);
      var qt := Tokenize(Strip(q));
      SearchSpecLists(q, includeNotes, includeDocs, aiBoost, userId, notes, docs, reply, decode);
      NoHitsWithoutTokens(notes, docs, userId, terms, qt);
      assert RankedNotes(notes, userId, terms, NoteScore(qt)) == Ok(r.value.notes);
    }
  }

  /** The documents half of BlankQueryFindsNothing. */
  lemma BlankQueryFindsNoDocuments(
    q: string, includeNotes: bool, includeDocs: bool, aiBoost: bool, userId: nat,
    notes: seq<NoteRow>, docs: seq<DocRow>, reply: ModelReply, decode: string -> Option<JsonValue>)
    requires Tokenize(Strip(q)) == {}
    ensures var r := SearchSpec(q, includeNotes, includeDocs, aiBoost, userId, notes, docs, reply, decode);
      r.Ok? ==> r.value.documents == []
  {
    var r := SearchSpec(q, includeNotes, includeDocs, aiBoost, userId, notes, docs, reply, decode);
    if q != "" && r.Ok? && includeDocs {
      var terms := SearchTerms(Strip(q), aiBoost, reply, decode);
      var qt := Tokenize(Strip(q));
      SearchSpecLists(q, includeNotes, includeDocs, aiBoost, userId, notes, docs, reply, decode);
      NoHitsWithoutTokens(notes, docs, userId, terms, qt);
    }
  }

  /** The two lists of a successful search are the rankings of the kinds asked for. */
  lemma SearchSpecLists(
    q: string, includeNotes: bool, includeDocs: bool, aiBoost: bool, userId: nat,
    notes: seq<NoteRow>, docs: seq<DocRow>, reply: ModelReply, decode: string -> Option<JsonValue>)
    requires q != ""
    ensures var r := SearchSpec(q, includeNotes, includeDocs, aiBoost, userId, notes, docs, reply, decode);
      var terms := SearchTerms(Strip(q), aiBoost, reply, decode);
      var qt := Tokenize(Strip(q));
      && (r.Ok? && includeNotes ==> RankedNotes(notes, userId, terms, NoteScore(qt)) == Ok(r.value.notes))
      && (r.Ok? && includeDocs ==> r.value.documents == RankedDocs(docs, userId, terms, DocScore(qt)))
  {
  }

  /** With no query tokens neither ranking keeps a row. */
  lemma NoHitsWithoutTokens(notes: seq<NoteRow>, docs: seq<DocRow>, userId: nat, terms: seq<string>, qt: set<string>)
    requires qt == {}
    ensures RankedNotes(notes, userId, terms, NoteScore(qt)).Ok? ==> RankedNotes(notes, userId, terms, NoteScore(qt)).value == []
    ensures RankedDocs(docs, userId, terms, DocScore(qt)) == []
  {
    EmptyQueryScoresZero(qt);
    RankedNotesZeroScore(notes, userId, terms, NoteScore(qt));
    RankedDocsZeroScore(docs, userId, terms, DocScore(qt));
  }

  /** With no query tokens every row scores zero. */
  lemma EmptyQueryScoresZero(qt: set<string>)
    requires qt == {}
    ensures forall n :: NoteScore(qt)(n) <= 0.0
    ensures forall d :: DocScore(qt)(d) <= 0.0
  {
    forall n ensures NoteScore(qt)(n) <= 0.0 {
      assert NoteScore(qt)(n) == ScoreMatch(qt, n.title, TagsText(n.tags), "");
    }
    forall d ensures DocScore(qt)(d) <= 0.0 {
      assert DocScore(qt)(d) == ScoreMatch(qt, d.originalName, "", SummaryOf(d));
    }
  }

  /** A scorer that gives nothing a positive score ranks no notes. */
  lemma RankedNotesZeroScore(notes: seq<NoteRow>, userId: nat, terms: seq<string>, score: NoteRow -> real)
    requires forall n :: score(n) <= 0.0
    ensures RankedNotes(notes, userId, terms, score).Ok? ==> RankedNotes(notes, userId, terms, score).value == []
  {
    NoteHitsZeroScore(NoteCandidates(notes, userId, terms), score, {});
  }

  /** A scorer that gives nothing a positive score ranks no documents. */
  lemma RankedDocsZeroScore(docs: seq<DocRow>, userId: nat, terms: seq<string>, score: DocRow -> real)
    requires forall d :: score(d) <= 0.0
    ensures RankedDocs(docs, userId, terms, score) == []
  {
    DocHitsZeroScore(DocCandidates(docs, userId, terms), score, {});
  }

  /** Expansion only widens the candidate set: a row the query itself selects is always fetched-eligible. */
  lemma ExpansionKeepsQueryMatches(n: NoteRow, d: DocRow, userId: nat, query: string, aiBoost: bool,
                                   reply: ModelReply, decode: string -> Option<JsonValue>)
    ensures NoteMatches(n, userId, [query]) ==> NoteMatches(n, userId, SearchTerms(query, aiBoost, reply, decode))
    ensures DocMatches(d, userId, [query]) ==> DocMatches(d, userId, SearchTerms(query, aiBoost, reply, decode))
  {
    var terms := SearchTerms(query, aiBoost, reply, decode);
    assert query in terms;
  }

  /** The score of a row does not depend on the boost or on the model's reply. */
  lemma ScoreIgnoresTerms(
    q: string, includeNotes: bool, includeDocs: bool, aiBoost: bool, userId: nat,
    notes: seq<NoteRow>, docs: seq<DocRow>, reply: ModelReply, decode: string -> Option<JsonValue>, h: NoteHit)
    requires SearchSpec(q, includeNotes, includeDocs, aiBoost, userId, notes, docs, reply, decode).Ok?
    requires h in SearchSpec(q, includeNotes, includeDocs, aiBoost, userId, notes, docs, reply, decode).value.notes
    ensures exists n :: n in notes && h.similarity == ScoreMatch(Tokenize(Strip(q)), n.title, TagsText(n.tags), "")
  {
  }

  lemma {:induction false} NotContainsLonger(s: string, sub: string)
    requires |sub| > |s|
    ensures !Contains(s, sub)
    decreases |s|
  {
    if |s| > 0 {
      NotContainsLonger(s[1..], sub);
    }
  }

  /** Whatever printable-ASCII text contains is printable ASCII itself. */
  lemma {:induction false} ContainsPrintable(s: string, sub: string)
    ensures PrintableAscii(s) && Contains(s, sub) ==> PrintableAscii(sub)
    decreases |s|
  {
    if PrintableAscii(s) && Contains(s, sub) {
      if StartsWith(s, sub) {
        assert forall k :: 0 <= k < |sub| ==> sub[k] == s[k];
      } else {
        assert forall k :: 0 <= k < |s[1..]| ==> s[1..][k] == s[k + 1];
        ContainsPrintable(s[1..], sub);
      }
    }
  }

  /**
   * json.dumps writes every character of a tag outside printable ASCII as a \uXXXX escape,
   * so the tags column never matches a term holding such a character: the term "café" misses
   * a note tagged "café", whose column reads ["caf\u00e9"].
   */
  lemma NonAsciiTermMissesTags(ts: seq<string>, term: string, k: nat)
    requires k < |term| && !(' ' <= term[k] <= '~')
    ensures !ILike(TagsText(Encoded(ts)), term)
  {
    var text := TagsText(Encoded(ts));
    assert PrintableAscii(LowerStr(text)) by {
      forall j | 0 <= j < |text| ensures ' ' <= LowerStr(text)[j] <= '~' {
        assert ' ' <= text[j] <= '~';
      }
    }
    assert LowerStr(term)[k] == term[k];
    ContainsPrintable(LowerStr(text), LowerStr(term));
  }

  /** The same holds for a quote: the tag a"b is stored as ["a\"b"], which the term a"b misses. */
  lemma QuoteTermMissesTag()
    ensures !ILike(TagsText(Encoded(["a\"b"])), "a\"b")
  {
    QuoteTagText();
    LowerWithoutUpper(QuoteColumn);
    assert LowerStr("a\"b") == "a\"b";
    QuoteColumnMisses();
  }

  /** The column text ["a\"b"]. */
  const QuoteColumn: string := ['[', '"', 'a', '\\', '"', 'b', '"', ']']

  /** In that text the quote after a is escaped, so a"b does not occur. */
  lemma QuoteColumnMisses()
    ensures !Contains(QuoteColumn, "a\"b")
  {
    var text := QuoteColumn;
    forall i | 0 <= i <= |text| - 3 ensures !StartsWith(text[i..], "a\"b") {
      assert text[i..][..3] == text[i..i + 3];
      assert text[i] != 'a' || text[i + 1] != '"';
    }
    NoStartMeansNotContained(text, "a\"b");
  }

  /** The column written for the single tag a"b, character by character. */
  lemma QuoteTagText()
    ensures TagsText(Encoded(["a\"b"])) == QuoteColumn
  {
    assert "a\"b"[1..] == "\"b" && "\"b"[1..] == "b";
    assert Escaped("b") == "b";
    assert EscapeChar('"') == "\\\"";
    assert Escaped("\"b") == "\\\"b";
    OneTagText("a\"b");
  }

  /** The column of a single tag is that tag's string literal in brackets. */
  lemma OneTagText(t: string)
    ensures TagsText(Encoded([t])) == "[\"" + Escaped(t) + "\"]"
  {
    assert QuotedItems([t]) == Quoted(t);
  }

  /** A text contains a string only if the string starts at one of its positions. */
  lemma {:induction false} NoStartMeansNotContained(s: string, sub: string)
    requires |sub| > 0
    requires forall i :: 0 <= i <= |s| - |sub| ==> !StartsWith(s[i..], sub)
    ensures !Contains(s, sub)
    decreases |s|
  {
    if |s| < |sub| {
      NotContainsLonger(s, sub);
    } else {
      assert s[0..] == s;
      forall i | 0 <= i <= |s[1..]| - |sub| ensures !StartsWith(s[1..][i..], sub) {
        assert s[1..][i..] == s[i + 1..];
      }
      NoStartMeansNotContained(s[1..], sub);
    }
  }

  /** The example note is found by one of the query's words ... */
  lemma ExampleNoteMatchesWord(n: NoteRow)
    requires n.title == "hooks tips"
    ensures ILike(n.title, "hooks")
  {
    assert LowerStr("hooks tips") == "hooks tips";
    assert LowerStr("hooks") == "hooks";
    assert LowerStr("hooks tips")[..5] == "hooks";
  }

  /** ... but not by the whole query. */
  lemma ExampleNoteMissesQuery(n: NoteRow)
    requires n.title == "hooks tips" && n.tags == Encoded([])
    ensures !ILike(n.title, "react hooks") && !ILike(TagsText(n.tags), "react hooks")
  {
    assert |LowerStr("react hooks")| == 11;
    NotContainsLonger(LowerStr("hooks tips"), LowerStr("react hooks"));
    assert TagsText(n.tags) == "[]";
    NotContainsLonger(LowerStr("[]"), LowerStr("react hooks"));
  }

  /**
   * A failed expansion searches for the whole query only, while the boost-off search also
   * searches for its words: a note that contains one word of the query but not the query
   * itself is fetched with the boost off and not when the boost is on and the model call fails.
   */
  lemma FailedBoostNarrowsCandidates(q: string, w: string, n: NoteRow, userId: nat, decode: string -> Option<JsonValue>)
    requires w in SplitWhitespace(q) && n.userId == userId && ILike(n.title, w)
    requires !ILike(n.title, q) && !ILike(TagsText(n.tags), q)
    ensures NoteMatches(n, userId, SearchTerms(q, false, CallFailed, decode))
    ensures !NoteMatches(n, userId, SearchTerms(q, true, CallFailed, decode))
  {
    assert w in SearchTerms(q, false, CallFailed, decode);
    assert SearchTerms(q, true, CallFailed, decode) == [q];
  }

  /** Such notes exist: for the query "react hooks", a note titled "hooks tips" with no tags. */
  lemma FailedBoostExample(q: string, w: string, n: NoteRow)
    requires q == "react hooks" && w == "hooks" && n.title == "hooks tips" && n.tags == Encoded([])
    ensures w in SplitWhitespace(q) && ILike(n.title, w)
    ensures !ILike(n.title, q) && !ILike(TagsText(n.tags), q)
  {
    assert q == "react" + " " + w;
    SplitTwoWords("react", w);
    ExampleNoteMatchesWord(n);
    ExampleNoteMissesQuery(n);
  }
}
