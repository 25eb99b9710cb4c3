/** The ingestion route (`POST /api/urlUpload`): a request body naming a
    review-page URL is scraped into a profile record, the record's tag summary
    is embedded, and the record is upserted into the vector index under the
    professor's name.

    The browser, the embedding service and the vector index are parameters:
    `scrape` yields the text contents the page's selectors match (or `None`
    when launching, navigating, evaluating or closing the browser throws), `embed` yields a vector
    (or `None` when the call throws). What the route asks of each service is
    recorded as a trace of `Effect`s. */
module Ingest {
  import opened Text

  /** The text contents a scraper reads from one review page, per selector,
      in document order. */
  datatype ProfilePage = ProfilePage(
    ratingNodes: seq<string>,
    nameNodes: seq<string>,
    reviewNodes: seq<string>,
    tagNodes: seq<string>)

  /** The record built from a page; it is both the upserted metadata and what
      the query route later reads back. */
  datatype ProfData = ProfData(name: string, rating: string, tags: string, reviews: seq<string>)

  /** An embedding vector; its floating-point contents are never inspected. */
  type Embedding = seq<real>

  /** The `processedData` object handed to `upsert`. */
  datatype UpsertRecord = UpsertRecord(values: Embedding, id: string, metadata: ProfData)

  /** A request the route makes to an outside service. */
  datatype Effect =
    | Scrape(url: string)
    | EmbedText(input: string, model: string)
    | Upsert(record: UpsertRecord)

  datatype ResponseBody = EmptyBody | SuccessBody(success: bool)

  datatype UploadResponse = UploadResponse(
    status: nat,
    statusText: string,
    body: ResponseBody,
    effects: seq<Effect>)

  const UrlKey := "url"
  const TagSeparator := ", "
  const EmbeddingModel := "text-embedding-3-small"

  // ---------------------------------------------------------------------------
  // Tag de-duplication
  // ---------------------------------------------------------------------------

  /** The distinct tags of `tags`, each kept at its first occurrence. */
  function Dedup(tags: seq<string>): seq<string>
  {
    if |tags| == 0 then []
    else
      var d := Dedup(tags[..|tags| - 1]);
      var last := tags[|tags| - 1];
      if last in d then d else d + [last]
  }

  ghost predicate Distinct(xs: seq<string>)
  {
    forall i, j :: 0 <= i < j < |xs| ==> xs[i] != xs[j]
  }

  /** The index of the first occurrence of `x` in `s`. */
  function FirstIndex(s: seq<string>, x: string): (k: nat)
    requires x in s
    ensures k < |s| && s[k] == x && x !in s[..k]
  {
    if s[0] == x then 0 else 1 + FirstIndex(s[1..], x)
  }

  lemma FirstIndexSnoc(s: seq<string>, y: string, x: string)
    requires x in s
    ensures FirstIndex(s + [y], x) == FirstIndex(s, x)
  {
    var k := FirstIndex(s + [y], x);
    var j := FirstIndex(s, x);
    assert (s + [y])[j] == x;
    assert (s + [y])[..j] == s[..j];
  }

  lemma FirstIndexOfNewcomer(s: seq<string>, y: string)
    requires y !in s
    ensures FirstIndex(s + [y], y) == |s|
  {
    var k := FirstIndex(s + [y], y);
    assert (s + [y])[..|s|] == s;
  }

  /** The de-duplicated list holds exactly the tags of the input. */
  lemma {:induction false} DedupMembers(tags: seq<string>)
    ensures forall x :: x in Dedup(tags) <==> x in tags
  {
    if |tags| > 0 {
      var init := tags[..|tags| - 1];
      DedupMembers(init);
      assert tags == init + [tags[|tags| - 1]];
    }
  }

  /** Each distinct tag appears exactly once in the de-duplicated list. */
  lemma {:induction false} DedupExactlyOnce(tags: seq<string>)
    ensures forall x :: multiset(Dedup(tags))[x] == if x in tags then 1 else 0
  {
    if |tags| > 0 {
      var init := tags[..|tags| - 1];
      DedupExactlyOnce(init);
      DedupMembers(init);
      assert tags == init + [tags[|tags| - 1]];
    }
  }

  /** No tag is repeated. */
  lemma {:induction false} DedupDistinct(tags: seq<string>)
    ensures Distinct(Dedup(tags))
  {
    if |tags| > 0 {
      DedupDistinct(tags[..|tags| - 1]);
    }
  }

  /** Distinct tags keep the order of their first occurrence in the input. */
  lemma {:induction false} DedupFirstSeenOrder(tags: seq<string>)
    ensures forall x :: x in Dedup(tags) ==> x in tags
    ensures forall i, j :: 0 <= i < j < |Dedup(tags)| ==>
      FirstIndex(tags, Dedup(tags)[i]) < FirstIndex(tags, Dedup(tags)[j])
  {
    DedupMembers(tags);
    if |tags| > 0 {
      var init := tags[..|tags| - 1];
      var last := tags[|tags| - 1];
      assert tags == init + [last];
      DedupFirstSeenOrder(init);
      DedupMembers(init);
      var d := Dedup(init);
      forall x | x in d
        ensures FirstIndex(tags, x) == FirstIndex(init, x)
      {
        FirstIndexSnoc(init, last, x);
      }
      if last !in d {
        FirstIndexOfNewcomer(init, last);
      }
    }
  }

  // ---------------------------------------------------------------------------
  // Tag summary
  // ---------------------------------------------------------------------------

  /** The `tagString` of the page script: every distinct tag followed by
      `", "`, then `slice(0, -1)` cuts the final character. */
  function TagSummary(tags: seq<string>): string
  {
    SliceDropLast(Terminated(Dedup(tags), TagSeparator))
  }

  lemma {:induction false} DropLastOfSpaced(p: string)
    ensures SliceDropLast(p + " ") == p
  {
    assert (p + " ")[..|p|] == p;
  }

  /** With at least one tag the summary is the distinct tags joined by `", "`
      plus a lone trailing comma; with no tags it is empty. */
  lemma {:induction false} TagSummaryShape(tags: seq<string>)
    ensures |tags| == 0 ==> TagSummary(tags) == ""
    ensures |tags| > 0 ==> TagSummary(tags) == Join(Dedup(tags), TagSeparator) + ","
  {
    if |tags| > 0 {
      var d := Dedup(tags);
      DedupMembers(tags);
      assert tags[0] in d;
      TerminatedIsJoinPlusSeparator(d, TagSeparator);
      var j := Join(d, TagSeparator);
      assert j + TagSeparator == (j + ",") + " ";
      DropLastOfSpaced(j + ",");
    }
  }

  /** The page script's loop over the tag elements (a string accumulator and a
      set of tags already seen), followed by the final slice. */
  method BuildTagSummary(tags: seq<string>) returns (tagString: string)
    ensures tagString == TagSummary(tags)
  {
    tagString := "";
    var tagChecker: set<string> := {};
    var i := 0;
    while i < |tags|
      invariant 0 <= i <= |tags|
      invariant forall x :: x in tagChecker <==> x in Dedup(tags[..i])
      invariant tagString == Terminated(Dedup(tags[..i]), TagSeparator)
    {
      var tag := tags[i];
      assert tags[..i + 1][..i] == tags[..i];
      if tag !in tagChecker {
        TerminatedSnoc(Dedup(tags[..i]), tag, TagSeparator);
        tagString := tagString + tag + TagSeparator;
        tagChecker := tagChecker + {tag};
      }
      i := i + 1;
    }
    assert tags[..i] == tags;
    tagString := SliceDropLast(tagString);
  }

  // ---------------------------------------------------------------------------
  // Page evaluation and the route
  // ---------------------------------------------------------------------------

  /** The page script: the first rating and first name element (indexing a
      missing first element throws), every review body in page order, and the
      tag summary. */
  function ScrapeProfile(page: ProfilePage): (r: Option<ProfData>)
    ensures r.Some? <==> |page.ratingNodes| > 0 && |page.nameNodes| > 0
    ensures r.Some? ==> r.value.name == page.nameNodes[0] && r.value.rating == page.ratingNodes[0]
    ensures r.Some? ==> (|r.value.reviews| == |page.reviewNodes|
      && forall i :: 0 <= i < |page.reviewNodes| ==> r.value.reviews[i] == page.reviewNodes[i])
  {
    if |page.ratingNodes| == 0 || |page.nameNodes| == 0 then None
    else Some(ProfData(
      name := page.nameNodes[0],
      rating := page.ratingNodes[0],
      tags := TagSummary(page.tagNodes),
      reviews := page.reviewNodes))
  }

  function Failed(effects: seq<Effect>): UploadResponse
  {
    UploadResponse(405, "Error Scraping Data", EmptyBody, effects)
  }

  /** `POST`: reject a body without `url`; otherwise scrape, embed the tag
      summary and upsert. Any exception while scraping or embedding yields 405.
      The upsert is not awaited, so it is issued but cannot fail the request. */
  function HandleUpload(
    body: map<string, string>,
    scrape: string -> Option<ProfilePage>,
    embed: string -> Option<Embedding>
  ): (r: UploadResponse)
    ensures r.status == 200 || r.status == 404 || r.status == 405
    ensures r.status == 404 <==> UrlKey !in body
    ensures r.status == 404 ==> r.effects == [] && r.body == EmptyBody
    ensures UrlKey in body ==> (r.status == 200 <==>
      var page := scrape(body[UrlKey]);
      page.Some? && ScrapeProfile(page.value).Some? && embed(ScrapeProfile(page.value).value.tags).Some?)
    ensures r.status == 405 ==> (r.body == EmptyBody
      && forall e :: e in r.effects ==> !e.Upsert?)
    ensures r.status == 200 ==> (r.body == SuccessBody(true)
      && |r.effects| == 3
      && r.effects[0] == Scrape(body[UrlKey])
      && r.effects[2].Upsert?
      && r.effects[2].record.id == r.effects[2].record.metadata.name
      && r.effects[1] == EmbedText(r.effects[2].record.metadata.tags, EmbeddingModel)
      && embed(r.effects[2].record.metadata.tags) == Some(r.effects[2].record.values))
    ensures r.status == 200 ==> r.effects[2].record.metadata == ScrapeProfile(scrape(body[UrlKey]).value).value
  {
    if UrlKey !in body then
      UploadResponse(404, "No Required Fields", EmptyBody, [])
    else
      var url := body[UrlKey];
      match scrape(url)
      case None => Failed([Scrape(url)])
      case Some(page) =>
        match ScrapeProfile(page)
        case None => Failed([Scrape(url)])
        case Some(prof) =>
          match embed(prof.tags)
          case None => Failed([Scrape(url), EmbedText(prof.tags, EmbeddingModel)])
          case Some(vector) =>
            var processed := UpsertRecord(values := vector, id := prof.name, metadata := prof);
            UploadResponse(200, "", SuccessBody(true),
              [Scrape(url), EmbedText(prof.tags, EmbeddingModel), Upsert(processed)])
  }

  /** What gets embedded and upserted for a scraped page: the embedding input
      is the tag summary, and the record's id is the name and its metadata the
      whole scraped record. */
  lemma UploadRecordShape(
    body: map<string, string>,
    scrape: string -> Option<ProfilePage>,
    embed: string -> Option<Embedding>,
    page: ProfilePage)
    requires UrlKey in body && scrape(body[UrlKey]) == Some(page)
    requires |page.ratingNodes| > 0 && |page.nameNodes| > 0
    ensures var r := HandleUpload(body, scrape, embed);
      && EmbedText(TagSummary(page.tagNodes), EmbeddingModel) in r.effects
      && (r.status == 200 <==> embed(TagSummary(page.tagNodes)).Some?)
      && (r.status == 200 ==>
            r.effects[2].record.id == page.nameNodes[0]
            && r.effects[2].record.metadata.reviews == page.reviewNodes
            && r.effects[2].record.metadata.tags == TagSummary(page.tagNodes))
  {
    assert ScrapeProfile(page).Some?;
  }

  /** Reviews never reach the embedding service: two pages that differ only in
      their reviews produce the same embedding requests and the same status. */
  lemma EmbeddingIgnoresReviews(
    body: map<string, string>,
    scrape1: string -> Option<ProfilePage>,
    scrape2: string -> Option<ProfilePage>,
    embed: string -> Option<Embedding>)
    requires UrlKey in body
    requires scrape1(body[UrlKey]).Some? <==> scrape2(body[UrlKey]).Some?
    requires scrape1(body[UrlKey]).Some? ==>
      var p1 := scrape1(body[UrlKey]).value;
      var p2 := scrape2(body[UrlKey]).value;
      p1.ratingNodes == p2.ratingNodes && p1.nameNodes == p2.nameNodes && p1.tagNodes == p2.tagNodes
    ensures var r1 := HandleUpload(body, scrape1, embed);
      var r2 := HandleUpload(body, scrape2, embed);
      && r1.status == r2.status
      && |r1.effects| == |r2.effects|
      && forall i :: 0 <= i < |r1.effects| && !r1.effects[i].Upsert? ==> r1.effects[i] == r2.effects[i]
  {
  }

  // ---------------------------------------------------------------------------
  // The index namespace the route writes to
  // ---------------------------------------------------------------------------

  /** The `rateProfData` namespace: records keyed by id. */
  type Namespace = map<string, UpsertRecord>

  /** The namespace after the route's upserts take effect (an upsert replaces
      any entry with the same id). */
  function ApplyEffects(ns: Namespace, effects: seq<Effect>): Namespace
    decreases |effects|
  {
    if |effects| == 0 then ns
    else
      var ns' := match effects[0]
        case Upsert(rec) => ns[rec.id := rec]
        case _ => ns;
      ApplyEffects(ns', effects[1..])
  }

  lemma {:induction false} ApplyWithoutUpserts(ns: Namespace, effects: seq<Effect>)
    requires forall e :: e in effects ==> !e.Upsert?
    ensures ApplyEffects(ns, effects) == ns
  {
    if |effects| > 0 {
      assert effects[0] in effects;
      ApplyWithoutUpserts(ns, effects[1..]);
    }
  }

  /** A rejected or failed upload leaves the namespace as it was: there is
      never a vector without its metadata. */
  lemma FailedUploadLeavesIndexUnchanged(
    ns: Namespace,
    body: map<string, string>,
    scrape: string -> Option<ProfilePage>,
    embed: string -> Option<Embedding>)
    requires HandleUpload(body, scrape, embed).status != 200
    ensures ApplyEffects(ns, HandleUpload(body, scrape, embed).effects) == ns
  {
    ApplyWithoutUpserts(ns, HandleUpload(body, scrape, embed).effects);
  }

  /** A successful upload stores exactly one entry under the professor's name,
      holding the whole scraped record, and touches no other entry. */
  lemma SuccessfulUploadStoresRecord(
    ns: Namespace,
    body: map<string, string>,
    scrape: string -> Option<ProfilePage>,
    embed: string -> Option<Embedding>)
    requires HandleUpload(body, scrape, embed).status == 200
    ensures var r := HandleUpload(body, scrape, embed);
      var rec := r.effects[2].record;
      var ns' := ApplyEffects(ns, r.effects);
      && ns'.Keys == ns.Keys + {rec.metadata.name}
      && ns'[rec.metadata.name] == rec
      && forall id :: id in ns && id != rec.metadata.name ==> ns'[id] == ns[id]
  {
    var r := HandleUpload(body, scrape, embed);
    var e := r.effects;
    var rec := e[2].record;
    assert ApplyEffects(ns, e) == ApplyEffects(ns, e[1..]);
    assert ApplyEffects(ns, e[1..]) == ApplyEffects(ns, e[2..]);
    assert ApplyEffects(ns, e[2..]) == ApplyEffects(ns[rec.id := rec], e[3..]);
  }

  /** Re-ingesting a professor overwrites, never duplicates: after two
      successful uploads with the same name the namespace holds one entry for
      that name, equal to the second upload's record. */
  lemma ReingestionOverwrites(
    ns: Namespace,
    body1: map<string, string>, scrape1: string -> Option<ProfilePage>, embed1: string -> Option<Embedding>,
    body2: map<string, string>, scrape2: string -> Option<ProfilePage>, embed2: string -> Option<Embedding>)
    requires HandleUpload(body1, scrape1, embed1).status == 200
    requires HandleUpload(body2, scrape2, embed2).status == 200
    requires HandleUpload(body1, scrape1, embed1).effects[2].record.id
          == HandleUpload(body2, scrape2, embed2).effects[2].record.id
    ensures var r1 := HandleUpload(body1, scrape1, embed1);
      var r2 := HandleUpload(body2, scrape2, embed2);
      var id := r2.effects[2].record.id;
      var ns' := ApplyEffects(ApplyEffects(ns, r1.effects), r2.effects);
      && ns'.Keys == ns.Keys + {id}
      && ns'[id] == r2.effects[2].record
  {
    SuccessfulUploadStoresRecord(ns, body1, scrape1, embed1);
    var r1 := HandleUpload(body1, scrape1, embed1);
    SuccessfulUploadStoresRecord(ApplyEffects(ns, r1.effects), body2, scrape2, embed2);
  }
}
