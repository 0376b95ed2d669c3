/** The `pageviews:aggregate-timespent` console command: it sums the time
    spent on each article in the last complete 20-minute window, split by
    signed-in users and subscribers, and hands the article ids on to the
    storing phase in chunks of 200. */
module PageviewTimespent {
  import opened Wrappers
  import opened PhpValues

  /** 20 minutes, in seconds. */
  const WindowLength: int := 20 * 60

  /** The size of the id chunks the storing phase looks articles up by. */
  const ChunkSize: nat := 200

  // -----------------------------------------------------------------------
  // The aggregation window

  /** (timeAfter, timeBefore): `now` floored to a 20-minute boundary, and the
      boundary 20 minutes before it. Times are seconds in the application's
      time zone, so the boundaries fall on minutes 0, 20 and 40 of the hour. */
  function Window(now: int): (w: (int, int))
    ensures w.1 % WindowLength == 0
    ensures w.1 <= now < w.1 + WindowLength
    ensures w.0 == w.1 - WindowLength
  {
    var before := now - now % WindowLength;
    (before - WindowLength, before)
  }

  /** The window is the only 20-minute-aligned one whose end is at or before
      `now` and less than 20 minutes before it. */
  lemma WindowUnique(now: int, before: int)
    requires before % WindowLength == 0 && before <= now < before + WindowLength
    ensures Window(now) == (before - WindowLength, before)
  {
    var b := Window(now).1;
    var q, q' := b / WindowLength, before / WindowLength;
    assert b == q * WindowLength && before == q' * WindowLength;
  }

  // -----------------------------------------------------------------------
  // Journal records

  /** One row of the journal's sum, grouped by article, signed_in and
      subscriber. A missing tag is None. */
  datatype Record = Record(articleId: Option<string>, signedIn: Option<string>, subscriber: Option<string>, sum: int)

  /** The article a record counts for: none when its article_id is empty in
      PHP's sense (missing, "" or "0"). */
  function ArticleOf(r: Record): Option<string>
  {
    match r.articleId
    case Some(id) => if id == "" || id == "0" then None else Some(id)
    case None => None
  }

  /** filter_var($tag, FILTER_VALIDATE_BOOLEAN) === true. */
  predicate TagIsTrue(tag: Option<string>)
  {
    tag.Some? && IsTrueString(tag.value)
  }

  datatype Column = All | SignedIn | Subscribers

  predicate CountsIn(r: Record, column: Column)
  {
    match column
    case All => true
    case SignedIn => TagIsTrue(r.signedIn)
    case Subscribers => TagIsTrue(r.subscriber)
  }

  /** The total of `column` for article `a`: the sum of the records of that
      article that count in that column. */
  function Total(records: seq<Record>, a: string, column: Column): int
  {
    if records == [] then 0
    else
      var last := records[|records| - 1];
      Total(records[..|records| - 1], a, column)
        + (if ArticleOf(last) == Some(a) && CountsIn(last, column) then last.sum else 0)
  }

  /** The aggregated articles in the order they first appear. */
  function Articles(records: seq<Record>): seq<string>
  {
    if records == [] then []
    else
      var init := Articles(records[..|records| - 1]);
      match ArticleOf(records[|records| - 1])
      case Some(a) => if a in init then init else init + [a]
      case None => init
  }

  /** The articles are exactly those some record counts for, each listed once. */
  lemma {:induction false} ArticlesExactly(records: seq<Record>)
    ensures forall a :: a in Articles(records) <==> exists i :: 0 <= i < |records| && ArticleOf(records[i]) == Some(a)
    ensures forall i, j :: 0 <= i < j < |Articles(records)| ==> Articles(records)[i] != Articles(records)[j]
  {
    if records != [] {
      var init := records[..|records| - 1];
      ArticlesExactly(init);
      forall a | (exists i :: 0 <= i < |records| && ArticleOf(records[i]) == Some(a))
        ensures a in Articles(records)
      {
        var i :| 0 <= i < |records| && ArticleOf(records[i]) == Some(a);
        if i < |records| - 1 {
          assert ArticleOf(init[i]) == Some(a);
        }
      }
      forall a | a in Articles(records)
        ensures exists i :: 0 <= i < |records| && ArticleOf(records[i]) == Some(a)
      {
        if a in Articles(init) {
          var i :| 0 <= i < |init| && ArticleOf(init[i]) == Some(a);
          assert records[i] == init[i];
        } else {
          assert ArticleOf(records[|records| - 1]) == Some(a);
        }
      }
    }
  }

  /** An article no record counts for has a total of 0 in every column. */
  lemma {:induction false} TotalOfUnseen(records: seq<Record>, a: string, column: Column)
    requires a !in Articles(records)
    ensures Total(records, a, column) == 0
  {
    if records != [] {
      var init := records[..|records| - 1];
      assert a !in Articles(init);
      TotalOfUnseen(init, a, column);
    }
  }

  /** With non-negative sums, the signed-in and subscriber totals never
      exceed the total over all records. */
  lemma {:induction false} PartialTotalsBounded(records: seq<Record>, a: string)
    requires forall i :: 0 <= i < |records| ==> records[i].sum >= 0
    ensures 0 <= Total(records, a, SignedIn) <= Total(records, a, All)
    ensures 0 <= Total(records, a, Subscribers) <= Total(records, a, All)
  {
    if records != [] {
      PartialTotalsBounded(records[..|records| - 1], a);
    }
  }

  // -----------------------------------------------------------------------
  // array_chunk

  /** array_chunk($ids, $size): consecutive pieces of `size` ids, the last
      one possibly shorter. */
  function Chunk(ids: seq<string>, size: nat): seq<seq<string>>
    requires size > 0
  {
    if ids == [] then []
    else if |ids| <= size then [ids]
    else [ids[..size]] + Chunk(ids[size..], size)
  }

  function Flatten(chunks: seq<seq<string>>): seq<string>
  {
    if chunks == [] then [] else chunks[0] + Flatten(chunks[1..])
  }

  /** Every chunk holds between 1 and `size` ids, and the chunks put back
      together give the ids in their original order. */
  lemma {:induction false} ChunkCorrect(ids: seq<string>, size: nat)
    requires size > 0
    ensures forall k :: 0 <= k < |Chunk(ids, size)| ==> 0 < |Chunk(ids, size)[k]| <= size
    ensures Flatten(Chunk(ids, size)) == ids
  {
    if |ids| > size {
      ChunkCorrect(ids[size..], size);
      assert ids == ids[..size] + ids[size..];
    } else if ids != [] {
      assert Flatten([ids]) == ids + Flatten([]);
    }
  }

  // -----------------------------------------------------------------------
  // The command

  /** The per-article totals, keyed in the order the articles first appear
      (the key order of the PHP arrays). */
  datatype Totals = Totals(articles: seq<string>, all: map<string, int>,
                           signedIn: map<string, int>, subscribers: map<string, int>)

  /** The accumulation loop over the journal records. */
  method Aggregate(records: seq<Record>) returns (totals: Totals)
    ensures totals.articles == Articles(records)
    ensures totals.all.Keys == totals.signedIn.Keys == totals.subscribers.Keys
    ensures forall a :: a in totals.all <==> a in totals.articles
    ensures forall a :: a in totals.all ==>
              && totals.all[a] == Total(records, a, All)
              && totals.signedIn[a] == Total(records, a, SignedIn)
              && totals.subscribers[a] == Total(records, a, Subscribers)
  {
    var order: seq<string> := [];
    var all: map<string, int> := map[];
    var signedIn: map<string, int> := map[];
    var subscribers: map<string, int> := map[];
    for i := 0 to |records|
      invariant order == Articles(records[..i])
      invariant forall a :: a in all <==> a in order
      invariant TotalsUpTo(records, i, all, signedIn, subscribers)
    {
      var record := records[i];
      assert records[..i + 1][..i] == records[..i];
      if ArticleOf(record).None? {
        SkipStep(records, i, all, signedIn, subscribers);
        continue;
      }
      var articleId := record.articleId.value;
      if articleId !in all {
        order := order + [articleId];
      }
      var sumAll := if articleId in all then all[articleId] else 0;
      var sumSignedIn := if articleId in signedIn then signedIn[articleId] else 0;
      var sumSubscribers := if articleId in subscribers then subscribers[articleId] else 0;

      sumAll := sumAll + record.sum;
      if TagIsTrue(record.signedIn) {
        sumSignedIn := sumSignedIn + record.sum;
      }
      if TagIsTrue(record.subscriber) {
        sumSubscribers := sumSubscribers + record.sum;
      }
      AddStep(records, i, all, signedIn, subscribers, sumAll, sumSignedIn, sumSubscribers);
      all := all[articleId := sumAll];
      signedIn := signedIn[articleId := sumSignedIn];
      subscribers := subscribers[articleId := sumSubscribers];
    }
    assert records[..|records|] == records;
    totals := Totals(order, all, signedIn, subscribers);
  }

  /** The three maps hold, for every article they list, its totals over
      the first `i` records. */
  ghost predicate TotalsUpTo(records: seq<Record>, i: nat, all: map<string, int>,
                             signedIn: map<string, int>, subscribers: map<string, int>)
    requires i <= |records|
  {
    && all.Keys == signedIn.Keys == subscribers.Keys
    && forall a :: a in all ==>
         && all[a] == Total(records[..i], a, All)
         && signedIn[a] == Total(records[..i], a, SignedIn)
         && subscribers[a] == Total(records[..i], a, Subscribers)
  }

  /** A record without an article leaves every total as it was. */
  lemma SkipStep(records: seq<Record>, i: nat, all: map<string, int>,
                 signedIn: map<string, int>, subscribers: map<string, int>)
    requires i < |records| && ArticleOf(records[i]).None?
    requires TotalsUpTo(records, i, all, signedIn, subscribers)
    ensures TotalsUpTo(records, i + 1, all, signedIn, subscribers)
  {
    assert records[..i + 1][..i] == records[..i];
  }

  /** Adding a record's sum to its article's entries, each entry starting
      from 0 when the article is new, keeps the totals. */
  lemma AddStep(records: seq<Record>, i: nat, all: map<string, int>,
                signedIn: map<string, int>, subscribers: map<string, int>,
                sumAll: int, sumSignedIn: int, sumSubscribers: int)
    requires i < |records| && ArticleOf(records[i]).Some?
    requires TotalsUpTo(records, i, all, signedIn, subscribers)
    requires records[i].articleId.value !in all ==> records[i].articleId.value !in Articles(records[..i])
    requires var id := records[i].articleId.value;
             && sumAll == (if id in all then all[id] else 0) + records[i].sum
             && sumSignedIn == (if id in signedIn then signedIn[id] else 0)
                               + (if TagIsTrue(records[i].signedIn) then records[i].sum else 0)
             && sumSubscribers == (if id in subscribers then subscribers[id] else 0)
                                  + (if TagIsTrue(records[i].subscriber) then records[i].sum else 0)
    ensures var id := records[i].articleId.value;
            TotalsUpTo(records, i + 1, all[id := sumAll], signedIn[id := sumSignedIn], subscribers[id := sumSubscribers])
  {
    var id := records[i].articleId.value;
    assert records[..i + 1][..i] == records[..i];
    if id !in all {
      TotalOfUnseen(records[..i], id, All);
      TotalOfUnseen(records[..i], id, SignedIn);
      TotalOfUnseen(records[..i], id, Subscribers);
    }
  }

  lemma FirstIsElement(s: seq<string>)
    ensures s != [] ==> s[0] in s
  {
  }

  /** How a run of the command ends. */
  datatype Outcome =
    | NoArticles
    | NothingToStore
    | Store(timeAfter: int, timeBefore: int, chunks: seq<seq<string>>, totals: Totals)

  /** handle(): the window, the early exits, the aggregation and the chunking
      of the aggregated article ids for the storing phase. */
  method Handle(now: int, records: seq<Record>) returns (outcome: Outcome)
    ensures outcome == NoArticles <==> |records| == 1 && records[0].articleId.None?
    ensures outcome == NothingToStore <==> !(|records| == 1 && records[0].articleId.None?) && Articles(records) == []
    ensures outcome.Store? ==>
              && (outcome.timeAfter, outcome.timeBefore) == Window(now)
              && outcome.chunks == Chunk(Articles(records), ChunkSize)
              && outcome.totals.articles == Articles(records)
              && outcome.totals.all.Keys == outcome.totals.signedIn.Keys == outcome.totals.subscribers.Keys
              && forall a :: a in outcome.totals.all <==> a in Articles(records)
    ensures outcome.Store? ==> forall a :: a in outcome.totals.all ==>
              && outcome.totals.all[a] == Total(records, a, All)
              && outcome.totals.signedIn[a] == Total(records, a, SignedIn)
              && outcome.totals.subscribers[a] == Total(records, a, Subscribers)
  {
    var window := Window(now);
    var timeBefore := window.1;
    var timeAfter := window.0;

    if |records| == 1 && records[0].articleId.None? {
      return NoArticles;
    }

    var totals := Aggregate(records);
    if |totals.all| == 0 {
      FirstIsElement(totals.articles);
      return NothingToStore;
    }
    assert totals.articles != [] by {
      var a :| a in totals.all;
    }
    var chunks := Chunk(totals.articles, ChunkSize);
    outcome := Store(timeAfter, timeBefore, chunks, totals);
  }
}
