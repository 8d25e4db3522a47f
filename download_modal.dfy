/** The download dialog: a whole-chapter download, and a range download that
    validates the range, resolves the per-ayah source folder, probes the
    first ayah, fetches the ayahs one by one with progress, concatenates
    them and saves the result. */
module Download {
  import opened Results
  import opened Text
  import opened Types
  import opened QuranService

  datatype Mode = Full | Range

  datatype Status = Idle | Verifying | Downloading | Processing | Done | Error

  /** The messages the dialog shows; `OtherMessage` shows its detail, or a
      generic text when the detail is empty. */
  datatype Message =
    | NoMessage
    | InvalidRangeMessage
    | NoSourceMessage
    | SourceMissingMessage
    | IncompleteSourceMessage
    | ConnectionMessage
    | OtherMessage(detail: string)
    | FullDownloadFailedMessage

  /** A file handed to the browser to save. */
  datatype SavedFile = SavedFile(name: string, content: Bytes)

  const AudioMime: string := "audio/mp3"

  // ---------------------------------------------------------------------------
  // Range validation

  /** `text === '' ? 0 : parseInt(text)`; `None` is `NaN`. */
  function AyahField(text: string): Option<int> {
    if text == "" then Some(0) else ParseInt(text)
  }

  /** `!v` for a number: zero or `NaN`. */
  predicate Falsy(v: Option<int>) {
    v.None? || v.value == 0
  }

  /** The range check of the range download. */
  function ValidateRange(startText: string, endText: string, ayahCount: nat): (r: Option<(nat, nat)>)
    ensures r.Some? <==>
      && AyahField(startText).Some? && AyahField(endText).Some?
      && 1 <= AyahField(startText).value <= AyahField(endText).value <= ayahCount
    ensures r.Some? ==> r.value.0 == AyahField(startText).value && r.value.1 == AyahField(endText).value
  {
    var s := AyahField(startText);
    var e := AyahField(endText);
    if Falsy(s) || Falsy(e) || s.value > e.value || s.value < 1 || e.value > ayahCount then None
    else Some((s.value as nat, e.value as nat))
  }

  /** The fields' initial texts, "1" and the ayah count, give the whole
      chapter. */
  lemma DefaultRangeIsWholeChapter(ayahCount: nat)
    requires 1 <= ayahCount
    ensures ValidateRange("1", NatToString(ayahCount), ayahCount) == Some((1, ayahCount))
  {
    ParseIntOfNatToString(1);
    ParseIntOfNatToString(ayahCount);
  }

  /** A start after the end is rejected, whatever the chapter's length. */
  lemma ReversedRangeRejected(start: nat, end: nat, ayahCount: nat)
    requires end < start
    ensures ValidateRange(NatToString(start), NatToString(end), ayahCount).None?
  {
    ParseIntOfNatToString(start);
    ParseIntOfNatToString(end);
  }

  // ---------------------------------------------------------------------------
  // Progress

  /** Integer division of a non-negative `a` by a positive `m`, by repeated
      subtraction, so that the solver unfolds it only on demand. */
  function Quotient(a: nat, m: nat): nat
    requires 0 < m
    decreases a
  {
    if a < m then 0 else 1 + Quotient(a - m, m)
  }

  lemma {:induction false} QuotientBounds(a: nat, m: nat)
    requires 0 < m
    ensures m * Quotient(a, m) <= a < m * (Quotient(a, m) + 1)
    decreases a
  {
    if a >= m {
      QuotientBounds(a - m, m);
    }
  }

  /** `Quotient` is Dafny's division. */
  lemma QuotientIsDivision(a: nat, m: nat)
    requires 0 < m
    ensures Quotient(a, m) == a / m
  {
    var q := Quotient(a, m);
    QuotientBounds(a, m);
    DivBelow(a, m, q);
    DivAbove(a, m, q);
  }

  /** `Math.round(done / total * 100)` in exact integer arithmetic: the
      rounded half-up quotient of `100 * done` by `total`. */
  function Progress(done: nat, total: nat): nat
    requires 0 < total
  {
    Quotient(200 * done + total, 2 * total)
  }

  lemma MulMonotone(m: int, x: int, y: int)
    requires 0 < m && x <= y
    ensures m * x <= m * y
  {
  }

  lemma DivBelow(a: int, m: int, q: int)
    requires 0 < m && 0 <= a < m * (q + 1)
    ensures a / m <= q
  {
    var d := a / m;
    assert a == m * d + a % m;
    if q + 1 <= d {
      MulMonotone(m, q + 1, d);
    }
  }

  lemma DivAbove(a: int, m: int, q: int)
    requires 0 < m && m * q <= a
    ensures q <= a / m
  {
    var d := a / m;
    assert a == m * d + a % m;
    if d + 1 <= q {
      MulMonotone(m, d + 1, q);
    }
  }

  /** A quotient is at most `q` when the dividend is below `m * (q + 1)`. */
  lemma QuotientBelow(a: nat, m: nat, q: nat)
    requires 0 < m && a < m * (q + 1)
    ensures Quotient(a, m) <= q
  {
    QuotientBounds(a, m);
    if q + 1 <= Quotient(a, m) {
      MulMonotone(m, q + 1, Quotient(a, m));
    }
  }

  /** A quotient is at least `q` when the dividend reaches `m * q`. */
  lemma QuotientAbove(a: nat, m: nat, q: nat)
    requires 0 < m && m * q <= a
    ensures q <= Quotient(a, m)
  {
    QuotientBounds(a, m);
    if Quotient(a, m) + 1 <= q {
      MulMonotone(m, Quotient(a, m) + 1, q);
    }
  }

  lemma QuotientMonotone(a: nat, b: nat, m: nat)
    requires 0 < m && a <= b
    ensures Quotient(a, m) <= Quotient(b, m)
  {
    QuotientBounds(a, m);
    QuotientAbove(b, m, Quotient(a, m));
  }

  /** The percentage stays between 0 and 100. */
  lemma ProgressBounds(done: nat, total: nat)
    requires 0 < total && done <= total
    ensures 0 <= Progress(done, total) <= 100
  {
    QuotientBelow(200 * done + total, 2 * total, 100);
  }

  /** More ayahs done never shows less. */
  lemma ProgressMonotone(d1: nat, d2: nat, total: nat)
    requires 0 < total && d1 <= d2
    ensures Progress(d1, total) <= Progress(d2, total)
  {
    QuotientMonotone(200 * d1 + total, 200 * d2 + total, 2 * total);
  }

  /** All ayahs done shows 100. */
  lemma ProgressComplete(total: nat)
    requires 0 < total
    ensures Progress(total, total) == 100
  {
    QuotientBelow(200 * total + total, 2 * total, 100);
    QuotientAbove(200 * total + total, 2 * total, 100);
  }

  /** The shown value is the nearest whole percentage of `done` out of
      `total`, halves rounded up: `100 * done / total - 1/2 <= p < 100 * done / total + 1/2`. */
  lemma ProgressRoundsHalfUp(done: nat, total: nat)
    requires 0 < total
    ensures 2 * total * Progress(done, total) <= 200 * done + total < 2 * total * (Progress(done, total) + 1)
  {
    QuotientBounds(200 * done + total, 2 * total);
  }

  /** The values shown after each of the first `count` ayahs. */
  function ProgressSeries(count: nat, total: nat): (r: seq<int>)
    requires 0 < total
    ensures |r| == count
    ensures forall k | 0 <= k < count :: r[k] == Progress(k + 1, total)
  {
    if count == 0 then [] else ProgressSeries(count - 1, total) + [Progress(count, total)]
  }

  /** One more fetched ayah adds its value to the series. */
  lemma ProgressSeriesStep(count: nat, total: nat)
    requires 0 < total
    ensures ProgressSeries(count + 1, total) == ProgressSeries(count, total) + [Progress(count + 1, total)]
  {
  }

  /** The progress shown during one range download never decreases, stays
      within 0..100, and ends at 100 when every ayah is fetched. */
  lemma {:induction false} ProgressSeriesShape(count: nat, total: nat)
    requires 0 < total && count <= total
    ensures var p := ProgressSeries(count, total);
      && |p| == count
      && (forall k | 0 <= k < count :: p[k] == Progress(k + 1, total) && 0 <= p[k] <= 100)
      && (forall j, k | 0 <= j <= k < count :: p[j] <= p[k])
      && (count == total ==> p[count - 1] == 100)
  {
    if count > 0 {
      ProgressSeriesShape(count - 1, total);
      var p := ProgressSeries(count, total);
      forall k | 0 <= k < count ensures p[k] == Progress(k + 1, total) && 0 <= p[k] <= 100 {
        ProgressBounds(k + 1, total);
      }
      forall j, k | 0 <= j <= k < count ensures p[j] <= p[k] {
        ProgressMonotone(j + 1, k + 1, total);
      }
      if count == total {
        ProgressComplete(total);
      }
    }
  }

  // ---------------------------------------------------------------------------
  // Source resolution and the probe of the start ayah

  /** The `candidates` list: the folder of the matched key, if any. */
  function Candidates(mapping: seq<SourceEntry>, name: string): (c: seq<string>)
    ensures |c| <= 1
    ensures c != [] ==> exists e | e in mapping :: e.key != "" && KeyMatches(e.key, name) && e.folder == c[0]
  {
    match MatchedSource(mapping, name)
    case None => []
    case Some(e) => [e.folder]
  }

  datatype ProbeRun = ProbeRun(working: Option<string>, sent: seq<Request>)

  /** The probe of one folder, given the number of the reply its first
      request receives. */
  type Prober = (string, nat) -> Probe

  /** The probe of the start ayah of a range. */
  function StartProber(surahId: nat, ayahId: nat, net: Network): Prober {
    (folder: string, n: nat) => CheckAyahExists(folder, surahId, ayahId, net, n)
  }

  /** The loop over the candidates from the `k`-th one on, stopping at the
      first one whose start ayah exists. */
  function ProbeFrom(candidates: seq<string>, k: nat, probe: Prober, n: nat): ProbeRun
    decreases |candidates| - k
  {
    if k >= |candidates| then ProbeRun(None, [])
    else
      var p := probe(candidates[k], n);
      if p.found then ProbeRun(Some(candidates[k]), p.sent)
      else
        var rest := ProbeFrom(candidates, k + 1, probe, n + |p.sent|);
        ProbeRun(rest.working, p.sent + rest.sent)
  }

  /** One step of the loop over the candidates. */
  lemma ProbeStep(candidates: seq<string>, k: nat, probe: Prober, n: nat)
    requires k < |candidates|
    ensures var p := probe(candidates[k], n);
      var rest := ProbeFrom(candidates, k + 1, probe, n + |p.sent|);
      ProbeFrom(candidates, k, probe, n)
        == if p.found then ProbeRun(Some(candidates[k]), p.sent) else ProbeRun(rest.working, p.sent + rest.sent)
  {
  }

  /** The whole loop over the candidates. */
  function ProbeCandidates(candidates: seq<string>, probe: Prober): ProbeRun {
    ProbeFrom(candidates, 0, probe, 0)
  }

  /** The loop over the candidates: probes each in turn and stops at the
      first whose start ayah exists. */
  method ProbeLoop(candidates: seq<string>, probe: Prober) returns (working: Option<string>, used: nat, ghost probeSent: seq<Request>)
    ensures working == ProbeCandidates(candidates, probe).working
    ensures used == |ProbeCandidates(candidates, probe).sent|
    ensures probeSent == ProbeCandidates(candidates, probe).sent
  {
    working := None;
    used := 0;
    probeSent := [];
    ghost var whole := ProbeCandidates(candidates, probe);
    var k := 0;
    while k < |candidates| && working.None?
      invariant 0 <= k <= |candidates|
      invariant used == |probeSent|
      invariant working.None? ==> whole.working == ProbeFrom(candidates, k, probe, used).working
      invariant working.None? ==> whole.sent == probeSent + ProbeFrom(candidates, k, probe, used).sent
      invariant working.Some? ==> whole == ProbeRun(working, probeSent)
    {
      var p := probe(candidates[k], used);
      ProbeStep(candidates, k, probe, used);
      ghost var rest := ProbeFrom(candidates, k + 1, probe, used + |p.sent|);
      if p.found {
        working := Some(candidates[k]);
      } else {
        assert probeSent + (p.sent + rest.sent) == (probeSent + p.sent) + rest.sent;
      }
      probeSent := probeSent + p.sent;
      used := used + |p.sent|;
      k := k + 1;
    }
    if working.None? {
      assert ProbeFrom(candidates, k, probe, used) == ProbeRun(None, []);
      assert whole.sent == probeSent + [];
    }
    assert whole == ProbeRun(working, probeSent);
  }

  /** With one candidate, the loop is one probe of it. */
  lemma ProbeOne(folder: string, probe: Prober)
    ensures var p := probe(folder, 0);
      ProbeCandidates([folder], probe) == ProbeRun(if p.found then Some(folder) else None, p.sent)
  {
    var p := probe(folder, 0);
    if !p.found {
      assert ProbeFrom([folder], 1, probe, |p.sent|) == ProbeRun(None, []);
      assert p.sent + [] == p.sent;
    }
  }

  // ---------------------------------------------------------------------------
  // The download loop

  /** The fetch of one ayah, given the ayah and the number of the reply its
      first request receives. */
  type Fetcher = (nat, nat) -> FetchReport

  function AyahFetcher(folder: string, surahId: nat, net: Network): Fetcher {
    (ayahId: nat, m: nat) => FetchAyahReport(folder, surahId, ayahId, net, m)
  }

  /** The address of each ayah of one chapter in one folder. */
  function AyahUrls(folder: string, surahId: nat): nat -> string {
    (ayahId: nat) => AyahUrl(folder, surahId, ayahId)
  }

  /** What the loop relies on about one fetch: one or more GETs of one
      address, and a body taken from the successful last reply. */
  ghost predicate FetchFacts(r: FetchReport, url: string, net: Network, m: nat) {
    && 1 <= |r.sent|
    && (forall k | 0 <= k < |r.sent| :: r.sent[k] == Request(Get, url))
    && (r.result.Ok? ==>
          var last := net(m + |r.sent| - 1);
          last.Responded? && IsOk(last.status) && last.body == r.result.value)
  }

  ghost predicate FetchesAyahs(fetch: Fetcher, urls: nat -> string, net: Network) {
    forall ayahId: nat, m: nat :: FetchFacts(fetch(ayahId, m), urls(ayahId), net, m)
  }

  /** Every failure of a fetch shows the "incomplete source" or the
      "connection" message. */
  ghost predicate FailuresClassified(fetch: Fetcher) {
    forall ayahId: nat, m: nat :: fetch(ayahId, m).result.Err? ==>
      FetchErrorMessage(fetch(ayahId, m).result.error) in {IncompleteSourceMessage, ConnectionMessage}
  }

  /** `fetchAyahBlob` has the facts the loop relies on. */
  lemma AyahFetcherFetches(folder: string, surahId: nat, net: Network)
    ensures FetchesAyahs(AyahFetcher(folder, surahId, net), AyahUrls(folder, surahId), net)
  {
    forall ayahId: nat, m: nat
      ensures FetchFacts(AyahFetcher(folder, surahId, net)(ayahId, m), AyahUrls(folder, surahId)(ayahId), net, m)
    {
      var r := FetchAyahReport(folder, surahId, ayahId, net, m);
      FetchRequestsAreGets(folder, surahId, ayahId, net, m);
      if r.result.Ok? {
        FetchOkIsLastReply(folder, surahId, ayahId, net, m);
      }
    }
  }

  /** `fetchAyahBlob` fails only as "not found" or with the "fetch failed"
      message, and the dialog shows the matching message for each. */
  lemma AyahFetcherFailuresClassified(folder: string, surahId: nat, net: Network)
    ensures FailuresClassified(AyahFetcher(folder, surahId, net))
  {
    forall ayahId: nat, m: nat | AyahFetcher(folder, surahId, net)(ayahId, m).result.Err?
      ensures FetchErrorMessage(AyahFetcher(folder, surahId, net)(ayahId, m).result.error)
                in {IncompleteSourceMessage, ConnectionMessage}
    {
      var r := FetchAyahReport(folder, surahId, ayahId, net, m);
      FetchErrorKinds(folder, surahId, ayahId, net, m);
      if r.result.error != NotFoundMessage {
        var cause :| r.result.error == FetchFailedMessage(ayahId, cause);
        FailedMessageMentionsFetchFailed(ayahId, cause);
      }
    }
  }

  /** The state of the download loop after the ayahs `start .. i-1`, or after
      the first of them that failed, when the first request gets reply number
      `n`. `fetched` lists the ayahs whose fetch was started. */
  datatype LoopRun = LoopRun(segments: seq<Bytes>, error: Option<string>, sent: seq<Request>, fetched: seq<nat>)

  function DownloadUpTo(fetch: Fetcher, start: nat, i: nat, n: nat): LoopRun
    requires start <= i
    decreases i - start
  {
    if i == start then LoopRun([], None, [], [])
    else
      var prev := DownloadUpTo(fetch, start, i - 1, n);
      if prev.error.Some? then prev
      else
        var f := fetch(i - 1, n + |prev.sent|);
        match f.result
        case Ok(b) => LoopRun(prev.segments + [b], None, prev.sent + f.sent, prev.fetched + [i - 1])
        case Err(m) => LoopRun(prev.segments, Some(m), prev.sent + f.sent, prev.fetched + [i - 1])
  }

  /** After a failure nothing more happens. */
  lemma {:induction false} ErrorSticks(fetch: Fetcher, start: nat, i: nat, j: nat, n: nat)
    requires start <= i <= j
    requires DownloadUpTo(fetch, start, i, n).error.Some?
    ensures DownloadUpTo(fetch, start, j, n) == DownloadUpTo(fetch, start, i, n)
    decreases j - i
  {
    if i < j {
      ErrorSticks(fetch, start, i, j - 1, n);
    }
  }

  /** The fetch of ayah `ayahId` whose first request receives reply `m`. */
  function FetchOf(fetch: Fetcher, ayahId: nat, m: nat): FetchReport {
    fetch(ayahId, m)
  }

  /** The rest of the loop from ayah `i` to `end`, given the state `acc`
      reached so far and the number `m` of the next reply: the loop as the
      dialog runs it, one ayah at a time. */
  function DownloadFrom(fetch: Fetcher, i: nat, end: nat, m: nat, acc: LoopRun): LoopRun
    decreases end + 1 - i
  {
    if i > end then acc
    else
      var f := fetch(i, m);
      match f.result
      case Err(e) => LoopRun(acc.segments, Some(e), acc.sent + f.sent, acc.fetched + [i])
      case Ok(b) => DownloadFrom(fetch, i + 1, end, m + |f.sent|, LoopRun(acc.segments + [b], None, acc.sent + f.sent, acc.fetched + [i]))
  }

  /** One turn of the loop: a failing fetch ends the loop where the whole
      loop ends. */
  lemma DownloadFromFails(fetch: Fetcher, start: nat, i: nat, end: nat, n: nat)
    requires start <= i <= end
    requires DownloadUpTo(fetch, start, i, n).error.None?
    requires DownloadUpTo(fetch, start, i + 1, n).error.Some?
    ensures var d := DownloadUpTo(fetch, start, i, n);
      DownloadFrom(fetch, i, end, n + |d.sent|, d) == DownloadUpTo(fetch, start, end + 1, n)
  {
    ErrorSticks(fetch, start, i + 1, end + 1, n);
  }

  /** One turn of the loop: a successful fetch moves both descriptions of the
      loop one ayah on. */
  lemma DownloadFromAdvances(fetch: Fetcher, start: nat, i: nat, end: nat, n: nat)
    requires start <= i <= end
    requires DownloadUpTo(fetch, start, i, n).error.None?
    requires DownloadUpTo(fetch, start, i + 1, n).error.None?
    ensures var d := DownloadUpTo(fetch, start, i, n);
      var next := DownloadUpTo(fetch, start, i + 1, n);
      DownloadFrom(fetch, i, end, n + |d.sent|, d) == DownloadFrom(fetch, i + 1, end, n + |next.sent|, next)
  {
  }

  /** Running the rest of the loop from any point reached without a failure
      ends where the whole loop ends. */
  lemma {:induction false} DownloadFromMatches(fetch: Fetcher, start: nat, i: nat, end: nat, n: nat)
    requires start <= i <= end + 1
    requires DownloadUpTo(fetch, start, i, n).error.None?
    ensures var d := DownloadUpTo(fetch, start, i, n);
      DownloadFrom(fetch, i, end, n + |d.sent|, d) == DownloadUpTo(fetch, start, end + 1, n)
    decreases end + 1 - i
  {
    if i <= end {
      if DownloadUpTo(fetch, start, i + 1, n).error.Some? {
        DownloadFromFails(fetch, start, i, end, n);
      } else {
        DownloadFromAdvances(fetch, start, i, end, n);
        DownloadFromMatches(fetch, start, i + 1, end, n);
      }
    }
  }

  /** Ayahs are fetched in ascending order from `start`, one fetch each, and
      a failure is the last fetch. */
  lemma {:induction false} DownloadOrder(fetch: Fetcher, start: nat, i: nat, n: nat)
    requires start <= i
    ensures var d := DownloadUpTo(fetch, start, i, n);
      && |d.fetched| <= i - start
      && (forall k | 0 <= k < |d.fetched| :: d.fetched[k] == start + k)
      && (d.error.None? ==> |d.fetched| == i - start && |d.segments| == i - start)
      && (d.error.Some? ==> 1 <= |d.fetched| && |d.segments| == |d.fetched| - 1)
    decreases i - start
  {
    if i > start {
      DownloadOrder(fetch, start, i - 1, n);
    }
  }

  /** Reply number `n + idx` answered a GET of `url` with a success whose
      body is `segment`. */
  ghost predicate RepliedWith(sent: seq<Request>, net: Network, n: nat, url: string, segment: Bytes) {
    exists idx | 0 <= idx < |sent| ::
      && sent[idx] == Request(Get, url)
      && net(n + idx).Responded? && IsOk(net(n + idx).status) && net(n + idx).body == segment
  }

  lemma RepliedWithAt(sent: seq<Request>, net: Network, n: nat, url: string, segment: Bytes, idx: nat)
    requires idx < |sent| && sent[idx] == Request(Get, url)
    requires net(n + idx).Responded? && IsOk(net(n + idx).status) && net(n + idx).body == segment
    ensures RepliedWith(sent, net, n, url, segment)
  {
  }

  /** Later requests do not change which reply answered a request. */
  lemma RepliedWithBefore(sent: seq<Request>, later: seq<Request>, net: Network, n: nat, url: string, segment: Bytes)
    requires RepliedWith(sent, net, n, url, segment)
    ensures RepliedWith(sent + later, net, n, url, segment)
  {
    var idx :| 0 <= idx < |sent| && sent[idx] == Request(Get, url)
      && net(n + idx).Responded? && IsOk(net(n + idx).status) && net(n + idx).body == segment;
    assert (sent + later)[idx] == sent[idx];
  }

  /** Segment `k` of `d` is the body of a successful reply to the GET of
      ayah `start + k`. */
  ghost predicate SegmentsReplied(d: LoopRun, net: Network, n: nat, urls: nat -> string, start: nat) {
    forall k | 0 <= k < |d.segments| :: RepliedWith(d.sent, net, n, urls(start + k), d.segments[k])
  }

  /** Appending requests and one more segment, itself tied to its reply,
      keeps every segment tied to its reply. */
  lemma AppendReplied(prev: LoopRun, next: LoopRun, later: seq<Request>, segment: Bytes,
                      net: Network, n: nat, urls: nat -> string, start: nat)
    requires SegmentsReplied(prev, net, n, urls, start)
    requires next.sent == prev.sent + later && next.segments == prev.segments + [segment]
    requires RepliedWith(next.sent, net, n, urls(start + |prev.segments|), segment)
    ensures SegmentsReplied(next, net, n, urls, start)
  {
    forall k | 0 <= k < |next.segments|
      ensures RepliedWith(next.sent, net, n, urls(start + k), next.segments[k])
    {
      if k < |prev.segments| {
        RepliedWithBefore(prev.sent, later, net, n, urls(start + k), prev.segments[k]);
      }
    }
  }

  /** Appending requests keeps every segment tied to its reply. */
  lemma PrefixReplied(prev: LoopRun, next: LoopRun, later: seq<Request>,
                      net: Network, n: nat, urls: nat -> string, start: nat)
    requires SegmentsReplied(prev, net, n, urls, start)
    requires next.sent == prev.sent + later && next.segments == prev.segments
    ensures SegmentsReplied(next, net, n, urls, start)
  {
    forall k | 0 <= k < |next.segments|
      ensures RepliedWith(next.sent, net, n, urls(start + k), next.segments[k])
    {
      RepliedWithBefore(prev.sent, later, net, n, urls(start + k), prev.segments[k]);
    }
  }

  /** The last request of a successful fetch that follows `sent` answered it. */
  lemma FetchedSegmentReplied(sent: seq<Request>, f: FetchReport, url: string, net: Network, n: nat)
    requires FetchFacts(f, url, net, n + |sent|)
    requires f.result.Ok?
    ensures RepliedWith(sent + f.sent, net, n, url, f.result.value)
  {
    var idx := |sent| + |f.sent| - 1;
    assert (sent + f.sent)[idx] == f.sent[|f.sent| - 1];
    RepliedWithAt(sent + f.sent, net, n, url, f.result.value, idx);
  }

  /** One more ayah keeps every segment tied to its reply. */
  lemma SegmentsStep(fetch: Fetcher, urls: nat -> string, net: Network, start: nat, i: nat, n: nat)
    requires start < i
    requires var prev := DownloadUpTo(fetch, start, i - 1, n);
      FetchFacts(fetch(i - 1, n + |prev.sent|), urls(i - 1), net, n + |prev.sent|)
    requires SegmentsReplied(DownloadUpTo(fetch, start, i - 1, n), net, n, urls, start)
    ensures SegmentsReplied(DownloadUpTo(fetch, start, i, n), net, n, urls, start)
  {
    var prev := DownloadUpTo(fetch, start, i - 1, n);
    var next := DownloadUpTo(fetch, start, i, n);
    if prev.error.None? {
      DownloadOrder(fetch, start, i - 1, n);
      var f := fetch(i - 1, n + |prev.sent|);
      if f.result.Ok? {
        assert next == LoopRun(prev.segments + [f.result.value], None, prev.sent + f.sent, prev.fetched + [i - 1]);
        assert start + |prev.segments| == i - 1;
        FetchedSegmentReplied(prev.sent, f, urls(i - 1), net, n);
        AppendReplied(prev, next, f.sent, f.result.value, net, n, urls, start);
      } else {
        assert next == LoopRun(prev.segments, Some(f.result.error), prev.sent + f.sent, prev.fetched + [i - 1]);
        PrefixReplied(prev, next, f.sent, net, n, urls, start);
      }
    }
  }

  /** Segment `k` is the body of a successful reply to the GET of ayah
      `start + k`. */
  lemma {:induction false} DownloadSegmentsFromReplies(fetch: Fetcher, urls: nat -> string, net: Network,
                                                       start: nat, i: nat, n: nat)
    requires FetchesAyahs(fetch, urls, net)
    requires start <= i
    ensures SegmentsReplied(DownloadUpTo(fetch, start, i, n), net, n, urls, start)
    decreases i - start
  {
    if i > start {
      DownloadSegmentsFromReplies(fetch, urls, net, start, i - 1, n);
      var prev := DownloadUpTo(fetch, start, i - 1, n);
      assert FetchFacts(fetch(i - 1, n + |prev.sent|), urls(i - 1), net, n + |prev.sent|);
      SegmentsStep(fetch, urls, net, start, i, n);
    }
  }

  /** `r` is a GET of the address of an ayah in `fetched`. */
  ghost predicate RequestFor(r: Request, fetched: seq<nat>, urls: nat -> string) {
    exists k | 0 <= k < |fetched| :: r == Request(Get, urls(fetched[k]))
  }

  /** Every request of `sent` is a GET of the address of an ayah in `fetched`. */
  ghost predicate RequestsOf(sent: seq<Request>, fetched: seq<nat>, urls: nat -> string) {
    forall idx | 0 <= idx < |sent| :: RequestFor(sent[idx], fetched, urls)
  }

  lemma RequestsAppend(sent: seq<Request>, fetched: seq<nat>, more: seq<Request>, ayahId: nat, urls: nat -> string)
    requires RequestsOf(sent, fetched, urls)
    requires forall k | 0 <= k < |more| :: more[k] == Request(Get, urls(ayahId))
    ensures RequestsOf(sent + more, fetched + [ayahId], urls)
  {
    var all, list := sent + more, fetched + [ayahId];
    forall idx | 0 <= idx < |all|
      ensures RequestFor(all[idx], list, urls)
    {
      if idx < |sent| {
        var k :| 0 <= k < |fetched| && sent[idx] == Request(Get, urls(fetched[k]));
        assert all[idx] == sent[idx] && list[k] == fetched[k];
      } else {
        assert all[idx] == more[idx - |sent|];
        assert list[|fetched|] == ayahId;
      }
    }
  }

  /** Every request of the loop is a GET of an ayah whose fetch was started:
      nothing is requested for an ayah after the one that failed. */
  lemma {:induction false} DownloadRequestsOnlyFetched(fetch: Fetcher, urls: nat -> string, net: Network,
                                                       start: nat, i: nat, n: nat)
    requires FetchesAyahs(fetch, urls, net)
    requires start <= i
    ensures var d := DownloadUpTo(fetch, start, i, n);
      RequestsOf(d.sent, d.fetched, urls)
    decreases i - start
  {
    if i > start {
      var prev := DownloadUpTo(fetch, start, i - 1, n);
      DownloadRequestsOnlyFetched(fetch, urls, net, start, i - 1, n);
      var d := DownloadUpTo(fetch, start, i, n);
      if prev.error.None? {
        var m := n + |prev.sent|;
        var f := fetch(i - 1, m);
        assert d.sent == prev.sent + f.sent && d.fetched == prev.fetched + [i - 1];
        assert FetchFacts(f, urls(i - 1), net, m);
        RequestsAppend(prev.sent, prev.fetched, f.sent, i - 1, urls);
      } else {
        assert d == prev;
      }
    } else {
      assert DownloadUpTo(fetch, start, i, n).sent == [];
    }
  }

  /** Every error the download loop can end with shows the "incomplete
      source" or the "connection" message, never the generic one. */
  lemma {:induction false} FetchErrorsAreClassified(fetch: Fetcher, start: nat, i: nat, n: nat)
    requires FailuresClassified(fetch)
    requires start <= i
    requires DownloadUpTo(fetch, start, i, n).error.Some?
    ensures var m := DownloadUpTo(fetch, start, i, n).error.value;
      FetchErrorMessage(m) == IncompleteSourceMessage || FetchErrorMessage(m) == ConnectionMessage
    decreases i - start
  {
    var prev := DownloadUpTo(fetch, start, i - 1, n);
    if prev.error.Some? {
      FetchErrorsAreClassified(fetch, start, i - 1, n);
    } else {
      var f := fetch(i - 1, n + |prev.sent|);
      assert f.result.Err? ==> FetchErrorMessage(f.result.error) in {IncompleteSourceMessage, ConnectionMessage};
    }
  }

  lemma FailedMessageMentionsFetchFailed(ayahId: nat, cause: string)
    ensures Contains(FetchFailedMessage(ayahId, cause), "fetch failed")
  {
    var m := FetchFailedMessage(ayahId, cause);
    var before := "Ayah " + NatToString(ayahId) + " ";
    var after := ": " + cause;
    assert m == before + "fetch failed" + after;
    assert (before + "fetch failed" + after)[|before|..|before| + 12] == "fetch failed";
    assert OccursAt(m, "fetch failed", |before|);
  }

  // ---------------------------------------------------------------------------
  // The whole range download

  datatype RangeOutcome =
    | InvalidRange
    | NoSourceMapping(start: nat, end: nat)
    | SourceUnavailable(start: nat, end: nat)
    | AyahFailed(start: nat, end: nat, folder: string, message: string, completed: nat)
    | Assembled(start: nat, end: nat, folder: string, segments: seq<Bytes>)

  /** The outcome, every request issued (numbered from 0), and the ayahs whose
      fetch was started. */
  datatype RangeRun = RangeRun(outcome: RangeOutcome, sent: seq<Request>, fetched: seq<nat>)

  /** How a finished loop over `start .. end` from `folder` ends. */
  function LoopOutcome(folder: string, start: nat, end: nat, d: LoopRun): (o: RangeOutcome)
    ensures o.AyahFailed? || o.Assembled?
    ensures o.AyahFailed? <==> d.error.Some?
    ensures o.start == start && o.end == end && o.folder == folder
  {
    match d.error
    case Some(m) => AyahFailed(start, end, folder, m, |d.segments|)
    case None => Assembled(start, end, folder, d.segments)
  }

  /** The download loop over `start .. end` from a resolved folder, fetching
      with `fetch`, its requests numbered from `n`. */
  function DownloadStage(fetch: Fetcher, folder: string, start: nat, end: nat, n: nat): (run: RangeRun)
    requires start <= end
    ensures run.outcome.AyahFailed? || run.outcome.Assembled?
    ensures run.outcome.start == start && run.outcome.end == end && run.outcome.folder == folder
  {
    var d := DownloadUpTo(fetch, start, end + 1, n);
    RangeRun(LoopOutcome(folder, start, end, d), d.sent, d.fetched)
  }

  lemma StageOfLoop(fetch: Fetcher, folder: string, start: nat, end: nat, n: nat)
    requires start <= end
    ensures var d := DownloadUpTo(fetch, start, end + 1, n);
      DownloadStage(fetch, folder, start, end, n) == RangeRun(LoopOutcome(folder, start, end, d), d.sent, d.fetched)
  {
  }

  /** The progress values of a finished loop are one per fetched segment. */
  lemma LoopProgress(fetch: Fetcher, folder: string, start: nat, end: nat, n: nat)
    requires start <= end
    ensures var d := DownloadUpTo(fetch, start, end + 1, n);
      ProgressUpdates(LoopOutcome(folder, start, end, d)) == ProgressSeries(|d.segments|, end - start + 1)
  {
    DownloadOrder(fetch, start, end + 1, n);
  }

  /** The loop stage read off a run of the loop from its start. */
  lemma StageOfLoopRun(fetch: Fetcher, folder: string, start: nat, end: nat, n: nat, d: LoopRun)
    requires start <= end
    requires d == DownloadFrom(fetch, start, end, n, LoopRun([], None, [], []))
    ensures var run := DownloadStage(fetch, folder, start, end, n);
      && run.outcome == LoopOutcome(folder, start, end, d)
      && run.sent == d.sent && run.fetched == d.fetched
      && ProgressUpdates(run.outcome) == ProgressSeries(|d.segments|, end - start + 1)
  {
    DownloadFromMatches(fetch, start, start, end, n);
    StageOfLoop(fetch, folder, start, end, n);
    LoopProgress(fetch, folder, start, end, n);
  }

  /** The fetcher of the ayahs of a chapter from each folder. */
  type FolderFetcher = string -> Fetcher

  function AyahFetchers(surahId: nat, net: Network): FolderFetcher {
    (folder: string) => AyahFetcher(folder, surahId, net)
  }

  /** Everything after a valid range: source lookup, probe and download. */
  function SourcedStage(name: string, surahId: nat, mapping: seq<SourceEntry>, start: nat, end: nat, net: Network): (run: RangeRun)
    requires start <= end
    ensures !run.outcome.InvalidRange? && run.outcome.start == start && run.outcome.end == end
  {
    LookupStage(Candidates(mapping, name), start, end, StartProber(surahId, start, net), AyahFetchers(surahId, net))
  }

  /** The stage from the candidate folders on, with the probe and the
      fetchers as parameters. */
  function LookupStage(candidates: seq<string>, start: nat, end: nat, probe: Prober, fetchFrom: FolderFetcher): (run: RangeRun)
    requires start <= end
    ensures !run.outcome.InvalidRange? && run.outcome.start == start && run.outcome.end == end
    ensures run.outcome.NoSourceMapping? <==> |candidates| == 0
  {
    if |candidates| == 0 then RangeRun(NoSourceMapping(start, end), [], [])
    else ProbedStage(candidates, start, end, probe, fetchFrom)
  }

  /** With a candidate, the stage after the lookup is the probed stage,
      which starts by verifying and leaves no message when it assembles. */
  lemma LookupFound(candidates: seq<string>, start: nat, end: nat, probe: Prober, fetchFrom: FolderFetcher)
    requires start <= end && |candidates| > 0
    ensures var run := LookupStage(candidates, start, end, probe, fetchFrom);
      && run == ProbedStage(candidates, start, end, probe, fetchFrom)
      && StatusPath(run.outcome) == [Verifying] + StatusPath(run.outcome)[1..]
      && (run.outcome.Assembled? ==> RangeMessage(run.outcome) == NoMessage)
  {
  }

  /** The probe of the candidates, then the download from the working one. */
  function ProbedStage(candidates: seq<string>, start: nat, end: nat, probe: Prober, fetchFrom: FolderFetcher): (run: RangeRun)
    requires start <= end
    ensures run.outcome.SourceUnavailable? || run.outcome.AyahFailed? || run.outcome.Assembled?
    ensures run.outcome.start == start && run.outcome.end == end
  {
    var p := ProbeCandidates(candidates, probe);
    if p.working.None? || p.working.value == "" then RangeRun(SourceUnavailable(start, end), p.sent, [])
    else
      var folder := p.working.value;
      var d := DownloadStage(fetchFrom(folder), folder, start, end, |p.sent|);
      RangeRun(d.outcome, p.sent + d.sent, d.fetched)
  }

  /** The range download from the texts of the two fields. */
  function RangeDownloadRun(reciter: Reciter, surah: Surah, mapping: seq<SourceEntry>,
                            startText: string, endText: string, net: Network): (run: RangeRun)
    ensures run.outcome.InvalidRange? <==> ValidateRange(startText, endText, surah.ayahCount).None?
    ensures run.outcome.InvalidRange? ==> run.sent == [] && run.fetched == []
  {
    match ValidateRange(startText, endText, surah.ayahCount)
    case None => RangeRun(InvalidRange, [], [])
    case Some(r) => SourcedStage(reciter.name, surah.id, mapping, r.0, r.1, net)
  }

  /** The statuses the dialog passes through. */
  function StatusPath(o: RangeOutcome): (p: seq<Status>)
    ensures 1 <= |p| && p[|p| - 1] == (if o.Assembled? then Done else Error)
    ensures p[0] == (if o.InvalidRange? then Error else Verifying)
  {
    match o
    case InvalidRange => [Error]
    case NoSourceMapping(_, _) => [Verifying, Error]
    case SourceUnavailable(_, _) => [Verifying, Error]
    case AyahFailed(_, _, _, _, _) => [Verifying, Downloading, Error]
    case Assembled(_, _, _, _) => [Verifying, Downloading, Processing, Done]
  }

  /** The message for an error thrown during the download loop. */
  function FetchErrorMessage(m: string): (r: Message)
    ensures Contains(m, "404") ==> r == IncompleteSourceMessage
    ensures r == IncompleteSourceMessage || r == ConnectionMessage || r == OtherMessage(m)
  {
    if m == NotFoundMessage || Contains(m, "404") then IncompleteSourceMessage
    else if Contains(m, "fetch failed") then ConnectionMessage
    else OtherMessage(m)
  }

  function RangeMessage(o: RangeOutcome): Message {
    match o
    case InvalidRange => InvalidRangeMessage
    case NoSourceMapping(_, _) => NoSourceMessage
    case SourceUnavailable(_, _) => SourceMissingMessage
    case AyahFailed(_, _, _, m, _) => FetchErrorMessage(m)
    case Assembled(_, _, _, _) => NoMessage
  }

  /** The progress values set during the download loop. */
  function ProgressUpdates(o: RangeOutcome): seq<int> {
    match o
    case AyahFailed(start, end, _, _, completed) =>
      if start <= end then ProgressSeries(completed, end - start + 1) else []
    case Assembled(start, end, _, _) =>
      if start <= end then ProgressSeries(end - start + 1, end - start + 1) else []
    case _ => []
  }

  function RangeFileName(englishName: string, start: nat, end: nat, reciterName: string): string {
    "Surah_" + englishName + "_" + NatToString(start) + "-" + NatToString(end) + "_" + reciterName + ".mp3"
  }

  function FullFileName(englishName: string, reciterName: string): string {
    "Surah_" + englishName + "_" + reciterName + ".mp3"
  }

  /** Both saved file names start with the chapter's English name and end
      with the reciter's name and `.mp3`. */
  lemma FileNamesShape(englishName: string, start: nat, end: nat, reciterName: string)
    ensures var prefix, suffix := "Surah_" + englishName + "_", reciterName + ".mp3";
      var range, full := RangeFileName(englishName, start, end, reciterName), FullFileName(englishName, reciterName);
      && |prefix| + |suffix| <= |full| && full[..|prefix|] == prefix && full[|full| - |suffix|..] == suffix
      && |prefix| + |suffix| < |range| && range[..|prefix|] == prefix && range[|range| - |suffix|..] == suffix
  {
    var prefix, suffix := "Surah_" + englishName + "_", reciterName + ".mp3";
    var middle := NatToString(start) + "-" + NatToString(end) + "_";
    assert RangeFileName(englishName, start, end, reciterName) == prefix + middle + suffix;
    assert FullFileName(englishName, reciterName) == prefix + suffix;
  }

  /** The files saved by the range download. */
  function RangeSaves(reciter: Reciter, surah: Surah, o: RangeOutcome): seq<SavedFile> {
    match o
    case Assembled(start, end, _, segments) =>
      [SavedFile(RangeFileName(surah.englishName, start, end, reciter.name), ConcatBlobs(segments, AudioMime).bytes)]
    case _ => []
  }

  /** A rejected range causes no request, no fetch and no file. */
  lemma InvalidRangeIsRejected(reciter: Reciter, surah: Surah, mapping: seq<SourceEntry>,
                               startText: string, endText: string, net: Network)
    ensures var run := RangeDownloadRun(reciter, surah, mapping, startText, endText, net);
      && (run.outcome == InvalidRange <==> ValidateRange(startText, endText, surah.ayahCount).None?)
      && (run.outcome == InvalidRange ==> run.sent == [] && run.fetched == [] && RangeSaves(reciter, surah, run.outcome) == [])
      && (run.outcome != InvalidRange ==> 1 <= run.outcome.start <= run.outcome.end <= surah.ayahCount)
  {
  }

  /** The source is looked up with the same rule as the range-support check,
      so a supported reciter always gets past that step; when the lookup
      fails nothing is requested. */
  lemma SourceLookupAgreesWithSupport(reciter: Reciter, surah: Surah, mapping: seq<SourceEntry>,
                                      startText: string, endText: string, net: Network)
    ensures var run := RangeDownloadRun(reciter, surah, mapping, startText, endText, net);
      && (run.outcome.NoSourceMapping? ==> run.sent == [] && run.fetched == [])
      && (IsLikelyRangeSupported(reciter, mapping) ==> !run.outcome.NoSourceMapping?)
  {
  }

  /** The first request after the source lookup is the HEAD of the start
      ayah in the matched folder. */
  lemma StageProbesStartFirst(name: string, surahId: nat, mapping: seq<SourceEntry>, start: nat, end: nat, net: Network)
    requires start <= end
    requires !SourcedStage(name, surahId, mapping, start, end, net).outcome.NoSourceMapping?
    ensures var run := SourcedStage(name, surahId, mapping, start, end, net);
      run.sent[0] == Request(Head, AyahUrl(MatchedSource(mapping, name).value.folder, surahId, start))
  {
    var folder := MatchedSource(mapping, name).value.folder;
    assert Candidates(mapping, name) == [folder];
    ProbeOne(folder, StartProber(surahId, start, net));
  }

  /** When the start ayah is not found, only it was requested. */
  lemma StageUnavailableProbesOnly(name: string, surahId: nat, mapping: seq<SourceEntry>, start: nat, end: nat, net: Network)
    requires start <= end
    requires SourcedStage(name, surahId, mapping, start, end, net).outcome.SourceUnavailable?
    ensures var run := SourcedStage(name, surahId, mapping, start, end, net);
      && run.fetched == []
      && 1 <= |run.sent| <= 2
      && forall idx | 0 <= idx < |run.sent| ::
           run.sent[idx].url == AyahUrl(MatchedSource(mapping, name).value.folder, surahId, start)
  {
    var folder := MatchedSource(mapping, name).value.folder;
    assert Candidates(mapping, name) == [folder];
    ProbeOne(folder, StartProber(surahId, start, net));
  }

  /** Only the start ayah is probed, first with HEAD; when it is absent, at
      most one more request (a GET of the same ayah) is made, no ayah is
      fetched and no file is saved. */
  lemma OnlyStartAyahProbed(reciter: Reciter, surah: Surah, mapping: seq<SourceEntry>,
                            startText: string, endText: string, net: Network)
    requires var o := RangeDownloadRun(reciter, surah, mapping, startText, endText, net).outcome;
      o.SourceUnavailable? || o.AyahFailed? || o.Assembled?
    ensures var run := RangeDownloadRun(reciter, surah, mapping, startText, endText, net);
      var folder := MatchedSource(mapping, reciter.name).value.folder;
      && run.sent[0] == Request(Head, AyahUrl(folder, surah.id, run.outcome.start))
      && (run.outcome.SourceUnavailable? ==>
            && run.fetched == [] && RangeSaves(reciter, surah, run.outcome) == []
            && 1 <= |run.sent| <= 2
            && forall idx | 0 <= idx < |run.sent| :: run.sent[idx].url == AyahUrl(folder, surah.id, run.outcome.start))
  {
    var range := ValidateRange(startText, endText, surah.ayahCount).value;
    StageProbesStartFirst(reciter.name, surah.id, mapping, range.0, range.1, net);
    if SourcedStage(reciter.name, surah.id, mapping, range.0, range.1, net).outcome.SourceUnavailable? {
      StageUnavailableProbesOnly(reciter.name, surah.id, mapping, range.0, range.1, net);
    }
  }

  /** The download loop over a whole valid range, when no ayah fails. */
  lemma DownloadStageAssembled(folder: string, surahId: nat, start: nat, end: nat, net: Network, n: nat)
    requires start <= end
    requires DownloadStage(AyahFetcher(folder, surahId, net), folder, start, end, n).outcome.Assembled?
    ensures var run := DownloadStage(AyahFetcher(folder, surahId, net), folder, start, end, n);
      var o := run.outcome;
      && |o.segments| == end - start + 1
      && |run.fetched| == end - start + 1
      && (forall k | 0 <= k < |run.fetched| :: run.fetched[k] == start + k)
      && (forall k | 0 <= k < |o.segments| ::
            RepliedWith(run.sent, net, n, AyahUrls(folder, surahId)(start + k), o.segments[k]))
  {
    var fetch := AyahFetcher(folder, surahId, net);
    AyahFetcherFetches(folder, surahId, net);
    DownloadOrder(fetch, start, end + 1, n);
    DownloadSegmentsFromReplies(fetch, AyahUrls(folder, surahId), net, start, end + 1, n);
  }

  /** After the source lookup, an assembled download fetched every ayah from
      start to end in order, and each segment came from a successful reply to
      its ayah's GET. */
  lemma StageAssembled(name: string, surahId: nat, mapping: seq<SourceEntry>, start: nat, end: nat, net: Network)
    requires start <= end
    requires SourcedStage(name, surahId, mapping, start, end, net).outcome.Assembled?
    ensures var run := SourcedStage(name, surahId, mapping, start, end, net);
      var o := run.outcome;
      && |o.segments| == end - start + 1
      && |run.fetched| == end - start + 1
      && (forall k | 0 <= k < |run.fetched| :: run.fetched[k] == start + k)
      && var probed := ProbeCount(name, surahId, mapping, start, net);
      && probed <= |run.sent|
      && (forall k | 0 <= k < |o.segments| ::
            RepliedWith(run.sent[probed..], net, probed, AyahUrls(o.folder, surahId)(start + k), o.segments[k]))
  {
    var probe := ProbeCandidates(Candidates(mapping, name), StartProber(surahId, start, net));
    var folder := probe.working.value;
    var d := DownloadStage(AyahFetcher(folder, surahId, net), folder, start, end, |probe.sent|);
    var run := SourcedStage(name, surahId, mapping, start, end, net);
    assert run == RangeRun(d.outcome, probe.sent + d.sent, d.fetched);
    assert run.sent[|probe.sent|..] == d.sent;
    DownloadStageAssembled(folder, surahId, start, end, net, |probe.sent|);
  }

  /** The number of requests the probe of the start ayah sends before the
      loop begins. */
  ghost function ProbeCount(name: string, surahId: nat, mapping: seq<SourceEntry>, start: nat, net: Network): nat {
    |ProbeCandidates(Candidates(mapping, name), StartProber(surahId, start, net)).sent|
  }

  /** A successful range download fetched every ayah from start to end once,
      in ascending order, and its segment `k` is the body of a successful
      reply to the request for ayah `start + k`; the saved file is their
      concatenation. */
  lemma AssembledRangeIsComplete(reciter: Reciter, surah: Surah, mapping: seq<SourceEntry>,
                                 startText: string, endText: string, net: Network)
    requires RangeDownloadRun(reciter, surah, mapping, startText, endText, net).outcome.Assembled?
    ensures var run := RangeDownloadRun(reciter, surah, mapping, startText, endText, net);
      && 1 <= run.outcome.start <= run.outcome.end <= surah.ayahCount
      && CompleteRun(reciter, surah, mapping, net, run)
  {
    ValidRangeRun(reciter, surah, mapping, startText, endText, net);
    var range := ValidateRange(startText, endText, surah.ayahCount).value;
    SourcedAssembled(reciter, surah, mapping, range.0, range.1, net);
  }

  /** An assembled run fetched every ayah from start to end once, in
      ascending order; segment `k` is the body of a successful reply to a GET
      of ayah `start + k` among the loop's own requests, those after the
      probe; and the one file saved is the concatenation of the segments. */
  ghost predicate CompleteRun(reciter: Reciter, surah: Surah, mapping: seq<SourceEntry>, net: Network, run: RangeRun)
    requires run.outcome.Assembled?
  {
    && run.outcome.start <= run.outcome.end
    && FetchedInOrder(run)
    && RunSegmentsReplied(run, net, ProbeCount(reciter.name, surah.id, mapping, run.outcome.start, net), surah.id)
    && RangeSaves(reciter, surah, run.outcome) ==
         [SavedFile(RangeFileName(surah.englishName, run.outcome.start, run.outcome.end, reciter.name),
                    ConcatBytes(run.outcome.segments))]
  }

  /** One segment and one fetch per ayah of the range, in ascending order. */
  ghost predicate FetchedInOrder(run: RangeRun)
    requires run.outcome.Assembled?
  {
    var o := run.outcome;
    && |o.segments| == o.end - o.start + 1
    && |run.fetched| == o.end - o.start + 1
    && (forall k | 0 <= k < |run.fetched| :: run.fetched[k] == o.start + k)
  }

  /** Segment `k` is the body of an ok reply, among the requests after the
      first `probed`, to the GET of ayah `start + k`. */
  ghost predicate RunSegmentsReplied(run: RangeRun, net: Network, probed: nat, surahId: nat)
    requires run.outcome.Assembled?
  {
    var o := run.outcome;
    && probed <= |run.sent|
    && (forall k | 0 <= k < |o.segments| ::
          RepliedWith(run.sent[probed..], net, probed, AyahUrl(o.folder, surahId, o.start + k), o.segments[k]))
  }

  lemma SourcedAssembled(reciter: Reciter, surah: Surah, mapping: seq<SourceEntry>, start: nat, end: nat, net: Network)
    requires start <= end
    requires SourcedStage(reciter.name, surah.id, mapping, start, end, net).outcome.Assembled?
    ensures CompleteRun(reciter, surah, mapping, net, SourcedStage(reciter.name, surah.id, mapping, start, end, net))
  {
    var run := SourcedStage(reciter.name, surah.id, mapping, start, end, net);
    SourcedSegments(reciter.name, surah.id, mapping, start, end, net);
    var o := run.outcome;
    assert o.start == start <= end == o.end;
    assert RangeSaves(reciter, surah, o) ==
      [SavedFile(RangeFileName(surah.englishName, o.start, o.end, reciter.name), ConcatBytes(o.segments))];
  }

  /** `StageAssembled` in the terms of `CompleteRun`. */
  lemma SourcedSegments(name: string, surahId: nat, mapping: seq<SourceEntry>, start: nat, end: nat, net: Network)
    requires start <= end
    requires SourcedStage(name, surahId, mapping, start, end, net).outcome.Assembled?
    ensures var run := SourcedStage(name, surahId, mapping, start, end, net);
      && FetchedInOrder(run)
      && RunSegmentsReplied(run, net, ProbeCount(name, surahId, mapping, start, net), surahId)
  {
    var run := SourcedStage(name, surahId, mapping, start, end, net);
    StageAssembled(name, surahId, mapping, start, end, net);
    var o := run.outcome;
    var probed := ProbeCount(name, surahId, mapping, start, net);
    forall k | 0 <= k < |o.segments|
      ensures RepliedWith(run.sent[probed..], net, probed, AyahUrl(o.folder, surahId, o.start + k), o.segments[k])
    {
      assert AyahUrls(o.folder, surahId)(o.start + k) == AyahUrl(o.folder, surahId, o.start + k);
    }
  }

  /** A range download with a valid range is the sourced stage over it, and
      one with an invalid range ends there with nothing sent. */
  lemma ValidRangeRun(reciter: Reciter, surah: Surah, mapping: seq<SourceEntry>,
                      startText: string, endText: string, net: Network)
    ensures var range := ValidateRange(startText, endText, surah.ayahCount);
      var run := RangeDownloadRun(reciter, surah, mapping, startText, endText, net);
      && (range.None? ==> run == RangeRun(InvalidRange, [], []))
      && (range.Some? ==>
            && 1 <= range.value.0 <= range.value.1 <= surah.ayahCount
            && run == SourcedStage(reciter.name, surah.id, mapping, range.value.0, range.value.1, net))
  {
  }

  /** A download loop that fails stops at the failing ayah, and its message
      is one a classified fetcher can cause. */
  lemma StageFailedStops(fetch: Fetcher, folder: string, start: nat, end: nat, n: nat)
    requires start <= end
    requires FailuresClassified(fetch)
    requires DownloadStage(fetch, folder, start, end, n).outcome.AyahFailed?
    ensures var run := DownloadStage(fetch, folder, start, end, n);
      var o := run.outcome;
      && o.start + o.completed <= o.end
      && |run.fetched| == o.completed + 1
      && (forall k | 0 <= k < |run.fetched| :: run.fetched[k] == o.start + k)
      && (RangeMessage(o) == IncompleteSourceMessage || RangeMessage(o) == ConnectionMessage)
  {
    StageOfLoop(fetch, folder, start, end, n);
    DownloadOrder(fetch, start, end + 1, n);
    FetchErrorsAreClassified(fetch, start, end + 1, n);
  }

  /** A failed range download stops at the first failing ayah: the ayahs
      fetched are start .. start+completed, no file is saved, and the message
      is one of the two kinds the fetch can cause. */
  lemma FailedRangeStops(reciter: Reciter, surah: Surah, mapping: seq<SourceEntry>,
                         startText: string, endText: string, net: Network)
    requires RangeDownloadRun(reciter, surah, mapping, startText, endText, net).outcome.AyahFailed?
    ensures var run := RangeDownloadRun(reciter, surah, mapping, startText, endText, net);
      var o := run.outcome;
      && o.start + o.completed <= o.end
      && |run.fetched| == o.completed + 1
      && (forall k | 0 <= k < |run.fetched| :: run.fetched[k] == o.start + k)
      && RangeSaves(reciter, surah, o) == []
      && (RangeMessage(o) == IncompleteSourceMessage || RangeMessage(o) == ConnectionMessage)
  {
    ValidRangeRun(reciter, surah, mapping, startText, endText, net);
    var range := ValidateRange(startText, endText, surah.ayahCount).value;
    SourcedFailedStops(reciter, surah, mapping, range.0, range.1, net);
  }

  lemma SourcedFailedStops(reciter: Reciter, surah: Surah, mapping: seq<SourceEntry>, start: nat, end: nat, net: Network)
    requires start <= end
    requires SourcedStage(reciter.name, surah.id, mapping, start, end, net).outcome.AyahFailed?
    ensures var run := SourcedStage(reciter.name, surah.id, mapping, start, end, net);
      var o := run.outcome;
      && o.start + o.completed <= o.end
      && |run.fetched| == o.completed + 1
      && (forall k | 0 <= k < |run.fetched| :: run.fetched[k] == o.start + k)
      && RangeSaves(reciter, surah, o) == []
      && (RangeMessage(o) == IncompleteSourceMessage || RangeMessage(o) == ConnectionMessage)
  {
    var candidates := Candidates(mapping, reciter.name);
    var probe := ProbeCandidates(candidates, StartProber(surah.id, start, net));
    var folder := probe.working.value;
    var fetch := AyahFetcher(folder, surah.id, net);
    assert AyahFetchers(surah.id, net)(folder) == fetch;
    var d := DownloadStage(fetch, folder, start, end, |probe.sent|);
    assert SourcedStage(reciter.name, surah.id, mapping, start, end, net) == RangeRun(d.outcome, probe.sent + d.sent, d.fetched);
    AyahFetcherFailuresClassified(folder, surah.id, net);
    StageFailedStops(fetch, folder, start, end, |probe.sent|);
  }

  /** Different ranges of one chapter and reciter get different file names. */
  lemma RangeFileNameInjective(englishName: string, reciterName: string, s1: nat, e1: nat, s2: nat, e2: nat)
    requires RangeFileName(englishName, s1, e1, reciterName) == RangeFileName(englishName, s2, e2, reciterName)
    ensures s1 == s2 && e1 == e2
  {
    var prefix := "Surah_" + englishName + "_";
    var tail := "_" + reciterName + ".mp3";
    assert RangeFileName(englishName, s1, e1, reciterName) == prefix + NatToString(s1) + "-" + NatToString(e1) + tail;
    assert RangeFileName(englishName, s2, e2, reciterName) == prefix + NatToString(s2) + "-" + NatToString(e2) + tail;
    NumberedRangeInjective(prefix, tail, s1, e1, s2, e2);
  }

  /** Two numbers written as `a-b` between a fixed prefix and a fixed tail
      that starts with a non-digit can be read back. */
  lemma NumberedRangeInjective(prefix: string, tail: string, s1: nat, e1: nat, s2: nat, e2: nat)
    requires tail != [] && !IsDigit(tail[0])
    requires prefix + NatToString(s1) + "-" + NatToString(e1) + tail == prefix + NatToString(s2) + "-" + NatToString(e2) + tail
    ensures s1 == s2 && e1 == e2
  {
    DashedDigitsAgree(prefix, tail, NatToString(s1), NatToString(e1), NatToString(s2), NatToString(e2));
    NatToStringInjective(s1, s2);
    NatToStringInjective(e1, e2);
  }

  lemma DashedDigitsAgree(prefix: string, tail: string, a1: string, b1: string, a2: string, b2: string)
    requires AllDigits(a1) && AllDigits(b1) && AllDigits(a2) && AllDigits(b2)
    requires tail != [] && !IsDigit(tail[0])
    requires prefix + a1 + "-" + b1 + tail == prefix + a2 + "-" + b2 + tail
    ensures a1 == a2 && b1 == b2
  {
    var r1 := a1 + ("-" + (b1 + tail));
    var r2 := a2 + ("-" + (b2 + tail));
    assert prefix + a1 + "-" + b1 + tail == prefix + r1;
    assert prefix + a2 + "-" + b2 + tail == prefix + r2;
    assert r1 == (prefix + r1)[|prefix|..];
    assert r2 == (prefix + r2)[|prefix|..];
    DigitRunsAgree(a1, "-" + (b1 + tail), a2, "-" + (b2 + tail));
    assert b1 + tail == ("-" + (b1 + tail))[1..];
    assert b2 + tail == ("-" + (b2 + tail))[1..];
    DigitRunsAgree(b1, tail, b2, tail);
  }

  // ---------------------------------------------------------------------------
  // The status machine

  /** The status changes the dialog can make. */
  predicate Step(from: Status, to: Status) {
    match from
    case Idle => to == Verifying || to == Downloading || to == Error
    case Verifying => to == Downloading || to == Error
    case Downloading => to == Processing || to == Done || to == Error
    case Processing => to == Done
    case Done => to == Idle
    case Error => to == Idle
  }

  /** Every run of the range download walks the status machine from idle and
      ends in done exactly when a file was assembled. */
  lemma RangeStatusesFollowMachine(o: RangeOutcome)
    ensures var path := [Idle] + StatusPath(o);
      && (forall k | 0 <= k < |path| - 1 :: Step(path[k], path[k + 1]))
      && (path[|path| - 1] == Done <==> o.Assembled?)
      && (path[|path| - 1] == Done || path[|path| - 1] == Error)
  {
  }

  /** The whole-chapter download: one GET; an exception or a status that is
      not ok is a failure. */
  function FullDownloadResult(reply: Reply): (r: Option<Bytes>)
    ensures r.Some? <==> reply.Responded? && IsOk(reply.status)
    ensures r.Some? ==> r.value == reply.body
  {
    match reply
    case Responded(status, body) => if IsOk(status) then Some(body) else None
    case Threw(_) => None
  }

  // ---------------------------------------------------------------------------
  // The dialog

  class DownloadModal {
    const reciter: Reciter
    const surah: Surah
    /** The reciter-name to per-ayah-folder table. */
    const mapping: seq<SourceEntry>

    var mode: Mode
    var startAyah: string
    var endAyah: string
    var status: Status
    var progress: int
    var errorMessage: Message
    /** The files handed to the browser to save, oldest first. */
    var downloads: seq<SavedFile>

    /** Every status set, every request issued, every ayah whose fetch began,
        and every progress value set, oldest first. */
    ghost var statusLog: seq<Status>
    ghost var sent: seq<Request>
    ghost var fetchedLog: seq<nat>
    ghost var progressLog: seq<int>

    /** Whether the range tab is enabled, computed from the reciter. */
    const supportsRange: bool

    ghost predicate Valid()
      reads this`mode, this`progress
    {
      && (mode == Range ==> supportsRange)
      && 0 <= progress <= 100
    }

    constructor (reciter: Reciter, surah: Surah, mapping: seq<SourceEntry>)
      ensures Valid()
      ensures this.reciter == reciter && this.surah == surah && this.mapping == mapping
      ensures supportsRange == IsLikelyRangeSupported(reciter, mapping)
      ensures mode == Full && startAyah == "1" && endAyah == NatToString(surah.ayahCount)
      ensures status == Idle && progress == 0 && errorMessage == NoMessage && downloads == []
      ensures statusLog == [] && sent == [] && fetchedLog == [] && progressLog == []
    {
      this.reciter := reciter;
      this.surah := surah;
      this.mapping := mapping;
      supportsRange := IsLikelyRangeSupported(reciter, mapping);
      mode := Full;
      startAyah := "1";
      endAyah := NatToString(surah.ayahCount);
      status := Idle;
      progress := 0;
      errorMessage := NoMessage;
      downloads := [];
      statusLog := [];
      sent := [];
      fetchedLog := [];
      progressLog := [];
    }

    /** The effect that falls back to the full mode for a reciter without
        range support. */
    method SyncMode()
      requires 0 <= progress <= 100
      modifies this`mode
      ensures Valid()
      ensures mode == (if old(mode) == Range && !supportsRange then Full else old(mode))
    {
      if mode == Range && !supportsRange {
        mode := Full;
      }
    }

    method SelectFullTab()
      requires Valid()
      modifies this`mode
      ensures Valid()
      ensures mode == Full
    {
      mode := Full;
    }

    /** The range tab is disabled without range support. */
    method SelectRangeTab()
      requires Valid()
      modifies this`mode
      ensures Valid()
      ensures mode == (if supportsRange then Range else old(mode))
    {
      if supportsRange {
        mode := Range;
      }
    }

    method SetStartAyah(text: string)
      requires Valid()
      modifies this`startAyah
      ensures Valid()
      ensures startAyah == text
    {
      startAyah := text;
    }

    method SetEndAyah(text: string)
      requires Valid()
      modifies this`endAyah
      ensures Valid()
      ensures endAyah == text
    {
      endAyah := text;
    }

    /** The "retry" and "download another file" buttons. */
    method Reset()
      requires Valid()
      modifies this`status, this`statusLog
      ensures Valid()
      ensures status == Idle && statusLog == old(statusLog) + [Idle]
    {
      status := Idle;
      statusLog := statusLog + [Idle];
    }

    method HandleFullDownload(net: Network)
      requires Valid()
      requires status == Idle
      modifies this`status, this`statusLog, this`sent, this`downloads, this`errorMessage
      ensures Valid()
      ensures var result := FullDownloadResult(net(0));
        && statusLog == old(statusLog) + [Downloading, if result.Some? then Done else Error]
        && status == (if result.Some? then Done else Error)
        && sent == old(sent) + [Request(Get, GetSurahAudioUrl(reciter.server, surah.id))]
        && downloads == old(downloads)
             + (if result.Some? then [SavedFile(FullFileName(surah.englishName, reciter.name), result.value)] else [])
        && errorMessage == (if result.Some? then old(errorMessage) else FullDownloadFailedMessage)
    {
      status := Downloading;
      statusLog := statusLog + [Downloading];
      var url := GetSurahAudioUrl(reciter.server, surah.id);
      var reply := net(0);
      sent := sent + [Request(Get, url)];
      var result := FullDownloadResult(reply);
      if result.None? {
        errorMessage := FullDownloadFailedMessage;
        status := Error;
        statusLog := statusLog + [Error];
        return;
      }
      downloads := downloads + [SavedFile(FullFileName(surah.englishName, reciter.name), result.value)];
      status := Done;
      statusLog := statusLog + [Done];
    }

    /** Probes the candidate folders in order until one has the first
        requested ayah. */
    method ProbeSources(candidates: seq<string>, probe: Prober) returns (working: Option<string>, used: nat)
      requires Valid()
      modifies this`sent
      ensures Valid()
      ensures var p := ProbeCandidates(candidates, probe);
        working == p.working && sent == old(sent) + p.sent && used == |p.sent|
    {
      ghost var probeSent;
      working, used, probeSent := ProbeLoop(candidates, probe);
      sent := sent + probeSent;
    }

    /** The sequential loop: fetches ayahs `start` to `end` in order, stops at
        the first failure, and sets the rounded percentage after each
        success. */
    method DownloadAyahs(fetch: Fetcher, start: nat, end: nat, n: nat)
      returns (blobs: seq<Bytes>, failure: Option<string>, ghost requested: seq<Request>, ghost begun: seq<nat>,
               ghost shown: seq<int>)
      requires start <= end
      requires Valid()
      modifies this`progress
      ensures Valid()
      ensures LoopRun(blobs, failure, requested, begun) == DownloadFrom(fetch, start, end, n, LoopRun([], None, [], []))
      ensures shown == ProgressSeries(|blobs|, end - start + 1)
      ensures progress == (if |blobs| == 0 then old(progress) else shown[|blobs| - 1])
    {
      ghost var whole := DownloadFrom(fetch, start, end, n, LoopRun([], None, [], []));
      blobs, failure := [], None;
      requested, begun, shown := [], [], [];
      var total := end - start + 1;
      var used: nat := n;
      var i := start;
      while i <= end
        invariant start <= i <= end + 1
        invariant DownloadFrom(fetch, i, end, used, LoopRun(blobs, None, requested, begun)) == whole
        invariant |blobs| == i - start && shown == ProgressSeries(i - start, total)
        invariant progress == (if i == start then old(progress) else shown[i - start - 1])
        invariant Valid()
        decreases end + 1 - i
      {
        var report := fetch(i, used);
        requested := requested + report.sent;
        begun := begun + [i];
        used := used + |report.sent|;
        if report.result.Err? {
          failure := Some(report.result.error);
          break;
        }
        blobs := blobs + [report.result.value];
        shown := ShowProgress(i - start + 1, total, shown);
        i := i + 1;
      }
    }

    /** `setProgress` after `done` of `total` ayahs, and the values shown
        so far. */
    method ShowProgress(done: nat, total: nat, ghost shown: seq<int>) returns (ghost after: seq<int>)
      requires 0 < done <= total
      requires shown == ProgressSeries(done - 1, total)
      requires Valid()
      modifies this`progress
      ensures Valid()
      ensures after == ProgressSeries(done, total) && |after| == done && after[done - 1] == progress
    {
      ProgressBounds(done, total);
      progress := Progress(done, total);
      ProgressSeriesStep(done - 1, total);
      after := shown + [progress];
    }

    /** The end of a range download whose loop has finished: the error
        message of the failure, or the concatenation and the save. */
    method FinishRange(o: RangeOutcome)
      requires o.AyahFailed? || o.Assembled?
      requires Valid()
      modifies this`status, this`statusLog, this`errorMessage, this`downloads
      ensures Valid()
      ensures statusLog == old(statusLog) + StatusPath(o)[2..]
      ensures status == (if o.Assembled? then Done else Error)
      ensures errorMessage == (if o.Assembled? then old(errorMessage) else RangeMessage(o))
      ensures downloads == old(downloads) + RangeSaves(reciter, surah, o)
    {
      if o.AyahFailed? {
        errorMessage := FetchErrorMessage(o.message);
        status := Error;
        statusLog := statusLog + [Error];
        return;
      }
      status := Processing;
      statusLog := statusLog + [Processing];
      var finalBlob := ConcatBlobs(o.segments, AudioMime);
      downloads := downloads + [SavedFile(RangeFileName(surah.englishName, o.start, o.end, reciter.name), finalBlob.bytes)];
      status := Done;
      statusLog := statusLog + [Done];
    }

    /** The loop of the range download from a working folder: the status
        becomes downloading, then every ayah is fetched in turn until one
        fails, the progress shown after each. */
    method RunLoop(fetch: Fetcher, folder: string, start: nat, end: nat, n: nat) returns (o: RangeOutcome)
      requires start <= end
      requires Valid()
      modifies this`status, this`statusLog, this`sent, this`fetchedLog, this`progress, this`progressLog
      ensures Valid()
      ensures var run := DownloadStage(fetch, folder, start, end, n);
        var updates := ProgressUpdates(o);
        && o == run.outcome
        && status == Downloading && statusLog == old(statusLog) + [Downloading]
        && sent == old(sent) + run.sent
        && fetchedLog == old(fetchedLog) + run.fetched
        && progressLog == old(progressLog) + updates
        && progress == (if |updates| == 0 then old(progress) else updates[|updates| - 1])
    {
      status := Downloading;
      statusLog := statusLog + [Downloading];
      var blobs, failure, requested, begun, shown := DownloadAyahs(fetch, start, end, n);
      StageOfLoopRun(fetch, folder, start, end, n, LoopRun(blobs, failure, requested, begun));
      sent, fetchedLog, progressLog := sent + requested, fetchedLog + begun, progressLog + shown;
      o := if failure.Some? then AyahFailed(start, end, folder, failure.value, |blobs|)
           else Assembled(start, end, folder, blobs);
    }

    /** The part of the range download after a working folder is found:
        the sequential loop, then the concatenation and the save, or the
        error message of the failure that ended the loop. */
    method DownloadRange(fetch: Fetcher, folder: string, start: nat, end: nat, n: nat)
      requires start <= end
      requires Valid()
      modifies this`status, this`statusLog, this`errorMessage, this`sent, this`fetchedLog,
        this`progress, this`progressLog, this`downloads
      ensures Valid()
      ensures var run := DownloadStage(fetch, folder, start, end, n);
        var updates := ProgressUpdates(run.outcome);
        && statusLog == old(statusLog) + StatusPath(run.outcome)[1..]
        && status == (if run.outcome.Assembled? then Done else Error)
        && errorMessage == (if run.outcome.Assembled? then old(errorMessage) else RangeMessage(run.outcome))
        && sent == old(sent) + run.sent
        && fetchedLog == old(fetchedLog) + run.fetched
        && progressLog == old(progressLog) + updates
        && progress == (if |updates| == 0 then old(progress) else updates[|updates| - 1])
        && downloads == old(downloads) + RangeSaves(reciter, surah, run.outcome)
    {
      var o := RunLoop(fetch, folder, start, end, n);
      assert StatusPath(o)[1..] == [Downloading] + StatusPath(o)[2..];
      FinishRange(o);
    }

    /** An error that ends the download before the loop. */
    method Fail(m: Message)
      requires Valid()
      modifies this`status, this`statusLog, this`errorMessage
      ensures Valid()
      ensures status == Error && statusLog == old(statusLog) + [Error] && errorMessage == m
    {
      errorMessage := m;
      status := Error;
      statusLog := statusLog + [Error];
    }

    /** The probe of the candidates and, when one works, the download. */
    method ProbeAndDownload(candidates: seq<string>, start: nat, end: nat, probe: Prober, fetchFrom: FolderFetcher)
      requires start <= end
      requires Valid()
      modifies this`status, this`statusLog, this`errorMessage, this`sent, this`fetchedLog,
        this`progress, this`progressLog, this`downloads
      ensures Valid()
      ensures var run := ProbedStage(candidates, start, end, probe, fetchFrom);
        var updates := ProgressUpdates(run.outcome);
        && statusLog == old(statusLog) + StatusPath(run.outcome)[1..]
        && status == (if run.outcome.Assembled? then Done else Error)
        && errorMessage == (if run.outcome.Assembled? then old(errorMessage) else RangeMessage(run.outcome))
        && sent == old(sent) + run.sent
        && fetchedLog == old(fetchedLog) + run.fetched
        && progressLog == old(progressLog) + updates
        && progress == (if |updates| == 0 then old(progress) else updates[|updates| - 1])
        && downloads == old(downloads) + RangeSaves(reciter, surah, run.outcome)
    {
      ghost var before := sent;
      var workingKey, used := ProbeSources(candidates, probe);
      if workingKey.None? || workingKey.value == "" {
        Fail(SourceMissingMessage);
        return;
      }
      var folder := workingKey.value;
      ghost var probed := ProbeCandidates(candidates, probe).sent;
      ghost var d := DownloadStage(fetchFrom(folder), folder, start, end, used);
      assert ProbedStage(candidates, start, end, probe, fetchFrom) == RangeRun(d.outcome, probed + d.sent, d.fetched);
      assert before + (probed + d.sent) == before + probed + d.sent;
      DownloadRange(fetchFrom(folder), folder, start, end, used);
    }

    /** The `candidates` list of the range download: the folder of the
        source entry matched by the reciter's name, if any. */
    method SourceCandidates() returns (candidates: seq<string>)
      ensures candidates == Candidates(mapping, reciter.name)
      ensures |candidates| <= 1
    {
      candidates := [];
      var matched := MatchedSource(mapping, reciter.name);
      if matched.Some? {
        candidates := candidates + [matched.value.folder];
      }
    }

    /** The range download once the range is valid and the candidates are
        known: the source check, the probe and the download. */
    method DownloadValidRange(candidates: seq<string>, start: nat, end: nat, probe: Prober, fetchFrom: FolderFetcher)
      requires start <= end
      requires Valid()
      modifies this`status, this`statusLog, this`errorMessage, this`sent, this`fetchedLog,
        this`progress, this`progressLog, this`downloads
      ensures Valid()
      ensures var run := LookupStage(candidates, start, end, probe, fetchFrom);
        var updates := ProgressUpdates(run.outcome);
        && statusLog == old(statusLog) + StatusPath(run.outcome)
        && status == (if run.outcome.Assembled? then Done else Error)
        && errorMessage == RangeMessage(run.outcome)
        && sent == old(sent) + run.sent
        && fetchedLog == old(fetchedLog) + run.fetched
        && progressLog == old(progressLog) + updates
        && progress == (if |updates| == 0 then old(progress) else updates[|updates| - 1])
        && downloads == old(downloads) + RangeSaves(reciter, surah, run.outcome)
    {
      status := Verifying;
      statusLog := statusLog + [Verifying];
      errorMessage := NoMessage;
      if |candidates| == 0 {
        assert LookupStage(candidates, start, end, probe, fetchFrom) == RangeRun(NoSourceMapping(start, end), [], []);
        Fail(NoSourceMessage);
        return;
      }
      LookupFound(candidates, start, end, probe, fetchFrom);
      ProbeAndDownload(candidates, start, end, probe, fetchFrom);
    }

    /** `handleRangeDownload`: validate the two fields, then download. */
    method HandleRangeDownload(net: Network)
      requires Valid()
      requires status == Idle
      modifies this`status, this`statusLog, this`errorMessage, this`sent, this`fetchedLog,
        this`progress, this`progressLog, this`downloads
      ensures Valid()
      ensures var run := RangeDownloadRun(reciter, surah, mapping, old(startAyah), old(endAyah), net);
        var path := StatusPath(run.outcome);
        var updates := ProgressUpdates(run.outcome);
        && statusLog == old(statusLog) + path
        && status == path[|path| - 1]
        && errorMessage == RangeMessage(run.outcome)
        && sent == old(sent) + run.sent
        && fetchedLog == old(fetchedLog) + run.fetched
        && progressLog == old(progressLog) + updates
        && progress == (if |updates| == 0 then old(progress) else updates[|updates| - 1])
        && downloads == old(downloads) + RangeSaves(reciter, surah, run.outcome)
    {
      ValidRangeRun(reciter, surah, mapping, startAyah, endAyah, net);
      var range := ValidateRange(startAyah, endAyah, surah.ayahCount);
      if range.None? {
        Fail(InvalidRangeMessage);
        return;
      }
      var start, end := range.value.0, range.value.1;
      var candidates := SourceCandidates();
      ghost var run := SourcedStage(reciter.name, surah.id, mapping, start, end, net);
      assert run == RangeDownloadRun(reciter, surah, mapping, startAyah, endAyah, net);
      assert run == LookupStage(candidates, start, end, StartProber(surah.id, start, net), AyahFetchers(surah.id, net));
      DownloadValidRange(candidates, start, end, StartProber(surah.id, start, net), AyahFetchers(surah.id, net));
    }
  }
}
